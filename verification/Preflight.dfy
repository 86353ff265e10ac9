/** The preflight of the source repository: which pushes are blessed, and how remote URLs are
    read as owner and name. */
module Preflight {
  import opened Options
  import opened Strings
  import opened Text
  import Identity

  // ---------------------------------------------------------------- letters

  predicate IsSpace(c: char) {
    Identity.IsSpace(c) || '\U{001C}' <= c <= '\U{001F}'
  }

  function StripLeft(s: string): string {
    if s != "" && IsSpace(s[0]) then StripLeft(s[1..]) else s
  }

  function StripRight(s: string): string {
    if s != "" && IsSpace(s[|s| - 1]) then StripRight(s[..|s| - 1]) else s
  }

  function Strip(s: string): string {
    StripRight(StripLeft(s))
  }

  predicate AllSpace(s: string) {
    forall i :: 0 <= i < |s| ==> IsSpace(s[i])
  }

  lemma {:induction false} StripLeftIs(a: string, s: string)
    requires AllSpace(a) && (s == "" || !IsSpace(s[0]))
    ensures StripLeft(a + s) == s
  {
    hide IsSpace;
    if a == "" {
      assert a + s == s;
    } else {
      assert (a + s)[1..] == a[1..] + s;
      StripLeftIs(a[1..], s);
    }
  }

  lemma {:induction false} StripRightIs(s: string, b: string)
    requires AllSpace(b) && (s == "" || !IsSpace(s[|s| - 1]))
    ensures StripRight(s + b) == s
  {
    hide IsSpace;
    if b == "" {
      assert s + b == s;
    } else {
      assert (s + b)[..|s + b| - 1] == s + b[..|b| - 1];
      StripRightIs(s, b[..|b| - 1]);
    }
  }

  /** Stripping takes the white space off both ends, and nothing else. */
  lemma StripExactly(a: string, s: string, b: string)
    requires AllSpace(a) && AllSpace(b) && (s == "" || (!IsSpace(s[0]) && !IsSpace(s[|s| - 1])))
    ensures Strip(a + (s + b)) == s
  {
    hide IsSpace, StripLeft, StripRight;
    if s == "" {
      assert a + (s + b) == (a + b) + "" && (a + b) + "" == a + b;
      StripLeftIs(a + b, "");
      StripRightIs("", "");
      assert "" + "" == "";
    } else {
      StripLeftIs(a, s + b);
      StripRightIs(s, b);
    }
  }

  predicate NameChar(c: char) {
    'a' <= c <= 'z' || 'A' <= c <= 'Z' || '0' <= c <= '9' || c == '-' || c == '_' || c == '.'
  }

  predicate NameText(s: string) {
    forall i :: 0 <= i < |s| ==> NameChar(s[i])
  }

  // ---------------------------------------------------------------- remote URLs

  datatype Repo = Repo(owner: string, name: string)
  {
    function FullName(): string {
      owner + "/" + name
    }
  }

  predicate GithubHost(host: string) {
    Lower(host) == "github.com" || Lower(host) == "www.github.com"
  }

  predicate KnownScheme(scheme: string) {
    scheme == "https" || scheme == "http" || scheme == "ssh" || scheme == "git"
  }

  predicate EndsWithGit(name: string) {
    |name| >= 4 && Lower(name[|name| - 4..]) == ".git"
  }

  function NonEmpty(parts: seq<string>): seq<string> {
    if parts == [] then [] else (if parts[0] == "" then [] else [parts[0]]) + NonEmpty(parts[1..])
  }

  /** What follows the last at sign, or everything. */
  function AfterUser(s: string): string {
    s[FindLastChar(s, '@') + 1..]
  }

  function ReadPath(host: string, path: string): Option<Repo> {
    var parts := NonEmpty(Split(path));
    if host == "" || path == "" || !GithubHost(host) || |parts| != 2 then None
    else
      var name := if EndsWithGit(parts[1]) then parts[1][..|parts[1]| - 4] else parts[1];
      if name != "" && NameText(parts[0]) && NameText(name) then Some(Repo(parts[0], name)) else None
  }

  function ReadAuthority(rest: string): Option<Repo> {
    var slash := FindChar(rest, '/');
    if slash < 0 then None else ReadPath(rest[..slash], rest[slash + 1..])
  }

  function NormalizeRemote(url: string): Option<Repo> {
    var u := Strip(url);
    if u == "" || u[0] == '#' then None
    else
      var sep, colon := Find(u, "://"), FindChar(u, ':');
      if sep >= 0 then
        if !KnownScheme(u[..sep]) then None else ReadAuthority(AfterUser(u[sep + 3..]))
      else if colon >= 0 then ReadPath(AfterUser(u[..colon]), u[colon + 1..])
      else None
  }

  /** The hosts and the schemes, by name. */
  lemma HostsAndSchemes(host: string, scheme: string)
    ensures GithubHost(host) <==> Lower(host) in {"github.com", "www.github.com"}
    ensures KnownScheme(scheme) <==> scheme in {"https", "http", "ssh", "git"}
  {
  }

  /** An owner or a name as a spelling may carry it. */
  predicate Plain(s: string) {
    s != "" && NameText(s)
  }

  /** The end of a spelling: an optional .git in any case and an optional slash. */
  predicate Suffix(s: string) {
    s == "" || Lower(s) == ".git"
  }

  function PathText(r: Repo, suffix: string, slash: bool): string {
    r.owner + ("/" + ((r.name + suffix) + if slash then "/" else ""))
  }

  lemma PlainHasNone(s: string, c: char)
    requires NameText(s) && !NameChar(c)
    ensures c !in s
  {
  }

  lemma SuffixIsName(suffix: string)
    requires Suffix(suffix)
    ensures NameText(suffix) && |suffix| <= 4
  {
    var git := ".git";
    forall i | 0 <= i < |suffix| ensures NameChar(suffix[i]) {
      assert LowerChar(suffix[i]) == git[i];
    }
  }

  lemma NameWithSuffix(name: string, suffix: string)
    requires Plain(name) && Suffix(suffix) && (suffix == "" ==> !EndsWithGit(name))
    ensures var t := name + suffix;
            NameText(t) && t != "" && (if EndsWithGit(t) then t[..|t| - 4] else t) == name
  {
    SuffixIsName(suffix);
    var t := name + suffix;
    if suffix == "" {
      assert t == name;
    } else {
      assert |suffix| == |Lower(suffix)| == 4;
      assert t[|t| - 4..] == suffix && t[..|t| - 4] == name;
    }
  }

  lemma TwoPieces(a: string, t: string, slash: bool)
    requires a != "" && t != "" && '/' !in a && '/' !in t
    ensures NonEmpty(Split(a + ("/" + (t + if slash then "/" else "")))) == [a, t]
  {
    hide Split, NonEmpty;
    var tail := t + if slash then "/" else "";
    SplitFirst(a, tail);
    NonEmptyCons(a, Split(tail));
    NothingLeft();
    if slash {
      assert tail == t + ("/" + "");
      SplitFirst(t, "");
      NonEmptyCons(t, Split(""));
      SplitPlain("");
      NonEmptyCons("", []);
      assert [""] + [] == [""];
    } else {
      assert tail == t;
      SplitPlain(t);
      NonEmptyCons(t, []);
      assert [t] + [] == [t];
    }
  }

  lemma NothingLeft()
    ensures NonEmpty([]) == []
  {
  }

  lemma NonEmptyCons(a: string, rest: seq<string>)
    ensures NonEmpty([a] + rest) == (if a == "" then [] else [a]) + NonEmpty(rest)
  {
    assert ([a] + rest)[1..] == rest;
  }

  lemma PathReads(r: Repo, host: string, suffix: string, slash: bool)
    requires GithubHost(host) && Plain(r.owner) && Plain(r.name) && !EndsWithGit(r.name) && Suffix(suffix)
    ensures ReadPath(host, PathText(r, suffix, slash)) == Some(r)
  {
    hide Split, EndsWithGit, NonEmpty;
    NameWithSuffix(r.name, suffix);
    PlainHasNone(r.owner, '/');
    PlainHasNone(r.name + suffix, '/');
    TwoPieces(r.owner, r.name + suffix, slash);
  }

  lemma HostIsName(host: string)
    requires GithubHost(host)
    ensures NameText(host) && host != ""
  {
    var known := if Lower(host) == "github.com" then "github.com" else "www.github.com";
    forall i | 0 <= i < |host| ensures NameChar(host[i]) {
      assert LowerChar(host[i]) == known[i];
    }
  }

  lemma PathShape(r: Repo, suffix: string, slash: bool)
    requires Plain(r.owner) && Plain(r.name) && Suffix(suffix)
    ensures var p := PathText(r, suffix, slash);
            p != "" && '@' !in p && ':' !in p && p[0] != '/' && !IsSpace(p[|p| - 1])
  {
    SuffixIsName(suffix);
    PlainHasNone(r.owner, '@');
    PlainHasNone(r.owner, ':');
    PlainHasNone(r.owner, '/');
    PlainHasNone(r.name, '@');
    PlainHasNone(r.name, ':');
    PlainHasNone(suffix, '@');
    PlainHasNone(suffix, ':');
    var p := PathText(r, suffix, slash);
    assert p[0] == r.owner[0];
    assert p[|p| - 1] == (if slash then '/' else (r.name + suffix)[|r.name + suffix| - 1]);
    NameIsNoSpace(r.name + suffix);
  }

  lemma NameIsNoSpace(s: string)
    requires NameText(s) && s != ""
    ensures !IsSpace(s[0]) && !IsSpace(s[|s| - 1])
  {
    assert NameChar(s[0]) && NameChar(s[|s| - 1]);
  }

  lemma StripKeeps(s: string)
    requires s != "" && !IsSpace(s[0]) && !IsSpace(s[|s| - 1])
    ensures Strip(s) == s
  {
    hide IsSpace;
  }

  /** A user part: nothing, or anything that ends in an at sign. */
  predicate UserPart(user: string) {
    user == "" || user[|user| - 1] == '@'
  }

  lemma AfterUserIs(user: string, rest: string)
    requires UserPart(user) && '@' !in rest
    ensures AfterUser(user + rest) == rest
  {
    var s := user + rest;
    if user != "" {
      var k := |user| - 1;
      assert s[k] == '@' && s[k + 1..] == rest;
      FindLastCharIs(s, '@', k);
    } else {
      assert s == rest;
    }
  }

  lemma SchemeShape(scheme: string)
    requires KnownScheme(scheme)
    ensures scheme != "" && ':' !in scheme && scheme[0] != '#' && !IsSpace(scheme[0])
  {
  }

  lemma AuthorityIs(host: string, path: string)
    requires '/' !in host
    ensures ReadAuthority(host + ("/" + path)) == ReadPath(host, path)
  {
    hide ReadPath, FindChar;
    var rest := host + ("/" + path);
    assert rest[|host|] == '/' && rest[..|host|] == host && rest[|host| + 1..] == path;
    FindCharIs(rest, '/', |host|);
  }

  lemma AuthorityReads(host: string, r: Repo, suffix: string, slash: bool)
    requires GithubHost(host) && Plain(r.owner) && Plain(r.name) && !EndsWithGit(r.name) && Suffix(suffix)
    ensures ReadAuthority(host + ("/" + PathText(r, suffix, slash))) == Some(r)
  {
    hide GithubHost, Plain, PathText, ReadPath, ReadAuthority, EndsWithGit, Suffix, NameText;
    HostIsName(host);
    PlainHasNone(host, '/');
    PathReads(r, host, suffix, slash);
    AuthorityIs(host, PathText(r, suffix, slash));
  }

  lemma SchemeFound(scheme: string, rest: string)
    requires KnownScheme(scheme)
    ensures Find(scheme + ("://" + rest), "://") == |scheme|
  {
    SchemeShape(scheme);
    hide KnownScheme, Find;
    var u, k := scheme + ("://" + rest), |scheme|;
    assert u[k..k + 3] == "://";
    forall j | 0 <= j < k ensures !HasAt(u, "://", j) {
      assert u[j] == scheme[j] != ':';
      assert j + 3 <= |u| ==> u[j..j + 3][0] == u[j];
    }
    FindIs(u, "://", k);
  }

  lemma SchemeStripped(scheme: string, rest: string)
    requires KnownScheme(scheme) && rest != "" && !IsSpace(rest[|rest| - 1])
    ensures NormalizeRemote(scheme + ("://" + rest)) == ReadAuthority(AfterUser(rest))
  {
    hide KnownScheme, IsSpace, Strip, ReadPath, ReadAuthority, AfterUser, Find, FindChar;
    var u := scheme + ("://" + rest);
    SchemeShape(scheme);
    assert u[0] == scheme[0] && u[|u| - 1] == rest[|rest| - 1];
    StripKeeps(u);
    SchemeFound(scheme, rest);
    assert u[..|scheme|] == scheme && u[|scheme| + 3..] == rest;
  }

  lemma PathEnds(host: string, r: Repo, suffix: string, slash: bool)
    requires GithubHost(host) && Plain(r.owner) && Plain(r.name) && Suffix(suffix)
    ensures var rest := host + ("/" + PathText(r, suffix, slash)); rest != "" && '@' !in rest && !IsSpace(rest[|rest| - 1])
  {
    hide GithubHost, NameText, Plain, PathText, IsSpace, Suffix;
    HostIsName(host);
    PlainHasNone(host, '@');
    PathShape(r, suffix, slash);
    var path := PathText(r, suffix, slash);
    var rest := host + ("/" + path);
    assert rest[|rest| - 1] == path[|path| - 1];
  }

  /** A URL with a scheme reads as the repository its path names. */
  lemma SchemeFormReads(scheme: string, user: string, host: string, r: Repo, suffix: string, slash: bool)
    requires KnownScheme(scheme) && UserPart(user) && GithubHost(host)
    requires Plain(r.owner) && Plain(r.name) && !EndsWithGit(r.name) && Suffix(suffix)
    ensures NormalizeRemote(scheme + ("://" + (user + (host + ("/" + PathText(r, suffix, slash)))))) == Some(r)
  {
    hide *;
    var rest := host + ("/" + PathText(r, suffix, slash));
    PathEnds(host, r, suffix, slash);
    assert (user + rest)[|user + rest| - 1] == rest[|rest| - 1];
    SchemeStripped(scheme, user + rest);
    AfterUserIs(user, rest);
    AuthorityReads(host, r, suffix, slash);
  }

  lemma {:induction false} NoSchemeFound(front: string, path: string)
    requires ':' !in front && ':' !in path && path != "" && path[0] != '/'
    ensures Find(front + (":" + path), "://") == -1 && FindChar(front + (":" + path), ':') == |front|
  {
    hide Find, FindChar;
    var u := front + (":" + path);
    assert u[|front|] == ':' && u[..|front|] == front;
    FindCharIs(u, ':', |front|);
    forall j | 0 <= j ensures !HasAt(u, "://", j) {
      if j + 3 <= |u| {
        assert u[j..j + 3][0] == u[j] && u[j..j + 3][1] == u[j + 1];
        OnlyColon(front, path, j);
      }
    }
  }

  lemma ScpStripped(front: string, path: string)
    requires front != "" && ':' !in front && front[0] != '#' && !IsSpace(front[0])
    requires ':' !in path && path != "" && path[0] != '/' && !IsSpace(path[|path| - 1])
    ensures NormalizeRemote(front + (":" + path)) == ReadPath(AfterUser(front), path)
  {
    hide IsSpace, Strip, ReadPath, AfterUser, Find, FindChar;
    var u := front + (":" + path);
    assert u[0] == front[0] && u[|u| - 1] == path[|path| - 1];
    StripKeeps(u);
    NoSchemeFound(front, path);
    assert u[..|front|] == front && u[|front| + 1..] == path;
  }

  lemma FrontShape(user: string, host: string)
    requires ':' !in user && (user != "" ==> user[0] != '#' && !IsSpace(user[0])) && GithubHost(host)
    ensures var front := user + host; front != "" && ':' !in front && front[0] != '#' && !IsSpace(front[0]) && '@' !in host
  {
    hide GithubHost, NameText, IsSpace;
    HostIsName(host);
    NameIsNoSpace(host);
    PlainHasNone(host, '@');
    PlainHasNone(host, ':');
    PlainHasNone(host, '#');
    assert (user + host)[0] == if user == "" then host[0] else user[0];
  }

  /** So does the form with a colon instead. */
  lemma ScpFormReads(user: string, host: string, r: Repo, suffix: string, slash: bool)
    requires UserPart(user) && ':' !in user && (user != "" ==> user[0] != '#' && !IsSpace(user[0])) && GithubHost(host)
    requires Plain(r.owner) && Plain(r.name) && !EndsWithGit(r.name) && Suffix(suffix)
    ensures NormalizeRemote(user + (host + (":" + PathText(r, suffix, slash)))) == Some(r)
  {
    hide *;
    var path := PathText(r, suffix, slash);
    FrontShape(user, host);
    PathShape(r, suffix, slash);
    ScpStripped(user + host, path);
    assert (user + host) + (":" + path) == user + (host + (":" + path));
    AfterUserIs(user, host);
    PathReads(r, host, suffix, slash);
  }

  lemma OnlyColon(front: string, path: string, j: nat)
    requires ':' !in front && ':' !in path && path != "" && path[0] != '/' && j < |front| + 1 + |path|
    ensures var u := front + (":" + path); u[j] != ':' || (j + 1 < |u| && u[j + 1] != '/')
  {
    var u := front + (":" + path);
    if j < |front| {
      assert u[j] == front[j];
    } else if j > |front| {
      assert u[j] == path[j - |front| - 1];
    } else {
      assert u[j + 1] == path[0];
    }
  }

  // ---------------------------------------------------------------- which texts normalise

  /** A remote taken apart: what precedes the host, the host, and the path. */
  datatype Spelling =
    | SchemeForm(scheme: string, user: string, host: string, path: string)
    | ScpForm(user: string, host: string, path: string)
  {
    function Whole(): string {
      match this
      case SchemeForm(scheme, user, host, path) => scheme + ("://" + (user + (host + ("/" + path))))
      case ScpForm(user, host, path) => (user + host) + (":" + path)
    }
  }

  predicate AllSlashes(s: string) {
    forall i :: 0 <= i < |s| ==> s[i] == '/'
  }

  /** The path is owner and name, the name perhaps with .git, with slashes between and around:
      without a suffix the name does not itself end in .git. */
  ghost predicate PathIs(path: string, r: Repo, a: string, b: string, suffix: string, c: string) {
    && Plain(r.owner) && Plain(r.name) && Suffix(suffix) && (suffix == "" ==> !EndsWithGit(r.name))
    && AllSlashes(a) && AllSlashes(b) && b != "" && AllSlashes(c)
    && path == a + (r.owner + (b + ((r.name + suffix) + c)))
  }

  ghost predicate PathNames(path: string, r: Repo) {
    exists a, b, suffix, c :: PathIs(path, r, a, b, suffix, c)
  }

  function Pieces(s: string): seq<string> {
    NonEmpty(Split(s))
  }

  lemma {:induction false} PiecesAfterSlashes(a: string, s: string)
    requires AllSlashes(a)
    ensures Pieces(a + s) == Pieces(s)
  {
    hide Split, NonEmpty;
    if a == "" {
      assert a + s == s;
    } else {
      PiecesAfterSlashes(a[1..], s);
      assert a + s == "" + ("/" + (a[1..] + s));
      SplitFirst("", a[1..] + s);
      NonEmptyCons("", Split(a[1..] + s));
    }
  }

  lemma PiecesOfPiece(x: string, more: string)
    requires x != "" && '/' !in x && (more == "" || more[0] == '/')
    ensures Pieces(x + more) == [x] + Pieces(more)
  {
    hide Split, NonEmpty;
    NothingLeft();
    if more == "" {
      assert x + more == x;
      SplitPlain(x);
      NonEmptyCons(x, []);
      assert [x] + [] == [x];
      NoPieces();
    } else {
      assert more == "/" + more[1..];
      SplitFirst(x, more[1..]);
      NonEmptyCons(x, Split(more[1..]));
      PiecesAfterSlashes("/", more[1..]);
    }
  }

  lemma NoPieces()
    ensures Pieces("") == []
  {
    assert [""][1..] == [];
  }

  lemma {:induction false} TakeSlashes(s: string) returns (a: string, rest: string)
    ensures s == a + rest && AllSlashes(a) && (rest == "" || rest[0] != '/') && Pieces(s) == Pieces(rest)
    ensures s != "" && s[0] == '/' ==> a != ""
  {
    hide Pieces;
    if s != "" && s[0] == '/' {
      a, rest := TakeSlashes(s[1..]);
      a := "/" + a;
      assert s == a + rest;
    } else {
      a, rest := "", s;
    }
    PiecesAfterSlashes(a, rest);
  }

  lemma TakePiece(s: string) returns (x: string, more: string)
    requires s != "" && s[0] != '/'
    ensures s == x + more && x != "" && '/' !in x && (more == "" || more[0] == '/') && Pieces(s) == [x] + Pieces(more)
  {
    hide FindChar, Pieces;
    var k := FindChar(s, '/');
    if k < 0 {
      x, more := s, "";
    } else {
      x, more := s[..k], s[k..];
    }
    PiecesOfPiece(x, more);
  }

  /** Two pieces: slashes around and between two texts that hold none. */
  lemma TwoPiecesSplit(s: string) returns (a: string, b: string, c: string)
    requires |Pieces(s)| == 2
    ensures var x, y := Pieces(s)[0], Pieces(s)[1];
            && AllSlashes(a) && AllSlashes(b) && b != "" && AllSlashes(c) && x != "" && y != "" && '/' !in x && '/' !in y
            && s == a + (x + (b + (y + c)))
  {
    hide Pieces;
    NoPieces();
    var s1, s2, s3, s4, s5, x, y;
    a, s1 := TakeSlashes(s);
    x, s2 := TakePiece(s1);
    b, s3 := TakeSlashes(s2);
    y, s4 := TakePiece(s3);
    c, s5 := TakeSlashes(s4);
    if s5 != "" {
      var z, s6 := TakePiece(s5);
      assert false;
    }
    assert s5 == "" && c + s5 == c;
  }

  lemma ReadPathIs(host: string, path: string, r: Repo)
    requires ReadPath(host, path) == Some(r)
    ensures GithubHost(host) && PathNames(path, r)
  {
    hide GithubHost, Split, NonEmpty, NameText, FindChar;
    var a, b, c := TwoPiecesSplit(path);
    var y := Pieces(path)[1];
    var suffix := if EndsWithGit(y) then y[|y| - 4..] else "";
    assert y == r.name + suffix;
    assert PathIs(path, r, a, b, suffix, c);
  }

  lemma PathIsRead(host: string, path: string, r: Repo, a: string, b: string, suffix: string, c: string)
    requires GithubHost(host) && PathIs(path, r, a, b, suffix, c)
    ensures ReadPath(host, path) == Some(r) && '@' !in path
  {
    hide GithubHost, Split, NonEmpty, EndsWithGit, Suffix, NameText;
    var t := r.name + suffix;
    NameWithSuffix(r.name, suffix);
    PlainHasNone(r.owner, '/');
    PlainHasNone(t, '/');
    PlainHasNone(r.owner, '@');
    PlainHasNone(t, '@');
    HostIsName(host);
    NoPieces();
    PiecesAfterSlashes(a, r.owner + (b + (t + c)));
    assert (b + (t + c))[0] == '/';
    PiecesOfPiece(r.owner, b + (t + c));
    PiecesAfterSlashes(b, t + c);
    PiecesOfPiece(t, c);
    PiecesAfterSlashes(c, "");
    assert c + "" == c;
    assert [r.owner] + ([t] + []) == [r.owner, t];
  }

  /** The reader reads exactly the paths that name a repository. */
  lemma ReadPathExactly(host: string, path: string, r: Repo)
    ensures ReadPath(host, path) == Some(r) <==> GithubHost(host) && PathNames(path, r)
  {
    hide ReadPath, GithubHost, PathIs;
    if ReadPath(host, path) == Some(r) {
      ReadPathIs(host, path, r);
    }
    if GithubHost(host) && PathNames(path, r) {
      var a, b, suffix, c :| PathIs(path, r, a, b, suffix, c);
      PathIsRead(host, path, r, a, b, suffix, c);
    }
  }

  /** The parts are where the reader looks for them, and host and path name the repository. */
  ghost predicate Spells(sp: Spelling, r: Repo) {
    && UserPart(sp.user) && GithubHost(sp.host) && PathNames(sp.path, r)
    && match sp
       case SchemeForm(scheme, _, _, _) => KnownScheme(scheme)
       case ScpForm(user, host, path) => ':' !in user + host && Find(sp.Whole(), "://") == -1 && sp.Whole()[0] != '#'
  }

  lemma UserSplits(s: string) returns (user: string)
    ensures s == user + AfterUser(s) && UserPart(user) && '@' !in AfterUser(s)
  {
    hide FindLastChar;
    user := s[..FindLastChar(s, '@') + 1];
  }

  lemma AuthoritySplits(rest: string, r: Repo) returns (host: string, path: string)
    requires ReadAuthority(rest) == Some(r)
    ensures rest == host + ("/" + path) && '/' !in host && ReadPath(host, path) == Some(r)
  {
    hide FindChar, ReadPath;
    var slash := FindChar(rest, '/');
    host, path := rest[..slash], rest[slash + 1..];
  }

  /** What normalises is spelled in one of the two forms. */
  lemma NormalizedIsSpelled(url: string, r: Repo) returns (sp: Spelling)
    requires NormalizeRemote(url) == Some(r)
    ensures Strip(url) == sp.Whole() && Spells(sp, r)
  {
    hide Strip, FindChar, FindLastChar, ReadPath, ReadAuthority, AfterUser, KnownScheme, UserPart, PathNames, GithubHost;
    var u := Strip(url);
    var sep, colon := Find(u, "://"), FindChar(u, ':');
    if sep >= 0 {
      var after := u[sep + 3..];
      var user := UserSplits(after);
      var host, path := AuthoritySplits(AfterUser(after), r);
      ReadPathIs(host, path, r);
      sp := SchemeForm(u[..sep], user, host, path);
      assert u[sep..sep + 3] == "://";
      assert u == u[..sep] + (u[sep..sep + 3] + u[sep + 3..]);
    } else {
      var user := UserSplits(u[..colon]);
      ReadPathIs(AfterUser(u[..colon]), u[colon + 1..], r);
      sp := ScpForm(user, AfterUser(u[..colon]), u[colon + 1..]);
      assert u == u[..colon] + (":" + u[colon + 1..]);
    }
  }

  lemma PartsRead(host: string, path: string, r: Repo)
    requires GithubHost(host) && PathNames(path, r)
    ensures ReadPath(host, path) == Some(r) && '@' !in host && '/' !in host && '@' !in path
  {
    hide ReadPath, GithubHost, PathIs, NameText;
    var a, b, suffix, c :| PathIs(path, r, a, b, suffix, c);
    PathIsRead(host, path, r, a, b, suffix, c);
    HostIsName(host);
    PlainHasNone(host, '@');
    PlainHasNone(host, '/');
  }

  lemma SchemeSpelled(url: string, sp: Spelling, r: Repo)
    requires sp.SchemeForm? && Strip(url) == sp.Whole() && Spells(sp, r)
    ensures NormalizeRemote(url) == Some(r)
  {
    hide Strip, FindChar, ReadPath, ReadAuthority, AfterUser, KnownScheme, UserPart, Find, PathNames, GithubHost;
    PartsRead(sp.host, sp.path, r);
    var rest := sp.host + ("/" + sp.path);
    var u := Strip(url);
    SchemeShape(sp.scheme);
    SchemeFound(sp.scheme, sp.user + rest);
    assert u[0] == sp.scheme[0] && u[..|sp.scheme|] == sp.scheme && u[|sp.scheme| + 3..] == sp.user + rest;
    AfterUserIs(sp.user, rest);
    AuthorityIs(sp.host, sp.path);
  }

  lemma ScpSpelled(url: string, sp: Spelling, r: Repo)
    requires sp.ScpForm? && Strip(url) == sp.Whole() && Spells(sp, r)
    ensures NormalizeRemote(url) == Some(r)
  {
    hide Strip, FindChar, ReadPath, ReadAuthority, AfterUser, UserPart, Find, PathNames, GithubHost, KnownScheme;
    PartsRead(sp.host, sp.path, r);
    var u, front := Strip(url), sp.user + sp.host;
    assert u[|front|] == ':' && u[..|front|] == front && u[|front| + 1..] == sp.path;
    FindCharIs(u, ':', |front|);
    AfterUserIs(sp.user, sp.host);
  }

  /** A text normalises to a repository if and only if it is one of its spellings. */
  lemma NormalizesExactly(url: string, r: Repo)
    ensures NormalizeRemote(url) == Some(r) <==> exists sp: Spelling :: Strip(url) == sp.Whole() && Spells(sp, r)
  {
    hide NormalizeRemote, Strip, Spells;
    if NormalizeRemote(url) == Some(r) {
      var sp := NormalizedIsSpelled(url, r);
      assert Strip(url) == sp.Whole() && Spells(sp, r);
    }
    forall sp: Spelling | Strip(url) == sp.Whole() && Spells(sp, r) ensures NormalizeRemote(url) == Some(r) {
      if sp.SchemeForm? {
        SchemeSpelled(url, sp, r);
      } else {
        ScpSpelled(url, sp, r);
      }
    }
  }

  // ---------------------------------------------------------------- whose host it is

  /** The characters that end the authority of a URL (section 3.2 of RFC 3986). */
  predicate EndsAuthority(c: char) {
    c == '/' || c == '?' || c == '#'
  }

  predicate NoEnd(s: string) {
    forall i :: 0 <= i < |s| ==> !EndsAuthority(s[i])
  }

  function AuthorityEnd(rest: string): (n: nat)
    ensures n <= |rest| && NoEnd(rest[..n]) && (n < |rest| ==> EndsAuthority(rest[n]))
  {
    if rest == "" || EndsAuthority(rest[0]) then 0
    else
      var n := AuthorityEnd(rest[1..]);
      assert rest[..n + 1] == [rest[0]] + rest[1..][..n];
      n + 1
  }

  function Authority(rest: string): string {
    rest[..AuthorityEnd(rest)]
  }

  lemma {:induction false} AuthorityEndIs(rest: string, n: nat)
    requires n <= |rest| && NoEnd(rest[..n]) && (n < |rest| ==> EndsAuthority(rest[n]))
    ensures AuthorityEnd(rest) == n
  {
    if n > 0 {
      assert rest[..n][0] == rest[0];
      assert rest[1..][..n - 1] == rest[..n][1..];
      AuthorityEndIs(rest[1..], n - 1);
    }
  }

  /** Where the host of a URL begins, and where the reader looks for it. */
  function HostStart(rest: string): nat {
    FindLastChar(Authority(rest), '@') + 1
  }

  function ReadStart(rest: string): nat {
    FindLastChar(rest, '@') + 1
  }

  /** Nothing before the last at sign ends the authority. */
  predicate UserIsPlain(rest: string) {
    NoEnd(rest[..ReadStart(rest)])
  }

  /** The reader takes the URL's own host if and only if nothing that ends the authority precedes
      the last at sign. */
  lemma HostPlaceExactly(rest: string)
    ensures ReadStart(rest) == HostStart(rest) <==> UserIsPlain(rest)
  {
    hide AuthorityEnd, FindLastChar;
    var end, at := AuthorityEnd(rest), FindLastChar(rest, '@');
    var authority := Authority(rest);
    if at >= end {
      assert rest[..at + 1][end] == rest[end];
    } else {
      assert forall i :: 0 <= i < at + 1 ==> rest[..at + 1][i] == authority[i];
      if at >= 0 {
        assert authority[at] == '@';
        assert authority[at + 1..] == rest[at + 1..][..end - at - 1];
        FindLastCharIs(authority, '@', at);
      } else {
        assert forall i :: 0 <= i < end ==> authority[i] == rest[i];
      }
    }
  }

  lemma AuthorityOf(user: string, host: string, c: char, more: string)
    requires NoEnd(user) && NoEnd(host) && EndsAuthority(c)
    ensures Authority(user + (host + ([c] + more))) == user + host && (user + host)[|user|..] == host
  {
    hide AuthorityEnd;
    var rest, k := user + (host + ([c] + more)), |user| + |host|;
    assert rest[k] == c && rest[..k] == user + host;
    AuthorityEndIs(rest, k);
  }

  lemma NameHasNoEnd(s: string)
    requires NameText(s)
    ensures NoEnd(s)
  {
  }

  /** Then the host of the URL is GitHub's. */
  lemma PlainUserIsGithub(scheme: string, rest: string, r: Repo)
    requires KnownScheme(scheme) && rest != "" && !IsSpace(rest[|rest| - 1])
    requires NormalizeRemote(scheme + ("://" + rest)) == Some(r) && UserIsPlain(rest)
    ensures GithubHost(Authority(rest)[HostStart(rest)..])
  {
    hide NormalizeRemote, KnownScheme, IsSpace, FindLastChar, GithubHost, HostStart, Authority, ReadAuthority, ReadPath, NoEnd, NameText;
    SchemeStripped(scheme, rest);
    HostPlaceExactly(rest);
    var n := ReadStart(rest);
    var tail := rest[n..];
    var host, path := AuthoritySplits(tail, r);
    assert rest == rest[..n] + (host + ("/" + path));
    ReadHostIsGithub(host, path, r);
    HostIsName(host);
    NameHasNoEnd(host);
    AuthorityOf(rest[..n], host, '/', path);
  }

  lemma ReadHostIsGithub(host: string, path: string, r: Repo)
    requires ReadPath(host, path) == Some(r)
    ensures GithubHost(host)
  {
    hide Split, NonEmpty, EndsWithGit, GithubHost;
  }

  /** Otherwise it need not be: any host passes for GitHub's when a slash, a question mark or a
      number sign, an at sign and a GitHub host follow it. */
  lemma ForeignHostPasses(scheme: string, foreign: string, c: char, more: string, host: string, r: Repo)
    requires KnownScheme(scheme) && NoEnd(foreign) && EndsAuthority(c)
    requires GithubHost(host) && Plain(r.owner) && Plain(r.name) && !EndsWithGit(r.name)
    ensures var rest := foreign + ([c] + (more + ("@" + (host + ("/" + PathText(r, "", false))))));
            NormalizeRemote(scheme + ("://" + rest)) == Some(r) && Authority(rest) == foreign
  {
    hide NormalizeRemote, KnownScheme, GithubHost, Plain, EndsWithGit, PathText, NoEnd, Authority;
    var user, tail := foreign + ([c] + (more + "@")), host + ("/" + PathText(r, "", false));
    var rest := foreign + ([c] + (more + ("@" + tail)));
    assert user[|user| - 1] == '@';
    assert user + tail == rest;
    SchemeFormReads(scheme, user, host, r, "", false);
    assert "" + (foreign + ([c] + (more + ("@" + tail)))) == rest && "" + foreign == foreign;
    NothingEnds();
    AuthorityOf("", foreign, c, more + ("@" + tail));
  }

  lemma NothingEnds()
    ensures NoEnd("")
  {
  }

  /** Git reads a text with a slash before its first colon as a local path. */
  predicate IsLocalPath(u: string) {
    FindChar(u, ':') < 0 || '/' in u[..FindChar(u, ':')]
  }

  /** A spelling with a colon is a local path to git exactly when its user part holds a slash. */
  lemma ScpIsLocalExactly(sp: Spelling, r: Repo)
    requires sp.ScpForm? && Spells(sp, r)
    ensures IsLocalPath(sp.Whole()) <==> '/' in sp.user
  {
    hide FindChar, Find, UserPart, PathNames, GithubHost, NameText;
    HostIsName(sp.host);
    PlainHasNone(sp.host, '/');
    var u, front := sp.Whole(), sp.user + sp.host;
    assert u[|front|] == ':' && u[..|front|] == front;
    FindCharIs(u, ':', |front|);
  }

  /** And such a path passes for a GitHub repository. */
  lemma LocalPathPasses(dir: string, host: string, r: Repo)
    requires ':' !in dir && dir != "" && dir[0] != '#' && !IsSpace(dir[0])
    requires GithubHost(host) && Plain(r.owner) && Plain(r.name) && !EndsWithGit(r.name)
    ensures var u := (dir + "/@") + (host + (":" + PathText(r, "", false))); NormalizeRemote(u) == Some(r) && IsLocalPath(u)
  {
    HostIsName(host);
    PlainHasNone(host, ':');
    hide NormalizeRemote, GithubHost, Plain, EndsWithGit, PathText, IsSpace, FindChar, NameText;
    ScpFormReads(dir + "/@", host, r, "", false);
    var u, front := (dir + "/@") + (host + (":" + PathText(r, "", false))), (dir + "/@") + host;
    assert u[|front|] == ':' && u[..|front|] == front && front[|dir|] == '/';
    FindCharIs(u, ':', |front|);
  }

  // ---------------------------------------------------------------- the preflight

  datatype Expectation = Expectation(value: Option<string>, confirmedBy: Option<string>, confirmedAt: bool)

  /** The recorded repository; a field that is absent or no text is missing. */
  datatype Source = Source(
    owner: Option<string>,
    name: Option<string>,
    fullName: Option<string>,
    provider: Option<string>,
    defaultBranch: Option<string>,
    expectation: Option<Expectation>)

  datatype Remotes = Undeterminable | Listed(urls: map<string, string>)

  /** What was recorded and what was observed; an unreadable spec or marker is missing. */
  datatype Inputs = Inputs(
    source: Option<Source>,
    remotes: Remotes,
    originHead: string,
    remoteBranch: string,
    visibility: string,
    marker: Option<string>,
    digest: string)

  datatype CheckId = SpecParse | SpecCanonical | SpecExpectation | RepoCanonical | BranchDefault | VisibilityCheck | SpecVersion

  datatype CheckStatus = Passed | Failed | Unknown | Error

  datatype Check = Check(id: CheckId, status: CheckStatus, gating: bool)

  predicate Blocks(c: Check) {
    c.gating && (c.status == Failed || c.status == Unknown)
  }

  predicate KnownVisibility(v: string) {
    v == "public" || v == "private" || v == "internal"
  }

  function ExpectedVisibility(e: Option<Expectation>): Option<string> {
    if e.Some? && e.value.value.Some? && KnownVisibility(Lower(e.value.value.value)) then Some(Lower(e.value.value.value)) else None
  }

  predicate ExpectationValid(e: Option<Expectation>) {
    && ExpectedVisibility(e).Some?
    && e.value.confirmedBy.Some? && Strip(e.value.confirmedBy.value) != ""
    && e.value.confirmedAt
  }

  predicate Present(field: Option<string>) {
    field.Some? && field.value != ""
  }

  /** The record names one repository consistently. */
  predicate Canonical(s: Source) {
    && Present(s.owner) && Present(s.name)
    && s.fullName == Some(s.owner.value + "/" + s.name.value)
    && s.provider == Some("github") && s.defaultBranch == Some("main")
  }

  function CanonicalName(s: Source): string {
    if Present(s.owner) && Present(s.name) then s.owner.value + "/" + s.name.value else "<unrecorded>"
  }

  function LocalBranch(ref: string): string {
    ref[FindLastChar(ref, '/') + 1..]
  }

  /** The branch is what follows the last slash of the ref, or all of it. */
  lemma LocalBranchIs(dir: string, branch: string)
    requires '/' !in branch
    ensures LocalBranch(dir + ("/" + branch)) == branch && LocalBranch(branch) == branch
  {
    hide FindLastChar;
    var ref := dir + ("/" + branch);
    assert ref[|dir|] == '/' && ref[|dir| + 1..] == branch;
    FindLastCharIs(ref, '/', |dir|);
  }

  /** The branches that could be determined agree with the recorded one, and there is one. */
  predicate BranchesAgree(s: Source, local: string, remote: string) {
    && (local != "" || remote != "")
    && (local != "" ==> s.defaultBranch == Some(local))
    && (remote != "" ==> s.defaultBranch == Some(remote))
  }

  predicate OriginMatches(s: Source, remotes: Remotes) {
    && remotes.Listed? && "origin" in remotes.urls
    && var repo := NormalizeRemote(remotes.urls["origin"]);
       repo.Some? && Lower(repo.value.FullName()) == Lower(CanonicalName(s))
  }

  /** The conditions a push is blessed under. */
  predicate Deserves(given: Inputs) {
    && given.source.Some?
    && var s := given.source.value;
       && Canonical(s)
       && ExpectationValid(s.expectation)
       && OriginMatches(s, given.remotes)
       && BranchesAgree(s, LocalBranch(given.originHead), given.remoteBranch)
       && ExpectedVisibility(s.expectation) == Some(Lower(Strip(given.visibility)))
       && given.marker == Some(given.digest)
  }

  /** The record is one repository of the provider with its integration branch. */
  ghost predicate RecordsOneRepository(s: Source, owner: string, name: string) {
    && s.owner == Some(owner) && owner != "" && s.name == Some(name) && name != ""
    && s.fullName == Some(owner + "/" + name) && s.provider == Some("github") && s.defaultBranch == Some("main")
  }

  /** The expectation is one of the three values, confirmed by somebody at some time. */
  ghost predicate Expects(e: Option<Expectation>, visibility: string) {
    && e.Some? && e.value.value.Some? && Lower(e.value.value.value) == visibility
    && (visibility == "public" || visibility == "private" || visibility == "internal")
    && e.value.confirmedBy.Some? && Strip(e.value.confirmedBy.value) != "" && e.value.confirmedAt
  }

  /** What follows the last slash of a ref, or all of it. */
  predicate LastSegment(ref: string, x: string) {
    '/' !in x && (ref == x || (|x| < |ref| && ref[|ref| - |x| - 1] == '/' && ref[|ref| - |x|..] == x))
  }

  lemma BranchOf(ref: string, x: string)
    ensures LocalBranch(ref) == x <==> LastSegment(ref, x)
  {
    hide FindLastChar;
    var k := FindLastChar(ref, '/');
    if LastSegment(ref, x) && ref != x {
      var n := |ref| - |x| - 1;
      assert ref[n + 1..] == x;
      FindLastCharIs(ref, '/', n);
    }
  }

  /** The local record of the branch and the remote's answer: one is known, and those known are the
      integration branch. */
  ghost predicate BranchIsMain(head: string, remote: string) {
    && (LastSegment(head, "") || LastSegment(head, "main")) && (remote == "" || remote == "main")
    && (remote == "main" || LastSegment(head, "main"))
  }

  /** The blessing on what was recorded and observed. */
  lemma DeservesExactly(given: Inputs)
    ensures Deserves(given)
       <==> exists s, owner, name, r, visibility ::
              && given.source == Some(s) && RecordsOneRepository(s, owner, name) && Expects(s.expectation, visibility)
              && Lower(Strip(given.visibility)) == visibility
              && given.remotes.Listed? && "origin" in given.remotes.urls && NormalizeRemote(given.remotes.urls["origin"]) == Some(r)
              && Lower(r.owner + "/" + r.name) == Lower(owner + "/" + name)
              && BranchIsMain(given.originHead, given.remoteBranch) && given.marker == Some(given.digest)
  {
    hide Strip, NormalizeRemote, LocalBranch, BranchIsMain;
    BranchMeans(given.originHead, given.remoteBranch);
    if Deserves(given) {
      var s := given.source.value;
      var r := NormalizeRemote(given.remotes.urls["origin"]).value;
      assert RecordsOneRepository(s, s.owner.value, s.name.value);
      assert Expects(s.expectation, Lower(Strip(given.visibility)));
      assert r.FullName() == r.owner + "/" + r.name;
    }
  }

  lemma BranchMeans(head: string, remote: string)
    ensures BranchIsMain(head, remote)
       <==> var local := LocalBranch(head); (local != "" || remote != "") && (local != "" ==> local == "main") && (remote != "" ==> remote == "main")
  {
    hide LocalBranch, LastSegment;
    BranchOf(head, "");
    BranchOf(head, "main");
  }

  method Assemble(checks: seq<Check>) returns (reasons: seq<CheckId>)
    ensures reasons == [] <==> forall i :: 0 <= i < |checks| ==> !Blocks(checks[i])
    ensures forall id :: id in reasons <==> exists i :: 0 <= i < |checks| && Blocks(checks[i]) && checks[i].id == id
  {
    reasons := [];
    for i := 0 to |checks|
      invariant reasons == [] <==> forall k :: 0 <= k < i ==> !Blocks(checks[k])
      invariant forall id :: id in reasons <==> exists k :: 0 <= k < i && Blocks(checks[k]) && checks[k].id == id
    {
      if Blocks(checks[i]) {
        reasons := reasons + [checks[i].id];
      }
    }
  }

  method CheckOrigin(s: Source, remotes: Remotes) returns (c: Check)
    ensures c.id == RepoCanonical && (Blocks(c) <==> !OriginMatches(s, remotes))
  {
    hide NormalizeRemote, CanonicalName;
    if remotes.Undeterminable? {
      return Check(RepoCanonical, Unknown, true);
    }
    if "origin" !in remotes.urls {
      return Check(RepoCanonical, Failed, true);
    }
    var repo := NormalizeRemote(remotes.urls["origin"]);
    if repo.None? || Lower(repo.value.FullName()) != Lower(CanonicalName(s)) {
      return Check(RepoCanonical, Failed, true);
    }
    c := Check(RepoCanonical, Passed, true);
  }

  method CheckBranch(s: Source, local: string, remote: string) returns (c: Check)
    ensures c.id == BranchDefault && (Blocks(c) <==> !BranchesAgree(s, local, remote))
  {
    if local != "" && remote != "" && local != remote {
      return Check(BranchDefault, Failed, true);
    }
    var observed := if local != "" then local else remote;
    if observed == "" {
      return Check(BranchDefault, Unknown, true);
    }
    c := if s.defaultBranch == Some(observed) then Check(BranchDefault, Passed, false) else Check(BranchDefault, Failed, true);
  }

  /** Nothing is checked about visibility while no valid expectation is recorded. */
  method CheckVisibility(e: Option<Expectation>, observed: string) returns (c: Check)
    ensures c.id == VisibilityCheck
    ensures Blocks(c) <==> ExpectationValid(e) && ExpectedVisibility(e) != Some(Lower(Strip(observed)))
  {
    hide Strip;
    if !ExpectationValid(e) {
      return Check(VisibilityCheck, Error, false);
    }
    var seen := Lower(Strip(observed));
    if !KnownVisibility(seen) {
      return Check(VisibilityCheck, Unknown, true);
    }
    c := Check(VisibilityCheck, if Some(seen) == ExpectedVisibility(e) then Passed else Failed, true);
  }

  /** A push is blessed exactly when everything recorded and observed agrees, and a refusal
      names the checks that stand against it. */
  method RunPreflight(given: Inputs) returns (checks: seq<Check>, reasons: seq<CheckId>, blessed: bool)
    ensures blessed <==> Deserves(given)
    ensures blessed <==> reasons == []
    ensures given.source.Some? ==> (SpecVersion in reasons <==> given.marker != Some(given.digest))
    ensures given.source.Some? ==> (RepoCanonical in reasons <==> !OriginMatches(given.source.value, given.remotes))
  {
    hide Canonical, ExpectationValid, ExpectedVisibility, OriginMatches, BranchesAgree, Strip;
    if given.source.None? {
      return [Check(SpecParse, Error, false)], [SpecParse], false;
    }
    var s := given.source.value;
    var origin := CheckOrigin(s, given.remotes);
    var branch := CheckBranch(s, LocalBranch(given.originHead), given.remoteBranch);
    var visibility := CheckVisibility(s.expectation, given.visibility);
    checks := [
      Check(SpecParse, Passed, false),
      Check(SpecCanonical, if Canonical(s) then Passed else Failed, true),
      Check(SpecExpectation, if ExpectationValid(s.expectation) then Passed else Failed, true),
      origin,
      branch,
      visibility,
      if given.marker == Some(given.digest) then Check(SpecVersion, Passed, false) else Check(SpecVersion, Failed, true)];
    reasons := Assemble(checks);
    blessed := reasons == [];
    assert checks[3].id == RepoCanonical && checks[6].id == SpecVersion;
    assert !Blocks(checks[0]) && (Blocks(checks[1]) <==> !Canonical(s)) && (Blocks(checks[2]) <==> !ExpectationValid(s.expectation));
    assert (forall i :: 0 <= i < |checks| ==> !Blocks(checks[i])) <==>
      !Blocks(checks[1]) && !Blocks(checks[2]) && !Blocks(checks[3]) && !Blocks(checks[4]) && !Blocks(checks[5]) && !Blocks(checks[6]);
  }
}
