/** Locating parts of a document: the walk that names every mapping entry, and the resolver
    of internal JSON pointers (RFC 6901). */
module OpenApi {
  import opened Options
  import opened Strings
  import opened Text

  /** A loaded document; a mapping keeps its order and holds each key once. */
  datatype Node = Null | Scalar(text: string) | List(items: seq<Node>) | Mapping(entries: seq<Entry>)

  datatype Entry = Entry(key: string, value: Node)

  type Path = seq<string>

  datatype Located = Located(path: Path, value: Node)

  ghost predicate UniqueKeys(entries: seq<Entry>) {
    forall i, j :: 0 <= i < j < |entries| ==> entries[i].key != entries[j].key
  }

  /** Every mapping of the document holds each key once. */
  ghost predicate WellKeyed(node: Node)
    decreases node
  {
    match node
    case Mapping(entries) => UniqueKeys(entries) && forall i :: 0 <= i < |entries| ==> WellKeyed(entries[i].value)
    case List(items) => forall i :: 0 <= i < |items| ==> WellKeyed(items[i])
    case _ => true
  }

  // ---------------------------------------------------------------- walking

  /** Every mapping entry below a node, with the path that leads to it. */
  function Walk(node: Node, path: Path): seq<Located>
    decreases node, 1, 0
  {
    match node
    case Mapping(entries) => WalkEntries(node, |entries|, path)
    case List(items) => WalkItems(node, |items|, path)
    case _ => []
  }

  function WalkEntries(node: Node, n: nat, path: Path): seq<Located>
    requires node.Mapping? && n <= |node.entries|
    decreases node, 0, n
  {
    if n == 0 then []
    else
      var e := node.entries[n - 1];
      WalkEntries(node, n - 1, path) + ([Located(path + [e.key], e.value)] + Walk(e.value, path + [e.key]))
  }

  function WalkItems(node: Node, n: nat, path: Path): seq<Located>
    requires node.List? && n <= |node.items|
    decreases node, 0, n
  {
    if n == 0 then []
    else WalkItems(node, n - 1, path) + Walk(node.items[n - 1], path + [Decimal(n - 1)])
  }

  // ---------------------------------------------------------------- resolving

  function Lookup(entries: seq<Entry>, key: string): Option<Node> {
    if entries == [] then None
    else
      var last := entries[|entries| - 1];
      if last.key == key then Some(last.value) else Lookup(entries[..|entries| - 1], key)
  }

  /** One reference token applied to a node. */
  function Descend(node: Node, part: string): Option<Node> {
    match node
    case Mapping(entries) => Lookup(entries, part)
    case List(items) =>
      if part != "" && AllDigits(part) && DecimalValue(part) < |items| then Some(items[DecimalValue(part)]) else None
    case _ => None
  }

  function Follow(node: Node, parts: Path): Option<Node>
    decreases |parts|
  {
    if parts == [] then Some(node)
    else
      match Descend(node, parts[0])
      case None => None
      case Some(next) => Follow(next, parts[1..])
  }

  /** Replaces a two-character pattern from left to right. */
  function Replace(s: string, a: char, b: char, with: char): string {
    if |s| >= 2 && s[0] == a && s[1] == b then [with] + Replace(s[2..], a, b, with)
    else if s == "" then ""
    else [s[0]] + Replace(s[1..], a, b, with)
  }

  function Unescape(part: string): string {
    Replace(Replace(part, '~', '1', '/'), '~', '0', '~')
  }

  function UnescapeAll(parts: Path): Path {
    seq(|parts|, i requires 0 <= i < |parts| => Unescape(parts[i]))
  }

  /** The node an internal reference names; a reference that names none yields the null node. */
  function Resolve(doc: Node, ref: string): Node {
    if |ref| < 2 || ref[..2] != "#/" then Null
    else
      match Follow(doc, UnescapeAll(Split(ref[2..])))
      case None => Null
      case Some(node) => node
  }

  method ResolveRef(doc: Node, ref: string) returns (node: Node)
    ensures node == Resolve(doc, ref)
  {
    hide Split, Unescape, Descend;
    if |ref| < 2 || ref[..2] != "#/" {
      return Null;
    }
    var parts := Split(ref[2..]);
    node := doc;
    for i := 0 to |parts|
      invariant Follow(doc, UnescapeAll(parts)) == Follow(node, UnescapeAll(parts)[i..])
    {
      var part := Unescape(parts[i]);
      assert UnescapeAll(parts)[i..][0] == part && UnescapeAll(parts)[i..][1..] == UnescapeAll(parts)[i + 1..];
      var next := Descend(node, part);
      if next.None? {
        return Null;
      }
      node := next.value;
    }
  }

  // ---------------------------------------------------------------- pointers

  /** The escaping of section 3: a tilde becomes ~0, a slash ~1. */
  function Escape(key: string): string {
    if key == "" then ""
    else (if key[0] == '~' then "~0" else if key[0] == '/' then "~1" else [key[0]]) + Escape(key[1..])
  }

  function EscapeTildes(key: string): string {
    if key == "" then ""
    else (if key[0] == '~' then "~0" else [key[0]]) + EscapeTildes(key[1..])
  }

  function Join(path: Path): string
    requires path != []
  {
    if |path| == 1 then Escape(path[0]) else Escape(path[0]) + ("/" + Join(path[1..]))
  }

  function Pointer(path: Path): string
    requires path != []
  {
    "#/" + Join(path)
  }

  lemma {:induction false} SlashesFirst(key: string)
    ensures Replace(Escape(key), '~', '1', '/') == EscapeTildes(key)
  {
    if key != "" {
      var rest := Escape(key[1..]);
      SlashesFirst(key[1..]);
      if key[0] == '~' {
        assert ("~0" + rest)[1..] == "0" + rest && ("0" + rest)[1..] == rest;
      } else if key[0] == '/' {
        assert ("~1" + rest)[2..] == rest;
      } else {
        assert ([key[0]] + rest)[1..] == rest;
      }
    }
  }

  lemma {:induction false} TildesThen(key: string)
    ensures Replace(EscapeTildes(key), '~', '0', '~') == key
  {
    if key != "" {
      var rest := EscapeTildes(key[1..]);
      TildesThen(key[1..]);
      if key[0] == '~' {
        assert ("~0" + rest)[2..] == rest;
      } else {
        assert ([key[0]] + rest)[1..] == rest;
      }
    }
  }

  /** Unescaping in the code's order inverts escaping, for keys with ~, / and ~1 too. */
  lemma UnescapeEscape(key: string)
    ensures Unescape(Escape(key)) == key
  {
    SlashesFirst(key);
    TildesThen(key);
  }

  lemma {:induction false} EscapedHasNoSlash(key: string)
    ensures '/' !in Escape(key)
  {
    if key != "" {
      EscapedHasNoSlash(key[1..]);
    }
  }

  lemma {:induction false} SplitJoin(path: Path)
    requires path != []
    ensures UnescapeAll(Split(Join(path))) == path
  {
    hide Escape, Unescape, Split;
    EscapedHasNoSlash(path[0]);
    UnescapeEscape(path[0]);
    if |path| == 1 {
      SplitPlain(Escape(path[0]));
    } else {
      SplitJoin(path[1..]);
      SplitFirst(Escape(path[0]), Join(path[1..]));
      var tail := Split(Join(path[1..]));
      assert forall i :: 0 <= i < |tail| ==> UnescapeAll(tail)[i] == Unescape(tail[i]) == path[i + 1];
    }
  }

  // ---------------------------------------------------------------- walk and resolve are inverse

  lemma {:induction false} LookupEntry(entries: seq<Entry>, i: nat)
    requires UniqueKeys(entries) && i < |entries|
    ensures Lookup(entries, entries[i].key) == Some(entries[i].value)
  {
    if i < |entries| - 1 {
      LookupEntry(entries[..|entries| - 1], i);
    }
  }

  lemma DescendItem(items: seq<Node>, i: nat)
    requires i < |items|
    ensures Descend(List(items), Decimal(i)) == Some(items[i])
  {
    DecimalRoundTrip(i);
  }

  lemma {:induction false} EntryOrigin(node: Node, n: nat, path: Path, e: Located) returns (i: nat)
    requires node.Mapping? && n <= |node.entries| && e in WalkEntries(node, n, path)
    ensures i < n
    ensures var c := node.entries[i]; e == Located(path + [c.key], c.value) || e in Walk(c.value, path + [c.key])
  {
    hide Walk;
    if e in WalkEntries(node, n - 1, path) {
      i := EntryOrigin(node, n - 1, path, e);
    } else {
      i := n - 1;
    }
  }

  lemma {:induction false} ItemOrigin(node: Node, n: nat, path: Path, e: Located) returns (i: nat)
    requires node.List? && n <= |node.items| && e in WalkItems(node, n, path)
    ensures i < n && e in Walk(node.items[i], path + [Decimal(i)])
  {
    hide Walk;
    if e in WalkItems(node, n - 1, path) {
      i := ItemOrigin(node, n - 1, path, e);
    } else {
      i := n - 1;
    }
  }

  /** A walked path extends the one it started from, and following the rest arrives. */
  ghost predicate LeadsTo(node: Node, path: Path, e: Located) {
    path <= e.path && |path| < |e.path| && Follow(node, e.path[|path|..]) == Some(e.value)
  }

  lemma LeadsThrough(node: Node, part: string, child: Node, path: Path, e: Located)
    requires Descend(node, part) == Some(child)
    requires e == Located(path + [part], child) || LeadsTo(child, path + [part], e)
    ensures LeadsTo(node, path, e)
  {
    hide Descend;
    var rest := e.path[|path|..];
    assert e.path[|path|] == (path + [part])[|path|] == part;
    assert rest[0] == part && rest[1..] == e.path[|path| + 1..];
    if e == Located(path + [part], child) {
      assert e.path[..|path|] == path && rest[1..] == [];
      assert Follow(child, rest[1..]) == Some(child);
      assert Follow(node, rest) == Follow(child, rest[1..]);
    } else {
      assert e.path[..|path| + 1] == path + [part];
      assert e.path[..|path|] == e.path[..|path| + 1][..|path|] == path;
    }
  }

  lemma {:induction false} WalkArrives(node: Node, path: Path, e: Located)
    requires WellKeyed(node) && e in Walk(node, path)
    ensures LeadsTo(node, path, e)
    decreases node
  {
    hide LeadsTo, Descend, WalkEntries, WalkItems;
    if node.Mapping? {
      var i := EntryOrigin(node, |node.entries|, path, e);
      var c := node.entries[i];
      LookupEntry(node.entries, i);
      DescendMapping(node.entries, c.key);
      if e != Located(path + [c.key], c.value) {
        WalkArrives(c.value, path + [c.key], e);
      }
      LeadsThrough(node, c.key, c.value, path, e);
    } else {
      var i := ItemOrigin(node, |node.items|, path, e);
      DescendItem(node.items, i);
      WalkArrives(node.items[i], path + [Decimal(i)], e);
      LeadsThrough(node, Decimal(i), node.items[i], path, e);
    }
  }

  lemma DescendMapping(entries: seq<Entry>, key: string)
    ensures Descend(Mapping(entries), key) == Lookup(entries, key)
  {
  }

  /** Every entry the walk names, written as a pointer, resolves to the value the walk paired
      with it. */
  lemma WalkThenResolve(doc: Node, e: Located)
    requires WellKeyed(doc) && e in Walk(doc, [])
    ensures e.path != [] && Resolve(doc, Pointer(e.path)) == e.value
  {
    hide Walk, Split, Join;
    WalkArrives(doc, [], e);
    assert e.path[0..] == e.path;
    SplitJoin(e.path);
    var ref := Pointer(e.path);
    assert ref[..2] == "#/" && ref[2..] == Join(e.path);
  }

  // ---------------------------------------------------------------- and back

  lemma {:induction false} LookupFinds(entries: seq<Entry>, key: string) returns (i: nat)
    requires Lookup(entries, key).Some?
    ensures i < |entries| && entries[i].key == key && entries[i].value == Lookup(entries, key).value
  {
    if entries[|entries| - 1].key == key {
      i := |entries| - 1;
    } else {
      i := LookupFinds(entries[..|entries| - 1], key);
    }
  }

  lemma {:induction false} EntryWalked(node: Node, n: nat, i: nat, path: Path, e: Located)
    requires node.Mapping? && i < n <= |node.entries|
    requires var c := node.entries[i]; e == Located(path + [c.key], c.value) || e in Walk(c.value, path + [c.key])
    ensures e in WalkEntries(node, n, path)
  {
    hide Walk;
    if i < n - 1 {
      EntryWalked(node, n - 1, i, path, e);
    }
  }

  lemma {:induction false} ItemWalked(node: Node, n: nat, i: nat, path: Path, e: Located)
    requires node.List? && i < n <= |node.items| && e in Walk(node.items[i], path + [Decimal(i)])
    ensures e in WalkItems(node, n, path)
  {
    hide Walk;
    if i < n - 1 {
      ItemWalked(node, n - 1, i, path, e);
    }
  }

  /** The reference's last token goes into a mapping. */
  predicate EndsInMapping(node: Node, parts: Path) {
    && parts != []
    && var holder := Follow(node, parts[..|parts| - 1]);
       holder.Some? && holder.value.Mapping?
  }

  lemma EndsFurther(node: Node, parts: Path, next: Node)
    requires EndsInMapping(node, parts) && |parts| > 1 && Descend(node, parts[0]) == Some(next)
    ensures EndsInMapping(next, parts[1..])
  {
    hide Descend;
    assert parts[..|parts| - 1][1..] == parts[1..][..|parts| - 2];
    assert parts[..|parts| - 1][0] == parts[0];
  }

  /** The token as the walk spells it: the same key, or the plain numeral of the same index. */
  function CanonicalToken(node: Node, part: string): string {
    if node.List? && AllDigits(part) then Decimal(DecimalValue(part)) else part
  }

  /** The tokens of a reference that finds something, as the walk spells them. */
  function CanonicalTokens(node: Node, parts: Path): (r: Path)
    ensures |r| == |parts|
    decreases |parts|
  {
    if parts == [] then []
    else
      var rest := match Descend(node, parts[0]) { case None => parts[1..] case Some(next) => CanonicalTokens(next, parts[1..]) };
      [CanonicalToken(node, parts[0])] + rest
  }

  /** Conversely, whatever a reference finds in a mapping the walk names, by the reference's own
      tokens in their plain spelling. */
  lemma {:induction false} FollowedIsWalked(node: Node, parts: Path, path: Path)
    requires parts != [] && EndsInMapping(node, parts) && Follow(node, parts).Some?
    ensures Located(path + CanonicalTokens(node, parts), Follow(node, parts).value) in Walk(node, path)
    decreases node
  {
    hide WalkEntries, WalkItems, EndsInMapping;
    var next := Descend(node, parts[0]).value;
    var token, rest := CanonicalToken(node, parts[0]), CanonicalTokens(next, parts[1..]);
    var e := Located(path + CanonicalTokens(node, parts), Follow(node, parts).value);
    assert path + ([token] + rest) == (path + [token]) + rest;
    if |parts| == 1 {
      assert parts[1..] == [] && (path + [token]) + rest == path + [token];
      LastHolder(node, parts);
      var i := LookupFinds(node.entries, parts[0]);
      EntryWalked(node, |node.entries|, i, path, e);
    } else {
      EndsFurther(node, parts, next);
      if node.Mapping? {
        var i := LookupFinds(node.entries, parts[0]);
        FollowedIsWalked(next, parts[1..], path + [token]);
        EntryWalked(node, |node.entries|, i, path, e);
      } else {
        FollowedIsWalked(next, parts[1..], path + [token]);
        ItemWalked(node, |node.items|, DecimalValue(parts[0]), path, e);
      }
    }
  }

  /** So resolving a reference into a mapping finds an entry of the walk, and nothing else. */
  lemma ResolvedIsWalked(doc: Node, ref: string)
    requires |ref| >= 2 && ref[..2] == "#/"
    requires var parts := UnescapeAll(Split(ref[2..])); EndsInMapping(doc, parts) && Follow(doc, parts).Some?
    ensures Located(CanonicalTokens(doc, UnescapeAll(Split(ref[2..]))), Resolve(doc, ref)) in Walk(doc, [])
  {
    hide Walk, Split, Unescape, Follow, EndsInMapping, CanonicalTokens;
    var parts := UnescapeAll(Split(ref[2..]));
    FollowedIsWalked(doc, parts, []);
    assert [] + CanonicalTokens(doc, parts) == CanonicalTokens(doc, parts);
  }

  lemma LastHolder(node: Node, parts: Path)
    requires |parts| == 1 && EndsInMapping(node, parts)
    ensures node.Mapping?
  {
    assert parts[..0] == [];
  }
}
