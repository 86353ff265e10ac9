/** Asset identities: persistent ids, version labels, dependency pins, origin refs and
    the persistent URLs built from them. */
module Identity {
  import opened Options
  import opened Strings

  // ---------------------------------------------------------------- trimming

  /** White space in the sense of the Unicode property the trimming functions use. */
  predicate IsSpace(c: char) {
    || c == ' ' || '\t' <= c <= '\r' || c == '\U{0085}' || c == '\U{00A0}' || c == '\U{1680}'
    || '\U{2000}' <= c <= '\U{200A}' || '\U{2028}' <= c <= '\U{2029}' || c == '\U{202F}' || c == '\U{205F}' || c == '\U{3000}'
  }

  function TrimLeft(s: string): string {
    if s != "" && IsSpace(s[0]) then TrimLeft(s[1..]) else s
  }

  function TrimRight(s: string): string {
    if s != "" && IsSpace(s[|s| - 1]) then TrimRight(s[..|s| - 1]) else s
  }

  function Trim(s: string): string {
    TrimRight(TrimLeft(s))
  }

  lemma {:induction false} TrimRightStart(s: string)
    ensures TrimRight(s) <= s
  {
    if s != "" && IsSpace(s[|s| - 1]) {
      TrimRightStart(s[..|s| - 1]);
    }
  }

  lemma {:induction false} TrimLeftEdge(s: string)
    ensures TrimLeft(s) != "" ==> !IsSpace(TrimLeft(s)[0])
  {
    hide IsSpace;
    if s != "" && IsSpace(s[0]) {
      TrimLeftEdge(s[1..]);
    }
  }

  lemma {:induction false} TrimRightEdge(s: string)
    ensures TrimRight(s) != "" ==> !IsSpace(TrimRight(s)[|TrimRight(s)| - 1])
  {
    hide IsSpace;
    if s != "" && IsSpace(s[|s| - 1]) {
      TrimRightEdge(s[..|s| - 1]);
    }
  }

  /** Trimmed text has nothing left to trim. */
  lemma TrimIdempotent(s: string)
    ensures Trim(Trim(s)) == Trim(s)
  {
    hide IsSpace;
    TrimLeftEdge(s);
    TrimRightEdge(TrimLeft(s));
    TrimRightStart(TrimLeft(s));
  }

  lemma {:induction false} TrimRightKeepsStart(s: string)
    requires s != "" && !IsSpace(s[0])
    ensures TrimRight(s) != ""
  {
    hide IsSpace;
    if IsSpace(s[|s| - 1]) {
      TrimRightKeepsStart(s[..|s| - 1]);
    }
  }

  /** Text that starts with a mark is not blank. */
  lemma TrimKeepsStart(s: string)
    requires s != "" && !IsSpace(s[0])
    ensures Trim(s) != ""
  {
    hide IsSpace;
    TrimRightKeepsStart(s);
  }

  predicate AllSpace(s: string) {
    forall i :: 0 <= i < |s| ==> IsSpace(s[i])
  }

  lemma {:induction false} TrimLeftIs(a: string, s: string)
    requires AllSpace(a) && (s == "" || !IsSpace(s[0]))
    ensures TrimLeft(a + s) == s
  {
    hide IsSpace;
    if a == "" {
      assert a + s == s;
    } else {
      assert (a + s)[1..] == a[1..] + s;
      TrimLeftIs(a[1..], s);
    }
  }

  lemma {:induction false} TrimRightIs(s: string, b: string)
    requires AllSpace(b) && (s == "" || !IsSpace(s[|s| - 1]))
    ensures TrimRight(s + b) == s
  {
    hide IsSpace;
    if b == "" {
      assert s + b == s;
    } else {
      assert (s + b)[..|s + b| - 1] == s + b[..|b| - 1];
      TrimRightIs(s, b[..|b| - 1]);
    }
  }

  /** Trimming takes the white space off both ends, and nothing else. */
  lemma TrimExactly(a: string, s: string, b: string)
    requires AllSpace(a) && AllSpace(b) && (s == "" || (!IsSpace(s[0]) && !IsSpace(s[|s| - 1])))
    ensures Trim(a + (s + b)) == s
  {
    hide IsSpace, TrimLeft, TrimRight;
    if s == "" {
      assert a + (s + b) == (a + b) + "" && (a + b) + "" == a + b;
      TrimLeftIs(a + b, "");
      TrimRightIs("", "");
      assert "" + "" == "";
    } else {
      TrimLeftIs(a, s + b);
      TrimRightIs(s, b);
    }
  }

  // ---------------------------------------------------------------- pids and labels

  const PID_LEN := 26
  const MAX_VERSION_LEN := 64

  predicate PidChar(c: char) {
    || '0' <= c <= '9' || 'a' <= c <= 'h' || 'j' <= c <= 'k'
    || 'm' <= c <= 'n' || 'p' <= c <= 't' || 'v' <= c <= 'z'
  }

  predicate ValidPid(s: string) {
    |s| == PID_LEN && forall i :: 0 <= i < |s| ==> PidChar(s[i])
  }

  predicate LabelChar(c: char) {
    'a' <= c <= 'z' || 'A' <= c <= 'Z' || '0' <= c <= '9' || c == '.' || c == '_' || c == '-'
  }

  predicate ValidVersionLabel(raw: string) {
    var v := Trim(raw);
    && 0 < |v| <= MAX_VERSION_LEN && v != "." && v != ".."
    && forall i :: 0 <= i < |v| ==> LabelChar(v[i])
  }

  // ---------------------------------------------------------------- pins

  function NewDependencyPin(pid: string, version: string): Option<string> {
    if ValidPid(pid) && ValidVersionLabel(version) then Some(pid + "@" + Trim(version)) else None
  }

  function ParseDependencyPin(s: string): Option<(string, string)> {
    var at := FindChar(s, '@');
    if at < 0 || !ValidPid(s[..at]) || !ValidVersionLabel(s[at + 1..]) then None
    else Some((s[..at], Trim(s[at + 1..])))
  }

  lemma CutAtPid(pid: string, rest: string)
    requires ValidPid(pid)
    ensures FindChar(pid + "@" + rest, '@') == PID_LEN
    ensures (pid + "@" + rest)[..PID_LEN] == pid && (pid + "@" + rest)[PID_LEN + 1..] == rest
  {
    var s := pid + "@" + rest;
    assert s[..PID_LEN] == pid;
    FindCharIs(s, '@', PID_LEN);
  }

  /** Exactly the texts pid@label parse, the label possibly padded with blanks. */
  lemma ParseDependencyPinExactly(s: string, pid: string, version: string)
    ensures ParseDependencyPin(s) == Some((pid, version))
       <==> ValidPid(pid) && exists raw :: ValidVersionLabel(raw) && version == Trim(raw) && s == pid + "@" + raw
  {
    hide FindChar, Trim;
    if ParseDependencyPin(s) == Some((pid, version)) {
      var raw := s[FindChar(s, '@') + 1..];
      assert s == pid + "@" + raw;
      assert ValidVersionLabel(raw) && version == Trim(raw) && s == pid + "@" + raw;
    }
    forall raw | ValidPid(pid) && ValidVersionLabel(raw) && version == Trim(raw) && s == pid + "@" + raw
      ensures ParseDependencyPin(s) == Some((pid, version))
    {
      CutAtPid(pid, raw);
    }
  }

  /** Parsing inverts building, up to the blanks around the label. */
  lemma PinRoundTrip(pid: string, version: string)
    requires NewDependencyPin(pid, version).Some?
    ensures ParseDependencyPin(NewDependencyPin(pid, version).value) == Some((pid, Trim(version)))
  {
    TrimIdempotent(version);
    CutAtPid(pid, Trim(version));
  }

  /** Building inverts parsing: it yields the one canonical spelling of what was read. */
  lemma PinCanonical(s: string)
    requires ParseDependencyPin(s).Some?
    ensures var (pid, version) := ParseDependencyPin(s).value;
            && NewDependencyPin(pid, version) == Some(pid + "@" + version)
            && ParseDependencyPin(pid + "@" + version) == Some((pid, version))
  {
    var at := FindChar(s, '@');
    TrimIdempotent(s[at + 1..]);
    CutAtPid(s[..at], Trim(s[at + 1..]));
  }

  // ---------------------------------------------------------------- pin lists

  /** The text is the canonical spelling of the version it pins. */
  predicate CanonicalPin(s: string) {
    var p := ParseDependencyPin(s);
    p.Some? && s == p.value.0 + "@" + p.value.1
  }

  datatype PinError = InvalidPin(index: nat) | DuplicatePin(index: nat, first: nat) | SelfPin(index: nat)

  /** A pin list is sound: every entry parses and no text is listed twice. */
  predicate PinsSound(pins: seq<string>) {
    && (forall i :: 0 <= i < |pins| ==> ParseDependencyPin(pins[i]).Some?)
    && forall i, j :: 0 <= i < j < |pins| ==> pins[i] != pins[j]
  }

  /** The first position of an entry in a list. */
  function FirstIndex(pins: seq<string>, pin: string): (i: nat)
    requires pin in pins
    ensures i < |pins| && pins[i] == pin && pin !in pins[..i]
  {
    if pins[0] == pin then 0
    else
      var i := FirstIndex(pins[1..], pin);
      assert pins[..i + 1] == [pins[0]] + pins[1..][..i];
      i + 1
  }

  /** The errors of a pin list, one an offending entry, in list order. */
  function PinErrors(pins: seq<string>): seq<PinError> {
    if pins == [] then []
    else
      var before, i := pins[..|pins| - 1], |pins| - 1;
      PinErrors(before) +
      if ParseDependencyPin(pins[i]).None? then [InvalidPin(i)]
      else if pins[i] in before then [DuplicatePin(i, FirstIndex(before, pins[i]))]
      else []
  }

  /** A pin list has no error exactly when it is sound. */
  lemma {:induction false} PinErrorsExact(pins: seq<string>)
    ensures PinErrors(pins) == [] <==> PinsSound(pins)
  {
    hide ParseDependencyPin;
    if pins != [] {
      var before, i := pins[..|pins| - 1], |pins| - 1;
      PinErrorsExact(before);
      if PinsSound(pins) {
        forall j, k | 0 <= j < k < i ensures before[j] != before[k] {
          assert pins[j] == before[j] && pins[k] == before[k];
        }
        assert forall j :: 0 <= j < i ==> before[j] == pins[j] && pins[j] != pins[i];
      }
    }
  }

  /** The table of a pass over a list: each well-formed entry at its first position. */
  ghost predicate SeenIn(seen: map<string, nat>, before: seq<string>) {
    && (forall p :: p in seen <==> p in before && ParseDependencyPin(p).Some?)
    && (forall p :: p in seen ==> p in before && seen[p] == FirstIndex(before, p))
  }

  lemma SeenStep(seen: map<string, nat>, before: seq<string>, pin: string)
    requires SeenIn(seen, before)
    ensures SeenIn(if ParseDependencyPin(pin).Some? && pin !in seen then seen[pin := |before|] else seen, before + [pin])
  {
    hide ParseDependencyPin;
    var after := before + [pin];
    assert after[..|before|] == before;
    forall p | p in before ensures p in after && FirstIndex(after, p) == FirstIndex(before, p) {
      assert after[FirstIndex(before, p)] == p;
      assert after[..FirstIndex(before, p)] == before[..FirstIndex(before, p)];
      FirstIndexIs(after, p, FirstIndex(before, p));
    }
    if pin !in before {
      FirstIndexIs(after, pin, |before|);
    }
  }

  lemma PinErrorsSnoc(before: seq<string>, pin: string)
    ensures PinErrors(before + [pin]) == PinErrors(before)
              + if ParseDependencyPin(pin).None? then [InvalidPin(|before|)]
                else if pin in before then [DuplicatePin(|before|, FirstIndex(before, pin))]
                else []
  {
    hide ParseDependencyPin;
    assert (before + [pin])[..|before|] == before;
  }

  /** The document rules of a pin list, checked against the pins seen so far. */
  method ValidateDependencyPins(pins: seq<string>) returns (errors: seq<PinError>)
    ensures errors == PinErrors(pins)
  {
    hide ParseDependencyPin, PinErrors, FirstIndex;
    errors := [];
    var seen: map<string, nat> := map[];
    var i := 0;
    assert PinErrors([]) == [] by { PinErrorsExact([]); }
    assert pins[..0] == [];
    while i < |pins|
      invariant 0 <= i <= |pins|
      invariant SeenIn(seen, pins[..i])
      invariant errors == PinErrors(pins[..i])
    {
      assert pins[..i + 1] == pins[..i] + [pins[i]];
      PinErrorsSnoc(pins[..i], pins[i]);
      SeenStep(seen, pins[..i], pins[i]);
      if ParseDependencyPin(pins[i]).None? {
        errors := errors + [InvalidPin(i)];
      } else if pins[i] in seen {
        errors := errors + [DuplicatePin(i, seen[pins[i]])];
      } else {
        assert PinErrors(pins[..i]) + [] == PinErrors(pins[..i]);
        seen := seen[pins[i] := i];
      }
      i := i + 1;
    }
    assert pins[..i] == pins;
  }

  lemma FirstIndexIs(pins: seq<string>, pin: string, i: nat)
    requires i < |pins| && pins[i] == pin && pin !in pins[..i]
    ensures FirstIndex(pins, pin) == i
  {
  }

  /** The canonical spelling of what a text pins; a text that pins nothing stays. */
  function Respelled(pin: string): string {
    match ParseDependencyPin(pin)
    case None => pin
    case Some(p) => p.0 + "@" + p.1
  }

  function RespelledAll(pins: seq<string>): (r: seq<string>)
    ensures |r| == |pins| && forall i :: 0 <= i < |pins| ==> r[i] == Respelled(pins[i])
  {
    seq(|pins|, i requires 0 <= i < |pins| => Respelled(pins[i]))
  }

  /** Every entry pins a version and no version is pinned twice: what the list rule is for. */
  ghost predicate PinsDistinctVersions(pins: seq<string>) {
    && (forall i :: 0 <= i < |pins| ==> ParseDependencyPin(pins[i]).Some?)
    && forall i, j :: 0 <= i < j < |pins| ==> ParseDependencyPin(pins[i]) != ParseDependencyPin(pins[j])
  }

  /** Two texts pin the same version exactly when they are respelled alike. */
  lemma RespelledAlike(a: string, b: string)
    requires ParseDependencyPin(a).Some? && ParseDependencyPin(b).Some?
    ensures Respelled(a) == Respelled(b) <==> ParseDependencyPin(a) == ParseDependencyPin(b)
    ensures ParseDependencyPin(Respelled(a)) == ParseDependencyPin(a)
  {
    hide ParseDependencyPin, NewDependencyPin;
    PinCanonical(a);
    PinCanonical(b);
  }

  lemma UnparsedStays(pin: string)
    requires ParseDependencyPin(pin).None?
    ensures Respelled(pin) == pin
  {
  }

  /** The rule over the texts as written is the rule over versions exactly when it also finds
      no fault with the list respelled: trimming the labels first would make it exact. */
  lemma PinsDistinctVersionsExactly(pins: seq<string>)
    ensures PinsDistinctVersions(pins) <==> PinErrors(RespelledAll(pins)) == []
    ensures PinsDistinctVersions(pins) ==> PinErrors(pins) == []
  {
    hide ParseDependencyPin, Respelled, PinErrors;
    PinErrorsExact(pins);
    PinErrorsExact(RespelledAll(pins));
    var r := RespelledAll(pins);
    forall i | 0 <= i < |pins| ensures ParseDependencyPin(r[i]) == ParseDependencyPin(pins[i]) {
      if ParseDependencyPin(pins[i]).Some? {
        RespelledAlike(pins[i], pins[i]);
      } else {
        UnparsedStays(pins[i]);
      }
    }
    forall i, j | 0 <= i < j < |pins| && ParseDependencyPin(pins[i]).Some? && ParseDependencyPin(pins[j]).Some?
      ensures r[i] == r[j] <==> ParseDependencyPin(pins[i]) == ParseDependencyPin(pins[j])
    {
      RespelledAlike(pins[i], pins[j]);
    }
  }

  /** So in a list of canonical spellings the rule as written decides it. */
  lemma CanonicalPinsNameDistinctVersions(pins: seq<string>)
    requires forall i :: 0 <= i < |pins| ==> CanonicalPin(pins[i])
    ensures PinsDistinctVersions(pins) <==> PinErrors(pins) == []
  {
    hide ParseDependencyPin, PinErrors;
    PinsDistinctVersionsExactly(pins);
    assert RespelledAll(pins) == pins;
  }

  lemma TrimDropsBlank(version: string)
    ensures Trim(version) == version && version != "" ==> Trim(version + " ") == version
  {
    assert IsSpace(' ');
    hide IsSpace;
    if Trim(version) == version && version != "" {
      TrimLeftEdge(version);
      TrimRightStart(TrimLeft(version));
      TrimLeftLonger(version);
      assert TrimLeft(version) == version;
      assert (version + " ")[0] == version[0] && (version + " ")[..|version|] == version;
    }
  }

  lemma {:induction false} TrimLeftLonger(s: string)
    ensures |TrimLeft(s)| <= |s| && (|TrimLeft(s)| == |s| ==> TrimLeft(s) == s)
  {
    if s != "" && IsSpace(s[0]) {
      TrimLeftLonger(s[1..]);
    }
  }

  /** A padded label is accepted and the list rule compares texts, so every version can be
      pinned twice: once canonically and once padded. */
  lemma PaddedPinEscapesListRule(pid: string, version: string)
    requires ValidPid(pid) && ValidVersionLabel(version) && Trim(version) == version
    ensures PinsSound([pid + "@" + version, pid + "@" + (version + " ")])
    ensures ParseDependencyPin(pid + "@" + version) == ParseDependencyPin(pid + "@" + (version + " ")) == Some((pid, version))
    ensures !CanonicalPin(pid + "@" + (version + " "))
  {
    hide Trim;
    CutAtPid(pid, version);
    CutAtPid(pid, version + " ");
    TrimDropsBlank(version);
    assert |pid + "@" + version| != |pid + "@" + (version + " ")|;
  }

  /** The version being published is pinned by its own list. */
  ghost predicate PinsSelf(pins: seq<string>, self: string, version: string) {
    exists i :: 0 <= i < |pins| && ParseDependencyPin(pins[i]) == Some((self, Trim(version)))
  }

  // ---------------------------------------------------------------- URLs

  function AssetUrl(pid: string): string {
    "/assets/" + pid
  }

  function AssetVersionUrl(pid: string, version: string): string {
    "/assets/" + pid + "/" + version
  }

  /** Different versions never share a URL. */
  lemma AssetVersionUrlInjective(p: string, v: string, q: string, w: string)
    requires ValidPid(p) && ValidPid(q) && AssetVersionUrl(p, v) == AssetVersionUrl(q, w)
    ensures p == q && v == w
  {
    var u := AssetVersionUrl(p, v);
    assert u[8..34] == p && u[8..34] == q;
    assert u[35..] == v && u[35..] == w;
  }

  /** Drops the last segment of a path and the slash before it. */
  function DropLastSegment(path: string): string {
    var slash := FindLastChar(path, '/');
    if slash < 0 then "" else path[..slash]
  }

  /** The first segment of a path, its leading slash included. */
  function FirstSegment(path: string): (s: string)
    ensures path != "" ==> s != ""
    ensures s <= path
  {
    if path == "" then ""
    else
      var slash := FindChar(path[1..], '/');
      if slash < 0 then path else path[..slash + 1]
  }

  /** remove_dot_segments of section 5.2.4 of RFC 3986, over its two buffers. */
  function RemoveDotSegments(input: string, output: string): string
    decreases |input|
  {
    if input == "" then output
    else if "../" <= input then RemoveDotSegments(input[3..], output)
    else if "./" <= input then RemoveDotSegments(input[2..], output)
    else if "/./" <= input then RemoveDotSegments(input[2..], output)
    else if input == "/." then RemoveDotSegments("/", output)
    else if "/../" <= input then RemoveDotSegments(input[3..], DropLastSegment(output))
    else if input == "/.." then RemoveDotSegments("/", DropLastSegment(output))
    else if input == "." || input == ".." then output
    else
      var segment := FirstSegment(input);
      RemoveDotSegments(input[|segment|..], output + segment)
  }

  /** A path segment that no resolver removes. */
  predicate OrdinarySegment(s: string) {
    '/' !in s && s != "." && s != ".."
  }

  lemma FirstSegmentIs(segment: string, rest: string)
    requires '/' !in segment && (rest != "" ==> rest[0] == '/')
    ensures FirstSegment("/" + segment + rest) == "/" + segment
    ensures ("/" + segment + rest)[|segment| + 1..] == rest
  {
    hide FindChar;
    var input := "/" + segment + rest;
    assert input[1..] == segment + rest && input[..|segment| + 1] == "/" + segment;
    if rest != "" {
      assert (segment + rest)[..|segment|] == segment;
      FindCharIs(segment + rest, '/', |segment|);
    } else {
      assert segment + rest == segment;
    }
  }

  lemma NoDotPrefix(segment: string, rest: string)
    requires OrdinarySegment(segment) && (rest != "" ==> rest[0] == '/')
    ensures var input := "/" + segment + rest;
            !("/./" <= input) && input != "/." && !("/../" <= input) && input != "/.."
  {
    var input := "/" + segment + rest;
    assert forall i :: 0 <= i < |segment| ==> input[i + 1] == segment[i];
    assert |segment| + 1 < |input| ==> input[|segment| + 1] == '/';
    assert |segment| == 1 ==> segment[0] != '.' by { assert |segment| == 1 && segment[0] == '.' ==> segment == "."; }
    assert |segment| == 2 ==> segment[0] != '.' || segment[1] != '.' by {
      assert |segment| == 2 && segment[0] == '.' && segment[1] == '.' ==> segment == "..";
    }
    assert forall i :: 0 <= i < |segment| ==> segment[i] != '/';
    assert "/./"[1] == '.' && "/./"[2] == '/' && "/../"[1] == '.' && "/../"[2] == '.' && "/../"[3] == '/';
  }

  lemma OrdinarySegmentStays(segment: string, rest: string, output: string)
    requires OrdinarySegment(segment) && (rest != "" ==> rest[0] == '/')
    ensures RemoveDotSegments("/" + segment + rest, output) == RemoveDotSegments(rest, output + ("/" + segment))
  {
    hide FindChar, FirstSegment;
    FirstSegmentIs(segment, rest);
    NoDotPrefix(segment, rest);
    var input := "/" + segment + rest;
    assert input[0] == '/';
  }

  lemma LabelIsOrdinary(version: string)
    requires ValidVersionLabel(version) && Trim(version) == version
    ensures OrdinarySegment(version)
  {
  }

  /** Every persistent version URL is a fixed point of dot-segment removal. */
  lemma AssetVersionUrlStable(pid: string, version: string)
    requires ValidPid(pid) && ValidVersionLabel(version) && Trim(version) == version
    ensures RemoveDotSegments(AssetVersionUrl(pid, version), "") == AssetVersionUrl(pid, version)
  {
    hide RemoveDotSegments, Trim;
    LabelIsOrdinary(version);
    assert OrdinarySegment(pid) && OrdinarySegment("assets");
    var tail := "/" + version;
    var rest := "/" + pid + tail;
    OrdinarySegmentStays("assets", rest, "");
    OrdinarySegmentStays(pid, tail, "" + ("/" + "assets"));
    OrdinarySegmentStays(version, "", "" + ("/" + "assets") + ("/" + pid));
    assert "/" + version + "" == tail;
    assert "/" + "assets" + rest == AssetVersionUrl(pid, version);
    Emptied("" + ("/" + "assets") + ("/" + pid) + ("/" + version));
    assert "" + ("/" + "assets") + ("/" + pid) + ("/" + version) == AssetVersionUrl(pid, version);
  }

  lemma Emptied(output: string)
    ensures RemoveDotSegments("", output) == output
  {
  }

  // ---------------------------------------------------------------- origin refs

  datatype OriginKind = Project | Release | State | ObjectVersion

  function KindText(k: OriginKind): string {
    match k
    case Project => "project"
    case Release => "release"
    case State => "state"
    case ObjectVersion => "object_version"
  }

  function ParseKind(s: string): Option<OriginKind> {
    if s == "project" then Some(Project)
    else if s == "release" then Some(Release)
    else if s == "state" then Some(State)
    else if s == "object_version" then Some(ObjectVersion)
    else None
  }

  /** The lowercase 8-4-4-4-12 text of a uuid. */
  predicate ValidUuidText(s: string) {
    && |s| == 36
    && forall i :: 0 <= i < 36 ==>
         if i == 8 || i == 13 || i == 18 || i == 23 then s[i] == '-'
         else '0' <= s[i] <= '9' || 'a' <= s[i] <= 'f'
  }

  function NewOriginRef(kind: OriginKind, value: string): Option<string> {
    if ValidUuidText(value) then Some(KindText(kind) + ":" + value) else None
  }

  function ParseOriginRef(s: string): Option<(OriginKind, string)> {
    var colon := FindChar(s, ':');
    if colon < 0 then None
    else
      var kind := ParseKind(s[..colon]);
      if kind.None? || !ValidUuidText(s[colon + 1..]) then None
      else Some((kind.value, s[colon + 1..]))
  }

  lemma KindRoundTrip(k: OriginKind)
    ensures ParseKind(KindText(k)) == Some(k) && ':' !in KindText(k)
  {
  }

  /** The four kinds of a ref, by their names. */
  lemma KindTexts()
    ensures KindText(Project) == "project" && KindText(Release) == "release" && KindText(State) == "state"
         && KindText(ObjectVersion) == "object_version"
  {
  }

  /** Parsing and building origin refs are inverse to each other. */
  lemma OriginRefRoundTrip(kind: OriginKind, value: string, s: string)
    ensures ParseOriginRef(s) == Some((kind, value)) <==> NewOriginRef(kind, value) == Some(s)
  {
    hide FindChar;
    KindRoundTrip(kind);
    if NewOriginRef(kind, value) == Some(s) {
      var k := |KindText(kind)|;
      assert s[..k] == KindText(kind) && s[k] == ':' && s[k + 1..] == value;
      FindCharIs(s, ':', k);
    }
    if ParseOriginRef(s) == Some((kind, value)) {
      var colon := FindChar(s, ':');
      assert s == s[..colon] + ":" + s[colon + 1..];
    }
  }
}
