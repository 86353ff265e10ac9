/** The publish gate: the checklist one candidate version must pass before it is stored. */
module Gate {
  import opened Options
  import opened Manifest
  import Identity
  import Text
  import Json

  datatype Visibility = Public | Private | Other(text: string)

  datatype DataAccess = Open | Restricted

  datatype Permission = Allowed | Forbidden | Unspecified | UnknownPermission(text: string)

  datatype RightsDocument = RightsDocument(dataAccess: DataAccess, derivatives: Permission)

  datatype RightsRefusal = RightsRefusal(code: string, field: string, detail: string)

  datatype RightsResult = RightsRead(document: RightsDocument) | RightsRefused(refusal: RightsRefusal)

  /** What the gate calls and does not decide: the rights parser and the digest. */
  datatype Ports = Ports(parseRights: string -> RightsResult, digest: string -> string)

  datatype Candidate = Candidate(
    assetPid: string,
    assetType: string,
    version: string,
    manifest: string,
    rights: string,
    originRefs: seq<string>,
    visibility: Visibility,
    integrityHash: string,
    creatorIds: seq<string>)

  datatype Facts = Facts(
    sourcePinned: bool,
    versionPinned: bool,
    contributors: bool,
    rights: bool,
    visibility: bool,
    dependencyPins: bool,
    integrityHash: bool,
    metadata: bool)
  {
    predicate All() {
      sourcePinned && versionPinned && contributors && rights && visibility && dependencyPins && integrityHash && metadata
    }
  }

  // ---------------------------------------------------------------- provenance

  predicate CanonicalRef(ref: string) {
    Identity.ParseOriginRef(ref).Some?
  }

  /** The ref names a release or an accepted state. */
  predicate PinsAccepted(ref: string) {
    var r := Identity.ParseOriginRef(ref);
    r.Some? && (r.value.0.Release? || r.value.0.State?)
  }

  /** The refs pin an accepted source: there are some, all canonical, one a release or state. */
  ghost predicate SourcePinned(refs: seq<string>) {
    && refs != []
    && (forall i :: 0 <= i < |refs| ==> CanonicalRef(refs[i]))
    && (exists i :: 0 <= i < |refs| && PinsAccepted(refs[i]))
  }

  function RefPath(i: nat): string {
    "origin_refs[" + Text.Decimal(i) + "]"
  }

  /** The refusals of the refs that are not canonical, in list order. */
  function BadRefs(refs: seq<string>): seq<Refusal> {
    if refs == [] then []
    else
      var i := |refs| - 1;
      BadRefs(refs[..i]) + if CanonicalRef(refs[i]) then [] else [Refusal(InvalidProvenanceRef, RefPath(i))]
  }

  lemma {:induction false} BadRefsExact(refs: seq<string>)
    ensures BadRefs(refs) == [] <==> forall i :: 0 <= i < |refs| ==> CanonicalRef(refs[i])
  {
    hide CanonicalRef;
    if refs != [] {
      var before := refs[..|refs| - 1];
      BadRefsExact(before);
      assert forall i :: 0 <= i < |before| ==> before[i] == refs[i];
    }
  }

  predicate AnyAccepted(refs: seq<string>) {
    exists i :: 0 <= i < |refs| && PinsAccepted(refs[i])
  }

  function ProvenanceErrors(refs: seq<string>): seq<Refusal> {
    if refs == [] then [Refusal(MissingProvenance, "origin_refs")]
    else if BadRefs(refs) != [] then BadRefs(refs)
    else if AnyAccepted(refs) then []
    else [Refusal(UnpinnedSource, "origin_refs")]
  }

  lemma ProvenanceExact(refs: seq<string>)
    ensures ProvenanceErrors(refs) == [] <==> SourcePinned(refs)
  {
    hide CanonicalRef, PinsAccepted;
    BadRefsExact(refs);
  }

  /** Checks the origin refs; the fact is set when nothing is refused. */
  method ValidateProvenance(refs: seq<string>) returns (pinned: bool, errors: seq<Refusal>)
    ensures errors == ProvenanceErrors(refs)
    ensures pinned == SourcePinned(refs)
  {
    hide CanonicalRef, PinsAccepted;
    ProvenanceExact(refs);
    if refs == [] {
      return false, [Refusal(MissingProvenance, "origin_refs")];
    }
    errors := [];
    for i := 0 to |refs|
      invariant errors == BadRefs(refs[..i])
    {
      assert refs[..i + 1][..i] == refs[..i];
      if !CanonicalRef(refs[i]) {
        errors := errors + [Refusal(InvalidProvenanceRef, RefPath(i))];
      }
    }
    assert refs[..|refs|] == refs;
    if errors != [] {
      return false, errors;
    }
    for i := 0 to |refs|
      invariant forall j :: 0 <= j < i ==> !PinsAccepted(refs[j])
    {
      if PinsAccepted(refs[i]) {
        return true, [];
      }
    }
    return false, [Refusal(UnpinnedSource, "origin_refs")];
  }

  // ---------------------------------------------------------------- creators

  /** The one spelling of a creator id: trimmed and in lower case. */
  function CanonicalCreatorId(id: string): string {
    Text.Lower(Identity.Trim(id))
  }

  predicate ValidCreatorId(id: string) {
    Identity.ValidUuidText(CanonicalCreatorId(id))
  }

  /** A list the credit table can store: somebody, all of them ids, nobody twice. */
  ghost predicate CreatorsStorable(ids: seq<string>) {
    && ids != []
    && (forall i :: 0 <= i < |ids| ==> ValidCreatorId(ids[i]))
    && forall i, j :: 0 <= i < j < |ids| ==> CanonicalCreatorId(ids[i]) != CanonicalCreatorId(ids[j])
  }

  method ValidCreatorIds(ids: seq<string>) returns (valid: bool)
    ensures valid <==> ids != [] && forall i :: 0 <= i < |ids| ==> ValidCreatorId(ids[i])
  {
    hide ValidCreatorId;
    if ids == [] {
      return false;
    }
    for i := 0 to |ids|
      invariant forall j :: 0 <= j < i ==> ValidCreatorId(ids[j])
    {
      if !ValidCreatorId(ids[i]) {
        return false;
      }
    }
    return true;
  }

  /** The entry credits somebody an earlier entry already credits. */
  predicate Repeats(ids: seq<string>, i: nat)
    requires i < |ids|
  {
    CanonicalCreatorId(ids[i]) != "" && exists j :: 0 <= j < i && CanonicalCreatorId(ids[j]) == CanonicalCreatorId(ids[i])
  }

  /** The first entry that credits somebody again. */
  function FirstRepeat(ids: seq<string>): (r: Option<nat>)
    ensures r.Some? ==> r.value < |ids| && Repeats(ids, r.value)
    ensures forall i :: 0 <= i < (if r.Some? then r.value else |ids|) ==> !Repeats(ids, i)
  {
    if ids == [] then None
    else
      var before, i := ids[..|ids| - 1], |ids| - 1;
      var r := FirstRepeat(before);
      assert forall j :: 0 <= j < i ==> Repeats(ids, j) == Repeats(before, j);
      if r.Some? then r
      else if Repeats(ids, i) then Some(i)
      else None
  }

  /** Scans for a repeated credit with a table of the credits seen so far. */
  method FindDuplicateCreator(ids: seq<string>) returns (first: nat, again: nat, duplicate: bool)
    ensures duplicate <==> FirstRepeat(ids).Some?
    ensures duplicate ==> again == FirstRepeat(ids).value && first < again && CanonicalCreatorId(ids[first]) == CanonicalCreatorId(ids[again])
  {
    hide CanonicalCreatorId;
    var seen: map<string, nat> := map[];
    for i := 0 to |ids|
      invariant forall k :: k in seen ==> k != "" && seen[k] < i && CanonicalCreatorId(ids[seen[k]]) == k
      invariant forall j :: 0 <= j < i && CanonicalCreatorId(ids[j]) != "" ==> CanonicalCreatorId(ids[j]) in seen
      invariant forall j :: 0 <= j < i ==> !Repeats(ids, j)
    {
      var key := CanonicalCreatorId(ids[i]);
      if key != "" {
        if key in seen {
          assert Repeats(ids, i);
          return seen[key], i, true;
        }
        seen := seen[key := i];
      }
    }
    return 0, 0, false;
  }

  function CreatorErrors(ids: seq<string>): seq<Refusal> {
    if ids == [] || exists i :: 0 <= i < |ids| && !ValidCreatorId(ids[i]) then [Refusal(NoContributors, "creator_ids")]
    else if FirstRepeat(ids).Some? then [Refusal(DuplicateCreatorId, "creator_ids[" + Text.Decimal(FirstRepeat(ids).value) + "]")]
    else []
  }

  lemma CreatorErrorsExact(ids: seq<string>)
    ensures CreatorErrors(ids) == [] <==> CreatorsStorable(ids)
  {
    hide FirstRepeat;
    forall i | 0 <= i < |ids| && ValidCreatorId(ids[i]) ensures CanonicalCreatorId(ids[i]) != "" {
    }
    hide CanonicalCreatorId, ValidCreatorId;
    if CreatorErrors(ids) == [] {
      forall i, j | 0 <= i < j < |ids| ensures CanonicalCreatorId(ids[i]) != CanonicalCreatorId(ids[j]) {
        assert !Repeats(ids, j);
      }
    }
  }

  /** Why a creator list may not be stored, if it may not. */
  method CreatorIdsRefusal(ids: seq<string>) returns (errors: seq<Refusal>)
    ensures errors == CreatorErrors(ids)
  {
    hide ValidCreatorId, FirstRepeat;
    var valid := ValidCreatorIds(ids);
    if !valid {
      return [Refusal(NoContributors, "creator_ids")];
    }
    var first, again, duplicate := FindDuplicateCreator(ids);
    if duplicate {
      return [Refusal(DuplicateCreatorId, "creator_ids[" + Text.Decimal(again) + "]")];
    }
    return [];
  }

  // ---------------------------------------------------------------- the hash

  predicate IsSha256Hex(s: string) {
    |s| == 64 && forall i :: 0 <= i < |s| ==> '0' <= s[i] <= '9' || 'a' <= s[i] <= 'f'
  }

  /** The parsed manifest of the candidate, if it parses. */
  function ReadManifest(raw: string): Result {
    if Identity.Trim(raw) == "" then Refused([Refusal(MalformedManifest, "manifest")]) else ParseManifest(raw)
  }

  /** No dependency of the document is the version being published. */
  ghost predicate NoSelfPin(pins: seq<string>, pid: string, version: string) {
    Identity.ValidPid(pid) ==> !Identity.PinsSelf(pins, pid, version)
  }

  // ---------------------------------------------------------------- the facts

  /** What each item of the checklist means for a candidate. */
  ghost function FactsOf(c: Candidate, ports: Ports): Facts {
    var m := ReadManifest(c.manifest);
    Facts(
      SourcePinned(c.originRefs),
      Identity.ValidVersionLabel(c.version),
      CreatorsStorable(c.creatorIds),
      ports.parseRights(c.rights).RightsRead?,
      !c.visibility.Other?,
      m.Ok? && NoSelfPin(m.manifest.Pins(), c.assetPid, c.version),
      IsSha256Hex(c.integrityHash) && m.Ok? && c.integrityHash == Hash(m.manifest, ports.digest),
      m.Ok? && m.manifest.assetType == c.assetType)
  }

  /** The gate accepts a candidate of a real asset whose every fact holds. */
  ghost predicate Accepts(c: Candidate, ports: Ports) {
    Identity.ValidPid(c.assetPid) && FactsOf(c, ports).All()
  }

  predicate IsRightsCode(code: Code) {
    code == InvalidRights || code == MissingRights
  }

  // ---------------------------------------------------------------- the refusals

  function SelfErrors(pins: seq<string>, pid: string, version: string): seq<Refusal> {
    if !Identity.ValidPid(pid) then []
    else if pins == [] then []
    else
      var i := |pins| - 1;
      var before := SelfErrors(pins[..i], pid, version);
      if before != [] then before
      else if Identity.ParseDependencyPin(pins[i]) == Some((pid, Identity.Trim(version))) then PinRefusals([Identity.SelfPin(i)])
      else []
  }

  function ManifestErrors(c: Candidate): seq<Refusal> {
    match ReadManifest(c.manifest)
    case Refused(refusals) => refusals
    case Ok(m) =>
      (if m.assetType == c.assetType then [] else [Refusal(ManifestTypeMismatch, "asset_type")])
      + SelfErrors(m.Pins(), c.assetPid, c.version)
  }

  function HashErrors(c: Candidate, digest: string -> string): seq<Refusal> {
    var m := ReadManifest(c.manifest);
    if !IsSha256Hex(c.integrityHash) then [Refusal(InvalidIntegrityHash, "integrity_hash")]
    else if m.Ok? && c.integrityHash != Hash(m.manifest, digest) then [Refusal(IntegrityHashMismatch, "integrity_hash")]
    else []
  }

  function RightsErrors(c: Candidate, ports: Ports): seq<Refusal> {
    if ports.parseRights(c.rights).RightsRead? then []
    else [Refusal(if Identity.Trim(c.rights) == "" then MissingRights else InvalidRights, "rights_json")]
  }

  function IdentityErrors(c: Candidate): seq<Refusal> {
    (if Identity.ValidPid(c.assetPid) then [] else [Refusal(InvalidPid, "asset_pid")])
    + (if Identity.ValidVersionLabel(c.version) then [] else [Refusal(InvalidVersionLabel, "version")])
  }

  function VisibilityErrors(c: Candidate): seq<Refusal> {
    if c.visibility.Other? then [Refusal(InvalidVisibility, "visibility")] else []
  }

  /** Every refusal of a candidate, in the order the rules run. */
  function GateErrors(c: Candidate, ports: Ports): seq<Refusal> {
    IdentityErrors(c) + ProvenanceErrors(c.originRefs) + RightsErrors(c, ports) + VisibilityErrors(c)
    + ManifestErrors(c) + HashErrors(c, ports.digest) + CreatorErrors(c.creatorIds)
  }

  lemma {:induction false} SelfErrorsExact(pins: seq<string>, pid: string, version: string)
    ensures SelfErrors(pins, pid, version) == [] <==> NoSelfPin(pins, pid, version)
  {
    hide Identity.ValidPid, Identity.ParseDependencyPin, Identity.Trim;
    if pins != [] && Identity.ValidPid(pid) {
      var before := pins[..|pins| - 1];
      SelfErrorsExact(before, pid, version);
      assert forall i :: 0 <= i < |before| ==> before[i] == pins[i];
    }
  }

  lemma ReadRefusalsNotEmpty(raw: string)
    ensures ReadManifest(raw).Refused? ==> ReadManifest(raw).refusals != []
  {
    hide Identity.Trim, Refusals, Decode, Json.ParseDocument;
  }

  /** The gate refuses nothing exactly when the pid is real and all eight facts hold. */
  lemma GateExact(c: Candidate, ports: Ports)
    ensures GateErrors(c, ports) == [] <==> Accepts(c, ports)
  {
    hide Identity.ValidPid, Identity.ValidVersionLabel, SourcePinned, CreatorsStorable, ReadManifest, CanonicalJson,
      IsSha256Hex, Identity.Trim, ProvenanceErrors, CreatorErrors, SelfErrors, NoSelfPin;
    ProvenanceExact(c.originRefs);
    CreatorErrorsExact(c.creatorIds);
    ReadRefusalsNotEmpty(c.manifest);
    var m := ReadManifest(c.manifest);
    if m.Ok? {
      SelfErrorsExact(m.manifest.Pins(), c.assetPid, c.version);
    }
  }

  /** The ref is canonical and names something of the kind. */
  ghost predicate RefOfKind(ref: string, kind: Identity.OriginKind) {
    exists id :: Identity.ParseOriginRef(ref) == Some((kind, id))
  }

  ghost predicate NamesSomething(ref: string) {
    exists kind :: RefOfKind(ref, kind)
  }

  /** Acceptance on the candidate itself: a real pid; refs, all canonical, one of a release or an
      accepted state; a storable label; creators, all of them ids and pairwise different in their
      canonical spelling; readable rights; public or private; and a manifest that reads, is of the
      candidate's type, does not pin the version being published, and whose canonical bytes have
      the declared digest. */
  ghost predicate MayBeStored(c: Candidate, ports: Ports) {
    && Identity.ValidPid(c.assetPid)
    && c.originRefs != []
    && (forall i :: 0 <= i < |c.originRefs| ==> NamesSomething(c.originRefs[i]))
    && (exists i :: 0 <= i < |c.originRefs| && (RefOfKind(c.originRefs[i], Identity.Release) || RefOfKind(c.originRefs[i], Identity.State)))
    && Identity.ValidVersionLabel(c.version)
    && c.creatorIds != []
    && (forall i :: 0 <= i < |c.creatorIds| ==> Identity.ValidUuidText(CanonicalCreatorId(c.creatorIds[i])))
    && (forall i, j :: 0 <= i < j < |c.creatorIds| ==> CanonicalCreatorId(c.creatorIds[i]) != CanonicalCreatorId(c.creatorIds[j]))
    && ports.parseRights(c.rights).RightsRead?
    && (c.visibility == Public || c.visibility == Private)
    && ReadManifest(c.manifest).Ok?
    && var m := ReadManifest(c.manifest).manifest;
       && m.assetType == c.assetType
       && (forall i :: 0 <= i < |m.Pins()| ==> Identity.ParseDependencyPin(m.Pins()[i]) != Some((c.assetPid, Identity.Trim(c.version))))
       && IsSha256Hex(c.integrityHash) && c.integrityHash == ports.digest(CanonicalJson(m))
  }

  lemma RefIsOfKind(ref: string)
    ensures CanonicalRef(ref) <==> NamesSomething(ref)
    ensures PinsAccepted(ref) <==> RefOfKind(ref, Identity.Release) || RefOfKind(ref, Identity.State)
  {
    hide Identity.ParseOriginRef;
    var p := Identity.ParseOriginRef(ref);
    if p.Some? {
      assert p == Some((p.value.0, p.value.1));
      assert RefOfKind(ref, p.value.0);
    }
  }

  lemma SourceMeans(refs: seq<string>)
    ensures SourcePinned(refs)
       <==> && refs != []
            && (forall i :: 0 <= i < |refs| ==> NamesSomething(refs[i]))
            && (exists i :: 0 <= i < |refs| && (RefOfKind(refs[i], Identity.Release) || RefOfKind(refs[i], Identity.State)))
  {
    hide RefOfKind, CanonicalRef, PinsAccepted, NamesSomething;
    forall i | 0 <= i < |refs|
      ensures CanonicalRef(refs[i]) <==> NamesSomething(refs[i])
      ensures PinsAccepted(refs[i]) <==> RefOfKind(refs[i], Identity.Release) || RefOfKind(refs[i], Identity.State)
    {
      RefIsOfKind(refs[i]);
    }
  }

  /** The gate accepts exactly such candidates. */
  lemma AcceptsExactly(c: Candidate, ports: Ports)
    ensures GateErrors(c, ports) == [] <==> MayBeStored(c, ports)
  {
    hide GateErrors, Identity.ValidPid, Identity.ValidVersionLabel, Identity.ValidUuidText, CanonicalCreatorId, ReadManifest, CanonicalJson,
      IsSha256Hex, Identity.Trim, Identity.ParseDependencyPin, RefOfKind, SourcePinned, NamesSomething;
    GateExact(c, ports);
    SourceMeans(c.originRefs);
    CreatorsMean(c.creatorIds);
    hide CreatorsStorable;
    var m := ReadManifest(c.manifest);
    if m.Ok? {
      SelfMeans(m.manifest.Pins(), c.assetPid, c.version);
      hide NoSelfPin;
    }
  }

  lemma CreatorsMean(ids: seq<string>)
    ensures CreatorsStorable(ids)
       <==> && ids != []
            && (forall i :: 0 <= i < |ids| ==> Identity.ValidUuidText(CanonicalCreatorId(ids[i])))
            && (forall i, j :: 0 <= i < j < |ids| ==> CanonicalCreatorId(ids[i]) != CanonicalCreatorId(ids[j]))
  {
    hide Identity.ValidUuidText, CanonicalCreatorId;
  }

  lemma SelfMeans(pins: seq<string>, pid: string, version: string)
    ensures Identity.ValidPid(pid) ==>
              (NoSelfPin(pins, pid, version)
               <==> forall i :: 0 <= i < |pins| ==> Identity.ParseDependencyPin(pins[i]) != Some((pid, Identity.Trim(version))))
  {
    hide Identity.ParseDependencyPin, Identity.Trim, Identity.ValidPid;
  }

  /** What each fact of the checklist says. */
  lemma FactsExactly(c: Candidate, ports: Ports)
    ensures var f, m := FactsOf(c, ports), ReadManifest(c.manifest);
            && (f.sourcePinned <==>
                  && c.originRefs != [] && (forall i :: 0 <= i < |c.originRefs| ==> NamesSomething(c.originRefs[i]))
                  && (exists i :: 0 <= i < |c.originRefs| && (RefOfKind(c.originRefs[i], Identity.Release) || RefOfKind(c.originRefs[i], Identity.State))))
            && (f.versionPinned <==> Identity.ValidVersionLabel(c.version))
            && (f.contributors <==>
                  && c.creatorIds != [] && (forall i :: 0 <= i < |c.creatorIds| ==> Identity.ValidUuidText(CanonicalCreatorId(c.creatorIds[i])))
                  && (forall i, j :: 0 <= i < j < |c.creatorIds| ==> CanonicalCreatorId(c.creatorIds[i]) != CanonicalCreatorId(c.creatorIds[j])))
            && (f.rights <==> ports.parseRights(c.rights).RightsRead?)
            && (f.visibility <==> c.visibility == Public || c.visibility == Private)
            && (f.dependencyPins && Identity.ValidPid(c.assetPid) <==>
                  && m.Ok? && Identity.ValidPid(c.assetPid)
                  && forall i :: 0 <= i < |m.manifest.Pins()| ==>
                       Identity.ParseDependencyPin(m.manifest.Pins()[i]) != Some((c.assetPid, Identity.Trim(c.version))))
            && (f.integrityHash <==> m.Ok? && IsSha256Hex(c.integrityHash) && c.integrityHash == ports.digest(CanonicalJson(m.manifest)))
            && (f.metadata <==> m.Ok? && m.manifest.assetType == c.assetType)
  {
    hide Identity.ValidPid, Identity.ValidVersionLabel, Identity.ValidUuidText, CanonicalCreatorId, ReadManifest, CanonicalJson,
      IsSha256Hex, Identity.Trim, Identity.ParseDependencyPin, RefOfKind, SourcePinned, NamesSomething, CreatorsStorable;
    SourceMeans(c.originRefs);
    CreatorsMean(c.creatorIds);
    var m := ReadManifest(c.manifest);
    if m.Ok? {
      SelfMeans(m.manifest.Pins(), c.assetPid, c.version);
      hide NoSelfPin;
    }
  }

  /** An accepted candidate credits pairwise different users. */
  lemma AcceptedCreatorsDistinct(c: Candidate, ports: Ports, i: nat, j: nat)
    requires GateErrors(c, ports) == [] && i < j < |c.creatorIds|
    ensures CanonicalCreatorId(c.creatorIds[i]) != CanonicalCreatorId(c.creatorIds[j])
  {
    hide GateErrors;
    GateExact(c, ports);
  }

  // ---------------------------------------------------------------- the method

  /** What the gate hands on: the facts, the parsed manifest, its canonical bytes, the refusals. */
  datatype GateResult = GateResult(facts: Facts, manifest: Manifest, manifestJson: string, errors: seq<Refusal>)

  lemma CanonicalNotEmpty(m: Manifest)
    ensures CanonicalJson(m) != ""
  {
    hide ToJson, PinItems, IntText, Json.PrintMembers;
  }

  method ValidateSelfPin(pins: seq<string>, pid: string, version: string) returns (errors: seq<Refusal>)
    ensures errors == SelfErrors(pins, pid, version)
  {
    hide Identity.ValidPid, Identity.ParseDependencyPin, Identity.Trim, PinRefusals;
    if !Identity.ValidPid(pid) {
      return [];
    }
    for i := 0 to |pins|
      invariant SelfErrors(pins[..i], pid, version) == []
    {
      assert pins[..i + 1][..i] == pins[..i];
      if Identity.ParseDependencyPin(pins[i]) == Some((pid, Identity.Trim(version))) {
        SelfErrorsStay(pins, i + 1, pid, version);
        return PinRefusals([Identity.SelfPin(i)]);
      }
    }
    assert pins[..|pins|] == pins;
    return [];
  }

  lemma {:induction false} SelfErrorsStay(pins: seq<string>, n: nat, pid: string, version: string)
    requires n <= |pins| && SelfErrors(pins[..n], pid, version) != []
    ensures SelfErrors(pins, pid, version) == SelfErrors(pins[..n], pid, version)
  {
    hide Identity.ValidPid, Identity.ParseDependencyPin, Identity.Trim, PinRefusals;
    if n < |pins| {
      var before := pins[..|pins| - 1];
      assert before[..n] == pins[..n];
      SelfErrorsStay(before, n, pid, version);
    } else {
      assert pins[..n] == pins;
    }
  }

  /** The document rules: the manifest parses, is of the asset's type and does not pin itself. */
  method CheckManifest(c: Candidate) returns (manifest: Manifest, canonical: string, metadata: bool, dependencyPins: bool, errors: seq<Refusal>)
    ensures errors == ManifestErrors(c)
    ensures var m := ReadManifest(c.manifest);
            if m.Ok? then
              && manifest == m.manifest && canonical == CanonicalJson(m.manifest) && canonical != ""
              && metadata == (manifest.assetType == c.assetType)
              && dependencyPins == NoSelfPin(manifest.Pins(), c.assetPid, c.version)
            else manifest == ZERO && canonical == "" && !metadata && !dependencyPins
  {
    hide ReadManifest, CanonicalJson, SelfErrors, NoSelfPin;
    manifest, canonical, metadata, dependencyPins := ZERO, "", false, false;
    match ReadManifest(c.manifest) {
      case Refused(refusals) =>
        errors := refusals;
      case Ok(m) =>
        manifest, canonical := m, CanonicalJson(m);
        CanonicalNotEmpty(m);
        metadata := m.assetType == c.assetType;
        errors := if metadata then [] else [Refusal(ManifestTypeMismatch, "asset_type")];
        var selfErrors := ValidateSelfPin(m.Pins(), c.assetPid, c.version);
        SelfErrorsExact(m.Pins(), c.assetPid, c.version);
        dependencyPins := selfErrors == [];
        errors := errors + selfErrors;
    }
  }

  /** The hash is well formed and, when there is a document to cover, covers it. */
  method ValidateIntegrityHash(c: Candidate, canonical: string, digest: string -> string) returns (covers: bool, errors: seq<Refusal>)
    requires var m := ReadManifest(c.manifest);
             if m.Ok? then canonical == CanonicalJson(m.manifest) && canonical != "" else canonical == ""
    ensures errors == HashErrors(c, digest)
    ensures covers == (canonical != "" && IsSha256Hex(c.integrityHash) && c.integrityHash == digest(canonical))
  {
    hide ReadManifest, CanonicalJson, IsSha256Hex;
    if !IsSha256Hex(c.integrityHash) {
      return false, [Refusal(InvalidIntegrityHash, "integrity_hash")];
    }
    if canonical == "" {
      return false, [];
    }
    covers := c.integrityHash == digest(canonical);
    errors := if covers then [] else [Refusal(IntegrityHashMismatch, "integrity_hash")];
  }

  /** The checklist, rule by rule: every refusal in one pass, the facts in any case. */
  method RunGate(c: Candidate, ports: Ports) returns (res: GateResult)
    ensures res.facts == FactsOf(c, ports)
    ensures res.errors == GateErrors(c, ports)
    ensures var m := ReadManifest(c.manifest);
            if m.Ok? then res.manifest == m.manifest && res.manifestJson == CanonicalJson(m.manifest)
            else res.manifest == ZERO && res.manifestJson == ""
  {
    hide Identity.ValidPid, Identity.ValidVersionLabel, SourcePinned, CreatorsStorable, ReadManifest, CanonicalJson, IsSha256Hex,
      NoSelfPin, IdentityErrors, ProvenanceErrors, RightsErrors, VisibilityErrors, ManifestErrors, HashErrors, CreatorErrors;
    var errors := IdentityErrors(c);
    var sourcePinned, refErrors := ValidateProvenance(c.originRefs);
    errors := errors + refErrors;
    var rights := ports.parseRights(c.rights).RightsRead?;
    errors := errors + RightsErrors(c, ports);
    errors := errors + VisibilityErrors(c);
    var manifest, canonical, metadata, dependencyPins, documentErrors := CheckManifest(c);
    errors := errors + documentErrors;
    var integrityHash, hashErrors := ValidateIntegrityHash(c, canonical, ports.digest);
    errors := errors + hashErrors;
    var creatorErrors := CreatorIdsRefusal(c.creatorIds);
    CreatorErrorsExact(c.creatorIds);
    errors := errors + creatorErrors;
    var facts := Facts(sourcePinned, Identity.ValidVersionLabel(c.version), creatorErrors == [], rights, !c.visibility.Other?,
                       dependencyPins, integrityHash, metadata);
    res := GateResult(facts, manifest, canonical, errors);
  }

  /** Gating the stored bytes again: same facts, same refusals, same bytes. */
  lemma RegateStable(c: Candidate, ports: Ports)
    requires ReadManifest(c.manifest).Ok?
    ensures var m := ReadManifest(c.manifest).manifest;
            var stored := c.(manifest := CanonicalJson(m));
            && ReadManifest(stored.manifest) == Ok(m.Normalized())
            && CanonicalJson(m.Normalized()) == CanonicalJson(m)
            && FactsOf(stored, ports) == FactsOf(c, ports)
            && GateErrors(stored, ports) == GateErrors(c, ports)
  {
    hide Identity.ValidPid, Identity.ValidVersionLabel, SourcePinned, CreatorsStorable, CanonicalJson,
      IsSha256Hex, NoSelfPin, ProvenanceErrors, CreatorErrors, SelfErrors, Identity.Trim, ParseManifest, Valid;
    var m := ReadManifest(c.manifest).manifest;
    ReparseStable(c.manifest, ports.digest);
    NormalizedValid(m);
    CanonicalNotBlank(m);
  }

  lemma CanonicalNotBlank(m: Manifest)
    ensures Identity.Trim(CanonicalJson(m)) != ""
  {
    hide ToJson, PinItems, IntText, Json.PrintMembers;
    var s := CanonicalJson(m);
    assert s[0] == '{' && !Identity.IsSpace('{');
    hide CanonicalJson;
    Identity.TrimKeepsStart(s);
  }
}
