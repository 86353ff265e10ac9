/** The publication impact preview: what a publish would expose, what it leans on that is
    not exposed, and why it cannot execute — saying nothing about other private projects. */
module Preview {
  import opened Options
  import opened Gate
  import opened Manifest
  import Identity

  // ---------------------------------------------------------------- the state

  datatype StoredAsset = StoredAsset(assetType: string, title: string, originProjectId: string, originProjectVisibility: Visibility)

  datatype StoredPin = StoredPin(pin: string, visibility: Visibility)

  datatype StoredObject = StoredObject(objectVersionId: string, objectId: string, title: string)

  datatype StoredRef = StoredRef(ref: string, resolved: bool, projectId: string, projectVisibility: Visibility, carried: Option<StoredObject>)

  datatype StoredBlob = StoredBlob(blobId: string, access: DataAccess)

  /** What a reader found for everything the candidate names. */
  datatype State = State(asset: Option<StoredAsset>, pins: seq<StoredPin>, refs: seq<StoredRef>, blobs: seq<StoredBlob>)

  datatype Request = Request(projectId: string, candidate: Candidate)

  // ---------------------------------------------------------------- the answer

  datatype PreviewCode = AssetUnknown | AssetTypeMismatch | AssetProjectMismatch | RefUnresolved | PinUnresolved

  /** A project as a sentence may speak of it. */
  datatype Named = Project(id: string) | AnotherPrivateProject

  /** What a sentence says, with everything it mentions; the wording is a rendering of this. */
  datatype Detail =
    | NoSuchAsset(pid: string)
    | WrongType(stored: string, declared: string)
    | WrongProject(owner: Named, publishing: string)
    | NothingBehind(ref: string)
    | PointsInto(owner: Named)
    | OwnPrivateProject
    | Discloses(owner: Named)
    | NoSuchVersion(pin: string)
    | PrivateVersion(exposed: bool)
    | ClosedBlob(promisedOpen: bool)
    | BlobNamed

  datatype Blocker =
    | GateBlocker(refusal: Refusal)
    | PreviewBlocker(code: PreviewCode, detail: Detail)
    | RightsMissing
    | RightsBlocker(fault: RightsRefusal)

  datatype PreviewAsset = PreviewAsset(pid: string, assetType: string, resolved: bool, title: string, originProjectId: string)

  datatype PreviewObject = PreviewObject(objectVersionId: string, objectId: string, projectId: string, title: string, visibility: Option<Visibility>)

  datatype PreviewBlob = PreviewBlob(blobId: string, resolved: bool, current: Option<DataAccess>, declared: DataAccess)

  datatype PreviewRef = PreviewRef(ref: string, kind: Option<Identity.OriginKind>, resolved: bool, projectId: string, visibility: Option<Visibility>)

  datatype PreviewDependency = PreviewDependency(pin: string, resolved: bool, visibility: Option<Visibility>)

  datatype DependencyKind = RefKind(origin: Option<Identity.OriginKind>) | AssetVersionKind | BlobKind

  datatype PrivateDependency = PrivateDependency(kind: DependencyKind, ref: string, blocking: bool, detail: Detail)

  datatype PreviewMetadata = PreviewMetadata(key: string, value: Value)

  datatype ImpactPreview = ImpactPreview(
    projectId: string,
    version: string,
    targetVisibility: Visibility,
    asset: PreviewAsset,
    facts: Facts,
    publishable: bool,
    objects: seq<PreviewObject>,
    metadata: seq<PreviewMetadata>,
    blobs: seq<PreviewBlob>,
    refs: seq<PreviewRef>,
    dependencies: seq<PreviewDependency>,
    privateDependencies: seq<PrivateDependency>,
    publishBlockers: seq<Blocker>,
    rightsBlockers: seq<Blocker>)

  // ---------------------------------------------------------------- what may be named

  /** The identity of an owner may be rendered: the publishing project itself, or a public one. */
  predicate MayRenderProject(publishing: string, owner: string, visibility: Visibility) {
    owner != "" && (owner == publishing || visibility == Public)
  }

  function ProjectNamed(publishing: string, owner: string, visibility: Visibility): Named {
    if MayRenderProject(publishing, owner, visibility) then Project(owner) else AnotherPrivateProject
  }

  function AssetEntry(req: Request, state: State): PreviewAsset {
    var c := req.candidate;
    match state.asset
    case None => PreviewAsset(c.assetPid, c.assetType, false, "", "")
    case Some(a) =>
      if MayRenderProject(req.projectId, a.originProjectId, a.originProjectVisibility)
      then PreviewAsset(c.assetPid, c.assetType, true, a.title, a.originProjectId)
      else PreviewAsset(c.assetPid, c.assetType, true, "", "")
  }

  function AssetBlockers(req: Request, state: State): seq<Blocker> {
    var c := req.candidate;
    match state.asset
    case None => [PreviewBlocker(AssetUnknown, NoSuchAsset(c.assetPid))]
    case Some(a) =>
      (if a.assetType != c.assetType then [PreviewBlocker(AssetTypeMismatch, WrongType(a.assetType, c.assetType))] else [])
      + (if a.originProjectId != req.projectId then
           [PreviewBlocker(AssetProjectMismatch,
              WrongProject(ProjectNamed(req.projectId, a.originProjectId, a.originProjectVisibility), req.projectId))]
         else [])
  }

  // ---------------------------------------------------------------- refs

  function KindOf(raw: string): Option<Identity.OriginKind> {
    match Identity.ParseOriginRef(raw)
    case None => None
    case Some(r) => Some(r.0)
  }

  function RefEntry(raw: string, st: StoredRef, publishing: string): PreviewRef {
    if st.resolved && MayRenderProject(publishing, st.projectId, st.projectVisibility)
    then PreviewRef(raw, KindOf(raw), true, st.projectId, Some(st.projectVisibility))
    else PreviewRef(raw, KindOf(raw), st.resolved, "", None)
  }

  function ObjectEntry(obj: StoredObject, st: StoredRef, publishing: string): PreviewObject {
    if MayRenderProject(publishing, st.projectId, st.projectVisibility)
    then PreviewObject(obj.objectVersionId, obj.objectId, st.projectId, obj.title, Some(st.projectVisibility))
    else PreviewObject(obj.objectVersionId, "", "", "", None)
  }

  predicate Listed(seen: seq<PreviewObject>, id: string) {
    exists i :: 0 <= i < |seen| && seen[i].objectVersionId == id
  }

  function AppendObject(seen: seq<PreviewObject>, obj: StoredObject, st: StoredRef, publishing: string): seq<PreviewObject> {
    if Listed(seen, obj.objectVersionId) then seen else seen + [ObjectEntry(obj, st, publishing)]
  }

  function RefDetail(raw: string, st: StoredRef, publishing: string, widens: bool): Detail {
    var owner := ProjectNamed(publishing, st.projectId, st.projectVisibility);
    if !st.resolved then NothingBehind(raw)
    else if !widens then PointsInto(owner)
    else if st.projectId == publishing then OwnPrivateProject
    else Discloses(owner)
  }

  /** A ref the network cannot see today, and whether it blocks this publication. */
  function RefDependency(raw: string, st: StoredRef, publishing: string, widens: bool): Option<PrivateDependency> {
    if st.resolved && st.projectVisibility != Private then None
    else
      var blocking := !st.resolved || (widens && st.projectId != publishing);
      Some(PrivateDependency(RefKind(KindOf(raw)), raw, blocking, RefDetail(raw, st, publishing, widens)))
  }

  function RefUnresolvedBlocker(raw: string): Blocker {
    PreviewBlocker(RefUnresolved, NothingBehind(raw))
  }

  /** The index of the reader's answers; of repeated answers the last one stands. */
  function IndexRefs(refs: seq<StoredRef>): map<string, StoredRef> {
    if refs == [] then map[]
    else IndexRefs(refs[..|refs| - 1])[refs[|refs| - 1].ref := refs[|refs| - 1]]
  }

  /** Every canonical ref of the candidate is answered for. */
  predicate Complete(refs: seq<string>, index: map<string, StoredRef>) {
    forall i :: 0 <= i < |refs| && CanonicalRef(refs[i]) ==> refs[i] in index
  }

  datatype RefsPart = RefsPart(refs: seq<PreviewRef>, blockers: seq<Blocker>, objects: seq<PreviewObject>, deps: seq<PrivateDependency>)

  function RefStep(part: RefsPart, raw: string, index: map<string, StoredRef>, publishing: string, widens: bool): RefsPart {
    if raw !in index then part.(refs := part.refs + [PreviewRef(raw, None, false, "", None)])
    else
      var st := index[raw];
      var dep := RefDependency(raw, st, publishing, widens);
      RefsPart(
        part.refs + [RefEntry(raw, st, publishing)],
        if st.resolved then part.blockers else part.blockers + [RefUnresolvedBlocker(raw)],
        if st.resolved && st.carried.Some? then AppendObject(part.objects, st.carried.value, st, publishing) else part.objects,
        if dep.Some? then part.deps + [dep.value] else part.deps)
  }

  function RefsOf(refs: seq<string>, index: map<string, StoredRef>, publishing: string, widens: bool): RefsPart {
    if refs == [] then RefsPart([], [], [], [])
    else RefStep(RefsOf(refs[..|refs| - 1], index, publishing, widens), refs[|refs| - 1], index, publishing, widens)
  }

  // ---------------------------------------------------------------- pins

  function IndexPins(pins: seq<StoredPin>): map<string, StoredPin> {
    if pins == [] then map[]
    else IndexPins(pins[..|pins| - 1])[pins[|pins| - 1].pin := pins[|pins| - 1]]
  }

  datatype PinsPart = PinsPart(dependencies: seq<PreviewDependency>, blockers: seq<Blocker>, deps: seq<PrivateDependency>)

  function PinUnresolvedBlocker(pin: string): Blocker {
    PreviewBlocker(PinUnresolved, NoSuchVersion(pin))
  }

  function PinDependency(pin: string, found: bool, widens: bool): PrivateDependency {
    PrivateDependency(AssetVersionKind, pin, !found || widens, if found then PrivateVersion(widens) else NoSuchVersion(pin))
  }

  function PinStep(part: PinsPart, pin: string, index: map<string, StoredPin>, widens: bool): PinsPart {
    if pin !in index then
      PinsPart(
        part.dependencies + [PreviewDependency(pin, false, None)],
        part.blockers + [PinUnresolvedBlocker(pin)],
        part.deps + [PinDependency(pin, false, widens)])
    else
      var v := index[pin].visibility;
      PinsPart(
        part.dependencies + [PreviewDependency(pin, true, Some(v))],
        part.blockers,
        if v != Private then part.deps else part.deps + [PinDependency(pin, true, widens)])
  }

  function PinsOf(pins: seq<string>, index: map<string, StoredPin>, widens: bool): PinsPart {
    if pins == [] then PinsPart([], [], [])
    else PinStep(PinsOf(pins[..|pins| - 1], index, widens), pins[|pins| - 1], index, widens)
  }

  // ---------------------------------------------------------------- blobs

  function IndexBlobs(blobs: seq<StoredBlob>): map<string, StoredBlob> {
    if blobs == [] then map[]
    else IndexBlobs(blobs[..|blobs| - 1])[blobs[|blobs| - 1].blobId := blobs[|blobs| - 1]]
  }

  /** The texts of a list value, in order. */
  function Texts(items: seq<Value>): seq<string> {
    if items == [] then []
    else Texts(items[..|items| - 1]) + if items[|items| - 1].Text? then [items[|items| - 1].s] else []
  }

  /** First occurrences, the empty string left out. */
  function Distinct(ids: seq<string>): seq<string> {
    if ids == [] then []
    else
      var before, id := Distinct(ids[..|ids| - 1]), ids[|ids| - 1];
      if id == "" || id in before then before else before + [id]
  }

  /** The blob ids a manifest declares. */
  function DeclaredBlobIds(metadata: Metadata): seq<string> {
    if "blob_ids" !in metadata then []
    else
      match metadata["blob_ids"]
      case Text(s) => Distinct([s])
      case List(items) => Distinct(Texts(items))
      case _ => []
  }

  /** The access the version's documents promise: open when either says so. */
  function PromisedAccess(metadata: Metadata, rights: RightsResult): DataAccess {
    if rights.RightsRead? && rights.document.dataAccess == Open then Open
    else if "access_level" in metadata && metadata["access_level"] == Text("open") then Open
    else Restricted
  }

  datatype BlobsPart = BlobsPart(blobs: seq<PreviewBlob>, deps: seq<PrivateDependency>)

  predicate IsOpen(id: string, index: map<string, StoredBlob>) {
    id in index && index[id].access == Open
  }

  function BlobDependency(id: string, promised: DataAccess, widens: bool): PrivateDependency {
    PrivateDependency(BlobKind, id, widens && promised == Open, if widens then ClosedBlob(promised == Open) else BlobNamed)
  }

  function BlobStep(part: BlobsPart, id: string, index: map<string, StoredBlob>, promised: DataAccess, widens: bool): BlobsPart {
    BlobsPart(
      part.blobs + [PreviewBlob(id, id in index, if id in index then Some(index[id].access) else None, promised)],
      if IsOpen(id, index) then part.deps else part.deps + [BlobDependency(id, promised, widens)])
  }

  function BlobsOf(ids: seq<string>, index: map<string, StoredBlob>, promised: DataAccess, widens: bool): BlobsPart {
    if ids == [] then BlobsPart([], [])
    else BlobStep(BlobsOf(ids[..|ids| - 1], index, promised, widens), ids[|ids| - 1], index, promised, widens)
  }

  // ---------------------------------------------------------------- the preview

  /** The gate's refusals, those about the rights document left to the rights list. */
  function GateBlockers(errors: seq<Refusal>): seq<Blocker> {
    if errors == [] then []
    else
      var last := errors[|errors| - 1];
      GateBlockers(errors[..|errors| - 1]) + if IsRightsCode(last.code) then [] else [GateBlocker(last)]
  }

  function RightsBlockers(raw: string, rights: RightsResult): seq<Blocker> {
    match rights
    case RightsRead(_) => []
    case RightsRefused(r) => if Identity.Trim(raw) == "" then [RightsMissing] else [RightsBlocker(r)]
  }

  function MetadataEntries(metadata: Metadata): (r: seq<PreviewMetadata>)
    ensures |r| == |SortedKeys(metadata.Keys)|
  {
    var keys := SortedKeys(metadata.Keys);
    seq(|keys|, i requires 0 <= i < |keys| => assert keys[i] in keys; PreviewMetadata(keys[i], metadata[keys[i]]))
  }

  predicate AnyBlocking(deps: seq<PrivateDependency>) {
    exists i :: 0 <= i < |deps| && deps[i].blocking
  }

  /** The manifest the gate hands on: the parsed one, or the zero value. */
  function GateManifest(c: Candidate): Manifest {
    match ReadManifest(c.manifest)
    case Ok(m) => m
    case Refused(_) => ZERO
  }

  /** The whole answer, or none when the state does not answer for every ref. */
  ghost function PreviewOf(req: Request, state: State, ports: Ports): Option<ImpactPreview> {
    var c := req.candidate;
    var index := IndexRefs(state.refs);
    if !Complete(c.originRefs, index) then None
    else
      var widens := c.visibility == Public;
      var rights := ports.parseRights(c.rights);
      var m := GateManifest(c);
      var r := RefsOf(c.originRefs, index, req.projectId, widens);
      var p := PinsOf(m.Pins(), IndexPins(state.pins), widens);
      var b := BlobsOf(DeclaredBlobIds(m.Block()), IndexBlobs(state.blobs), PromisedAccess(m.Block(), rights), widens);
      var blockers := GateBlockers(GateErrors(c, ports)) + AssetBlockers(req, state) + r.blockers + p.blockers;
      var rightsBlockers := RightsBlockers(c.rights, rights);
      var deps := r.deps + p.deps + b.deps;
      Some(ImpactPreview(
        req.projectId, c.version, c.visibility, AssetEntry(req, state), FactsOf(c, ports),
        blockers == [] && rightsBlockers == [] && !AnyBlocking(deps),
        r.objects, MetadataEntries(m.Block()), b.blobs, r.refs, p.dependencies, deps, blockers, rightsBlockers))
  }

  // ---------------------------------------------------------------- the loops

  method IndexRefsOf(refs: seq<StoredRef>) returns (index: map<string, StoredRef>)
    ensures index == IndexRefs(refs)
  {
    index := map[];
    for i := 0 to |refs|
      invariant index == IndexRefs(refs[..i])
    {
      assert refs[..i + 1][..i] == refs[..i];
      index := index[refs[i].ref := refs[i]];
    }
    assert refs[..|refs|] == refs;
  }

  method IndexPinsOf(pins: seq<StoredPin>) returns (index: map<string, StoredPin>)
    ensures index == IndexPins(pins)
  {
    index := map[];
    for i := 0 to |pins|
      invariant index == IndexPins(pins[..i])
    {
      assert pins[..i + 1][..i] == pins[..i];
      index := index[pins[i].pin := pins[i]];
    }
    assert pins[..|pins|] == pins;
  }

  method IndexBlobsOf(blobs: seq<StoredBlob>) returns (index: map<string, StoredBlob>)
    ensures index == IndexBlobs(blobs)
  {
    index := map[];
    for i := 0 to |blobs|
      invariant index == IndexBlobs(blobs[..i])
    {
      assert blobs[..i + 1][..i] == blobs[..i];
      index := index[blobs[i].blobId := blobs[i]];
    }
    assert blobs[..|blobs|] == blobs;
  }

  method DeclaredIds(metadata: Metadata) returns (ids: seq<string>)
    ensures ids == DeclaredBlobIds(metadata)
  {
    if "blob_ids" !in metadata {
      return [];
    }
    var raw: seq<string> := [];
    match metadata["blob_ids"] {
      case Text(s) => raw := [s];
      case List(items) =>
        for i := 0 to |items|
          invariant raw == Texts(items[..i])
        {
          assert items[..i + 1][..i] == items[..i];
          if items[i].Text? {
            raw := raw + [items[i].s];
          }
        }
        assert items[..|items|] == items;
      case _ => return [];
    }
    var seen: set<string> := {};
    ids := [];
    for i := 0 to |raw|
      invariant ids == Distinct(raw[..i])
      invariant forall id :: id in seen <==> id in ids
    {
      assert raw[..i + 1][..i] == raw[..i];
      if raw[i] != "" && raw[i] !in seen {
        seen := seen + {raw[i]};
        ids := ids + [raw[i]];
      }
    }
    assert raw[..|raw|] == raw;
  }

  /** The loop over the origin refs. */
  method RefsLoop(refs: seq<string>, index: map<string, StoredRef>, publishing: string, widens: bool) returns (part: RefsPart)
    ensures part == RefsOf(refs, index, publishing, widens)
  {
    hide RefEntry, RefUnresolvedBlocker, AppendObject, RefDependency;
    var entries, blockers, objects, deps := [], [], [], [];
    for i := 0 to |refs|
      invariant RefsPart(entries, blockers, objects, deps) == RefsOf(refs[..i], index, publishing, widens)
    {
      assert refs[..i + 1][..i] == refs[..i];
      var raw := refs[i];
      if raw !in index {
        entries := entries + [PreviewRef(raw, None, false, "", None)];
        continue;
      }
      var st := index[raw];
      entries := entries + [RefEntry(raw, st, publishing)];
      if !st.resolved {
        blockers := blockers + [RefUnresolvedBlocker(raw)];
      } else if st.carried.Some? {
        objects := AppendObject(objects, st.carried.value, st, publishing);
      }
      var dep := RefDependency(raw, st, publishing, widens);
      if dep.Some? {
        deps := deps + [dep.value];
      }
    }
    assert refs[..|refs|] == refs;
    part := RefsPart(entries, blockers, objects, deps);
  }

  /** The loop over the dependency pins. */
  method PinsLoop(pins: seq<string>, index: map<string, StoredPin>, widens: bool) returns (part: PinsPart)
    ensures part == PinsOf(pins, index, widens)
  {
    hide PinDependency, PinUnresolvedBlocker;
    var entries, blockers, deps := [], [], [];
    for i := 0 to |pins|
      invariant PinsPart(entries, blockers, deps) == PinsOf(pins[..i], index, widens)
    {
      assert pins[..i + 1][..i] == pins[..i];
      var pin := pins[i];
      if pin !in index {
        entries := entries + [PreviewDependency(pin, false, None)];
        blockers := blockers + [PinUnresolvedBlocker(pin)];
        deps := deps + [PinDependency(pin, false, widens)];
        continue;
      }
      entries := entries + [PreviewDependency(pin, true, Some(index[pin].visibility))];
      if index[pin].visibility == Private {
        deps := deps + [PinDependency(pin, true, widens)];
      }
    }
    assert pins[..|pins|] == pins;
    part := PinsPart(entries, blockers, deps);
  }

  /** The loop over the declared blobs. */
  method BlobsLoop(ids: seq<string>, index: map<string, StoredBlob>, promised: DataAccess, widens: bool) returns (part: BlobsPart)
    ensures part == BlobsOf(ids, index, promised, widens)
  {
    hide BlobDependency;
    var entries, deps := [], [];
    for i := 0 to |ids|
      invariant BlobsPart(entries, deps) == BlobsOf(ids[..i], index, promised, widens)
    {
      assert ids[..i + 1][..i] == ids[..i];
      var id := ids[i];
      entries := entries + [PreviewBlob(id, id in index, if id in index then Some(index[id].access) else None, promised)];
      if id in index && index[id].access == Open {
        continue;
      }
      deps := deps + [BlobDependency(id, promised, widens)];
    }
    assert ids[..|ids|] == ids;
    part := BlobsPart(entries, deps);
  }

  method CheckComplete(refs: seq<string>, index: map<string, StoredRef>) returns (complete: bool)
    ensures complete == Complete(refs, index)
  {
    hide CanonicalRef;
    for i := 0 to |refs|
      invariant forall j :: 0 <= j < i && CanonicalRef(refs[j]) ==> refs[j] in index
    {
      if CanonicalRef(refs[i]) && refs[i] !in index {
        return false;
      }
    }
    return true;
  }

  /** Builds the preview of one proposed publish against the current state. */
  method BuildPreview(req: Request, state: State, ports: Ports) returns (out: Option<ImpactPreview>)
    ensures out == PreviewOf(req, state, ports)
  {
    hide RefsOf, PinsOf, BlobsOf, IndexRefs, IndexPins, IndexBlobs, DeclaredBlobIds, PromisedAccess, GateErrors, FactsOf, ReadManifest,
      CanonicalJson, GateBlockers, AssetBlockers, RightsBlockers, MetadataEntries, AnyBlocking, AssetEntry, Complete;
    var c := req.candidate;
    var gate := RunGate(c, ports);
    var rights := ports.parseRights(c.rights);
    var widens := c.visibility == Public;
    var blockers := GateBlockers(gate.errors) + AssetBlockers(req, state);
    var index := IndexRefsOf(state.refs);
    var complete := CheckComplete(c.originRefs, index);
    if !complete {
      return None;
    }
    var r := RefsLoop(c.originRefs, index, req.projectId, widens);
    blockers := blockers + r.blockers;
    var pins := IndexPinsOf(state.pins);
    var p := PinsLoop(gate.manifest.Pins(), pins, widens);
    blockers := blockers + p.blockers;
    var blobs := IndexBlobsOf(state.blobs);
    var ids := DeclaredIds(gate.manifest.Block());
    var b := BlobsLoop(ids, blobs, PromisedAccess(gate.manifest.Block(), rights), widens);
    var deps := r.deps + p.deps + b.deps;
    var rightsBlockers := RightsBlockers(c.rights, rights);
    out := Some(ImpactPreview(
      req.projectId, c.version, c.visibility, AssetEntry(req, state), gate.facts,
      blockers == [] && rightsBlockers == [] && !AnyBlocking(deps),
      r.objects, MetadataEntries(gate.manifest.Block()), b.blobs, r.refs, p.dependencies, deps, blockers, rightsBlockers));
  }
}
