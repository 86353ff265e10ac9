/** What the preview guarantees: it tells nothing about other private projects, and its
    verdict is exactly the stated conditions. */
module PreviewProofs {
  import opened Options
  import opened Preview
  import opened Gate
  import opened Manifest
  import Identity
  import Json

  // ---------------------------------------------------------------- non-interference

  /** An owner that is neither the publishing project nor one that may be rendered. */
  ghost predicate Hidden(publishing: string, owner: string, visibility: Visibility) {
    owner != publishing && !MayRenderProject(publishing, owner, visibility)
  }

  /** Two assets that differ at most in the title and the project of a hidden owner. */
  ghost predicate AssetsAlike(publishing: string, a: Option<StoredAsset>, b: Option<StoredAsset>) {
    a == b ||
    (&& a.Some? && b.Some? && a.value.assetType == b.value.assetType
     && Hidden(publishing, a.value.originProjectId, a.value.originProjectVisibility)
     && Hidden(publishing, b.value.originProjectId, b.value.originProjectVisibility))
  }

  ghost predicate ObjectsAlike(a: Option<StoredObject>, b: Option<StoredObject>) {
    a == b || (a.Some? && b.Some? && a.value.objectVersionId == b.value.objectVersionId)
  }

  /** Two resolutions of one ref that differ at most in a hidden project's id, its object's
      id and its title. */
  ghost predicate RefsAlike(publishing: string, a: StoredRef, b: StoredRef) {
    a == b ||
    (&& a.ref == b.ref && a.resolved && b.resolved
     && Hidden(publishing, a.projectId, a.projectVisibility) && Hidden(publishing, b.projectId, b.projectVisibility)
     && (a.projectVisibility == Private <==> b.projectVisibility == Private)
     && ObjectsAlike(a.carried, b.carried))
  }

  /** Two states nobody who may read only the publishing project should tell apart. */
  ghost predicate StatesAlike(publishing: string, s: State, t: State) {
    && AssetsAlike(publishing, s.asset, t.asset)
    && s.pins == t.pins && s.blobs == t.blobs
    && |s.refs| == |t.refs| && forall i :: 0 <= i < |s.refs| ==> RefsAlike(publishing, s.refs[i], t.refs[i])
  }

  ghost predicate IndexesAlike(publishing: string, a: map<string, StoredRef>, b: map<string, StoredRef>) {
    a.Keys == b.Keys && forall k :: k in a ==> RefsAlike(publishing, a[k], b[k])
  }

  lemma {:induction false} IndexAlike(publishing: string, a: seq<StoredRef>, b: seq<StoredRef>)
    requires |a| == |b| && forall i :: 0 <= i < |a| ==> RefsAlike(publishing, a[i], b[i])
    ensures IndexesAlike(publishing, IndexRefs(a), IndexRefs(b))
  {
    hide RefsAlike;
    if a != [] {
      var i := |a| - 1;
      IndexAlike(publishing, a[..i], b[..i]);
      assert RefsAlike(publishing, a[i], b[i]);
      SameRef(publishing, a[i], b[i]);
    }
  }

  lemma SameRef(publishing: string, a: StoredRef, b: StoredRef)
    requires RefsAlike(publishing, a, b)
    ensures a.ref == b.ref && a.resolved == b.resolved && (a.carried.Some? <==> b.carried.Some?)
  {
  }

  lemma EntryAlike(raw: string, a: StoredRef, b: StoredRef, publishing: string)
    requires RefsAlike(publishing, a, b)
    ensures RefEntry(raw, a, publishing) == RefEntry(raw, b, publishing)
  {
    hide KindOf;
  }

  lemma DependencyAlike(raw: string, a: StoredRef, b: StoredRef, publishing: string, widens: bool)
    requires RefsAlike(publishing, a, b)
    ensures RefDependency(raw, a, publishing, widens) == RefDependency(raw, b, publishing, widens)
  {
    hide KindOf;
    if a != b {
      assert ProjectNamed(publishing, a.projectId, a.projectVisibility) == ProjectNamed(publishing, b.projectId, b.projectVisibility);
    }
  }

  lemma AppendAlike(seen: seq<PreviewObject>, a: StoredRef, b: StoredRef, publishing: string)
    requires RefsAlike(publishing, a, b) && a.carried.Some? && b.carried.Some?
    ensures AppendObject(seen, a.carried.value, a, publishing) == AppendObject(seen, b.carried.value, b, publishing)
  {
  }

  lemma RefStepAlike(part: RefsPart, raw: string, a: map<string, StoredRef>, b: map<string, StoredRef>,
                                        publishing: string, widens: bool)
    requires IndexesAlike(publishing, a, b)
    ensures RefStep(part, raw, a, publishing, widens) == RefStep(part, raw, b, publishing, widens)
  {
    hide RefsAlike, RefEntry, RefDependency, AppendObject, RefUnresolvedBlocker;
    if raw in a {
      SameRef(publishing, a[raw], b[raw]);
      EntryAlike(raw, a[raw], b[raw], publishing);
      DependencyAlike(raw, a[raw], b[raw], publishing, widens);
      if a[raw].carried.Some? {
        AppendAlike(part.objects, a[raw], b[raw], publishing);
      }
    }
  }

  lemma {:induction false} RefsOfAlike(refs: seq<string>, a: map<string, StoredRef>, b: map<string, StoredRef>,
                                       publishing: string, widens: bool)
    requires IndexesAlike(publishing, a, b)
    ensures RefsOf(refs, a, publishing, widens) == RefsOf(refs, b, publishing, widens)
  {
    hide RefStep, RefsAlike;
    if refs != [] {
      var before := refs[..|refs| - 1];
      RefsOfAlike(before, a, b, publishing, widens);
      RefStepAlike(RefsOf(before, a, publishing, widens), refs[|refs| - 1], a, b, publishing, widens);
    }
  }

  lemma AssetEntryAlike(req: Request, s: State, t: State)
    requires AssetsAlike(req.projectId, s.asset, t.asset)
    ensures AssetEntry(req, s) == AssetEntry(req, t)
  {
  }

  lemma AssetBlockersAlike(req: Request, s: State, t: State)
    requires AssetsAlike(req.projectId, s.asset, t.asset)
    ensures AssetBlockers(req, s) == AssetBlockers(req, t)
  {
    if s.asset != t.asset {
      var a, b := s.asset.value, t.asset.value;
      assert ProjectNamed(req.projectId, a.originProjectId, a.originProjectVisibility)
          == ProjectNamed(req.projectId, b.originProjectId, b.originProjectVisibility);
    }
  }

  /** Non-interference: the whole preview, every sentence included, is the same for two
      states that differ only in what other private projects keep to themselves. */
  lemma PreviewNonInterference(req: Request, s: State, t: State, ports: Ports)
    requires StatesAlike(req.projectId, s, t)
    ensures PreviewOf(req, s, ports) == PreviewOf(req, t, ports)
  {
    hide RefsOf, PinsOf, BlobsOf, IndexRefs, IndexPins, IndexBlobs, DeclaredBlobIds, PromisedAccess, GateErrors, FactsOf, GateManifest,
      GateBlockers, AssetBlockers, RightsBlockers, MetadataEntries, AnyBlocking, AssetEntry, CanonicalRef, RefsAlike, AssetsAlike;
    IndexAlike(req.projectId, s.refs, t.refs);
    AssetEntryAlike(req, s, t);
    AssetBlockersAlike(req, s, t);
    RefsOfAlike(req.candidate.originRefs, IndexRefs(s.refs), IndexRefs(t.refs), req.projectId, req.candidate.visibility == Public);
  }

  // ---------------------------------------------------------------- publishable, exactly

  /** A ref that resolves and whose project a publication may touch. */
  ghost predicate RefAllowed(raw: string, index: map<string, StoredRef>, publishing: string, widens: bool) {
    raw in index ==>
      && index[raw].resolved
      && !(widens && index[raw].projectVisibility == Private && index[raw].projectId != publishing)
  }

  ghost predicate PinAllowed(pin: string, index: map<string, StoredPin>, widens: bool) {
    pin in index && !(widens && index[pin].visibility == Private)
  }

  ghost predicate BlobAllowed(id: string, index: map<string, StoredBlob>, promised: DataAccess, widens: bool) {
    !(widens && promised == Open && !IsOpen(id, index))
  }

  /** The answer that stands for a text: the last one given. */
  ghost predicate LastRef(refs: seq<StoredRef>, raw: string, st: StoredRef) {
    exists i :: 0 <= i < |refs| && refs[i] == st && st.ref == raw && forall j :: i < j < |refs| ==> refs[j].ref != raw
  }

  ghost predicate LastPin(pins: seq<StoredPin>, pin: string, sp: StoredPin) {
    exists i :: 0 <= i < |pins| && pins[i] == sp && sp.pin == pin && forall j :: i < j < |pins| ==> pins[j].pin != pin
  }

  ghost predicate LastBlob(blobs: seq<StoredBlob>, id: string, b: StoredBlob) {
    exists i :: 0 <= i < |blobs| && blobs[i] == b && b.blobId == id && forall j :: i < j < |blobs| ==> blobs[j].blobId != id
  }

  /** The manifest names the blob: as a lone text, or as an item of a list. */
  ghost predicate NamesBlob(metadata: Metadata, id: string) {
    && id != "" && "blob_ids" in metadata
    && (metadata["blob_ids"] == Text(id) || (metadata["blob_ids"].List? && Text(id) in metadata["blob_ids"].items))
  }

  /** One of the two documents says that the data are open. */
  ghost predicate PromisesOpen(metadata: Metadata, rights: RightsResult) {
    || (rights.RightsRead? && rights.document.dataAccess == Open)
    || ("access_level" in metadata && metadata["access_level"] == Text("open"))
  }

  /** The ref resolves, and into no other private project when the target is public. */
  ghost predicate RefSettled(refs: seq<StoredRef>, raw: string, publishing: string, target: Visibility) {
    exists st :: LastRef(refs, raw, st) && st.resolved && (target == Public ==> st.projectVisibility != Private || st.projectId == publishing)
  }

  /** The pin names a stored version, not a private one when the target is public. */
  ghost predicate PinSettled(pins: seq<StoredPin>, pin: string, target: Visibility) {
    exists sp :: LastPin(pins, pin, sp) && (target == Public ==> sp.visibility != Private)
  }

  ghost predicate BlobOpen(blobs: seq<StoredBlob>, id: string) {
    exists b :: LastBlob(blobs, id, b) && b.access == Open
  }

  /** What a publication asks of its content: the gate accepts it; every ref resolves, and into no
      other private project when the target is public; every pin names a stored version, none of
      them private when the target is public; and when a public version promises open data, every
      blob it names is stored as open. */
  ghost predicate ContentAllowed(req: Request, state: State, ports: Ports) {
    var c := req.candidate;
    var m := GateManifest(c);
    && MayBeStored(c, ports)
    && (forall i :: 0 <= i < |c.originRefs| ==> RefSettled(state.refs, c.originRefs[i], req.projectId, c.visibility))
    && (forall i :: 0 <= i < |m.Pins()| ==> PinSettled(state.pins, m.Pins()[i], c.visibility))
    && (c.visibility == Public && PromisesOpen(m.Block(), ports.parseRights(c.rights)) ==>
          forall id :: NamesBlob(m.Block(), id) ==> BlobOpen(state.blobs, id))
  }

  lemma {:induction false} IndexedRef(refs: seq<StoredRef>, raw: string)
    ensures raw in IndexRefs(refs) ==> LastRef(refs, raw, IndexRefs(refs)[raw])
    ensures forall st :: LastRef(refs, raw, st) ==> raw in IndexRefs(refs) && IndexRefs(refs)[raw] == st
  {
    if refs != [] {
      var n := |refs| - 1;
      IndexedRef(refs[..n], raw);
      assert refs[n].ref == raw ==> LastRef(refs, raw, refs[n]);
      forall st | refs[n].ref != raw ensures LastRef(refs, raw, st) <==> LastRef(refs[..n], raw, st) {
        if LastRef(refs[..n], raw, st) {
          var i :| 0 <= i < n && refs[..n][i] == st && st.ref == raw && forall j :: i < j < n ==> refs[..n][j].ref != raw;
          assert forall j :: i < j < n ==> refs[j] == refs[..n][j];
          assert refs[i] == st;
        }
        if LastRef(refs, raw, st) {
          var i :| 0 <= i < |refs| && refs[i] == st && st.ref == raw && forall j :: i < j < |refs| ==> refs[j].ref != raw;
          assert refs[..n][i] == st;
        }
      }
    }
  }

  lemma {:induction false} IndexedPin(pins: seq<StoredPin>, pin: string)
    ensures pin in IndexPins(pins) ==> LastPin(pins, pin, IndexPins(pins)[pin])
    ensures forall sp :: LastPin(pins, pin, sp) ==> pin in IndexPins(pins) && IndexPins(pins)[pin] == sp
  {
    if pins != [] {
      var n := |pins| - 1;
      IndexedPin(pins[..n], pin);
      assert pins[n].pin == pin ==> LastPin(pins, pin, pins[n]);
      forall sp | pins[n].pin != pin ensures LastPin(pins, pin, sp) <==> LastPin(pins[..n], pin, sp) {
        if LastPin(pins[..n], pin, sp) {
          var i :| 0 <= i < n && pins[..n][i] == sp && sp.pin == pin && forall j :: i < j < n ==> pins[..n][j].pin != pin;
          assert forall j :: i < j < n ==> pins[j] == pins[..n][j];
          assert pins[i] == sp;
        }
        if LastPin(pins, pin, sp) {
          var i :| 0 <= i < |pins| && pins[i] == sp && sp.pin == pin && forall j :: i < j < |pins| ==> pins[j].pin != pin;
          assert pins[..n][i] == sp;
        }
      }
    }
  }

  lemma {:induction false} IndexedBlob(blobs: seq<StoredBlob>, id: string)
    ensures id in IndexBlobs(blobs) ==> LastBlob(blobs, id, IndexBlobs(blobs)[id])
    ensures forall b :: LastBlob(blobs, id, b) ==> id in IndexBlobs(blobs) && IndexBlobs(blobs)[id] == b
  {
    if blobs != [] {
      var n := |blobs| - 1;
      IndexedBlob(blobs[..n], id);
      assert blobs[n].blobId == id ==> LastBlob(blobs, id, blobs[n]);
      forall b | blobs[n].blobId != id ensures LastBlob(blobs, id, b) <==> LastBlob(blobs[..n], id, b) {
        if LastBlob(blobs[..n], id, b) {
          var i :| 0 <= i < n && blobs[..n][i] == b && b.blobId == id && forall j :: i < j < n ==> blobs[..n][j].blobId != id;
          assert forall j :: i < j < n ==> blobs[j] == blobs[..n][j];
          assert blobs[i] == b;
        }
        if LastBlob(blobs, id, b) {
          var i :| 0 <= i < |blobs| && blobs[i] == b && b.blobId == id && forall j :: i < j < |blobs| ==> blobs[j].blobId != id;
          assert blobs[..n][i] == b;
        }
      }
    }
  }

  lemma {:induction false} TextsMember(items: seq<Value>, id: string)
    ensures id in Texts(items) <==> Text(id) in items
  {
    if items != [] {
      var before, last := items[..|items| - 1], items[|items| - 1];
      TextsMember(before, id);
      assert items == before + [last];
    }
  }

  /** The declared blob ids are exactly the blobs the manifest names. */
  lemma DeclaredExactly(metadata: Metadata, id: string)
    ensures id in DeclaredBlobIds(metadata) <==> NamesBlob(metadata, id)
  {
    hide Distinct, Texts;
    if "blob_ids" in metadata {
      match metadata["blob_ids"] {
        case Text(s) => DistinctMembers([s], id);
        case List(items) =>
          DistinctMembers(Texts(items), id);
          TextsMember(items, id);
        case _ =>
      }
    }
  }

  lemma PromisedExactly(metadata: Metadata, rights: RightsResult)
    ensures PromisedAccess(metadata, rights) == Open <==> PromisesOpen(metadata, rights)
  {
  }

  lemma RefMeans(raw: string, refs: seq<StoredRef>, publishing: string, target: Visibility)
    ensures raw in IndexRefs(refs) && RefAllowed(raw, IndexRefs(refs), publishing, target == Public)
       <==> RefSettled(refs, raw, publishing, target)
  {
    hide IndexRefs, LastRef;
    IndexedRef(refs, raw);
  }

  lemma PinMeans(pin: string, pins: seq<StoredPin>, target: Visibility)
    ensures PinAllowed(pin, IndexPins(pins), target == Public) <==> PinSettled(pins, pin, target)
  {
    hide IndexPins, LastPin;
    IndexedPin(pins, pin);
  }

  lemma BlobMeans(id: string, blobs: seq<StoredBlob>)
    ensures IsOpen(id, IndexBlobs(blobs)) <==> BlobOpen(blobs, id)
  {
    hide IndexBlobs, LastBlob;
    IndexedBlob(blobs, id);
  }

  lemma BlobsMean(metadata: Metadata, rights: RightsResult, blobs: seq<StoredBlob>, target: Visibility)
    ensures (forall i :: 0 <= i < |DeclaredBlobIds(metadata)| ==>
               BlobAllowed(DeclaredBlobIds(metadata)[i], IndexBlobs(blobs), PromisedAccess(metadata, rights), target == Public))
       <==> (target == Public && PromisesOpen(metadata, rights) ==> forall id :: NamesBlob(metadata, id) ==> BlobOpen(blobs, id))
  {
    hide IndexBlobs, BlobOpen, DeclaredBlobIds, NamesBlob, PromisedAccess, PromisesOpen, IsOpen;
    PromisedExactly(metadata, rights);
    var ids := DeclaredBlobIds(metadata);
    forall i | 0 <= i < |ids| ensures NamesBlob(metadata, ids[i]) && (IsOpen(ids[i], IndexBlobs(blobs)) <==> BlobOpen(blobs, ids[i])) {
      DeclaredExactly(metadata, ids[i]);
      BlobMeans(ids[i], blobs);
    }
    forall id | NamesBlob(metadata, id) ensures exists i :: 0 <= i < |ids| && ids[i] == id {
      DeclaredExactly(metadata, id);
    }
  }

  /** The conditions as the loops meet them are the conditions on what was stored and declared. */
  lemma ContentMeans(req: Request, state: State, ports: Ports)
    ensures ContentClear(req, state, ports) <==> ContentAllowed(req, state, ports)
  {
    hide Accepts, GateManifest, IndexRefs, IndexPins, IndexBlobs, RefAllowed, PinAllowed, BlobAllowed, DeclaredBlobIds, PromisedAccess,
      RefSettled, PinSettled, BlobOpen, NamesBlob, PromisesOpen, MayBeStored, GateErrors;
    var c := req.candidate;
    GateExact(c, ports);
    AcceptsExactly(c, ports);
    var pins := GateManifest(c).Pins();
    forall i | 0 <= i < |c.originRefs|
      ensures c.originRefs[i] in IndexRefs(state.refs) && RefAllowed(c.originRefs[i], IndexRefs(state.refs), req.projectId, c.visibility == Public)
         <==> RefSettled(state.refs, c.originRefs[i], req.projectId, c.visibility)
    {
      RefMeans(c.originRefs[i], state.refs, req.projectId, c.visibility);
    }
    forall i | 0 <= i < |pins| ensures PinAllowed(pins[i], IndexPins(state.pins), c.visibility == Public) <==> PinSettled(state.pins, pins[i], c.visibility) {
      PinMeans(pins[i], state.pins, c.visibility);
    }
    BlobsMean(GateManifest(c).Block(), ports.parseRights(c.rights), state.blobs, c.visibility);
  }

  /** The same, as the loops over the reader's answers meet it. */
  ghost predicate ContentClear(req: Request, state: State, ports: Ports) {
    var c := req.candidate;
    var m := GateManifest(c);
    var widens := c.visibility == Public;
    && Accepts(c, ports)
    && (forall i :: 0 <= i < |c.originRefs| ==>
          c.originRefs[i] in IndexRefs(state.refs) && RefAllowed(c.originRefs[i], IndexRefs(state.refs), req.projectId, widens))
    && (forall i :: 0 <= i < |m.Pins()| ==> PinAllowed(m.Pins()[i], IndexPins(state.pins), widens))
    && (forall i :: 0 <= i < |DeclaredBlobIds(m.Block())| ==>
          BlobAllowed(DeclaredBlobIds(m.Block())[i], IndexBlobs(state.blobs), PromisedAccess(m.Block(), ports.parseRights(c.rights)), widens))
  }

  /** The stored asset is the one the candidate speaks of, in the publishing project. */
  ghost predicate AssetMatches(req: Request, state: State) {
    state.asset.Some? && state.asset.value.assetType == req.candidate.assetType && state.asset.value.originProjectId == req.projectId
  }

  /** The conditions under which a publication may execute and expose nothing hidden. */
  ghost predicate MayPublish(req: Request, state: State, ports: Ports) {
    AssetMatches(req, state) && ContentAllowed(req, state, ports)
  }

  lemma AnyBlockingSnoc(deps: seq<PrivateDependency>, d: PrivateDependency)
    ensures AnyBlocking(deps + [d]) <==> AnyBlocking(deps) || d.blocking
  {
    if AnyBlocking(deps) {
      var i :| 0 <= i < |deps| && deps[i].blocking;
      assert (deps + [d])[i].blocking;
    }
    if d.blocking {
      assert (deps + [d])[|deps|].blocking;
    }
  }

  lemma AnyBlockingConcat(a: seq<PrivateDependency>, b: seq<PrivateDependency>)
    ensures AnyBlocking(a + b) <==> AnyBlocking(a) || AnyBlocking(b)
  {
    if AnyBlocking(a) {
      var i :| 0 <= i < |a| && a[i].blocking;
      assert (a + b)[i].blocking;
    }
    if AnyBlocking(b) {
      var i :| 0 <= i < |b| && b[i].blocking;
      assert (a + b)[|a| + i].blocking;
    }
  }

  ghost predicate RefsClear(p: RefsPart) {
    p.blockers == [] && !AnyBlocking(p.deps)
  }

  lemma RefDependencyBlocks(raw: string, st: StoredRef, publishing: string, widens: bool)
    ensures var dep := RefDependency(raw, st, publishing, widens);
            dep.Some? && dep.value.blocking <==> !st.resolved || (widens && st.projectVisibility == Private && st.projectId != publishing)
  {
    hide KindOf, ProjectNamed, RefDetail;
  }

  lemma RefStepClear(p: RefsPart, raw: string, index: map<string, StoredRef>, publishing: string, widens: bool)
    ensures RefsClear(RefStep(p, raw, index, publishing, widens)) <==> RefsClear(p) && RefAllowed(raw, index, publishing, widens)
  {
    hide RefUnresolvedBlocker, RefEntry, AppendObject, RefDependency, AnyBlocking;
    if raw in index {
      var dep := RefDependency(raw, index[raw], publishing, widens);
      RefDependencyBlocks(raw, index[raw], publishing, widens);
      if dep.Some? {
        AnyBlockingSnoc(p.deps, dep.value);
      }
    }
  }

  lemma {:induction false} RefsOfClear(refs: seq<string>, index: map<string, StoredRef>, publishing: string, widens: bool)
    ensures RefsClear(RefsOf(refs, index, publishing, widens))
       <==> forall i :: 0 <= i < |refs| ==> RefAllowed(refs[i], index, publishing, widens)
  {
    hide RefStep, RefAllowed;
    if refs != [] {
      var before := refs[..|refs| - 1];
      RefsOfClear(before, index, publishing, widens);
      RefStepClear(RefsOf(before, index, publishing, widens), refs[|refs| - 1], index, publishing, widens);
      assert forall i :: 0 <= i < |before| ==> before[i] == refs[i];
    }
  }

  ghost predicate PinsClear(p: PinsPart) {
    p.blockers == [] && !AnyBlocking(p.deps)
  }

  lemma PinStepClear(p: PinsPart, pin: string, index: map<string, StoredPin>, widens: bool)
    ensures PinsClear(PinStep(p, pin, index, widens)) <==> PinsClear(p) && PinAllowed(pin, index, widens)
  {
    hide PinUnresolvedBlocker, AnyBlocking, PinDependency;
    PinDependencyBlocks(pin, pin in index, widens);
    AnyBlockingSnoc(p.deps, PinDependency(pin, pin in index, widens));
  }

  lemma PinDependencyBlocks(pin: string, found: bool, widens: bool)
    ensures PinDependency(pin, found, widens).blocking <==> !found || widens
  {
  }

  lemma BlobDependencyBlocks(id: string, promised: DataAccess, widens: bool)
    ensures BlobDependency(id, promised, widens).blocking <==> widens && promised == Open
  {
  }

  lemma {:induction false} PinsOfClear(pins: seq<string>, index: map<string, StoredPin>, widens: bool)
    ensures PinsClear(PinsOf(pins, index, widens)) <==> forall i :: 0 <= i < |pins| ==> PinAllowed(pins[i], index, widens)
  {
    hide PinStep, PinAllowed;
    if pins != [] {
      var before := pins[..|pins| - 1];
      PinsOfClear(before, index, widens);
      PinStepClear(PinsOf(before, index, widens), pins[|pins| - 1], index, widens);
      assert forall i :: 0 <= i < |before| ==> before[i] == pins[i];
    }
  }

  lemma {:induction false} BlobsOfClear(ids: seq<string>, index: map<string, StoredBlob>, promised: DataAccess, widens: bool)
    ensures !AnyBlocking(BlobsOf(ids, index, promised, widens).deps)
       <==> forall i :: 0 <= i < |ids| ==> BlobAllowed(ids[i], index, promised, widens)
  {
    hide AnyBlocking, IsOpen, BlobDependency;
    if ids != [] {
      var before, last := ids[..|ids| - 1], ids[|ids| - 1];
      BlobsOfClear(before, index, promised, widens);
      BlobDependencyBlocks(last, promised, widens);
      AnyBlockingSnoc(BlobsOf(before, index, promised, widens).deps, BlobDependency(last, promised, widens));
      assert forall i :: 0 <= i < |before| ==> before[i] == ids[i];
    } else {
      NothingBlocks();
    }
  }

  lemma NothingBlocks()
    ensures !AnyBlocking([])
  {
  }

  // The gate's refusals about the rights document are left to the rights list, and no
  // other rule uses their codes.

  ghost predicate NoRightsCode(errors: seq<Refusal>) {
    forall i :: 0 <= i < |errors| ==> !IsRightsCode(errors[i].code)
  }

  lemma {:induction false} RequiredCodes(metadata: Metadata, fields: seq<RequiredField>)
    ensures NoRightsCode(RequiredRefusals(metadata, fields))
  {
    hide Satisfies;
    if fields != [] {
      RequiredCodes(metadata, fields[..|fields| - 1]);
    }
  }

  lemma {:induction false} ExtraCodes(metadata: Metadata, fields: seq<RequiredField>, keys: seq<string>)
    requires forall i :: 0 <= i < |keys| ==> keys[i] in metadata
    ensures NoRightsCode(ExtraRefusals(metadata, fields, keys))
  {
    hide Classify, IsRequired;
    if keys != [] {
      ExtraCodes(metadata, fields, keys[..|keys| - 1]);
    }
  }

  lemma DocumentCodes(m: Manifest)
    ensures NoRightsCode(Refusals(m))
  {
    hide RequiredRefusals, ExtraRefusals, SortedKeys, RequiredMetadata, Identity.PinErrors;
    RequiredCodes(m.Block(), RequiredMetadata(m.assetType));
    ExtraCodes(m.Block(), RequiredMetadata(m.assetType), SortedKeys(m.Block().Keys));
  }

  lemma ReadCodes(raw: string)
    ensures ReadManifest(raw).Refused? ==> NoRightsCode(ReadManifest(raw).refusals)
  {
    hide Refusals, Decode, Identity.Trim, Json.ParseDocument;
    var j := Json.ParseDocument(raw);
    if j.Some? && Decode(j.value).Some? {
      DocumentCodes(Decode(j.value).value);
    }
  }

  lemma {:induction false} SelfCodes(pins: seq<string>, pid: string, version: string)
    ensures NoRightsCode(SelfErrors(pins, pid, version))
  {
    hide Identity.ValidPid, Identity.ParseDependencyPin, Identity.Trim;
    if pins != [] {
      SelfCodes(pins[..|pins| - 1], pid, version);
    }
  }

  lemma {:induction false} BadRefCodes(refs: seq<string>)
    ensures NoRightsCode(BadRefs(refs))
  {
    hide CanonicalRef;
    if refs != [] {
      BadRefCodes(refs[..|refs| - 1]);
    }
  }

  lemma ManifestCodes(c: Candidate)
    ensures NoRightsCode(ManifestErrors(c))
  {
    hide SelfErrors, ReadManifest;
    ReadCodes(c.manifest);
    var m := ReadManifest(c.manifest);
    if m.Ok? {
      SelfCodes(m.manifest.Pins(), c.assetPid, c.version);
    }
  }

  lemma RowCodes(c: Candidate, digest: string -> string)
    ensures NoRightsCode(IdentityErrors(c)) && NoRightsCode(VisibilityErrors(c)) && NoRightsCode(HashErrors(c, digest))
  {
    hide Identity.ValidPid, Identity.ValidVersionLabel, IsSha256Hex, ReadManifest, CanonicalJson;
  }

  lemma ListCodes(c: Candidate)
    ensures NoRightsCode(ProvenanceErrors(c.originRefs)) && NoRightsCode(CreatorErrors(c.creatorIds))
  {
    hide BadRefs, AnyAccepted, FirstRepeat, ValidCreatorId;
    BadRefCodes(c.originRefs);
  }

  lemma OtherCodes(c: Candidate, ports: Ports)
    requires ports.parseRights(c.rights).RightsRead?
    ensures NoRightsCode(GateErrors(c, ports))
  {
    hide IdentityErrors, VisibilityErrors, HashErrors, ManifestErrors, ProvenanceErrors, CreatorErrors;
    ManifestCodes(c);
    RowCodes(c, ports.digest);
    ListCodes(c);
  }

  lemma {:induction false} GateBlockersKeepAll(errors: seq<Refusal>)
    requires NoRightsCode(errors)
    ensures |GateBlockers(errors)| == |errors|
  {
    if errors != [] {
      GateBlockersKeepAll(errors[..|errors| - 1]);
    }
  }

  lemma RefusedRightsNotAccepted(c: Candidate, ports: Ports)
    requires !ports.parseRights(c.rights).RightsRead?
    ensures !Accepts(c, ports)
  {
    hide SourcePinned, CreatorsStorable, NoSelfPin, ReadManifest, CanonicalJson, Identity.ValidPid, Identity.ValidVersionLabel, IsSha256Hex;
  }

  /** The two blocker lists are empty exactly when the gate accepts. */
  lemma BlockersExact(c: Candidate, ports: Ports)
    ensures GateBlockers(GateErrors(c, ports)) == [] && RightsBlockers(c.rights, ports.parseRights(c.rights)) == [] <==> Accepts(c, ports)
  {
    hide GateErrors, Accepts, GateBlockers, Identity.Trim;
    GateExact(c, ports);
    if ports.parseRights(c.rights).RightsRead? {
      OtherCodes(c, ports);
      GateBlockersKeepAll(GateErrors(c, ports));
    } else {
      RefusedRightsNotAccepted(c, ports);
    }
  }

  lemma AssetBlockersExact(req: Request, state: State)
    ensures AssetBlockers(req, state) == [] <==> AssetMatches(req, state)
  {
    hide ProjectNamed;
  }

  lemma AcceptedRefsCanonical(c: Candidate, ports: Ports)
    requires Accepts(c, ports)
    ensures forall i :: 0 <= i < |c.originRefs| ==> CanonicalRef(c.originRefs[i])
  {
    hide CanonicalRef, PinsAccepted, CreatorsStorable, NoSelfPin, ReadManifest, CanonicalJson, Identity.ValidPid, Identity.ValidVersionLabel, IsSha256Hex;
  }

  /** Nothing but the asset's own existence stands against the publication. */
  ghost predicate OnlyAssetBlocked(req: Request, state: State, ports: Ports) {
    var p := PreviewOf(req, state, ports);
    && p.Some?
    && p.value.publishBlockers == AssetBlockers(req, state)
    && p.value.rightsBlockers == [] && !AnyBlocking(p.value.privateDependencies)
  }

  lemma OnlyAssetBlockedExactly(req: Request, state: State, ports: Ports)
    ensures OnlyAssetBlocked(req, state, ports) <==> ContentAllowed(req, state, ports)
  {
    hide OnlyAssetBlocked, ContentAllowed, ContentClear;
    OnlyAssetBlockedClear(req, state, ports);
    ContentMeans(req, state, ports);
  }

  lemma OnlyAssetBlockedClear(req: Request, state: State, ports: Ports)
    ensures OnlyAssetBlocked(req, state, ports) <==> ContentClear(req, state, ports)
  {
    hide RefsOf, PinsOf, BlobsOf, IndexRefs, IndexPins, IndexBlobs, DeclaredBlobIds, PromisedAccess, GateErrors, FactsOf, GateManifest, Accepts,
      GateBlockers, AssetBlockers, RightsBlockers, MetadataEntries, AnyBlocking, AssetEntry, CanonicalRef, RefAllowed, PinAllowed, BlobAllowed;
    var c, index := req.candidate, IndexRefs(state.refs);
    var m, widens := GateManifest(c), c.visibility == Public;
    var ids, promised := DeclaredBlobIds(m.Block()), PromisedAccess(m.Block(), ports.parseRights(c.rights));
    BlockersExact(c, ports);
    RefsOfClear(c.originRefs, index, req.projectId, widens);
    PinsOfClear(m.Pins(), IndexPins(state.pins), widens);
    BlobsOfClear(ids, IndexBlobs(state.blobs), promised, widens);
    var r := RefsOf(c.originRefs, index, req.projectId, widens);
    var p := PinsOf(m.Pins(), IndexPins(state.pins), widens);
    var b := BlobsOf(ids, IndexBlobs(state.blobs), promised, widens);
    AnyBlockingConcat(r.deps, p.deps);
    AnyBlockingConcat(r.deps + p.deps, b.deps);
    Surrounded(GateBlockers(GateErrors(c, ports)), AssetBlockers(req, state), r.blockers, p.blockers);
    if Accepts(c, ports) {
      AcceptedRefsCanonical(c, ports);
    }
  }

  lemma Surrounded(a: seq<Blocker>, b: seq<Blocker>, c: seq<Blocker>, d: seq<Blocker>)
    ensures a + b + c + d == b <==> a == [] && c == [] && d == []
  {
    if a + b + c + d == b {
      assert |a + b + c + d| == |a| + |b| + |c| + |d|;
    }
  }

  /** The verdict is exactly the stated conditions: a preview is built and says publishable
      if and only if the publication may execute and expose nothing hidden. */
  lemma PublishableExactly(req: Request, state: State, ports: Ports)
    ensures PreviewOf(req, state, ports).Some? && PreviewOf(req, state, ports).value.publishable <==> MayPublish(req, state, ports)
  {
    hide RefsOf, PinsOf, BlobsOf, IndexRefs, IndexPins, IndexBlobs, DeclaredBlobIds, PromisedAccess, GateErrors, FactsOf, GateManifest,
      GateBlockers, AssetBlockers, RightsBlockers, MetadataEntries, AnyBlocking, AssetEntry, CanonicalRef, ContentAllowed, AssetMatches;
    OnlyAssetBlockedExactly(req, state, ports);
    AssetBlockersExact(req, state);
  }

  lemma MayPublishPrivately(req: Request, state: State, ports: Ports)
    requires req.candidate.visibility == Public && MayPublish(req, state, ports)
    ensures MayPublish(Privately(req), state, ports)
  {
    hide GateManifest, MayBeStored, BlobOpen, LastRef, LastPin, NamesBlob, PromisesOpen;
    StoredEitherWay(req.candidate, ports);
    SameManifest(req.candidate);
  }

  function Privately(req: Request): Request {
    req.(candidate := req.candidate.(visibility := Private))
  }

  /** What may be published publicly may be published privately. */
  lemma PublicImpliesPrivate(req: Request, state: State, ports: Ports)
    requires req.candidate.visibility == Public && PreviewOf(req, state, ports).Some? && PreviewOf(req, state, ports).value.publishable
    ensures PreviewOf(Privately(req), state, ports).Some? && PreviewOf(Privately(req), state, ports).value.publishable
  {
    hide PreviewOf, MayPublish;
    PublishableExactly(req, state, ports);
    MayPublishPrivately(req, state, ports);
    PublishableExactly(Privately(req), state, ports);
  }

  lemma SameManifest(c: Candidate)
    ensures GateManifest(c.(visibility := Private)) == GateManifest(c)
  {
    hide ReadManifest;
  }

  lemma StoredEitherWay(c: Candidate, ports: Ports)
    requires MayBeStored(c, ports)
    ensures MayBeStored(c.(visibility := Private), ports)
  {
    hide ReadManifest, CanonicalJson, Identity.ValidPid, Identity.ValidVersionLabel, IsSha256Hex, NamesSomething, RefOfKind, CanonicalCreatorId,
      Identity.ValidUuidText, Identity.ParseDependencyPin, Identity.Trim;
  }

  // ---------------------------------------------------------------- lists without repeats

  lemma {:induction false} DistinctMembers(ids: seq<string>, id: string)
    ensures id in Distinct(ids) <==> id in ids && id != ""
  {
    if ids != [] {
      DistinctMembers(ids[..|ids| - 1], id);
      assert ids == ids[..|ids| - 1] + [ids[|ids| - 1]];
    }
  }

  lemma FirstIndexStays(before: seq<string>, last: string, id: string)
    requires id in before
    ensures id in before + [last] && Identity.FirstIndex(before + [last], id) == Identity.FirstIndex(before, id) < |before|
  {
    hide Identity.FirstIndex;
    var k, all := Identity.FirstIndex(before, id), before + [last];
    assert all[k] == id && all[..k] == before[..k];
    Identity.FirstIndexIs(all, id, k);
  }

  /** The list keeps the first occurrences, each once, in their order. */
  lemma {:induction false} DistinctInOrder(ids: seq<string>, i: nat, j: nat)
    requires i < j < |Distinct(ids)|
    ensures var d := Distinct(ids);
            d[i] != d[j] && d[i] in ids && d[j] in ids && Identity.FirstIndex(ids, d[i]) < Identity.FirstIndex(ids, d[j])
  {
    hide Identity.FirstIndex;
    var before, last := ids[..|ids| - 1], ids[|ids| - 1];
    var d := Distinct(before);
    assert ids == before + [last];
    DistinctMembers(before, Distinct(ids)[i]);
    FirstIndexStays(before, last, Distinct(ids)[i]);
    if j < |d| {
      DistinctInOrder(before, i, j);
      DistinctMembers(before, d[j]);
      FirstIndexStays(before, last, d[j]);
    } else {
      DistinctMembers(before, last);
      assert ids[|before|] == last && ids[..|before|] == before;
      Identity.FirstIndexIs(ids, last, |before|);
    }
  }

  /** The objects of the refs, each version once. */
  lemma {:induction false} ObjectsOnce(refs: seq<string>, index: map<string, StoredRef>, publishing: string, widens: bool, i: nat, j: nat)
    requires i < j < |RefsOf(refs, index, publishing, widens).objects|
    ensures var objects := RefsOf(refs, index, publishing, widens).objects; objects[i].objectVersionId != objects[j].objectVersionId
  {
    hide RefEntry, RefDependency, RefUnresolvedBlocker, MayRenderProject;
    var before := RefsOf(refs[..|refs| - 1], index, publishing, widens).objects;
    if j < |before| {
      ObjectsOnce(refs[..|refs| - 1], index, publishing, widens, i, j);
    } else {
      assert !Listed(before, RefsOf(refs, index, publishing, widens).objects[j].objectVersionId);
    }
  }

  /** A ref that resolved and carries this object version. */
  ghost predicate Carries(index: map<string, StoredRef>, raw: string, id: string) {
    raw in index && index[raw].resolved && index[raw].carried.Some? && index[raw].carried.value.objectVersionId == id
  }

  lemma RefStepLists(p: RefsPart, raw: string, index: map<string, StoredRef>, publishing: string, widens: bool, id: string)
    ensures Listed(RefStep(p, raw, index, publishing, widens).objects, id) <==> Listed(p.objects, id) || Carries(index, raw, id)
  {
    hide RefEntry, RefDependency, RefUnresolvedBlocker, MayRenderProject;
    var after := RefStep(p, raw, index, publishing, widens).objects;
    assert forall i :: 0 <= i < |p.objects| ==> after[i] == p.objects[i];
    assert |after| > |p.objects| ==> after[|p.objects|].objectVersionId == index[raw].carried.value.objectVersionId;
  }

  /** An object version is listed exactly when a resolved ref carries it. */
  lemma {:induction false} ObjectsListed(refs: seq<string>, index: map<string, StoredRef>, publishing: string, widens: bool, id: string)
    ensures Listed(RefsOf(refs, index, publishing, widens).objects, id) <==> exists i :: 0 <= i < |refs| && Carries(index, refs[i], id)
  {
    hide RefStep, Carries;
    if refs != [] {
      var before := refs[..|refs| - 1];
      ObjectsListed(before, index, publishing, widens, id);
      RefStepLists(RefsOf(before, index, publishing, widens), refs[|refs| - 1], index, publishing, widens, id);
      assert forall i :: 0 <= i < |before| ==> before[i] == refs[i];
    }
  }
}
