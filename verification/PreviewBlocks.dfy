/** What stands in each list of the preview, in terms of the candidate and the stored answers. */
module PreviewBlocks {
  import opened Options
  import opened Ordering
  import opened Gate
  import opened Manifest
  import opened Preview
  import opened PreviewProofs
  import Identity
  import Text

  /** The identity of a project may be shown in a preview. */
  ghost predicate Showable(publishing: string, owner: string, visibility: Visibility) {
    owner != "" && (owner == publishing || visibility == Public)
  }

  /** A project as a sentence speaks of it: by its id, or as another private one. */
  ghost predicate SpeaksOf(named: Named, publishing: string, owner: string, visibility: Visibility) {
    named == if Showable(publishing, owner, visibility) then Project(owner) else AnotherPrivateProject
  }

  // ---------------------------------------------------------------- the head

  lemma PreviewHead(req: Request, state: State, ports: Ports)
    requires PreviewOf(req, state, ports).Some?
    ensures var p := PreviewOf(req, state, ports).value;
            && p.projectId == req.projectId && p.version == req.candidate.version && p.targetVisibility == req.candidate.visibility
            && p.facts == FactsOf(req.candidate, ports)
            && p.asset.pid == req.candidate.assetPid && p.asset.assetType == req.candidate.assetType
            && (p.asset.resolved <==> state.asset.Some?)
            && (state.asset.Some? && Showable(req.projectId, state.asset.value.originProjectId, state.asset.value.originProjectVisibility) ==>
                  p.asset.title == state.asset.value.title && p.asset.originProjectId == state.asset.value.originProjectId)
            && (!(state.asset.Some? && Showable(req.projectId, state.asset.value.originProjectId, state.asset.value.originProjectVisibility)) ==>
                  p.asset.title == "" && p.asset.originProjectId == "")
  {
    hide RefsOf, PinsOf, BlobsOf, IndexRefs, IndexPins, IndexBlobs, DeclaredBlobIds, PromisedAccess, GateErrors, FactsOf, GateManifest,
      GateBlockers, AssetBlockers, RightsBlockers, MetadataEntries, AnyBlocking, Complete;
  }

  // ---------------------------------------------------------------- refs

  /** The entry of a ref: its kind when it is canonical, whether it resolved, and its project when
      that may be shown. */
  ghost predicate ShowsRef(refs: seq<StoredRef>, raw: string, publishing: string, x: PreviewRef) {
    && x.ref == raw
    && (forall st :: LastRef(refs, raw, st) ==>
          && (forall kind, id :: Identity.ParseOriginRef(raw) == Some((kind, id)) ==> x.kind == Some(kind))
          && (Identity.ParseOriginRef(raw) == None ==> x.kind == None)
          && x.resolved == st.resolved
          && (st.resolved && Showable(publishing, st.projectId, st.projectVisibility) ==>
                x.projectId == st.projectId && x.visibility == Some(st.projectVisibility))
          && (!(st.resolved && Showable(publishing, st.projectId, st.projectVisibility)) ==> x.projectId == "" && x.visibility == None))
    && ((forall st :: !LastRef(refs, raw, st)) ==> x == PreviewRef(raw, None, false, "", None))
  }

  lemma {:induction false} RefEntryAt(raws: seq<string>, index: map<string, StoredRef>, publishing: string, widens: bool, i: nat)
    requires i < |raws|
    ensures var shown := RefsOf(raws, index, publishing, widens).refs;
            |shown| == |raws|
            && shown[i] == if raws[i] in index then RefEntry(raws[i], index[raws[i]], publishing) else PreviewRef(raws[i], None, false, "", None)
  {
    hide RefEntry, RefDependency, AppendObject, RefUnresolvedBlocker;
    var before := raws[..|raws| - 1];
    if before == [] {
      assert RefsOf(before, index, publishing, widens).refs == [];
    } else if i < |before| {
      RefEntryAt(before, index, publishing, widens, i);
    } else {
      RefEntryAt(before, index, publishing, widens, 0);
    }
  }

  lemma RefShown(refs: seq<StoredRef>, raw: string, publishing: string)
    ensures ShowsRef(refs, raw, publishing,
              if raw in IndexRefs(refs) then RefEntry(raw, IndexRefs(refs)[raw], publishing) else PreviewRef(raw, None, false, "", None))
  {
    hide IndexRefs, LastRef, Identity.ParseOriginRef;
    IndexedRef(refs, raw);
  }

  /** Every ref of the candidate has its entry, in order. */
  lemma RefsShown(req: Request, state: State, ports: Ports, i: nat)
    requires PreviewOf(req, state, ports).Some? && i < |req.candidate.originRefs|
    ensures |PreviewOf(req, state, ports).value.refs| == |req.candidate.originRefs|
    ensures ShowsRef(state.refs, req.candidate.originRefs[i], req.projectId, PreviewOf(req, state, ports).value.refs[i])
  {
    hide RefsOf, PinsOf, BlobsOf, IndexRefs, IndexPins, IndexBlobs, DeclaredBlobIds, PromisedAccess, GateErrors, FactsOf, GateManifest,
      GateBlockers, AssetBlockers, RightsBlockers, MetadataEntries, AnyBlocking, AssetEntry, Complete, ShowsRef, RefEntry;
    RefEntryAt(req.candidate.originRefs, IndexRefs(state.refs), req.projectId, req.candidate.visibility == Public, i);
    RefShown(state.refs, req.candidate.originRefs[i], req.projectId);
  }

  // ---------------------------------------------------------------- pins and blobs

  ghost predicate ShowsPin(pins: seq<StoredPin>, pin: string, x: PreviewDependency) {
    && x.pin == pin
    && (forall sp :: LastPin(pins, pin, sp) ==> x.resolved && x.visibility == Some(sp.visibility))
    && ((forall sp :: !LastPin(pins, pin, sp)) ==> !x.resolved && x.visibility == None)
  }

  lemma {:induction false} PinEntryAt(names: seq<string>, index: map<string, StoredPin>, widens: bool, i: nat)
    requires i < |names|
    ensures var shown := PinsOf(names, index, widens).dependencies;
            |shown| == |names|
            && shown[i] == PreviewDependency(names[i], names[i] in index, if names[i] in index then Some(index[names[i]].visibility) else None)
  {
    hide PinDependency, PinUnresolvedBlocker;
    var before := names[..|names| - 1];
    if before == [] {
      assert PinsOf(before, index, widens).dependencies == [];
    } else {
      PinEntryAt(before, index, widens, if i < |before| then i else 0);
    }
  }

  /** Every pin of the manifest has its entry, in order. */
  lemma PinsShown(req: Request, state: State, ports: Ports, i: nat)
    requires PreviewOf(req, state, ports).Some? && i < |GateManifest(req.candidate).Pins()|
    ensures var pins := GateManifest(req.candidate).Pins();
            var shown := PreviewOf(req, state, ports).value.dependencies;
            |shown| == |pins| && ShowsPin(state.pins, pins[i], shown[i])
  {
    hide RefsOf, PinsOf, BlobsOf, IndexRefs, IndexPins, IndexBlobs, DeclaredBlobIds, PromisedAccess, GateErrors, FactsOf, GateManifest,
      GateBlockers, AssetBlockers, RightsBlockers, MetadataEntries, AnyBlocking, AssetEntry, Complete, LastPin;
    var pins := GateManifest(req.candidate).Pins();
    PinEntryAt(pins, IndexPins(state.pins), req.candidate.visibility == Public, i);
    IndexedPin(state.pins, pins[i]);
  }

  ghost predicate ShowsBlob(blobs: seq<StoredBlob>, id: string, open: bool, x: PreviewBlob) {
    && x.blobId == id && (x.declared == Open <==> open)
    && (forall b :: LastBlob(blobs, id, b) ==> x.resolved && x.current == Some(b.access))
    && ((forall b :: !LastBlob(blobs, id, b)) ==> !x.resolved && x.current == None)
  }

  lemma {:induction false} BlobEntryAt(ids: seq<string>, index: map<string, StoredBlob>, promised: DataAccess, widens: bool, i: nat)
    requires i < |ids|
    ensures var shown := BlobsOf(ids, index, promised, widens).blobs;
            |shown| == |ids|
            && shown[i] == PreviewBlob(ids[i], ids[i] in index, if ids[i] in index then Some(index[ids[i]].access) else None, promised)
  {
    hide BlobDependency, IsOpen;
    var before := ids[..|ids| - 1];
    if before == [] {
      assert BlobsOf(before, index, promised, widens).blobs == [];
    } else {
      BlobEntryAt(before, index, promised, widens, if i < |before| then i else 0);
    }
  }

  /** Every blob the manifest names has an entry with what is stored and what is promised. */
  lemma BlobsShown(req: Request, state: State, ports: Ports, id: string)
    requires PreviewOf(req, state, ports).Some? && NamesBlob(GateManifest(req.candidate).Block(), id)
    ensures var open := PromisesOpen(GateManifest(req.candidate).Block(), ports.parseRights(req.candidate.rights));
            exists i :: 0 <= i < |PreviewOf(req, state, ports).value.blobs| && ShowsBlob(state.blobs, id, open, PreviewOf(req, state, ports).value.blobs[i])
  {
    hide RefsOf, PinsOf, BlobsOf, IndexRefs, IndexPins, IndexBlobs, DeclaredBlobIds, PromisedAccess, GateErrors, FactsOf, GateManifest,
      GateBlockers, AssetBlockers, RightsBlockers, MetadataEntries, AnyBlocking, AssetEntry, Complete, LastBlob, NamesBlob, PromisesOpen;
    var block, rights := GateManifest(req.candidate).Block(), ports.parseRights(req.candidate.rights);
    var ids := DeclaredBlobIds(block);
    DeclaredExactly(block, id);
    PromisedExactly(block, rights);
    var i :| 0 <= i < |ids| && ids[i] == id;
    BlobEntryAt(ids, IndexBlobs(state.blobs), PromisedAccess(block, rights), req.candidate.visibility == Public, i);
    IndexedBlob(state.blobs, id);
    assert ShowsBlob(state.blobs, id, PromisesOpen(block, rights), PreviewOf(req, state, ports).value.blobs[i]);
  }

  // ---------------------------------------------------------------- private dependencies

  /** Why a ref is a private dependency, and whether it blocks: it names nothing stored; or it points
      into a private project, which blocks a public target when it is another one. */
  ghost predicate RefIsPrivate(refs: seq<StoredRef>, raw: string, publishing: string, target: Visibility, d: PrivateDependency) {
    exists st :: LastRef(refs, raw, st) && d.kind == RefKind(KindOf(raw)) && d.ref == raw && RefReason(st, raw, publishing, target, d)
  }

  ghost predicate RefReason(st: StoredRef, raw: string, publishing: string, target: Visibility, d: PrivateDependency) {
    if !st.resolved then d.blocking && d.detail == NothingBehind(raw)
    else
      && st.projectVisibility == Private
      && if target != Public then !d.blocking && d.detail.PointsInto? && SpeaksOf(d.detail.owner, publishing, st.projectId, Private)
         else if st.projectId == publishing then !d.blocking && d.detail == OwnPrivateProject
         else d.blocking && d.detail.Discloses? && SpeaksOf(d.detail.owner, publishing, st.projectId, Private)
  }

  /** The same for a pin: it names nothing stored, or a private version, which blocks a public target. */
  ghost predicate PinIsPrivate(pins: seq<StoredPin>, pin: string, target: Visibility, d: PrivateDependency) {
    && d.kind == AssetVersionKind && d.ref == pin
    && (|| ((forall sp :: !LastPin(pins, pin, sp)) && d.blocking && d.detail == NoSuchVersion(pin))
        || ((exists sp :: LastPin(pins, pin, sp) && sp.visibility == Private)
            && (d.blocking <==> target == Public) && d.detail == PrivateVersion(target == Public)))
  }

  /** And for a blob that is not stored as open: it blocks a public target that promises open data. */
  ghost predicate BlobIsClosed(blobs: seq<StoredBlob>, id: string, open: bool, target: Visibility, d: PrivateDependency) {
    && d.kind == BlobKind && d.ref == id && !BlobOpen(blobs, id)
    && (d.blocking <==> target == Public && open) && d.detail == if target == Public then ClosedBlob(open) else BlobNamed
  }

  function RefDependencyRule(index: map<string, StoredRef>, publishing: string, widens: bool): string -> Option<PrivateDependency> {
    raw => if raw in index then RefDependency(raw, index[raw], publishing, widens) else None
  }

  lemma {:induction false} RefDependencies(raws: seq<string>, index: map<string, StoredRef>, publishing: string, widens: bool)
    ensures RefsOf(raws, index, publishing, widens).deps == Gather(raws, RefDependencyRule(index, publishing, widens))
  {
    hide RefEntry, RefDependency, AppendObject, RefUnresolvedBlocker;
    if raws != [] {
      RefDependencies(raws[..|raws| - 1], index, publishing, widens);
    }
  }

  function PinDependencyRule(index: map<string, StoredPin>, widens: bool): string -> Option<PrivateDependency> {
    pin => if pin in index && index[pin].visibility != Private then None else Some(PinDependency(pin, pin in index, widens))
  }

  lemma {:induction false} PinDependencies(names: seq<string>, index: map<string, StoredPin>, widens: bool)
    ensures PinsOf(names, index, widens).deps == Gather(names, PinDependencyRule(index, widens))
  {
    hide PinDependency, PinUnresolvedBlocker;
    if names != [] {
      PinDependencies(names[..|names| - 1], index, widens);
    }
  }

  function BlobDependencyRule(index: map<string, StoredBlob>, promised: DataAccess, widens: bool): string -> Option<PrivateDependency> {
    id => if IsOpen(id, index) then None else Some(BlobDependency(id, promised, widens))
  }

  lemma {:induction false} BlobDependencies(ids: seq<string>, index: map<string, StoredBlob>, promised: DataAccess, widens: bool)
    ensures BlobsOf(ids, index, promised, widens).deps == Gather(ids, BlobDependencyRule(index, promised, widens))
  {
    hide BlobDependency, IsOpen;
    if ids != [] {
      BlobDependencies(ids[..|ids| - 1], index, promised, widens);
    }
  }

  lemma RefRuleExactly(refs: seq<StoredRef>, raw: string, publishing: string, target: Visibility, d: PrivateDependency)
    ensures RefDependencyRule(IndexRefs(refs), publishing, target == Public)(raw) == Some(d) <==> RefIsPrivate(refs, raw, publishing, target, d)
  {
    hide IndexRefs, LastRef, KindOf;
    IndexedRef(refs, raw);
  }

  lemma PinRuleExactly(pins: seq<StoredPin>, pin: string, target: Visibility, d: PrivateDependency)
    ensures PinDependencyRule(IndexPins(pins), target == Public)(pin) == Some(d) <==> PinIsPrivate(pins, pin, target, d)
  {
    hide IndexPins, LastPin;
    IndexedPin(pins, pin);
  }

  lemma BlobRuleExactly(blobs: seq<StoredBlob>, id: string, promised: DataAccess, target: Visibility, d: PrivateDependency)
    ensures BlobDependencyRule(IndexBlobs(blobs), promised, target == Public)(id) == Some(d) <==> BlobIsClosed(blobs, id, promised == Open, target, d)
  {
    hide IndexBlobs, BlobOpen, IsOpen;
    BlobMeans(id, blobs);
  }

  lemma RefDependenciesListed(raws: seq<string>, refs: seq<StoredRef>, publishing: string, target: Visibility, d: PrivateDependency)
    ensures d in RefsOf(raws, IndexRefs(refs), publishing, target == Public).deps
       <==> exists i :: 0 <= i < |raws| && RefIsPrivate(refs, raws[i], publishing, target, d)
  {
    hide RefsOf, IndexRefs, RefIsPrivate, RefDependency, Gather;
    var rule := RefDependencyRule(IndexRefs(refs), publishing, target == Public);
    RefDependencies(raws, IndexRefs(refs), publishing, target == Public);
    GatherExactly(raws, rule, d);
    forall i | 0 <= i < |raws| ensures rule(raws[i]) == Some(d) <==> RefIsPrivate(refs, raws[i], publishing, target, d) {
      RefRuleExactly(refs, raws[i], publishing, target, d);
    }
  }

  lemma PinDependenciesListed(names: seq<string>, pins: seq<StoredPin>, target: Visibility, d: PrivateDependency)
    ensures d in PinsOf(names, IndexPins(pins), target == Public).deps <==> exists i :: 0 <= i < |names| && PinIsPrivate(pins, names[i], target, d)
  {
    hide PinsOf, IndexPins, PinIsPrivate, PinDependency, Gather;
    var rule := PinDependencyRule(IndexPins(pins), target == Public);
    PinDependencies(names, IndexPins(pins), target == Public);
    GatherExactly(names, rule, d);
    forall i | 0 <= i < |names| ensures rule(names[i]) == Some(d) <==> PinIsPrivate(pins, names[i], target, d) {
      PinRuleExactly(pins, names[i], target, d);
    }
  }

  lemma BlobDependenciesListed(block: Metadata, rights: RightsResult, blobs: seq<StoredBlob>, target: Visibility, d: PrivateDependency)
    ensures d in BlobsOf(DeclaredBlobIds(block), IndexBlobs(blobs), PromisedAccess(block, rights), target == Public).deps
       <==> NamesBlob(block, d.ref) && BlobIsClosed(blobs, d.ref, PromisesOpen(block, rights), target, d)
  {
    hide BlobsOf, IndexBlobs, BlobDependency, Gather, DeclaredBlobIds, NamesBlob, PromisedAccess, PromisesOpen, BlobOpen, IsOpen;
    var ids, promised := DeclaredBlobIds(block), PromisedAccess(block, rights);
    var rule := BlobDependencyRule(IndexBlobs(blobs), promised, target == Public);
    BlobDependencies(ids, IndexBlobs(blobs), promised, target == Public);
    GatherExactly(ids, rule, d);
    PromisedExactly(block, rights);
    DeclaredExactly(block, d.ref);
    forall i | 0 <= i < |ids| ensures rule(ids[i]) == Some(d) <==> BlobIsClosed(blobs, ids[i], PromisesOpen(block, rights), target, d) {
      BlobRuleExactly(blobs, ids[i], promised, target, d);
    }
  }

  /** The private dependencies of a preview, exactly. */
  lemma PrivateDependenciesListed(req: Request, state: State, ports: Ports, d: PrivateDependency)
    requires PreviewOf(req, state, ports).Some?
    ensures var c, m := req.candidate, GateManifest(req.candidate);
            d in PreviewOf(req, state, ports).value.privateDependencies
            <==> || (exists i :: 0 <= i < |c.originRefs| && RefIsPrivate(state.refs, c.originRefs[i], req.projectId, c.visibility, d))
                 || (exists i :: 0 <= i < |m.Pins()| && PinIsPrivate(state.pins, m.Pins()[i], c.visibility, d))
                 || (NamesBlob(m.Block(), d.ref) && BlobIsClosed(state.blobs, d.ref, PromisesOpen(m.Block(), ports.parseRights(c.rights)), c.visibility, d))
  {
    hide RefsOf, PinsOf, BlobsOf, IndexRefs, IndexPins, IndexBlobs, DeclaredBlobIds, PromisedAccess, GateErrors, FactsOf, GateManifest,
      GateBlockers, AssetBlockers, RightsBlockers, MetadataEntries, AnyBlocking, AssetEntry, Complete, RefIsPrivate, PinIsPrivate, BlobIsClosed,
      NamesBlob, PromisesOpen;
    var c, m := req.candidate, GateManifest(req.candidate);
    RefDependenciesListed(c.originRefs, state.refs, req.projectId, c.visibility, d);
    PinDependenciesListed(m.Pins(), state.pins, c.visibility, d);
    BlobDependenciesListed(m.Block(), ports.parseRights(c.rights), state.blobs, c.visibility, d);
  }

  // ---------------------------------------------------------------- blockers

  lemma {:induction false} GateBlockersListed(errors: seq<Refusal>, b: Blocker)
    ensures b in GateBlockers(errors) <==> b.GateBlocker? && b.refusal in errors && b.refusal.code != InvalidRights && b.refusal.code != MissingRights
  {
    if errors != [] {
      GateBlockersListed(errors[..|errors| - 1], b);
      assert errors == errors[..|errors| - 1] + [errors[|errors| - 1]];
    }
  }

  lemma {:induction false} RefBlockersListed(raws: seq<string>, index: map<string, StoredRef>, publishing: string, widens: bool, b: Blocker)
    ensures b in RefsOf(raws, index, publishing, widens).blockers
       <==> exists i :: 0 <= i < |raws| && raws[i] in index && !index[raws[i]].resolved && b == PreviewBlocker(RefUnresolved, NothingBehind(raws[i]))
  {
    hide RefEntry, RefDependency, AppendObject;
    if raws != [] {
      var before := raws[..|raws| - 1];
      RefBlockersListed(before, index, publishing, widens, b);
      assert forall i :: 0 <= i < |before| ==> before[i] == raws[i];
    }
  }

  lemma {:induction false} PinBlockersListed(names: seq<string>, index: map<string, StoredPin>, widens: bool, b: Blocker)
    ensures b in PinsOf(names, index, widens).blockers
       <==> exists i :: 0 <= i < |names| && names[i] !in index && b == PreviewBlocker(PinUnresolved, NoSuchVersion(names[i]))
  {
    hide PinDependency;
    if names != [] {
      var before := names[..|names| - 1];
      PinBlockersListed(before, index, widens, b);
      assert forall i :: 0 <= i < |before| ==> before[i] == names[i];
    }
  }

  /** A blocker about the asset: it is not stored, of another type, or in another project. */
  ghost predicate BlocksAsset(req: Request, state: State, b: Blocker) {
    if state.asset.None? then b == PreviewBlocker(AssetUnknown, NoSuchAsset(req.candidate.assetPid))
    else
      var a := state.asset.value;
      || (a.assetType != req.candidate.assetType && b == PreviewBlocker(AssetTypeMismatch, WrongType(a.assetType, req.candidate.assetType)))
      || (&& a.originProjectId != req.projectId && b.PreviewBlocker? && b.code == AssetProjectMismatch && b.detail.WrongProject?
          && b.detail.publishing == req.projectId && SpeaksOf(b.detail.owner, req.projectId, a.originProjectId, a.originProjectVisibility))
  }

  lemma AssetBlockersListed(req: Request, state: State, b: Blocker)
    ensures b in AssetBlockers(req, state) <==> BlocksAsset(req, state, b)
  {
  }

  ghost predicate RefMissing(refs: seq<StoredRef>, raw: string, b: Blocker) {
    b == PreviewBlocker(RefUnresolved, NothingBehind(raw)) && exists st :: LastRef(refs, raw, st) && !st.resolved
  }

  ghost predicate PinMissing(pins: seq<StoredPin>, pin: string, b: Blocker) {
    b == PreviewBlocker(PinUnresolved, NoSuchVersion(pin)) && forall sp :: !LastPin(pins, pin, sp)
  }

  /** The publish blockers of a preview, exactly: the gate's refusals but those about the rights
      document, the asset's, and one for every ref and pin that resolves to nothing. */
  lemma PublishBlockersListed(req: Request, state: State, ports: Ports, b: Blocker)
    requires PreviewOf(req, state, ports).Some?
    ensures var c, pins := req.candidate, GateManifest(req.candidate).Pins();
            b in PreviewOf(req, state, ports).value.publishBlockers
            <==> || (b.GateBlocker? && b.refusal in GateErrors(c, ports) && b.refusal.code != InvalidRights && b.refusal.code != MissingRights)
                 || BlocksAsset(req, state, b)
                 || (exists i :: 0 <= i < |c.originRefs| && RefMissing(state.refs, c.originRefs[i], b))
                 || (exists i :: 0 <= i < |pins| && PinMissing(state.pins, pins[i], b))
  {
    hide RefsOf, PinsOf, BlobsOf, IndexRefs, IndexPins, IndexBlobs, DeclaredBlobIds, PromisedAccess, GateErrors, FactsOf, GateManifest,
      GateBlockers, AssetBlockers, RightsBlockers, MetadataEntries, AnyBlocking, AssetEntry, Complete, BlocksAsset, LastRef, LastPin;
    var c, pins := req.candidate, GateManifest(req.candidate).Pins();
    GateBlockersListed(GateErrors(c, ports), b);
    AssetBlockersListed(req, state, b);
    RefBlockersListed(c.originRefs, IndexRefs(state.refs), req.projectId, c.visibility == Public, b);
    PinBlockersListed(pins, IndexPins(state.pins), c.visibility == Public, b);
    forall i | 0 <= i < |c.originRefs|
      ensures (c.originRefs[i] in IndexRefs(state.refs) && !IndexRefs(state.refs)[c.originRefs[i]].resolved)
         <==> (exists st :: LastRef(state.refs, c.originRefs[i], st) && !st.resolved)
    {
      IndexedRef(state.refs, c.originRefs[i]);
    }
    forall i | 0 <= i < |pins| ensures pins[i] !in IndexPins(state.pins) <==> forall sp :: !LastPin(state.pins, pins[i], sp) {
      IndexedPin(state.pins, pins[i]);
    }
  }

  /** The rights blocker: none for a document that reads, one that says it is missing for a blank
      one, and the reader's fault otherwise. */
  lemma RightsBlockersListed(req: Request, state: State, ports: Ports)
    requires PreviewOf(req, state, ports).Some?
    ensures var shown, read := PreviewOf(req, state, ports).value.rightsBlockers, ports.parseRights(req.candidate.rights);
            && (read.RightsRead? ==> shown == [])
            && (read.RightsRefused? && Identity.Trim(req.candidate.rights) == "" ==> shown == [RightsMissing])
            && (read.RightsRefused? && Identity.Trim(req.candidate.rights) != "" ==> shown == [RightsBlocker(read.refusal)])
  {
    hide RefsOf, PinsOf, BlobsOf, IndexRefs, IndexPins, IndexBlobs, DeclaredBlobIds, PromisedAccess, GateErrors, FactsOf, GateManifest,
      GateBlockers, AssetBlockers, MetadataEntries, AnyBlocking, AssetEntry, Complete, Identity.Trim;
  }

  // ---------------------------------------------------------------- objects and metadata

  /** The object of the first ref that carries it, with its identity when its project may be shown. */
  ghost predicate ShowsObject(raws: seq<string>, index: map<string, StoredRef>, publishing: string, i: int, x: PreviewObject) {
    && 0 <= i < |raws| && Carries(index, raws[i], x.objectVersionId) && (forall k :: 0 <= k < i ==> !Carries(index, raws[k], x.objectVersionId))
    && var st := index[raws[i]];
       && (Showable(publishing, st.projectId, st.projectVisibility) ==>
             && x.objectId == st.carried.value.objectId && x.title == st.carried.value.title && x.projectId == st.projectId
             && x.visibility == Some(st.projectVisibility))
       && (!Showable(publishing, st.projectId, st.projectVisibility) ==> x.objectId == "" && x.title == "" && x.projectId == "" && x.visibility == None)
  }

  lemma {:induction false} ObjectDescribed(raws: seq<string>, index: map<string, StoredRef>, publishing: string, widens: bool, x: PreviewObject)
    requires x in RefsOf(raws, index, publishing, widens).objects
    ensures exists i :: ShowsObject(raws, index, publishing, i, x)
  {
    hide RefEntry, RefDependency, RefUnresolvedBlocker;
    var n := |raws| - 1;
    var before := raws[..n];
    assert forall k :: 0 <= k < n ==> before[k] == raws[k];
    var objects := RefsOf(before, index, publishing, widens).objects;
    if x in objects {
      ObjectDescribed(before, index, publishing, widens, x);
      var i :| ShowsObject(before, index, publishing, i, x);
      assert ShowsObject(raws, index, publishing, i, x);
    } else {
      ObjectsListed(before, index, publishing, widens, x.objectVersionId);
      assert ShowsObject(raws, index, publishing, n, x);
    }
  }

  /** Every object of a preview is that of the first ref that carries it. */
  lemma ObjectsShown(req: Request, state: State, ports: Ports, x: PreviewObject)
    requires PreviewOf(req, state, ports).Some? && x in PreviewOf(req, state, ports).value.objects
    ensures exists i :: ShowsObject(req.candidate.originRefs, IndexRefs(state.refs), req.projectId, i, x)
  {
    hide RefsOf, PinsOf, BlobsOf, IndexRefs, IndexPins, IndexBlobs, DeclaredBlobIds, PromisedAccess, GateErrors, FactsOf, GateManifest,
      GateBlockers, AssetBlockers, RightsBlockers, MetadataEntries, AnyBlocking, AssetEntry, Complete, ShowsObject;
    ObjectDescribed(req.candidate.originRefs, IndexRefs(state.refs), req.projectId, req.candidate.visibility == Public, x);
  }

  lemma EntriesListed(block: Metadata)
    ensures var shown := MetadataEntries(block);
            && (forall i :: 0 <= i < |shown| ==> shown[i].key in block && shown[i].value == block[shown[i].key])
            && (forall k :: k in block ==> exists i :: 0 <= i < |shown| && shown[i].key == k)
            && (forall i, j :: 0 <= i < j < |shown| ==> Text.StringLess(shown[i].key, shown[j].key))
  {
    hide SortedKeys;
    var keys, shown := SortedKeys(block.Keys), MetadataEntries(block);
    forall k | k in block ensures exists i :: 0 <= i < |shown| && shown[i].key == k {
      var i :| 0 <= i < |keys| && keys[i] == k;
      assert shown[i].key == k;
    }
  }

  /** The metadata list holds the manifest's keys with their values, ascending. */
  lemma MetadataShown(req: Request, state: State, ports: Ports)
    requires PreviewOf(req, state, ports).Some?
    ensures var block, shown := GateManifest(req.candidate).Block(), PreviewOf(req, state, ports).value.metadata;
            && (forall i :: 0 <= i < |shown| ==> shown[i].key in block && shown[i].value == block[shown[i].key])
            && (forall k :: k in block ==> exists i :: 0 <= i < |shown| && shown[i].key == k)
            && (forall i, j :: 0 <= i < j < |shown| ==> Text.StringLess(shown[i].key, shown[j].key))
  {
    hide RefsOf, PinsOf, BlobsOf, IndexRefs, IndexPins, IndexBlobs, DeclaredBlobIds, PromisedAccess, GateErrors, FactsOf, GateManifest,
      GateBlockers, AssetBlockers, RightsBlockers, AnyBlocking, AssetEntry, Complete, MetadataEntries;
    EntriesListed(GateManifest(req.candidate).Block());
  }
}
