/** What holds over every run of the derive command, however its calls interleave. */
module DeriveProofs {
  import opened Options
  import opened Ordering
  import opened Derive
  import Gate
  import Manifest
  import Identity
  import Preview
  import Strings
  import PreviewProofs

  // ---------------------------------------------------------------- single decisions

  /** The matrix lets exactly a non-agent owner derive. */
  lemma OwnersOnly(answer: Membership, isAgent: bool)
    ensures RequireDerive(answer, isAgent) == None <==> answer == Has(Owner) && !isAgent
  {
  }

  lemma {:induction false} RefBlockers(refs: seq<string>, index: map<string, Preview.StoredRef>, publishing: string, widens: bool, b: Preview.Blocker)
    requires b in Preview.RefsOf(refs, index, publishing, widens).blockers
    ensures b.PreviewBlocker? && b.code == Preview.RefUnresolved
  {
    hide Preview.RefDependency, Preview.RefEntry, Preview.AppendObject;
    var before, last := refs[..|refs| - 1], refs[|refs| - 1];
    if b in Preview.RefsOf(before, index, publishing, widens).blockers {
      RefBlockers(before, index, publishing, widens, b);
    } else {
      RefBlockerCode(last);
    }
  }

  lemma RefBlockerCode(raw: string)
    ensures Preview.RefUnresolvedBlocker(raw).PreviewBlocker? && Preview.RefUnresolvedBlocker(raw).code == Preview.RefUnresolved
  {
  }

  lemma {:induction false} PinBlockers(pins: seq<string>, index: map<string, Preview.StoredPin>, widens: bool, b: Preview.Blocker)
    requires b in Preview.PinsOf(pins, index, widens).blockers
    ensures b.PreviewBlocker? && b.code == Preview.PinUnresolved
  {
    hide Preview.PinDependency;
    var before, last := pins[..|pins| - 1], pins[|pins| - 1];
    if b in Preview.PinsOf(before, index, widens).blockers {
      PinBlockers(before, index, widens, b);
    } else {
      PinBlockerCode(last);
    }
  }

  lemma PinBlockerCode(pin: string)
    ensures Preview.PinUnresolvedBlocker(pin).PreviewBlocker? && Preview.PinUnresolvedBlocker(pin).code == Preview.PinUnresolved
  {
  }

  lemma {:induction false} GateBlockerKind(errors: seq<Manifest.Refusal>, b: Preview.Blocker)
    requires b in Preview.GateBlockers(errors)
    ensures b.GateBlocker?
  {
    if errors != [] && b in Preview.GateBlockers(errors[..|errors| - 1]) {
      GateBlockerKind(errors[..|errors| - 1], b);
    }
  }

  /** For an asset that does not exist yet, no reason to refuse remains exactly when the
      content may be published. */
  lemma NewAssetExactly(req: Preview.Request, state: Preview.State, ports: Gate.Ports)
    requires state.asset.None?
    ensures Preview.PreviewOf(req, state, ports).Some? && !Refuses(Preview.PreviewOf(req, state, ports).value, true)
       <==> PreviewProofs.ContentAllowed(req, state, ports)
  {
    hide Preview.PreviewOf, PreviewProofs.ContentAllowed, Preview.AssetBlockers, Preview.AnyBlocking;
    PreviewProofs.OnlyAssetBlockedExactly(req, state, ports);
    UnknownAssetBlocker(req, state);
    if Preview.PreviewOf(req, state, ports).Some? {
      AllUnknownExactly(req, state, ports);
    }
  }

  lemma UnknownAssetBlocker(req: Preview.Request, state: Preview.State)
    requires state.asset.None?
    ensures |Preview.AssetBlockers(req, state)| == 1 && IsAssetUnknown(Preview.AssetBlockers(req, state)[0])
  {
  }

  lemma AllUnknownExactly(req: Preview.Request, state: Preview.State, ports: Gate.Ports)
    requires state.asset.None? && Preview.PreviewOf(req, state, ports).Some?
    ensures var blockers := Preview.PreviewOf(req, state, ports).value.publishBlockers;
            (forall i :: 0 <= i < |blockers| ==> IsAssetUnknown(blockers[i])) <==> blockers == Preview.AssetBlockers(req, state)
  {
    hide Preview.RefsOf, Preview.PinsOf, Preview.BlobsOf, Preview.IndexRefs, Preview.IndexPins, Preview.IndexBlobs, Preview.DeclaredBlobIds,
      Preview.PromisedAccess, Gate.GateErrors, Gate.FactsOf, Preview.GateManifest, Preview.GateBlockers, Preview.AssetBlockers,
      Preview.RightsBlockers, Preview.MetadataEntries, Preview.AnyBlocking, Preview.AssetEntry, Preview.Complete, IsAssetUnknown;
    UnknownAssetBlocker(req, state);
    var c := req.candidate;
    var widens := c.visibility == Gate.Public;
    var m := Preview.GateManifest(c);
    var g := Preview.GateBlockers(Gate.GateErrors(c, ports));
    var r := Preview.RefsOf(c.originRefs, Preview.IndexRefs(state.refs), req.projectId, widens).blockers;
    var p := Preview.PinsOf(m.Pins(), Preview.IndexPins(state.pins), widens).blockers;
    var a := Preview.AssetBlockers(req, state);
    var blockers := Preview.PreviewOf(req, state, ports).value.publishBlockers;
    assert blockers == g + a + r + p;
    if g != [] {
      GateBlockerKind(Gate.GateErrors(c, ports), g[0]);
      KnownBlocker(g[0]);
      assert blockers[0] == g[0];
    }
    if r != [] {
      RefBlockers(c.originRefs, Preview.IndexRefs(state.refs), req.projectId, widens, r[0]);
      KnownBlocker(r[0]);
      assert blockers[|g| + |a|] == r[0];
    }
    if p != [] {
      PinBlockers(m.Pins(), Preview.IndexPins(state.pins), widens, p[0]);
      KnownBlocker(p[0]);
      assert blockers[|g| + |a| + |r|] == p[0];
    }
    PreviewProofs.Surrounded(g, a, r, p);
  }

  lemma KnownBlocker(b: Preview.Blocker)
    requires !b.PreviewBlocker? || b.code != Preview.AssetUnknown
    ensures !IsAssetUnknown(b)
  {
  }

  /** The review passes exactly when the content may be published and the document check is
      content; the gate never refuses what the preview let through. */
  lemma ReviewExactly(w: World, store: Store, job: Job, r: Reading)
    ensures Review(w, store, job, r) == None
       <==> PreviewProofs.ContentAllowed(PreviewRequest(job), Resolve(store, job.candidate, r), w.ports) && !r.documentRefused
    ensures PreviewProofs.ContentAllowed(PreviewRequest(job), Resolve(store, job.candidate, r), w.ports) ==>
              Gate.GateErrors(job.candidate, w.ports) == []
  {
    hide Preview.PreviewOf, PreviewProofs.ContentAllowed, Refuses, Gate.GateErrors, Gate.Accepts, Preview.GateManifest;
    var state := Resolve(store, job.candidate, r);
    NewAssetExactly(PreviewRequest(job), state, w.ports);
    Gate.GateExact(job.candidate, w.ports);
    ContentAccepted(PreviewRequest(job), state, w.ports);
  }

  lemma ContentAccepted(req: Preview.Request, state: Preview.State, ports: Gate.Ports)
    ensures PreviewProofs.ContentAllowed(req, state, ports) ==> Gate.Accepts(req.candidate, ports)
  {
    hide Gate.Accepts, Gate.MayBeStored, Gate.GateErrors, PreviewProofs.RefSettled, PreviewProofs.PinSettled, PreviewProofs.BlobOpen,
      Preview.GateManifest, PreviewProofs.NamesBlob, PreviewProofs.PromisesOpen;
    Gate.GateExact(req.candidate, ports);
    Gate.AcceptsExactly(req.candidate, ports);
  }

  lemma ReadGateExactly(s: State, row: VersionRow, userId: string)
    ensures ReadGate(s, row, userId) == None <==> MayReadParent(s, row, userId)
  {
  }

  // ---------------------------------------------------------------- one step

  /** A call's steps before its transaction touch nothing but the call itself. */
  lemma EarlyStepsFrame(w: World, s: State, id: nat, userId: string, isAgent: bool, params: Params, minted: Option<string>)
    ensures Begin(s, id, userId, isAgent, params, minted).store == s.store
    ensures Lookup(w, s, id).store == s.store
    ensures CheckPolicy(s, id).store == s.store
  {
    hide Prepare, RequireDerive, RequirePolicy, Recorded, ReplayMatches, MembershipOf, PolicyOf;
  }

  lemma CommitWrites(w: World, s: State, id: nat, r: Reading)
    ensures var t := Commit(w, s, id, r).store;
            || t == s.store
            || (&& id in s.pending && s.pending[id].Cleared?
                && var outcome := Transact(w, s, s.pending[id].job, r);
                   outcome.Writes? && t == Stored(s.store, Write(id, outcome.project, s.pending[id].job, outcome.asset, outcome.verdict)))
  {
    hide Transact, Stored;
  }

  /** What one derivation adds: its version, public or private as asked, with its rights, in the
      target project; its asset; its ledger row when the request has a key; its record; and
      nothing else. */
  lemma WriteAdds(store: Store, write: Write)
    ensures var t := Stored(store, write);
            var address := (write.asset.assetPid, write.asset.version);
            && address in t.versions && t.versions[address].projectId == write.project
            && t.versions[address].visibility == write.asset.visibility && t.versions[address].rights == write.job.candidate.rights
            && (forall a :: a != address ==> (a in t.versions <==> a in store.versions) && (a in store.versions ==> t.versions[a] == store.versions[a]))
            && (forall pid :: pid in t.assets <==> pid in store.assets || pid == write.asset.assetPid)
            && (write.job.key.Some? ==>
                  && |t.ledger| == |store.ledger| + 1 && t.ledger[..|store.ledger|] == store.ledger
                  && t.ledger[|store.ledger|].project == write.project && Some(t.ledger[|store.ledger|].key) == write.job.key
                  && t.ledger[|store.ledger|].asset == write.asset)
            && (write.job.key.None? ==> t.ledger == store.ledger)
            && |t.writes| == |store.writes| + 1 && t.writes[..|store.writes|] == store.writes && t.writes[|store.writes|] == write
  {
  }

  /** A step writes the whole derivation or nothing: only a transaction that says so writes,
      everything else but a publication elsewhere leaves the store as it was. */
  lemma StepWrites(w: World, s: State, step: Step)
    ensures var t := Apply(w, s, step).store;
            || (t.writes == s.store.writes && t.ledger == s.store.ledger && (step.Published? || t == s.store))
            || (&& step.CommitStep? && step.id in s.pending && s.pending[step.id].Cleared?
                && var job := s.pending[step.id].job;
                   var outcome := Transact(w, s, job, step.reading);
                   outcome.Writes? && t == Stored(s.store, Write(step.id, outcome.project, job, outcome.asset, outcome.verdict)))
  {
    hide Begin, Lookup, CheckPolicy, Commit, Transact, Stored;
    match step {
      case BeginStep(id, userId, isAgent, params, minted) => EarlyStepsFrame(w, s, id, userId, isAgent, params, minted);
      case LookupStep(id) => EarlyStepsFrame(w, s, id, "", false, NO_PARAMS, None);
      case PolicyStep(id) => EarlyStepsFrame(w, s, id, "", false, NO_PARAMS, None);
      case CommitStep(id, reading) => CommitWrites(w, s, id, reading);
      case _ =>
    }
  }

  const NO_PARAMS := Params("", "", "", "", "", "", "", "", [], "", "", [], "", "", "", None)

  lemma BeginRefusal(s: State, id: nat, userId: string, isAgent: bool, params: Params, minted: Option<string>, other: nat)
    requires other !in s.answers && other in Begin(s, id, userId, isAgent, params, minted).answers
    ensures var t := Begin(s, id, userId, isAgent, params, minted); t == Answered(s, other, t.answers[other])
  {
    hide Prepare, RequireDerive, MembershipOf;
  }

  lemma MiddleRefusal(w: World, s: State, id: nat, other: nat)
    requires other !in s.answers
    ensures var t := Lookup(w, s, id); other in t.answers ==> t == Answered(s, other, t.answers[other])
    ensures var t := CheckPolicy(s, id); other in t.answers ==> t == Answered(s, other, t.answers[other])
  {
    hide Recorded, ReplayMatches, RequirePolicy, PolicyOf;
  }

  lemma CommitRefusal(w: World, s: State, id: nat, r: Reading, other: nat)
    requires other !in s.answers && other in Commit(w, s, id, r).answers && Commit(w, s, id, r).answers[other].Failed?
    ensures var t := Commit(w, s, id, r); t == Answered(s, other, t.answers[other])
  {
    hide Transact, Stored;
  }

  /** A call that is refused changes nothing but its own answer. */
  lemma RefusalChangesNothing(w: World, s: State, step: Step, id: nat)
    requires id !in s.answers && id in Apply(w, s, step).answers && Apply(w, s, step).answers[id].Failed?
    ensures Apply(w, s, step) == Answered(s, id, Apply(w, s, step).answers[id])
  {
    hide Begin, Lookup, CheckPolicy, Commit, Answered;
    match step {
      case BeginStep(i, userId, isAgent, params, minted) => BeginRefusal(s, i, userId, isAgent, params, minted, id);
      case LookupStep(i) => MiddleRefusal(w, s, i, id);
      case PolicyStep(i) => MiddleRefusal(w, s, i, id);
      case CommitStep(i, reading) => CommitRefusal(w, s, i, reading, id);
      case _ =>
    }
  }

  // ---------------------------------------------------------------- authority over runs

  /** A text of 1 to max bytes. */
  ghost predicate Fits(s: string, max: nat) {
    s != "" && ByteLength(s) <= max
  }

  /** The request asks for the job: it names a project, no asset, one of the two relations, a parent
      that reads as pid and label, a known type, a storable label, public or private, a title of 1
      to 256 and a slug of 1 to 128 bytes, and a confirmation of at most 512 characters; and the job
      holds these trimmed, the rest as sent, and the minted pid. */
  ghost predicate AsksFor(userId: string, p: Params, minted: Option<string>, job: Job) {
    var c := job.candidate;
    && Identity.Trim(p.projectId) != "" && job.projectId == p.projectId && job.userId == userId && job.key == p.key
    && Identity.Trim(p.assetPid) == "" && minted == Some(c.assetPid) && Identity.ValidPid(c.assetPid)
    && (|| (Identity.Trim(p.relation) == "forked_from" && job.relation == ForkedFrom)
        || (Identity.Trim(p.relation) == "derived_from" && job.relation == DerivedFrom))
    && job.parent == Identity.Trim(p.parent) && Identity.ParseDependencyPin(job.parent).Some?
    && c.assetType == Identity.Trim(p.assetType) && Manifest.KnownType(c.assetType)
    && c.version == Identity.Trim(p.version) && Identity.ValidVersionLabel(c.version)
    && (|| (Identity.Trim(p.visibility) == "public" && c.visibility == Gate.Public)
        || (Identity.Trim(p.visibility) == "private" && c.visibility == Gate.Private))
    && job.title == Identity.Trim(p.title) && Fits(job.title, 256) && job.slug == Identity.Trim(p.slug) && Fits(job.slug, 128)
    && job.confirmation == Identity.Trim(p.confirmation) && |job.confirmation| <= 512
    && c.manifest == p.manifest && c.rights == p.rights && c.originRefs == p.originRefs
    && c.integrityHash == Identity.Trim(p.integrityHash) && c.creatorIds == p.creatorIds
  }

  /** Validation lets exactly such requests through, as exactly that job. */
  lemma PreparedExactly(userId: string, p: Params, minted: Option<string>, job: Job)
    ensures Prepare(userId, p, minted) == Ready(job) <==> AsksFor(userId, p, minted, job)
  {
    hide Identity.Trim, Identity.ParseDependencyPin, Identity.ValidPid, Identity.ValidVersionLabel, Manifest.KnownType, ByteLength;
  }

  /** The step lets a call in: a well-shaped request of a non-agent who owns the target project. */
  ghost predicate LetIn(s: State, step: Step, id: nat, job: Job) {
    && step.BeginStep? && step.id == id && !step.isAgent
    && AsksFor(step.userId, step.params, step.minted, job)
    && MembershipOf(s, job.projectId, job.userId) == Has(Owner)
  }

  /** The call began at step k, by a non-agent who owned the target project then. */
  ghost predicate BeganAt(w: World, init: State, steps: seq<Step>, k: nat, id: nat, job: Job) {
    k < |steps| && LetIn(After(w, init, steps[..k]), steps[k], id, job)
  }

  /** No ledger row is of the request's project and key. */
  ghost predicate NotRecorded(w: World, s: State, job: Job) {
    forall i :: 0 <= i < |s.store.ledger| ==> !(w.uuid(job.projectId) == Some(s.store.ledger[i].project) && job.key == Some(s.store.ledger[i].key))
  }

  lemma {:induction false} FindNothing(ledger: seq<Entry>, project: string, key: string)
    ensures Find(ledger, project, key) == None <==> forall i :: 0 <= i < |ledger| ==> !(ledger[i].project == project && ledger[i].key == key)
  {
    if ledger != [] {
      FindNothing(ledger[..|ledger| - 1], project, key);
      assert forall i :: 0 <= i < |ledger| - 1 ==> ledger[..|ledger| - 1][i] == ledger[i];
    }
  }

  lemma RecordedExactly(w: World, s: State, job: Job)
    ensures Recorded(w, s, job) == None <==> NotRecorded(w, s, job)
  {
    hide Find;
    var project := w.uuid(job.projectId);
    if project.Some? && job.key.Some? {
      FindNothing(s.store.ledger, project.value, job.key.value);
    }
  }

  /** The key was looked up at step k and not recorded then. */
  ghost predicate LookedUpAt(w: World, init: State, steps: seq<Step>, k: nat, id: nat, job: Job) {
    k < |steps| && steps[k] == LookupStep(id) && NotRecorded(w, After(w, init, steps[..k]), job)
  }

  /** The policy could be read and evaluated, and the rule is absent or false. */
  predicate AsksNoReview(answer: PolicyAnswer) {
    answer == Rule(false, false) || answer == Rule(false, true) || answer == Rule(true, false)
  }

  /** The policy was read at step k, and for a public child it asked for no review. */
  ghost predicate PolicyPassedAt(w: World, init: State, steps: seq<Step>, k: nat, id: nat, job: Job) {
    && k < |steps| && steps[k] == PolicyStep(id)
    && (job.candidate.visibility == Gate.Public ==> AsksNoReview(PolicyOf(After(w, init, steps[..k]), job.projectId)))
  }

  ghost predicate Began(w: World, init: State, steps: seq<Step>, id: nat, job: Job) {
    exists k :: BeganAt(w, init, steps, k, id, job)
  }

  ghost predicate LookedUp(w: World, init: State, steps: seq<Step>, id: nat, job: Job) {
    exists k :: LookedUpAt(w, init, steps, k, id, job)
  }

  ghost predicate PolicyPassed(w: World, init: State, steps: seq<Step>, id: nat, job: Job) {
    exists k :: PolicyPassedAt(w, init, steps, k, id, job)
  }

  /** Where a pending call stands is where its past put it. */
  ghost predicate PendingSound(w: World, init: State, steps: seq<Step>, id: nat, p: Pending) {
    && Began(w, init, steps, id, p.job)
    && (!p.Authorized? ==> LookedUp(w, init, steps, id, p.job))
    && (p.Cleared? ==> PolicyPassed(w, init, steps, id, p.job))
  }

  lemma PastKept(w: World, init: State, steps: seq<Step>, id: nat, job: Job)
    requires steps != []
    ensures Began(w, init, steps[..|steps| - 1], id, job) ==> Began(w, init, steps, id, job)
    ensures LookedUp(w, init, steps[..|steps| - 1], id, job) ==> LookedUp(w, init, steps, id, job)
    ensures PolicyPassed(w, init, steps[..|steps| - 1], id, job) ==> PolicyPassed(w, init, steps, id, job)
  {
    hide LetIn, After, NotRecorded, PolicyOf, AsksNoReview;
    var before := steps[..|steps| - 1];
    assert forall k: nat :: k <= |before| ==> before[..k] == steps[..k];
    if Began(w, init, before, id, job) {
      var k: nat :| BeganAt(w, init, before, k, id, job);
      assert BeganAt(w, init, steps, k, id, job);
    }
    if LookedUp(w, init, before, id, job) {
      var k: nat :| LookedUpAt(w, init, before, k, id, job);
      assert LookedUpAt(w, init, steps, k, id, job);
    }
    if PolicyPassed(w, init, before, id, job) {
      var k: nat :| PolicyPassedAt(w, init, before, k, id, job);
      assert PolicyPassedAt(w, init, steps, k, id, job);
    }
  }

  lemma BeginPends(s: State, step: Step, id: nat)
    requires step.BeginStep?
    ensures var t := Begin(s, step.id, step.userId, step.isAgent, step.params, step.minted);
            id in t.pending && !(id in s.pending && t.pending[id] == s.pending[id]) ==>
              t.pending[id].Authorized? && LetIn(s, step, id, t.pending[id].job)
  {
    hide Prepare, RequireDerive, MembershipOf, AsksFor;
    var prepared := Prepare(step.userId, step.params, step.minted);
    if prepared.Ready? {
      OwnersOnly(MembershipOf(s, prepared.job.projectId, step.userId), step.isAgent);
      PreparedExactly(step.userId, step.params, step.minted, prepared.job);
      JobOfUser(step.userId, step.params, step.minted);
    }
  }

  lemma JobOfUser(userId: string, p: Params, minted: Option<string>)
    requires Prepare(userId, p, minted).Ready?
    ensures Prepare(userId, p, minted).job.userId == userId
  {
    hide WellShaped, Identity.Trim, ParseRelation, ParseVisibility, Identity.ValidPid;
  }

  lemma LookupPends(w: World, s: State, i: nat, id: nat)
    requires id in Lookup(w, s, i).pending
    ensures var p := Lookup(w, s, i).pending[id];
            || (id in s.pending && p == s.pending[id])
            || (i == id && id in s.pending && s.pending[id] == Authorized(p.job) && p.Unrecorded? && NotRecorded(w, s, p.job))
  {
    hide Recorded, ReplayMatches, NotRecorded;
    RecordedExactly(w, s, Lookup(w, s, i).pending[id].job);
  }

  lemma PolicyPends(s: State, i: nat, id: nat)
    requires id in CheckPolicy(s, i).pending
    ensures var p := CheckPolicy(s, i).pending[id];
            || (id in s.pending && p == s.pending[id])
            || (&& i == id && id in s.pending && s.pending[id] == Unrecorded(p.job) && p.Cleared?
                && (p.job.candidate.visibility == Gate.Public ==> AsksNoReview(PolicyOf(s, p.job.projectId))))
  {
    hide PolicyOf;
  }

  lemma CommitPends(w: World, s: State, i: nat, r: Reading, id: nat)
    requires id in Commit(w, s, i, r).pending
    ensures id in s.pending && Commit(w, s, i, r).pending[id] == s.pending[id]
  {
    hide Transact, Stored;
  }

  /** How one step can leave a call pending. */
  lemma StepPends(w: World, s: State, step: Step, id: nat)
    requires id in Apply(w, s, step).pending
    ensures var p := Apply(w, s, step).pending[id];
            || (id in s.pending && p == s.pending[id])
            || (p.Authorized? && LetIn(s, step, id, p.job))
            || (step == LookupStep(id) && id in s.pending && s.pending[id] == Authorized(p.job) && p.Unrecorded? && NotRecorded(w, s, p.job))
            || (&& step == PolicyStep(id) && id in s.pending && s.pending[id] == Unrecorded(p.job) && p.Cleared?
                && (p.job.candidate.visibility == Gate.Public ==> AsksNoReview(PolicyOf(s, p.job.projectId))))
  {
    hide Begin, Lookup, CheckPolicy, Commit, LetIn, NotRecorded, AsksNoReview, PolicyOf;
    match step {
      case BeginStep(_, _, _, _, _) => BeginPends(s, step, id);
      case LookupStep(i) => LookupPends(w, s, i, id);
      case PolicyStep(i) => PolicyPends(s, i, id);
      case CommitStep(i, reading) => CommitPends(w, s, i, reading, id);
      case _ =>
    }
  }

  lemma {:induction false} PendingIsSound(w: World, init: State, steps: seq<Step>, id: nat)
    requires Initial(init) && id in After(w, init, steps).pending
    ensures PendingSound(w, init, steps, id, After(w, init, steps).pending[id])
  {
    hide Apply, LetIn, NotRecorded, PolicyOf, AsksNoReview, Began, LookedUp, PolicyPassed;
    if steps != [] {
      var k := |steps| - 1;
      var before, step := steps[..k], steps[k];
      var s, p := After(w, init, before), After(w, init, steps).pending[id];
      StepPends(w, s, step, id);
      PastKept(w, init, steps, id, p.job);
      if id in s.pending {
        PendingIsSound(w, init, before, id);
      }
      NowPast(w, init, steps, id, p.job);
    }
  }

  /** What the last step did is part of the past. */
  lemma NowPast(w: World, init: State, steps: seq<Step>, id: nat, job: Job)
    requires steps != []
    ensures BeganAt(w, init, steps, |steps| - 1, id, job) ==> Began(w, init, steps, id, job)
    ensures LookedUpAt(w, init, steps, |steps| - 1, id, job) ==> LookedUp(w, init, steps, id, job)
    ensures PolicyPassedAt(w, init, steps, |steps| - 1, id, job) ==> PolicyPassed(w, init, steps, id, job)
  {
    hide BeganAt, LookedUpAt, PolicyPassedAt;
  }

  // ---------------------------------------------------------------- every write is lawful

  /** The parent's declaration lets this caller derive, and the verdict says on what grounds: it
      allows derivatives, or it leaves them unspecified and the caller confirmed in 1 to 512
      characters. */
  predicate LetsDerive(rights: Gate.RightsResult, confirmation: string, verdict: Derivable) {
    var said := Identity.Trim(confirmation);
    && rights.RightsRead?
    && verdict.permission == rights.document.derivatives && verdict.confirmation == said
    && (|| (rights.document.derivatives == Gate.Allowed && !verdict.confirmationRequired)
        || (rights.document.derivatives == Gate.Unspecified && 1 <= |said| <= 512 && verdict.confirmationRequired))
  }

  lemma DerivableExactly(parse: string -> Gate.RightsResult, rights: string, confirmation: string, verdict: Derivable)
    ensures RequireDerivable(parse, rights, confirmation) == Permitted(verdict) <==> LetsDerive(parse(rights), confirmation, verdict)
  {
    hide Identity.Trim;
  }

  /** How a declaration that does not is answered. */
  function RefusalOf(rights: Gate.RightsResult, confirmation: string): RightsCode {
    if !rights.RightsRead? then Unreadable
    else if rights.document.derivatives == Gate.Forbidden then DerivativesForbidden
    else if rights.document.derivatives != Gate.Unspecified then Unreadable
    else if Identity.Trim(confirmation) == "" then DerivativesUnspecified
    else ConfirmationTooLong
  }

  /** Everyone may read the parent when its project and itself are public, otherwise a member may. */
  ghost predicate MayReadParent(s: State, row: VersionRow, userId: string) {
    && row.projectId != ""
    && (|| (row.projectId in s.projects && s.projects[row.projectId] == Gate.Public && row.visibility == Gate.Public)
        || MembershipOf(s, row.projectId, userId).Has?)
  }

  /** The row says what the request asked for, by whom, and from which version. */
  predicate Describes(asset: DerivedAsset, job: Job, parent: Address) {
    && asset.assetPid == job.candidate.assetPid && asset.version == job.candidate.version && asset.visibility == job.candidate.visibility
    && asset.publishedBy == job.userId && asset.relation == job.relation
    && asset.parentPid == parent.0 && asset.parentVersion == parent.1
  }

  /** What the transaction found when it wrote: the project exists and the key is new to it,
      the pid is new, the parent is published, readable by the caller and derivable from, and
      the candidate passes the gate and exposes nothing hidden. */
  ghost predicate LawfulWrite(w: World, s: State, r: Reading, write: Write) {
    var job := write.job;
    && w.uuid(job.projectId) == Some(write.project) && write.project in s.projects
    && NotRecorded(w, s, job)
    && Identity.ParseDependencyPin(job.parent).Some? && ParentAddress(job) in s.store.versions
    && Describes(write.asset, job, ParentAddress(job))
    && var row := s.store.versions[ParentAddress(job)];
       && MayReadParent(s, row, job.userId)
       && LetsDerive(w.ports.parseRights(row.rights), job.confirmation, write.verdict)
       && job.candidate.assetPid !in s.store.assets
       && PreviewProofs.ContentAllowed(PreviewRequest(job), Resolve(s.store, job.candidate, r), w.ports)
  }

  lemma TransactWrites(w: World, s: State, id: nat, job: Job, r: Reading)
    requires Transact(w, s, job, r).Writes?
    ensures var o := Transact(w, s, job, r); LawfulWrite(w, s, r, Write(id, o.project, job, o.asset, o.verdict))
  {
    hide Recorded, ReadGate, RequireDerivable, Review, PreviewProofs.ContentAllowed, Identity.ParseDependencyPin, PreviewRequest, Gate.GateErrors,
      Resolve, NotRecorded, MayReadParent, LetsDerive;
    ReviewExactly(w, s.store, job, r);
    RecordedExactly(w, s, job);
    var row := s.store.versions[ParentAddress(job)];
    ReadGateExactly(s, row, job.userId);
    DerivableExactly(w.ports.parseRights, row.rights, job.confirmation, Transact(w, s, job, r).verdict);
  }

  /** A transaction that has come to the parent's declaration writes only if it lets the caller
      derive, and otherwise answers with the declaration's refusal. */
  lemma DeclarationDecides(w: World, s: State, job: Job, r: Reading)
    requires !r.failed && w.uuid(job.projectId).Some? && w.uuid(job.projectId).value in s.projects && NotRecorded(w, s, job)
    requires Identity.ParseDependencyPin(job.parent).Some? && ParentAddress(job) in s.store.versions
    requires MayReadParent(s, s.store.versions[ParentAddress(job)], job.userId)
    ensures var rights := w.ports.parseRights(s.store.versions[ParentAddress(job)].rights);
            (forall verdict :: !LetsDerive(rights, job.confirmation, verdict)) ==>
              Transact(w, s, job, r) == Abort(RightsForbid(RefusalOf(rights, job.confirmation)))
  {
    hide Recorded, ReadGate, Review, Identity.ParseDependencyPin, NotRecorded, MayReadParent, Child, Identity.Trim, LetsDerive;
    RecordedExactly(w, s, job);
    var row := s.store.versions[ParentAddress(job)];
    ReadGateExactly(s, row, job.userId);
    var answer := RequireDerivable(w.ports.parseRights, row.rights, job.confirmation);
    if answer.Permitted? {
      DerivableExactly(w.ports.parseRights, row.rights, job.confirmation, answer.verdict);
    }
  }

  /** The derivation was written at step k, lawfully, by a call that began as an owner's, found
      its key unrecorded and, for a public child, passed the policy, all before. */
  ghost predicate WrittenAt(w: World, init: State, steps: seq<Step>, k: nat, write: Write) {
    && k < |steps| && steps[k].CommitStep? && steps[k].id == write.id
    && LawfulWrite(w, After(w, init, steps[..k]), steps[k].reading, write)
    && Began(w, init, steps[..k], write.id, write.job)
    && LookedUp(w, init, steps[..k], write.id, write.job)
    && PolicyPassed(w, init, steps[..k], write.id, write.job)
  }

  /** Safety over whole runs: nothing is ever written but by a lawful call. */
  lemma {:induction false} EveryWriteIsLawful(w: World, init: State, steps: seq<Step>, i: nat)
    requires Initial(init) && i < |After(w, init, steps).store.writes|
    ensures exists k :: WrittenAt(w, init, steps, k, After(w, init, steps).store.writes[i])
  {
    hide Apply, LawfulWrite, Began, LookedUp, PolicyPassed, Transact;
    var k := |steps| - 1;
    var before, step := steps[..k], steps[k];
    var s := After(w, init, before);
    var write := After(w, init, steps).store.writes[i];
    StepWrites(w, s, step);
    if i < |s.store.writes| {
      EveryWriteIsLawful(w, init, before, i);
      var j: nat :| WrittenAt(w, init, before, j, s.store.writes[i]);
      assert before[..j] == steps[..j];
      assert WrittenAt(w, init, steps, j, write);
    } else {
      PendingIsSound(w, init, before, step.id);
      TransactWrites(w, s, step.id, s.pending[step.id].job, step.reading);
      assert WrittenAt(w, init, steps, k, write);
    }
  }

  // ---------------------------------------------------------------- pinned versions

  /** The version a pin names is stored, and the network may read it. */
  ghost predicate PinsNothingPrivate(versions: map<Address, VersionRow>, pin: string) {
    var p := Identity.ParseDependencyPin(pin);
    p.Some? && p.value in versions && versions[p.value].visibility != Gate.Private
  }

  lemma ContentPins(req: Preview.Request, state: Preview.State, ports: Gate.Ports, pin: string)
    requires PreviewProofs.ContentAllowed(req, state, ports) && req.candidate.visibility == Gate.Public
    requires pin in Preview.GateManifest(req.candidate).Pins()
    ensures exists i :: 0 <= i < |state.pins| && state.pins[i].pin == pin && state.pins[i].visibility != Gate.Private
  {
    hide Gate.MayBeStored, PreviewProofs.RefSettled, PreviewProofs.BlobOpen, Preview.GateManifest, PreviewProofs.NamesBlob, PreviewProofs.PromisesOpen;
    var pins := Preview.GateManifest(req.candidate).Pins();
    var i :| 0 <= i < |pins| && pins[i] == pin;
    assert PreviewProofs.PinSettled(state.pins, pins[i], Gate.Public);
  }

  lemma AllowedPins(store: Store, req: Preview.Request, r: Reading, ports: Gate.Ports, pin: string)
    requires PreviewProofs.ContentAllowed(req, Resolve(store, req.candidate, r), ports) && req.candidate.visibility == Gate.Public
    requires pin in Preview.GateManifest(req.candidate).Pins()
    ensures PinsNothingPrivate(store.versions, pin)
  {
    hide PreviewProofs.ContentAllowed, Preview.GateManifest, Gather, Identity.ParseDependencyPin, Identity.Respelled;
    var pins := Preview.GateManifest(req.candidate).Pins();
    var found := Gather(pins, PinResolver(store.versions));
    ContentPins(req, Resolve(store, req.candidate, r), ports, pin);
    var i :| 0 <= i < |found| && found[i].pin == pin && found[i].visibility != Gate.Private;
    GatherMember(pins, PinResolver(store.versions), found[i]);
  }

  /** Published versions stay as they are. */
  ghost predicate Keeps(older: map<Address, VersionRow>, newer: map<Address, VersionRow>) {
    forall a :: a in older ==> a in newer && newer[a] == older[a]
  }

  lemma StoredKeeps(store: Store, write: Write)
    requires VersionsHaveAssets(store) && write.asset.assetPid !in store.assets
    ensures Keeps(store.versions, Stored(store, write).versions) && VersionsHaveAssets(Stored(store, write))
  {
  }

  lemma LawfulPid(w: World, s: State, r: Reading, write: Write)
    requires LawfulWrite(w, s, r, write)
    ensures write.asset.assetPid !in s.store.assets
    ensures PreviewProofs.ContentAllowed(PreviewRequest(write.job), Resolve(s.store, write.job.candidate, r), w.ports)
  {
    hide NotRecorded, MayReadParent, LetsDerive, PreviewProofs.ContentAllowed, Identity.ParseDependencyPin, Resolve, PreviewRequest;
  }

  lemma PublishedKeeps(w: World, s: State, step: Step)
    requires VersionsHaveAssets(s.store) && step.Published?
    ensures Keeps(s.store.versions, Apply(w, s, step).store.versions) && VersionsHaveAssets(Apply(w, s, step).store)
  {
    hide Begin, Lookup, CheckPolicy, Commit;
  }

  lemma StepKeeps(w: World, s: State, step: Step)
    requires VersionsHaveAssets(s.store)
    ensures Keeps(s.store.versions, Apply(w, s, step).store.versions) && VersionsHaveAssets(Apply(w, s, step).store)
  {
    hide Apply, Transact, LawfulWrite, Stored, VersionsHaveAssets;
    StepWrites(w, s, step);
    if step.Published? {
      PublishedKeeps(w, s, step);
    } else if Apply(w, s, step).store != s.store {
      var job := s.pending[step.id].job;
      var o := Transact(w, s, job, step.reading);
      var write := Write(step.id, o.project, job, o.asset, o.verdict);
      TransactWrites(w, s, step.id, job, step.reading);
      LawfulPid(w, s, step.reading, write);
      StoredKeeps(s.store, write);
    }
  }

  lemma {:induction false} VersionsKept(w: World, init: State, steps: seq<Step>, k: nat)
    requires Initial(init) && k <= |steps|
    ensures Keeps(After(w, init, steps[..k]).store.versions, After(w, init, steps).store.versions)
    ensures VersionsHaveAssets(After(w, init, steps).store)
  {
    hide Apply;
    if k == |steps| {
      assert steps[..k] == steps;
    }
    if steps != [] {
      var before := steps[..|steps| - 1];
      VersionsKept(w, init, before, if k < |steps| then k else |before|);
      StepKeeps(w, After(w, init, before), steps[|steps| - 1]);
      if k < |steps| {
        assert before[..k] == steps[..k];
      }
    }
  }

  /** Over every run, what a public derivation pins is stored and is not private. */
  lemma PublicWritesPinNothingPrivate(w: World, init: State, steps: seq<Step>, i: nat, pin: string)
    requires Initial(init) && i < |After(w, init, steps).store.writes|
    requires var x := After(w, init, steps).store.writes[i];
             x.job.candidate.visibility == Gate.Public && pin in Preview.GateManifest(x.job.candidate).Pins()
    ensures PinsNothingPrivate(After(w, init, steps).store.versions, pin)
  {
    hide After, LawfulWrite, Began, LookedUp, PolicyPassed, PreviewProofs.ContentAllowed, Resolve, Preview.GateManifest, Identity.ParseDependencyPin;
    var x := After(w, init, steps).store.writes[i];
    EveryWriteIsLawful(w, init, steps, i);
    var k: nat :| WrittenAt(w, init, steps, k, x);
    var s := After(w, init, steps[..k]);
    LawfulPid(w, s, steps[k].reading, x);
    AllowedPins(s.store, PreviewRequest(x.job), steps[k].reading, w.ports, pin);
    VersionsKept(w, init, steps, k);
  }

  // ---------------------------------------------------------------- the ledger

  /** The ledger row of a write, when its request carried a key. */
  function EntryOf(write: Write): Option<Entry> {
    if write.job.key.Some? then Some(Entry(write.project, write.job.key.value, write.asset)) else None
  }

  ghost predicate SameKey(a: Write, b: Write) {
    a.project == b.project && a.job.key.Some? && a.job.key == b.job.key
  }

  /** The ledger holds exactly the keyed writes, in order, and no key of a project twice. */
  ghost predicate LedgerSound(store: Store) {
    && store.ledger == Gather(store.writes, EntryOf)
    && forall i, j :: 0 <= i < j < |store.writes| ==> !SameKey(store.writes[i], store.writes[j])
  }

  lemma {:induction false} FindMissing(ledger: seq<Entry>, project: string, key: string, e: Entry)
    requires Find(ledger, project, key) == None && e in ledger
    ensures e.project != project || e.key != key
  {
    if e != ledger[|ledger| - 1] {
      FindMissing(ledger[..|ledger| - 1], project, key, e);
    }
  }

  lemma StoredSound(store: Store, write: Write)
    requires LedgerSound(store)
    requires write.job.key.Some? ==> Find(store.ledger, write.project, write.job.key.value) == None
    ensures LedgerSound(Stored(store, write))
  {
    hide Gather, Find;
    GatherSnoc(store.writes, write, EntryOf);
    forall i | 0 <= i < |store.writes| ensures !SameKey(store.writes[i], write) {
      if SameKey(store.writes[i], write) {
        GatherHas(store.writes, EntryOf, i);
        FindMissing(store.ledger, write.project, write.job.key.value, EntryOf(store.writes[i]).value);
      }
    }
  }

  lemma LawfulKeyIsNew(w: World, s: State, r: Reading, write: Write)
    requires LawfulWrite(w, s, r, write)
    ensures write.job.key.Some? ==> Find(s.store.ledger, write.project, write.job.key.value) == None
  {
    hide Find, MayReadParent, LetsDerive, PreviewProofs.ContentAllowed, Identity.ParseDependencyPin, NotRecorded;
    RecordedExactly(w, s, write.job);
  }

  /** Each key of a project is written at most once, and the ledger says which writes there were. */
  lemma {:induction false} LedgerIsSound(w: World, init: State, steps: seq<Step>)
    requires Initial(init)
    ensures LedgerSound(After(w, init, steps).store)
  {
    hide Apply, LawfulWrite, Transact, Gather, Find, SameKey, EntryOf;
    if steps == [] {
      GatherEmpty(init.store.writes, EntryOf);
    } else {
      var s, step := After(w, init, steps[..|steps| - 1]), steps[|steps| - 1];
      LedgerIsSound(w, init, steps[..|steps| - 1]);
      StepWrites(w, s, step);
      if Apply(w, s, step).store.writes != s.store.writes {
        var job := s.pending[step.id].job;
        var o := Transact(w, s, job, step.reading);
        var write := Write(step.id, o.project, job, o.asset, o.verdict);
        TransactWrites(w, s, step.id, job, step.reading);
        LawfulKeyIsNew(w, s, step.reading, write);
        StoredSound(s.store, write);
      }
    }
  }

  /** A recorded key keeps naming the derivation it named first. */
  lemma FoundStays(w: World, s: State, step: Step, project: string, key: string)
    requires Find(s.store.ledger, project, key).Some?
    ensures Find(Apply(w, s, step).store.ledger, project, key) == Find(s.store.ledger, project, key)
  {
    hide Apply, LawfulWrite, Transact;
    StepWrites(w, s, step);
    if Apply(w, s, step).store.ledger != s.store.ledger {
      var job := s.pending[step.id].job;
      var o := Transact(w, s, job, step.reading);
      TransactWrites(w, s, step.id, job, step.reading);
      LawfulKeyIsNew(w, s, step.reading, Write(step.id, o.project, job, o.asset, o.verdict));
      var added := Apply(w, s, step).store.ledger;
      assert added[..|added| - 1] == s.store.ledger;
    }
  }

  lemma {:induction false} RecordedForever(w: World, init: State, steps: seq<Step>, more: seq<Step>, project: string, key: string)
    requires Find(After(w, init, steps).store.ledger, project, key).Some?
    ensures Find(After(w, init, steps + more).store.ledger, project, key) == Find(After(w, init, steps).store.ledger, project, key)
    decreases |more|
  {
    hide Apply, Find;
    if more == [] {
      assert steps + more == steps;
    } else {
      var less, last := more[..|more| - 1], more[|more| - 1];
      assert (steps + more)[..|steps + more| - 1] == steps + less;
      RecordedForever(w, init, steps, less, project, key);
      FoundStays(w, After(w, init, steps + less), last, project, key);
    }
  }

  /** The ledger answers a key with the write that carried it. */
  lemma {:induction false} FindWrite(writes: seq<Write>, i: nat)
    requires i < |writes| && writes[i].job.key.Some?
    requires forall i, j :: 0 <= i < j < |writes| ==> !SameKey(writes[i], writes[j])
    ensures Find(Gather(writes, EntryOf), writes[i].project, writes[i].job.key.value) == Some(writes[i].asset)
  {
    hide Gather;
    var before, last := writes[..|writes| - 1], writes[|writes| - 1];
    assert writes == before + [last];
    GatherSnoc(before, last, EntryOf);
    var older := Gather(before, EntryOf);
    if i < |before| {
      assert !SameKey(writes[i], last);
      FindWrite(before, i);
      assert last.job.key.Some? ==> (older + AsList(EntryOf(last)))[..|older|] == older;
      assert last.job.key.None? ==> older + AsList(EntryOf(last)) == older;
    }
  }

  // ---------------------------------------------------------------- repeats

  /** The second request asks for what the first one asked for. */
  ghost predicate AsksTheSame(first: Job, again: Job)
    requires Identity.ParseDependencyPin(first.parent).Some?
  {
    again.parent == Identity.Respelled(first.parent) && again.relation == first.relation && again.candidate.version == first.candidate.version
  }

  lemma ChildMatches(first: Job, again: Job)
    requires Identity.ParseDependencyPin(first.parent).Some?
    ensures ReplayMatches(Child(first, ParentAddress(first)), again) <==> AsksTheSame(first, again)
  {
    hide Identity.ParseDependencyPin, Identity.NewDependencyPin;
    Identity.PinCanonical(first.parent);
  }

  lemma WriteIsChild(w: World, init: State, steps: seq<Step>, i: nat)
    requires Initial(init) && i < |After(w, init, steps).store.writes|
    ensures var x := After(w, init, steps).store.writes[i];
            Identity.ParseDependencyPin(x.job.parent).Some? && x.asset == Child(x.job, ParentAddress(x.job))
  {
    hide After, Began, LookedUp, PolicyPassed, NotRecorded, MayReadParent, LetsDerive, PreviewProofs.ContentAllowed, Identity.ParseDependencyPin;
    EveryWriteIsLawful(w, init, steps, i);
  }

  /** A later call under a recorded key: the same request gets the stored derivation back,
      whatever pid was minted for it; another one gets a conflict; and nothing else changes. */
  lemma RepeatIsAnswered(w: World, init: State, steps: seq<Step>, more: seq<Step>, i: nat, id: nat)
    requires Initial(init) && i < |After(w, init, steps).store.writes|
    requires var x := After(w, init, steps).store.writes[i];
             var t := After(w, init, steps + more);
             && id in t.pending && t.pending[id].Authorized?
             && x.job.key.Some? && t.pending[id].job.key == x.job.key && w.uuid(t.pending[id].job.projectId) == Some(x.project)
    ensures var x := After(w, init, steps).store.writes[i];
            var t := After(w, init, steps + more);
            && Identity.ParseDependencyPin(x.job.parent).Some?
            && Lookup(w, t, id) == Answered(t, id, if AsksTheSame(x.job, t.pending[id].job) then Derived(x.asset) else Failed(IdempotencyConflict))
  {
    hide After, Find, AsksTheSame, ReplayMatches, Gather, SameKey, Child, Identity.ParseDependencyPin;
    var x := After(w, init, steps).store.writes[i];
    var t := After(w, init, steps + more);
    LedgerIsSound(w, init, steps);
    FindWrite(After(w, init, steps).store.writes, i);
    RecordedForever(w, init, steps, more, x.project, x.job.key.value);
    WriteIsChild(w, init, steps, i);
    ChildMatches(x.job, t.pending[id].job);
  }

  /** A verbatim repeat gets its derivation back exactly when its parent reference has no
      blanks around the label. */
  lemma VerbatimRepeatExactly(w: World, init: State, steps: seq<Step>, more: seq<Step>, i: nat, id: nat)
    requires Initial(init) && i < |After(w, init, steps).store.writes|
    requires var x := After(w, init, steps).store.writes[i];
             var t := After(w, init, steps + more);
             && id in t.pending && t.pending[id].Authorized?
             && x.job.key.Some? && t.pending[id].job.key == x.job.key && w.uuid(t.pending[id].job.projectId) == Some(x.project)
             && var again := t.pending[id].job;
                again.parent == x.job.parent && again.relation == x.job.relation && again.candidate.version == x.job.candidate.version
    ensures var x := After(w, init, steps).store.writes[i];
            var t := After(w, init, steps + more);
            id in Lookup(w, t, id).answers
            && (Lookup(w, t, id).answers[id] == Derived(x.asset) <==> Identity.CanonicalPin(x.job.parent))
  {
    hide After, Lookup, Identity.ParseDependencyPin;
    RepeatIsAnswered(w, init, steps, more, i, id);
  }

  lemma EdgesKept(s: string)
    requires s != "" && !Identity.IsSpace(s[0]) && !Identity.IsSpace(s[|s| - 1])
    ensures Identity.Trim(s) == s
  {
    hide Identity.IsSpace;
  }

  lemma TrimLeadingBlank(s: string)
    ensures Identity.Trim(" " + s) == Identity.Trim(s)
  {
    assert (" " + s)[1..] == s;
    assert (" " + s)[0] == ' ';
  }

  /** Such a reference: it is accepted, names the version, and is not what the ledger spells. */
  lemma PaddedParentNotCanonical(pid: string, version: string)
    requires Identity.ValidPid(pid) && Identity.ValidVersionLabel(version) && Identity.Trim(version) == version
    ensures var parent := pid + "@" + (" " + version);
            && Identity.Trim(parent) == parent
            && Identity.ParseDependencyPin(parent) == Some((pid, version))
            && !Identity.CanonicalPin(parent)
  {
    hide Identity.Trim, Strings.FindChar;
    var parent := pid + "@" + (" " + version);
    assert parent[0] == pid[0] && parent[|parent| - 1] == version[|version| - 1];
    assert Identity.PidChar(pid[0]) && Identity.LabelChar(version[|version| - 1]);
    EdgesKept(parent);
    Identity.CutAtPid(pid, " " + version);
    TrimLeadingBlank(version);
    assert |pid + "@" + version| != |parent|;
  }

  // ---------------------------------------------------------------- conflicts

  ghost predicate NoCallTwice(s: State) {
    s.pending.Keys !! s.answers.Keys
  }

  /** This lookup finds the key recorded for another request. */
  ghost predicate FindsAnother(w: World, s: State, step: Step, id: nat) {
    && step == LookupStep(id) && id in s.pending && s.pending[id].Authorized?
    && var stored := Recorded(w, s, s.pending[id].job);
       stored.Some? && !ReplayMatches(stored.value, s.pending[id].job)
  }

  lemma BeginAnswers(s: State, i: nat, userId: string, isAgent: bool, params: Params, minted: Option<string>)
    requires NoCallTwice(s)
    ensures var t := Begin(s, i, userId, isAgent, params, minted);
            NoCallTwice(t)
            && (forall id :: id in s.answers ==> id in t.answers && t.answers[id] == s.answers[id])
            && (forall id :: id in t.answers && id !in s.answers ==> t.answers[id] != Failed(IdempotencyConflict))
  {
    hide Prepare, RequireDerive, MembershipOf;
    EarlyErrors(userId, params, minted, isAgent);
  }

  lemma EarlyErrors(userId: string, params: Params, minted: Option<string>, isAgent: bool)
    ensures Prepare(userId, params, minted) != Rejected(IdempotencyConflict)
    ensures forall answer :: RequireDerive(answer, isAgent) != Some(IdempotencyConflict)
  {
    hide WellShaped, ClassOf, PublishVerdict, Identity.Trim, ParseRelation, ParseVisibility, Identity.ValidPid;
  }

  lemma LookupAnswers(w: World, s: State, i: nat)
    requires NoCallTwice(s)
    ensures var t := Lookup(w, s, i);
            NoCallTwice(t)
            && (forall id :: id in s.answers ==> id in t.answers && t.answers[id] == s.answers[id])
            && (forall id :: id in t.answers && id !in s.answers ==>
                  (t.answers[id] == Failed(IdempotencyConflict) <==> FindsAnother(w, s, LookupStep(i), id)))
            && (forall id :: FindsAnother(w, s, LookupStep(i), id) ==> id in t.answers)
  {
    hide Recorded, ReplayMatches;
  }

  lemma PolicyAnswers(s: State, i: nat)
    requires NoCallTwice(s)
    ensures var t := CheckPolicy(s, i);
            NoCallTwice(t)
            && (forall id :: id in s.answers ==> id in t.answers && t.answers[id] == s.answers[id])
            && (forall id :: id in t.answers && id !in s.answers ==> t.answers[id] != Failed(IdempotencyConflict))
  {
    hide ReviewRequired, PolicyOf;
  }

  /** The transaction never answers with a conflict: the ledger's own uniqueness never fires. */
  lemma TransactNeverConflicts(w: World, s: State, job: Job, r: Reading)
    ensures Transact(w, s, job, r) != Abort(IdempotencyConflict)
  {
    hide Recorded, Identity.ParseDependencyPin, ParentReadable, MembershipOf, RequireDerivable, Child, Preview.PreviewOf, Gate.GateErrors, Refuses;
  }

  lemma CommitAnswers(w: World, s: State, i: nat, r: Reading)
    requires NoCallTwice(s)
    ensures var t := Commit(w, s, i, r);
            NoCallTwice(t)
            && (forall id :: id in s.answers ==> id in t.answers && t.answers[id] == s.answers[id])
            && (forall id :: id in t.answers && id !in s.answers ==> t.answers[id] != Failed(IdempotencyConflict))
  {
    hide Transact, Stored;
    if i in s.pending {
      TransactNeverConflicts(w, s, s.pending[i].job, r);
    }
  }

  lemma StepAnswers(w: World, s: State, step: Step, id: nat)
    requires NoCallTwice(s)
    ensures NoCallTwice(Apply(w, s, step))
    ensures var t := Apply(w, s, step);
            && (id in s.answers ==> id in t.answers && t.answers[id] == s.answers[id])
            && (id !in s.answers ==> (id in t.answers && t.answers[id] == Failed(IdempotencyConflict) <==> FindsAnother(w, s, step, id)))
            && (FindsAnother(w, s, step, id) ==> id !in s.answers)
  {
    hide Begin, Lookup, CheckPolicy, Commit, Recorded, ReplayMatches;
    match step {
      case BeginStep(i, userId, isAgent, params, minted) => BeginAnswers(s, i, userId, isAgent, params, minted);
      case LookupStep(i) => LookupAnswers(w, s, i);
      case PolicyStep(i) => PolicyAnswers(s, i);
      case CommitStep(i, reading) => CommitAnswers(w, s, i, reading);
      case _ =>
    }
  }

  /** In the whole run, some lookup of the call found its key recorded for another request. */
  ghost predicate FoundAnother(w: World, init: State, steps: seq<Step>, id: nat) {
    exists k :: 0 <= k < |steps| && FindsAnother(w, After(w, init, steps[..k]), steps[k], id)
  }

  /** A call is answered with a conflict if and only if its key was already recorded for
      another request when it was looked up. */
  lemma {:induction false} ConflictExactly(w: World, init: State, steps: seq<Step>, id: nat)
    requires Initial(init)
    ensures var s := After(w, init, steps);
            NoCallTwice(s) && (id in s.answers && s.answers[id] == Failed(IdempotencyConflict) <==> FoundAnother(w, init, steps, id))
  {
    hide Apply, FindsAnother;
    if steps != [] {
      var k := |steps| - 1;
      var before, step := steps[..k], steps[k];
      ConflictExactly(w, init, before, id);
      StepAnswers(w, After(w, init, before), step, id);
      FoundAnotherStep(w, init, steps, id);
    }
  }

  lemma FoundAnotherStep(w: World, init: State, steps: seq<Step>, id: nat)
    requires steps != []
    ensures FoundAnother(w, init, steps, id)
       <==> FoundAnother(w, init, steps[..|steps| - 1], id)
            || FindsAnother(w, After(w, init, steps[..|steps| - 1]), steps[|steps| - 1], id)
  {
    hide After, FindsAnother;
    var before := steps[..|steps| - 1];
    assert forall k :: 0 <= k <= |before| ==> before[..k] == steps[..k];
    if FoundAnother(w, init, before, id) {
      var k :| 0 <= k < |before| && FindsAnother(w, After(w, init, before[..k]), before[k], id);
      assert FindsAnother(w, After(w, init, steps[..k]), steps[k], id);
    }
    if FoundAnother(w, init, steps, id) {
      var k :| 0 <= k < |steps| && FindsAnother(w, After(w, init, steps[..k]), steps[k], id);
      assert k < |before| ==> FindsAnother(w, After(w, init, before[..k]), before[k], id);
    }
  }

  lemma CommitOutcome(w: World, s: State, id: nat, r: Reading)
    requires id in s.pending && s.pending[id].Cleared? && Transact(w, s, s.pending[id].job, r).Writes?
    ensures var o := Transact(w, s, s.pending[id].job, r);
            Commit(w, s, id, r) == Answered(s.(store := Stored(s.store, Write(id, o.project, s.pending[id].job, o.asset, o.verdict))), id, Derived(o.asset))
  {
    hide Transact, Stored, Answered;
  }

  lemma CommitReplays(w: World, s: State, id: nat, r: Reading)
    requires id in s.pending && s.pending[id].Cleared? && !r.failed
    requires var project := w.uuid(s.pending[id].job.projectId); project.Some? && project.value in s.projects
    requires Recorded(w, s, s.pending[id].job).Some?
    ensures Commit(w, s, id, r) == Answered(s, id, Derived(Recorded(w, s, s.pending[id].job).value))
  {
    hide Recorded, ReadGate, RequireDerivable, Review, Child, Identity.ParseDependencyPin, Stored, Answered;
  }

  /** When two calls with one key are both past their lookup, the second to commit is answered
      with the first one's derivation, whatever it asked for: the re-check inside the
      transaction does not compare the requests. */
  lemma SecondCommitReplays(w: World, s: State, first: nat, second: nat, r: Reading, q: Reading)
    requires first != second && first in s.pending && second in s.pending && s.pending[first].Cleared? && s.pending[second].Cleared?
    requires var a, b := s.pending[first].job, s.pending[second].job;
             && a.key.Some? && b.key == a.key && w.uuid(b.projectId) == w.uuid(a.projectId)
             && Transact(w, s, a, r).Writes? && !q.failed
    ensures var a := s.pending[first].job;
            var t := Commit(w, Commit(w, s, first, r), second, q);
            && Identity.ParseDependencyPin(a.parent).Some?
            && first in t.answers && t.answers[first] == Derived(Child(a, ParentAddress(a)))
            && second in t.answers && t.answers[second] == t.answers[first]
  {
    hide Transact, LawfulWrite, Commit, Child, Identity.ParseDependencyPin;
    var a := s.pending[first].job;
    var o := Transact(w, s, a, r);
    var write := Write(first, o.project, a, o.asset, o.verdict);
    CommitOutcome(w, s, first, r);
    TransactWrites(w, s, first, a, r);
    LawfulChild(w, s, r, write);
    CommitReplays(w, Commit(w, s, first, r), second, q);
  }

  lemma LawfulChild(w: World, s: State, r: Reading, write: Write)
    requires LawfulWrite(w, s, r, write)
    ensures w.uuid(write.job.projectId) == Some(write.project) && write.project in s.projects
    ensures Identity.ParseDependencyPin(write.job.parent).Some? && write.asset == Child(write.job, ParentAddress(write.job))
  {
    hide NotRecorded, MayReadParent, LetsDerive, PreviewProofs.ContentAllowed, Identity.ParseDependencyPin, Resolve;
  }
}
