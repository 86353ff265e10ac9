/** Two runs of the derive command that do not do what its idempotency key promises, from
    requests to answers. */
module DeriveRuns {
  import opened Options
  import opened Derive
  import opened DeriveProofs
  import Gate
  import Identity
  import Manifest
  import Preview
  import Text
  import PreviewProofs
  import Ordering

  lemma AfterSnoc(w: World, init: State, steps: seq<Step>, step: Step)
    ensures After(w, init, steps + [step]) == Apply(w, After(w, init, steps), step)
  {
    hide Apply;
    assert (steps + [step])[..|steps|] == steps;
  }

  /** A request of an owner that is well shaped and whose policy asks for no review. */
  ghost predicate Passes(s: State, userId: string, params: Params, pid: string, job: Job) {
    && Prepare(userId, params, Some(pid)) == Ready(job)
    && MembershipOf(s, job.projectId, job.userId) == Has(Owner)
    && RequirePolicy(PolicyOf(s, job.projectId), job.candidate.visibility) == None
  }

  lemma PassesStays(s: State, t: State, userId: string, params: Params, pid: string, job: Job)
    requires Passes(s, userId, params, pid, job) && t.members == s.members && t.policies == s.policies
    ensures Passes(t, userId, params, pid, job)
  {
    hide Prepare, RequirePolicy;
  }

  function At(s: State, id: nat, p: Pending): State {
    s.(pending := s.pending[id := p])
  }

  lemma BeginLets(w: World, s: State, id: nat, userId: string, params: Params, pid: string, job: Job)
    requires Passes(s, userId, params, pid, job) && id !in s.pending && id !in s.answers
    ensures Apply(w, s, BeginStep(id, userId, false, params, Some(pid))) == At(s, id, Authorized(job))
  {
    hide WellShaped, Lookup, CheckPolicy, Commit, MembershipOf, RequireDerive, RequirePolicy;
    OwnersOnly(MembershipOf(s, job.projectId, userId), false);
  }

  lemma LookupLets(w: World, s: State, id: nat, job: Job)
    requires id in s.pending && s.pending[id] == Authorized(job) && Recorded(w, s, job) == None
    ensures Apply(w, s, LookupStep(id)) == At(s, id, Unrecorded(job))
  {
    hide Begin, CheckPolicy, Commit, Recorded;
  }

  lemma NothingRecorded(w: World, s: State, job: Job)
    requires s.store.ledger == []
    ensures Recorded(w, s, job) == None
  {
  }

  lemma PolicyLets(w: World, s: State, id: nat, userId: string, params: Params, pid: string, job: Job)
    requires Passes(s, userId, params, pid, job) && id in s.pending && s.pending[id] == Unrecorded(job)
    ensures Apply(w, s, PolicyStep(id)) == At(s, id, Cleared(job))
  {
    hide Begin, Lookup, Commit, Prepare, RequirePolicy, PolicyOf, MembershipOf;
  }

  lemma CommitIs(w: World, s: State, id: nat, r: Reading)
    ensures Apply(w, s, CommitStep(id, r)) == Commit(w, s, id, r)
  {
    hide Begin, Lookup, CheckPolicy, Commit;
  }

  /** What a transaction does depends on the tables, not on who else is waiting. */
  lemma TransactSame(w: World, s: State, t: State, job: Job, r: Reading)
    requires t.projects == s.projects && t.members == s.members && t.store == s.store
    ensures Transact(w, t, job, r) == Transact(w, s, job, r)
  {
    hide Review, RequireDerivable, ParentReadable, Identity.ParseDependencyPin, Child, Find;
    forall row ensures ReadGate(s, row, job.userId) == ReadGate(t, row, job.userId) {
    }
  }

  // ---------------------------------------------------------------- the race

  /** Two calls that are let in, find their key unrecorded and pass the policy, each before
      either commits. */
  function RaceSteps(userId: string, a: Params, b: Params, pidA: string, pidB: string, r: Reading, q: Reading): seq<Step> {
    [ BeginStep(0, userId, false, a, Some(pidA)) ] + [ BeginStep(1, userId, false, b, Some(pidB)) ]
    + [ LookupStep(0) ] + [ LookupStep(1) ] + [ PolicyStep(0) ] + [ PolicyStep(1) ]
    + [ CommitStep(0, r) ] + [ CommitStep(1, q) ]
  }

  function BothCleared(init: State, a: Job, b: Job): State {
    init.(pending := map[0 := Cleared(a), 1 := Cleared(b)])
  }

  lemma SixSteps(w: World, init: State, userId: string, a: Params, b: Params, pidA: string, pidB: string, jobA: Job, jobB: Job)
    requires Initial(init) && Passes(init, userId, a, pidA, jobA) && Passes(init, userId, b, pidB, jobB)
    ensures After(w, init, [ BeginStep(0, userId, false, a, Some(pidA)) ] + [ BeginStep(1, userId, false, b, Some(pidB)) ]
                           + [ LookupStep(0) ] + [ LookupStep(1) ] + [ PolicyStep(0) ] + [ PolicyStep(1) ])
         == BothCleared(init, jobA, jobB)
  {
    hide Apply, Passes, Recorded;
    var b0, b1 := BeginStep(0, userId, false, a, Some(pidA)), BeginStep(1, userId, false, b, Some(pidB));
    var s1 := At(init, 0, Authorized(jobA));
    var s2 := At(s1, 1, Authorized(jobB));
    var s3 := At(s2, 0, Unrecorded(jobA));
    var s4 := At(s3, 1, Unrecorded(jobB));
    var s5 := At(s4, 0, Cleared(jobA));
    BeginLets(w, init, 0, userId, a, pidA, jobA);
    PassesStays(init, s1, userId, b, pidB, jobB);
    BeginLets(w, s1, 1, userId, b, pidB, jobB);
    NothingRecorded(w, s2, jobA);
    LookupLets(w, s2, 0, jobA);
    NothingRecorded(w, s3, jobB);
    LookupLets(w, s3, 1, jobB);
    PassesStays(init, s4, userId, a, pidA, jobA);
    PolicyLets(w, s4, 0, userId, a, pidA, jobA);
    PassesStays(init, s5, userId, b, pidB, jobB);
    PolicyLets(w, s5, 1, userId, b, pidB, jobB);
    AfterSnoc(w, init, [], b0);
    assert [] + [b0] == [b0];
    AfterSnoc(w, init, [b0], b1);
    AfterSnoc(w, init, [b0] + [b1], LookupStep(0));
    AfterSnoc(w, init, [b0] + [b1] + [LookupStep(0)], LookupStep(1));
    AfterSnoc(w, init, [b0] + [b1] + [LookupStep(0)] + [LookupStep(1)], PolicyStep(0));
    AfterSnoc(w, init, [b0] + [b1] + [LookupStep(0)] + [LookupStep(1)] + [PolicyStep(0)], PolicyStep(1));
  }

  /** The second call of such a run is answered with what the first one asked for. */
  lemma RaceAnswersAnotherRequest(w: World, init: State, userId: string, a: Params, b: Params, pidA: string, pidB: string,
                                  jobA: Job, jobB: Job, r: Reading, q: Reading)
    requires Initial(init) && Passes(init, userId, a, pidA, jobA) && Passes(init, userId, b, pidB, jobB)
    requires jobA.key.Some? && jobB.key == jobA.key && w.uuid(jobB.projectId) == w.uuid(jobA.projectId)
    requires Transact(w, init, jobA, r).Writes? && !q.failed
    ensures var t := After(w, init, RaceSteps(userId, a, b, pidA, pidB, r, q));
            && Identity.ParseDependencyPin(jobA.parent).Some? && 0 in t.answers && 1 in t.answers
            && t.answers[0] == t.answers[1] == Derived(Child(jobA, ParentAddress(jobA)))
  {
    hide Apply, Passes, Commit, Transact, Child, Identity.ParseDependencyPin;
    var six := [ BeginStep(0, userId, false, a, Some(pidA)) ] + [ BeginStep(1, userId, false, b, Some(pidB)) ]
               + [ LookupStep(0) ] + [ LookupStep(1) ] + [ PolicyStep(0) ] + [ PolicyStep(1) ];
    var s := BothCleared(init, jobA, jobB);
    SixSteps(w, init, userId, a, b, pidA, pidB, jobA, jobB);
    TransactSame(w, init, s, jobA, r);
    AfterSnoc(w, init, six, CommitStep(0, r));
    AfterSnoc(w, init, six + [ CommitStep(0, r) ], CommitStep(1, q));
    CommitIs(w, s, 0, r);
    CommitIs(w, Commit(w, s, 0, r), 1, q);
    SecondCommitReplays(w, s, 0, 1, r, q);
  }

  // ---------------------------------------------------------------- the repeat

  /** One call to its end, then the same request again up to its lookup. */
  function RepeatSteps(userId: string, params: Params, pidA: string, pidB: string, r: Reading): seq<Step> {
    [ BeginStep(0, userId, false, params, Some(pidA)) ] + [ LookupStep(0) ] + [ PolicyStep(0) ] + [ CommitStep(0, r) ]
    + [ BeginStep(1, userId, false, params, Some(pidB)) ] + [ LookupStep(1) ]
  }

  lemma LoneCall(w: World, init: State, userId: string, params: Params, pid: string, job: Job, r: Reading)
    requires Initial(init) && Passes(init, userId, params, pid, job) && Transact(w, init, job, r).Writes?
    ensures var o := Transact(w, init, job, r);
            After(w, init, [ BeginStep(0, userId, false, params, Some(pid)) ] + [ LookupStep(0) ] + [ PolicyStep(0) ] + [ CommitStep(0, r) ])
            == init.(store := Stored(init.store, Write(0, o.project, job, o.asset, o.verdict)), answers := map[0 := Derived(o.asset)])
  {
    hide Apply, Passes, Recorded, Transact, Commit, Stored;
    var b := BeginStep(0, userId, false, params, Some(pid));
    var s1 := At(init, 0, Authorized(job));
    var s2 := At(s1, 0, Unrecorded(job));
    var s3 := At(s2, 0, Cleared(job));
    BeginLets(w, init, 0, userId, params, pid, job);
    NothingRecorded(w, s1, job);
    LookupLets(w, s1, 0, job);
    PassesStays(init, s2, userId, params, pid, job);
    PolicyLets(w, s2, 0, userId, params, pid, job);
    TransactSame(w, init, s3, job, r);
    CommitIs(w, s3, 0, r);
    CommitOutcome(w, s3, 0, r);
    AfterSnoc(w, init, [], b);
    assert [] + [b] == [b];
    AfterSnoc(w, init, [b], LookupStep(0));
    AfterSnoc(w, init, [b] + [LookupStep(0)], PolicyStep(0));
    AfterSnoc(w, init, [b] + [LookupStep(0)] + [PolicyStep(0)], CommitStep(0, r));
  }

  lemma EntryFound(w: World, s: State, write: Write, job: Job)
    requires write.job.key.Some? && s.store.ledger == [Entry(write.project, write.job.key.value, write.asset)]
    requires job.key == write.job.key && w.uuid(job.projectId) == Some(write.project)
    ensures Recorded(w, s, job) == Some(write.asset)
  {
  }

  lemma LookupConflicts(w: World, s: State, id: nat, job: Job, stored: DerivedAsset)
    requires id in s.pending && s.pending[id] == Authorized(job) && Recorded(w, s, job) == Some(stored) && !ReplayMatches(stored, job)
    ensures Apply(w, s, LookupStep(id)) == Answered(s, id, Failed(IdempotencyConflict))
  {
    hide Begin, CheckPolicy, Commit, Recorded, ReplayMatches;
  }

  /** The verbatim repeat of a request whose parent reference is not canonical conflicts with
      the request itself. */
  lemma PaddedParentConflictsWithItself(w: World, init: State, userId: string, params: Params, pidA: string, pidB: string,
                                        jobA: Job, jobB: Job, r: Reading)
    requires Initial(init) && Passes(init, userId, params, pidA, jobA) && Passes(init, userId, params, pidB, jobB)
    requires jobA.key.Some? && !Identity.CanonicalPin(jobA.parent) && Transact(w, init, jobA, r).Writes?
    ensures var t := After(w, init, RepeatSteps(userId, params, pidA, pidB, r));
            && 0 in t.answers && t.answers[0] == Derived(Transact(w, init, jobA, r).asset)
            && 1 in t.answers && t.answers[1] == Failed(IdempotencyConflict)
  {
    hide Apply, Passes, Transact, Recorded, ReplayMatches, Identity.CanonicalPin, Prepare, After;
    var four := [ BeginStep(0, userId, false, params, Some(pidA)) ] + [ LookupStep(0) ] + [ PolicyStep(0) ] + [ CommitStep(0, r) ];
    var begin := BeginStep(1, userId, false, params, Some(pidB));
    var o := Transact(w, init, jobA, r);
    var write := Write(0, o.project, jobA, o.asset, o.verdict);
    LoneCall(w, init, userId, params, pidA, jobA, r);
    var s := After(w, init, four);
    PassesStays(init, s, userId, params, pidB, jobB);
    BeginLets(w, s, 1, userId, params, pidB, jobB);
    AfterSnoc(w, init, four, begin);
    AfterSnoc(w, init, four + [begin], LookupStep(1));
    PassesPrepared(init, userId, params, pidA, jobA);
    PassesPrepared(init, userId, params, pidB, jobB);
    SameRequest(userId, params, pidA, pidB);
    PaddedChildDiffers(w, init, jobA, jobB, r);
    EntryFound(w, At(s, 1, Authorized(jobB)), write, jobB);
    LookupConflicts(w, At(s, 1, Authorized(jobB)), 1, jobB, o.asset);
  }

  lemma PaddedChildDiffers(w: World, s: State, a: Job, b: Job, r: Reading)
    requires Transact(w, s, a, r).Writes? && !Identity.CanonicalPin(a.parent) && b.parent == a.parent
    ensures w.uuid(a.projectId) == Some(Transact(w, s, a, r).project) && !ReplayMatches(Transact(w, s, a, r).asset, b)
  {
    hide Transact, LawfulWrite, Child, ReplayMatches, Identity.ParseDependencyPin;
    var o := Transact(w, s, a, r);
    TransactWrites(w, s, 0, a, r);
    LawfulChild(w, s, r, Write(0, o.project, a, o.asset, o.verdict));
    ChildMatches(a, b);
    NotRespelled(a.parent);
  }

  lemma PassesPrepared(s: State, userId: string, params: Params, pid: string, job: Job)
    requires Passes(s, userId, params, pid, job)
    ensures Prepare(userId, params, Some(pid)) == Ready(job)
  {
    hide Prepare, MembershipOf, PolicyOf, RequirePolicy;
  }

  lemma SameRequest(userId: string, params: Params, pidA: string, pidB: string)
    requires Prepare(userId, params, Some(pidA)).Ready? && Prepare(userId, params, Some(pidB)).Ready?
    ensures var a, b := Prepare(userId, params, Some(pidA)).job, Prepare(userId, params, Some(pidB)).job;
            b == a.(candidate := a.candidate.(assetPid := b.candidate.assetPid))
  {
    hide WellShaped, Identity.Trim, ParseRelation, ParseVisibility, Identity.ValidPid;
  }

  lemma NotRespelled(pin: string)
    requires Identity.ParseDependencyPin(pin).Some? && !Identity.CanonicalPin(pin)
    ensures Identity.Respelled(pin) != pin
  {
    hide Identity.ParseDependencyPin;
  }

  // ---------------------------------------------------------------- both happen

  function Digits(n: nat, c: char): string {
    seq(n, i => c)
  }

  /** A uuid of zeros. */
  function Uuid(): string {
    seq(36, i => if i == 8 || i == 13 || i == 18 || i == 23 then '-' else '0')
  }

  const PARENT := Digits(26, '0')
  const FIRST := Digits(26, '1')
  const SECOND := Digits(26, '2')
  const HASH := Digits(64, '0')

  function Document(): Manifest.Manifest {
    Manifest.Manifest(1, "material_collection",
      Some(map["purpose" := Manifest.Text("x"), "member_refs" := Manifest.List([Manifest.Text("x")]),
               "selection_criteria" := Manifest.Text("x"), "custodian" := Manifest.Text("x")]),
      Some([]))
  }

  /** A world in which every rights text allows everything and every project text is a uuid. */
  function SomeWorld(): World {
    World(Gate.Ports(raw => Gate.RightsRead(Gate.RightsDocument(Gate.Open, Gate.Allowed)), bytes => HASH), text => Some(text))
  }

  function Ref(): string {
    "release:" + Uuid()
  }

  /** One public project with one owner, no rule about reviews, and one public version. */
  function Start(): State {
    State(
      map[Uuid() := Gate.Public], map[(Uuid(), "u") := Has(Owner)], map[Uuid() := Rule(false, false)],
      Store(map[(PARENT, "1") := VersionRow(Uuid(), Gate.Public, "")], {PARENT}, [], []),
      map[], map[])
  }

  function Request(parent: string, version: string): Params {
    Params(Uuid(), parent, "forked_from", "", "material_collection", version, Manifest.CanonicalJson(Document()), "", [Ref()],
           "public", HASH, [Uuid()], "t", "s", "", Some("k"))
  }

  function Content(pid: string, version: string): Gate.Candidate {
    Gate.Candidate(pid, "material_collection", version, Manifest.CanonicalJson(Document()), "", [Ref()], Gate.Public, HASH, [Uuid()])
  }

  function Asked(parent: string, pid: string, version: string): Job {
    Job("u", Uuid(), parent, ForkedFrom, Content(pid, version), "s", "t", "", Some("k"))
  }

  function Read(): Reading {
    Reading([Preview.StoredRef(Ref(), true, Uuid(), Gate.Public, None)], [], false, false)
  }

  lemma ShapesOfX()
    ensures Manifest.Classify(Manifest.Text("x")) == Some(Manifest.TextShape)
    ensures Manifest.Classify(Manifest.List([Manifest.Text("x")])) == Some(Manifest.ListShape)
  {
    EdgesKept("x");
  }

  lemma FieldsMet(a: string, b: string, c: string, d: string, fields: seq<Manifest.RequiredField>)
    requires a != b && a != c && a != d && b != c && b != d && c != d
    requires fields
          == [ Manifest.RequiredField(a, Manifest.NeedsShape(Manifest.TextShape)), Manifest.RequiredField(b, Manifest.NeedsShape(Manifest.ListShape)),
               Manifest.RequiredField(c, Manifest.NeedsShape(Manifest.TextShape)), Manifest.RequiredField(d, Manifest.NeedsShape(Manifest.TextShape)) ]
    ensures var x, xs := Manifest.Text("x"), Manifest.List([Manifest.Text("x")]);
            var block := map[a := x, b := xs, c := x, d := x];
            && (forall f :: f in fields ==> f.key in block && Manifest.Satisfies(block[f.key], f.needs))
            && (forall k :: k in block ==> Manifest.Classify(block[k]).Some?)
  {
    hide Manifest.Classify;
    ShapesOfX();
  }

  lemma DocumentIsValid()
    ensures Manifest.Valid(Document())
  {
    hide Manifest.Classify, Manifest.RequiredMetadata, Manifest.Satisfies, Identity.ParseDependencyPin;
    Manifest.RequiredTable();
    FieldsMet("purpose", "member_refs", "selection_criteria", "custodian", Manifest.RequiredMetadata("material_collection"));
  }

  lemma UuidFacts()
    ensures Identity.ValidUuidText(Uuid()) && Identity.Trim(Uuid()) == Uuid() && Gate.ValidCreatorId(Uuid())
  {
    EdgesKept(Uuid());
    hide Identity.Trim;
    assert Text.Lower(Uuid()) == Uuid();
  }

  lemma RefFacts()
    ensures Identity.ParseOriginRef(Ref()) == Some((Identity.Release, Uuid()))
  {
    UuidFacts();
    hide Uuid, Identity.ValidUuidText;
    assert Ref() == Identity.KindText(Identity.Release) + ":" + Uuid();
    Identity.OriginRefRoundTrip(Identity.Release, Uuid(), Ref());
  }

  lemma ManifestReads()
    ensures Gate.ReadManifest(Manifest.CanonicalJson(Document())) == Manifest.Ok(Document())
  {
    DocumentIsValid();
    hide Manifest.CanonicalJson, Manifest.ParseManifest, Manifest.Valid, Identity.Trim;
    Manifest.CanonicalRoundTrip(Document());
    Gate.CanonicalNotBlank(Document());
  }

  lemma ContentAccepted(pid: string, version: string)
    requires Identity.ValidPid(pid) && Identity.ValidVersionLabel(version)
    ensures Gate.Accepts(Content(pid, version), SomeWorld().ports)
  {
    ManifestReads();
    RefFacts();
    UuidFacts();
    hide Manifest.CanonicalJson, Gate.ReadManifest, Identity.ParseOriginRef, Identity.ValidPid, Identity.ValidVersionLabel, Gate.ValidCreatorId,
      Ref, Uuid, Identity.ParseDependencyPin, Identity.Trim;
    assert Gate.PinsAccepted([Ref()][0]) && Gate.CanonicalRef([Ref()][0]);
    assert Gate.CreatorsStorable([Uuid()]);
  }

  lemma ManifestParts(pid: string, version: string)
    ensures Preview.GateManifest(Content(pid, version)) == Document()
    ensures Document().Pins() == [] && Preview.DeclaredBlobIds(Document().Block()) == []
  {
    ManifestReads();
    hide Manifest.CanonicalJson, Gate.ReadManifest, Ref, Uuid;
  }

  lemma RefPart()
    ensures Ref() in Preview.IndexRefs(Read().refs)
    ensures PreviewProofs.RefAllowed(Ref(), Preview.IndexRefs(Read().refs), Uuid(), true)
  {
    hide Ref, Uuid;
    var st := Preview.StoredRef(Ref(), true, Uuid(), Gate.Public, None);
    assert [st][..0] == [];
    assert Preview.IndexRefs([]) == map[];
    assert Preview.IndexRefs([st]) == map[Ref() := st];
  }

  lemma ContentIsClear(parent: string, pid: string, version: string)
    requires Identity.ValidPid(pid) && Identity.ValidVersionLabel(version)
    ensures PreviewProofs.ContentClear(PreviewRequest(Asked(parent, pid, version)), Resolve(Start().store, Content(pid, version), Read()),
                                         SomeWorld().ports)
  {
    hide Manifest.CanonicalJson, Gate.Accepts, Identity.ValidPid, Identity.ValidVersionLabel, Ref, Uuid, Start, SomeWorld, Document, Read,
      Preview.GateManifest, Preview.DeclaredBlobIds, Preview.IndexRefs, Preview.IndexPins, Preview.IndexBlobs, Preview.PromisedAccess,
      PreviewProofs.RefAllowed, PreviewProofs.PinAllowed, PreviewProofs.BlobAllowed, PinResolver, HASH, Ordering.Gather;
    ContentAccepted(pid, version);
    ManifestParts(pid, version);
    RefPart();
  }

  lemma ContentIsAllowed(parent: string, pid: string, version: string)
    requires Identity.ValidPid(pid) && Identity.ValidVersionLabel(version)
    ensures PreviewProofs.ContentAllowed(PreviewRequest(Asked(parent, pid, version)), Resolve(Start().store, Content(pid, version), Read()),
                                         SomeWorld().ports)
  {
    hide *;
    ContentOf(parent, pid, version);
    ContentIsClear(parent, pid, version);
    PreviewProofs.ContentMeans(PreviewRequest(Asked(parent, pid, version)), Resolve(Start().store, Content(pid, version), Read()), SomeWorld().ports);
  }

  lemma RequestPrepared(parent: string, pid: string, version: string)
    requires Identity.Trim(parent) == parent && Identity.ParseDependencyPin(parent).Some? && Identity.ValidPid(pid)
    requires Identity.Trim(version) == version && Identity.ValidVersionLabel(version)
    ensures Prepare("u", Request(parent, version), Some(pid)) == Ready(Asked(parent, pid, version))
  {
    UuidFacts();
    EdgesKept("forked_from");
    EdgesKept("material_collection");
    EdgesKept("public");
    EdgesKept(HASH);
    hide Identity.Trim, Uuid, HASH, Manifest.CanonicalJson, Ref, Identity.ParseDependencyPin, Identity.ValidPid, Identity.ValidVersionLabel;
    ShortTexts();
  }

  lemma ShortTexts()
    ensures Identity.Trim("") == "" && Identity.Trim("t") == "t" && Identity.Trim("s") == "s"
    ensures StorableText("t", MAX_TITLE_LEN) && StorableText("s", MAX_SLUG_LEN)
  {
    EdgesKept("t");
    EdgesKept("s");
  }

  lemma Passing(parent: string, pid: string, version: string)
    requires Identity.Trim(parent) == parent && Identity.ParseDependencyPin(parent).Some? && Identity.ValidPid(pid)
    requires Identity.Trim(version) == version && Identity.ValidVersionLabel(version)
    ensures Passes(Start(), "u", Request(parent, version), pid, Asked(parent, pid, version))
  {
    RequestPrepared(parent, pid, version);
    hide Prepare, Uuid, Ref, Manifest.CanonicalJson, HASH, PARENT, Identity.Trim, Identity.ParseDependencyPin, Identity.ValidPid,
      Identity.ValidVersionLabel;
  }

  lemma Writing(parent: string, version: string)
    requires Identity.ParseDependencyPin(parent) == Some((PARENT, "1")) && Identity.ValidVersionLabel(version)
    ensures Transact(SomeWorld(), Start(), Asked(parent, FIRST, version), Read()).Writes?
  {
    hide Review, Uuid, Ref, Manifest.CanonicalJson, HASH, PARENT, FIRST, SECOND, Identity.Trim, Identity.ParseDependencyPin, Identity.ValidPid,
      Identity.ValidVersionLabel, PreviewProofs.ContentAllowed, Gate.GateErrors, Resolve, Find, Recorded, Content, ReadGate, RequireDerivable, Document, PreviewRequest;
    PidFacts();
    ContentIsAllowed(parent, FIRST, version);
    ContentOf(parent, FIRST, version);
    ReviewExactly(SomeWorld(), Start().store, Asked(parent, FIRST, version), Read());
    ParentOpens();
    NothingRecorded(SomeWorld(), Start(), Asked(parent, FIRST, version));
  }

  lemma ContentOf(parent: string, pid: string, version: string)
    ensures Content(pid, version).assetPid == pid && Asked(parent, pid, version).candidate == Content(pid, version)
  {
    hide Manifest.CanonicalJson, Ref, Uuid, HASH;
  }

  lemma ParentOpens()
    ensures ReadGate(Start(), VersionRow(Uuid(), Gate.Public, ""), "u") == None
    ensures RequireDerivable(SomeWorld().ports.parseRights, "", "").Permitted?
  {
    hide Identity.Trim, HASH, PARENT;
  }

  lemma PidFacts()
    ensures Identity.ValidPid(PARENT) && Identity.ValidPid(FIRST) && Identity.ValidPid(SECOND) && PARENT != FIRST
  {
    assert PARENT[0] == '0' && FIRST[0] == '1';
  }

  lemma StartIsInitial()
    ensures Initial(Start())
  {
    hide Uuid, PARENT;
  }

  lemma LabelFacts()
    ensures Identity.Trim("1") == "1" && Identity.Trim("2") == "2"
    ensures Identity.ValidVersionLabel("1") && Identity.ValidVersionLabel("2")
  {
    EdgesKept("1");
    EdgesKept("2");
  }

  lemma PlainParent()
    ensures var parent := PARENT + "@" + "1";
            Identity.Trim(parent) == parent && Identity.ParseDependencyPin(parent) == Some((PARENT, "1"))
  {
    hide PARENT, FIRST, SECOND, Identity.Trim, Identity.ValidPid, Identity.ValidVersionLabel;
    LabelFacts();
    PidFacts();
    var parent := PARENT + "@" + "1";
    PidStarts(PARENT);
    assert parent[0] == PARENT[0] && parent[|parent| - 1] == '1';
    EdgesKept(parent);
    Identity.PinRoundTrip(PARENT, "1");
  }

  lemma PidStarts(pid: string)
    requires Identity.ValidPid(pid)
    ensures pid != "" && !Identity.IsSpace(pid[0])
  {
    assert Identity.PidChar(pid[0]);
  }

  ghost function TheRace(): State {
    After(SomeWorld(), Start(),
      RaceSteps("u", Request(PARENT + "@" + "1", "1"), Request(PARENT + "@" + "1", "2"), FIRST, SECOND, Read(), Read()))
  }

  /** It happens: a call that asks for version 2 is answered with another call's version 1. */
  lemma RaceHappens()
    ensures Initial(Start()) && 1 in TheRace().answers && TheRace().answers[1].Derived? && TheRace().answers[1].asset.version == "1"
  {
    hide After, RaceSteps, Start, SomeWorld, Read, Request, PARENT, FIRST, SECOND, Transact, Passes, Identity.Trim, Identity.ParseDependencyPin,
      Identity.ValidPid, Identity.ValidVersionLabel, Content, Uuid, Manifest.CanonicalJson;
    var parent := PARENT + "@" + "1";
    var a, b := Asked(parent, FIRST, "1"), Asked(parent, SECOND, "2");
    StartIsInitial();
    LabelFacts();
    PidFacts();
    PlainParent();
    Passing(parent, FIRST, "1");
    Passing(parent, SECOND, "2");
    Writing(parent, "1");
    Undisturbed();
    ContentLabel(FIRST, "1");
    RaceAnswersAnotherRequest(SomeWorld(), Start(), "u", Request(parent, "1"), Request(parent, "2"), FIRST, SECOND, a, b, Read(), Read());
  }

  lemma Undisturbed()
    ensures !Read().failed
  {
  }

  lemma ContentLabel(pid: string, version: string)
    ensures Content(pid, version).version == version
  {
    hide Manifest.CanonicalJson, Ref, Uuid, HASH;
  }

  ghost function TheRepeat(): State {
    var request := Request(PARENT + "@" + (" " + "1"), "1");
    After(SomeWorld(), Start(), RepeatSteps("u", request, FIRST, SECOND, Read()))
  }

  /** And so does this: a request is carried out, sent again word for word, and conflicts. */
  lemma SelfConflictHappens()
    ensures Initial(Start()) && 0 in TheRepeat().answers && TheRepeat().answers[0].Derived?
    ensures 1 in TheRepeat().answers && TheRepeat().answers[1] == Failed(IdempotencyConflict)
  {
    hide After, RepeatSteps, Start, SomeWorld, Read, Request, PARENT, FIRST, SECOND, Transact, Passes, Identity.Trim, Identity.ParseDependencyPin,
      Identity.ValidPid, Identity.ValidVersionLabel, Content, Uuid, Manifest.CanonicalJson, Identity.CanonicalPin;
    var parent := PARENT + "@" + (" " + "1");
    var a, b := Asked(parent, FIRST, "1"), Asked(parent, SECOND, "1");
    StartIsInitial();
    LabelFacts();
    PidFacts();
    PaddedParentNotCanonical(PARENT, "1");
    Passing(parent, FIRST, "1");
    Passing(parent, SECOND, "1");
    Writing(parent, "1");
    PaddedParentConflictsWithItself(SomeWorld(), Start(), "u", Request(parent, "1"), FIRST, SECOND, a, b, Read());
  }
}
