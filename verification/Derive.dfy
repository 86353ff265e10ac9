/** The derive command: a fork or a derivation of a published version, as the steps of
    concurrent calls against the membership, the policy and the store. */
module Derive {
  import opened Options
  import opened Ordering
  import opened Gate
  import Manifest
  import Preview
  import Page
  import Identity

  // ---------------------------------------------------------------- who may derive

  datatype Role = Owner | Maintainer | Contributor | Viewer | UnknownRole(text: string)

  /** The membership port's answer. */
  datatype Membership = Has(role: Role) | NoMember | NoProject | Unavailable

  datatype ActorClass = Anonymous | NonMember | ViewerClass | ContributorClass | MaintainerClass | OwnerClass | AgentClass

  datatype Verdict = Allow | Conditional | Deny

  /** The matrix column of an actor; an unknown role has none. */
  function ClassOf(authenticated: bool, role: Option<Role>, isAgent: bool): Option<ActorClass> {
    if isAgent then Some(AgentClass)
    else
      match role
      case Some(Owner) => Some(OwnerClass)
      case Some(Maintainer) => Some(MaintainerClass)
      case Some(Contributor) => Some(ContributorClass)
      case Some(Viewer) => Some(ViewerClass)
      case Some(UnknownRole(_)) => None
      case None => Some(if authenticated then NonMember else Anonymous)
  }

  /** The row of the permission matrix for publishing, which also governs deriving. */
  function PublishVerdict(actor: Option<ActorClass>): Verdict {
    match actor
    case Some(OwnerClass) => Allow
    case Some(MaintainerClass) => Conditional
    case _ => Deny
  }

  datatype Error =
    | AgentNotPermitted | Validation | StoreFailure | ProjectNotFound | NotPermitted | PolicyRefused
    | IdempotencyConflict | ParentNotFound | RightsForbid(code: RightsCode) | AssetExists | PreviewRefused

  datatype RightsCode = Unreadable | DerivativesForbidden | DerivativesUnspecified | ConfirmationTooLong

  /** No answer means the call may go on. */
  function RequireDerive(answer: Membership, isAgent: bool): Option<Error> {
    match answer
    case NoProject => Some(ProjectNotFound)
    case Unavailable => Some(StoreFailure)
    case _ =>
      var role := if answer.Has? then Some(answer.role) else None;
      if PublishVerdict(ClassOf(true, role, isAgent)) == Allow then None else Some(NotPermitted)
  }

  /** The policy port and the rule evaluator, for the rule that asks for an IP review. */
  datatype PolicyAnswer = PolicyUnreadable | PolicyUnevaluable | Rule(found: bool, value: bool)

  predicate ReviewRequired(answer: PolicyAnswer) {
    !answer.Rule? || (answer.found && answer.value)
  }

  function RequirePolicy(answer: PolicyAnswer, visibility: Visibility): Option<Error> {
    if visibility == Public && ReviewRequired(answer) then Some(PolicyRefused) else None
  }

  // ---------------------------------------------------------------- the request

  datatype Relation = ForkedFrom | DerivedFrom

  function ParseRelation(s: string): Option<Relation> {
    var r := Identity.Trim(s);
    if r == "forked_from" then Some(ForkedFrom) else if r == "derived_from" then Some(DerivedFrom) else None
  }

  function ParseVisibility(s: string): Option<Visibility> {
    var v := Identity.Trim(s);
    if v == "public" then Some(Public) else if v == "private" then Some(Private) else None
  }

  datatype Params = Params(
    projectId: string,
    parent: string,
    relation: string,
    assetPid: string,
    assetType: string,
    version: string,
    manifest: string,
    rights: string,
    originRefs: seq<string>,
    visibility: string,
    integrityHash: string,
    creatorIds: seq<string>,
    title: string,
    slug: string,
    confirmation: string,
    key: Option<string>)

  /** A validated request: what the store is asked to write, and for whom. */
  datatype Job = Job(
    userId: string,
    projectId: string,
    parent: string,
    relation: Relation,
    candidate: Candidate,
    slug: string,
    title: string,
    confirmation: string,
    key: Option<string>)

  datatype Prepared = Ready(job: Job) | Rejected(error: Error)

  const MAX_SLUG_LEN := 128
  const MAX_TITLE_LEN := 256
  const MAX_CONFIRMATION_LEN := 512

  /** The number of bytes of a text in UTF-8. */
  function ByteLength(s: string): nat {
    if s == "" then 0
    else
      var c := s[|s| - 1] as int;
      ByteLength(s[..|s| - 1]) + if c < 0x80 then 1 else if c < 0x800 then 2 else if c < 0x1_0000 then 3 else 4
  }

  lemma {:induction false} ByteLengthAppends(a: string, b: string)
    ensures ByteLength(a + b) == ByteLength(a) + ByteLength(b)
  {
    if b == "" {
      assert a + b == a;
    } else {
      assert (a + b)[..|a + b| - 1] == a + b[..|b| - 1];
      ByteLengthAppends(a, b[..|b| - 1]);
    }
  }

  /** One to four bytes a character, by its code. */
  lemma ByteLengthOfOne(c: char)
    ensures ByteLength([c]) == if c as int <= 0x7F then 1 else if c as int <= 0x7FF then 2 else if c as int <= 0xFFFF then 3 else 4
  {
    assert [c][..0] == [];
  }

  predicate StorableText(s: string, max: nat) {
    s != "" && ByteLength(s) <= max
  }

  /** The parent reference after trimming; its label may still be padded inside. */
  function ParentOf(params: Params): string {
    Identity.Trim(params.parent)
  }

  /** The shape of the request, without the pid: what the caller controls. */
  predicate WellShaped(p: Params) {
    && Identity.Trim(p.projectId) != ""
    && ParseRelation(p.relation).Some?
    && Identity.ParseDependencyPin(ParentOf(p)).Some?
    && Identity.Trim(p.assetPid) == ""
    && Manifest.KnownType(Identity.Trim(p.assetType))
    && Identity.ValidVersionLabel(Identity.Trim(p.version))
    && ParseVisibility(p.visibility).Some?
    && StorableText(Identity.Trim(p.title), MAX_TITLE_LEN)
    && StorableText(Identity.Trim(p.slug), MAX_SLUG_LEN)
    && |Identity.Trim(p.confirmation)| <= MAX_CONFIRMATION_LEN
  }

  /** Validation of the request, then the minted pid; a derivation never names an asset. */
  function Prepare(userId: string, p: Params, minted: Option<string>): Prepared {
    if !WellShaped(p) then Rejected(Validation)
    else if minted.None? || !Identity.ValidPid(minted.value) then Rejected(StoreFailure)
    else
      Ready(Job(
        userId, p.projectId, ParentOf(p), ParseRelation(p.relation).value,
        Candidate(minted.value, Identity.Trim(p.assetType), Identity.Trim(p.version), p.manifest, p.rights, p.originRefs,
                  ParseVisibility(p.visibility).value, Identity.Trim(p.integrityHash), p.creatorIds),
        Identity.Trim(p.slug), Identity.Trim(p.title), Identity.Trim(p.confirmation), p.key))
  }

  /** Respelling the canonical refs of a request changes none of them: the gate and the row
      see what the caller sent. */
  method CanonicalRefs(raw: seq<string>) returns (refs: seq<string>)
    ensures refs == raw
  {
    hide Identity.ParseOriginRef, Identity.NewOriginRef;
    refs := [];
    for i := 0 to |raw|
      invariant refs == raw[..i]
    {
      var parsed := Identity.ParseOriginRef(raw[i]);
      if parsed.None? {
        refs := refs + [raw[i]];
      } else {
        Identity.OriginRefRoundTrip(parsed.value.0, parsed.value.1, raw[i]);
        refs := refs + [Identity.NewOriginRef(parsed.value.0, parsed.value.1).value];
      }
    }
  }

  // ---------------------------------------------------------------- the parent

  datatype Derivable = Derivable(permission: Permission, confirmation: string, confirmationRequired: bool)

  datatype RightsAnswer = Permitted(verdict: Derivable) | NotDerivable(code: RightsCode)

  /** What the parent's stored declaration says about derivatives. */
  function RequireDerivable(parse: string -> RightsResult, rights: string, confirmation: string): RightsAnswer {
    match parse(rights)
    case RightsRefused(_) => NotDerivable(Unreadable)
    case RightsRead(doc) =>
      var said := Identity.Trim(confirmation);
      match doc.derivatives
      case Allowed => Permitted(Derivable(Allowed, said, false))
      case Forbidden => NotDerivable(DerivativesForbidden)
      case Unspecified =>
        if said == "" then NotDerivable(DerivativesUnspecified)
        else if |said| > MAX_CONFIRMATION_LEN then NotDerivable(ConfirmationTooLong)
        else Permitted(Derivable(Unspecified, said, true))
      case UnknownPermission(_) => NotDerivable(Unreadable)
  }

  /** Derivable exactly when the asset page would be opened: the same two rules. */
  predicate ParentReadable(projectId: string, projectVisibility: Visibility, versionVisibility: Visibility, member: bool) {
    && Page.MayRenderOwnProject(Page.ProjectRow(projectId, "", "", projectVisibility), member)
    && Page.MaySee(Page.VersionRow("", "", versionVisibility, "", "", 0, "", "", []), member)
  }

  // ---------------------------------------------------------------- the store

  /** A published version, named by its asset's pid and its label. */
  datatype VersionRow = VersionRow(projectId: string, visibility: Visibility, rights: string)

  datatype DerivedAsset = DerivedAsset(
    assetPid: string,
    version: string,
    visibility: Visibility,
    publishedBy: string,
    parentPid: string,
    parentVersion: string,
    relation: Relation)

  /** One row of the idempotency ledger. */
  datatype Entry = Entry(project: string, key: string, asset: DerivedAsset)

  /** One committed derivation: the call, what it asked and what was stored, with the rights
      verdict the audit row records. */
  datatype Write = Write(id: nat, project: string, job: Job, asset: DerivedAsset, verdict: Derivable)

  datatype Answer = Derived(asset: DerivedAsset) | Failed(error: Error)

  datatype Pending = Authorized(job: Job) | Unrecorded(job: Job) | Cleared(job: Job)

  type Address = (string, string)

  /** The tables a derivation writes. */
  datatype Store = Store(versions: map<Address, VersionRow>, assets: set<string>, ledger: seq<Entry>, writes: seq<Write>)

  /** The whole system: what calls read, what they write, and where each call stands. */
  datatype State = State(
    projects: map<string, Visibility>,
    members: map<Address, Membership>,
    policies: map<string, PolicyAnswer>,
    store: Store,
    pending: map<nat, Pending>,
    answers: map<nat, Answer>)

  /** What is not decided here: the rights parser, the digest, and
      the reading of a text as a project's uuid. */
  datatype World = World(ports: Ports, uuid: string -> Option<string>)

  function MembershipOf(s: State, projectId: string, userId: string): Membership {
    if (projectId, userId) in s.members then s.members[(projectId, userId)] else NoMember
  }

  function PolicyOf(s: State, projectId: string): PolicyAnswer {
    if projectId in s.policies then s.policies[projectId] else PolicyUnreadable
  }

  function Find(ledger: seq<Entry>, project: string, key: string): Option<DerivedAsset> {
    if ledger == [] then None
    else
      var last := ledger[|ledger| - 1];
      if last.project == project && last.key == key then Some(last.asset) else Find(ledger[..|ledger| - 1], project, key)
  }

  /** The ledger row a request's key names; a text that is no uuid names none. */
  function Recorded(w: World, s: State, job: Job): Option<DerivedAsset> {
    var project := w.uuid(job.projectId);
    if project.Some? && job.key.Some? then Find(s.store.ledger, project.value, job.key.value) else None
  }

  /** The same parent, relation and label; the pid is minted anew and not compared. */
  predicate ReplayMatches(stored: DerivedAsset, job: Job) {
    && Identity.NewDependencyPin(stored.parentPid, stored.parentVersion) == Some(job.parent)
    && stored.relation == job.relation
    && stored.version == job.candidate.version
  }

  // ---------------------------------------------------------------- the steps of a call

  function Answered(s: State, id: nat, answer: Answer): State {
    s.(pending := s.pending - {id}, answers := s.answers[id := answer])
  }

  /** Agent refusal, validation and authorization. */
  function Begin(s: State, id: nat, userId: string, isAgent: bool, params: Params, minted: Option<string>): State {
    if id in s.pending || id in s.answers then s
    else if isAgent then Answered(s, id, Failed(AgentNotPermitted))
    else
      match Prepare(userId, params, minted)
      case Rejected(e) => Answered(s, id, Failed(e))
      case Ready(job) =>
        match RequireDerive(MembershipOf(s, job.projectId, userId), isAgent)
        case Some(e) => Answered(s, id, Failed(e))
        case None => s.(pending := s.pending[id := Authorized(job)])
  }

  /** The replay check, outside any transaction. */
  function Lookup(w: World, s: State, id: nat): State {
    if id !in s.pending || !s.pending[id].Authorized? then s
    else
      var job := s.pending[id].job;
      match Recorded(w, s, job)
      case None => s.(pending := s.pending[id := Unrecorded(job)])
      case Some(stored) =>
        Answered(s, id, if ReplayMatches(stored, job) then Derived(stored) else Failed(IdempotencyConflict))
  }

  function CheckPolicy(s: State, id: nat): State {
    if id !in s.pending || !s.pending[id].Unrecorded? then s
    else
      var job := s.pending[id].job;
      match RequirePolicy(PolicyOf(s, job.projectId), job.candidate.visibility)
      case Some(e) => Answered(s, id, Failed(e))
      case None => s.(pending := s.pending[id := Cleared(job)])
  }

  /** What the transaction reads besides the assets and versions: the refs and blobs of the
      candidate, whether the document check found fault, and whether the database failed. */
  datatype Reading = Reading(refs: seq<Preview.StoredRef>, blobs: seq<Preview.StoredBlob>, documentRefused: bool, failed: bool)

  /** The stored version a pin names, compared as the text pid@version. */
  function ResolvePin(versions: map<Address, VersionRow>, pin: string): Option<Preview.StoredPin> {
    var p := Identity.ParseDependencyPin(pin);
    if p.Some? && Identity.Respelled(pin) == pin && p.value in versions
    then Some(Preview.StoredPin(pin, versions[p.value].visibility))
    else None
  }

  function PinResolver(versions: map<Address, VersionRow>): string -> Option<Preview.StoredPin> {
    pin => ResolvePin(versions, pin)
  }

  /** The state the preview judges a new asset against: its pins as the store has them now. */
  function Resolve(store: Store, c: Candidate, r: Reading): Preview.State {
    Preview.State(None, Gather(Preview.GateManifest(c).Pins(), PinResolver(store.versions)), r.refs, r.blobs)
  }

  ghost function PreviewRequest(job: Job): Preview.Request {
    Preview.Request(job.projectId, job.candidate)
  }

  /** Whether a preview leaves a reason to refuse; for a new asset its absence is none. */
  ghost predicate Refuses(p: Preview.ImpactPreview, newAsset: bool) {
    || p.rightsBlockers != []
    || (exists i :: 0 <= i < |p.publishBlockers| && !(newAsset && IsAssetUnknown(p.publishBlockers[i])))
    || Preview.AnyBlocking(p.privateDependencies)
  }

  predicate IsAssetUnknown(b: Preview.Blocker) {
    b.PreviewBlocker? && b.code == Preview.AssetUnknown
  }

  function ParentAddress(job: Job): Address
    requires Identity.ParseDependencyPin(job.parent).Some?
  {
    Identity.ParseDependencyPin(job.parent).value
  }

  /** The parent's read gate: a caller's membership is only asked for when it decides. */
  function ReadGate(s: State, row: VersionRow, userId: string): Option<Error> {
    var visibility := if row.projectId in s.projects then s.projects[row.projectId] else Other("");
    var answer := MembershipOf(s, row.projectId, userId);
    var open := visibility == Public && row.visibility == Public;
    if !open && answer.Unavailable? then Some(StoreFailure)
    else if ParentReadable(row.projectId, visibility, row.visibility, !open && answer.Has?) then None
    else Some(ParentNotFound)
  }

  datatype Outcome = Abort(error: Error) | Replay(asset: DerivedAsset) | Writes(project: string, asset: DerivedAsset, verdict: Derivable)

  function Child(job: Job, parent: Address): DerivedAsset {
    DerivedAsset(job.candidate.assetPid, job.candidate.version, job.candidate.visibility, job.userId, parent.0, parent.1, job.relation)
  }

  /** What the preview, the gate and the document check make of the candidate. */
  ghost function Review(w: World, store: Store, job: Job, r: Reading): Option<Error> {
    hide Preview.PreviewOf, GateErrors, Resolve;
    var preview := Preview.PreviewOf(PreviewRequest(job), Resolve(store, job.candidate, r), w.ports);
    if preview.None? then Some(StoreFailure)
    else if Refuses(preview.value, true) then Some(PreviewRefused)
    else if GateErrors(job.candidate, w.ports) != [] || r.documentRefused then Some(PreviewRefused)
    else None
  }

  /** The transaction under the project's lock, up to its first write. */
  ghost function Transact(w: World, s: State, job: Job, r: Reading): Outcome {
    hide Review, ReadGate, RequireDerivable;
    var project := w.uuid(job.projectId);
    if r.failed then Abort(StoreFailure)
    else if project.None? || project.value !in s.projects then Abort(ProjectNotFound)
    else if Recorded(w, s, job).Some? then Replay(Recorded(w, s, job).value)
    else if Identity.ParseDependencyPin(job.parent).None? then Abort(Validation)
    else if ParentAddress(job) !in s.store.versions then Abort(ParentNotFound)
    else
      var row := s.store.versions[ParentAddress(job)];
      if ReadGate(s, row, job.userId).Some? then Abort(ReadGate(s, row, job.userId).value)
      else
        match RequireDerivable(w.ports.parseRights, row.rights, job.confirmation)
        case NotDerivable(code) => Abort(RightsForbid(code))
        case Permitted(verdict) =>
          if job.candidate.assetPid in s.store.assets then Abort(AssetExists)
          else if Review(w, s.store, job, r).Some? then Abort(Review(w, s.store, job, r).value)
          else Writes(project.value, Child(job, ParentAddress(job)), verdict)
  }

  /** The rows of one derivation: the asset, its version, the edge in the asset's record, and
      the ledger row when the request carries a key. */
  function Stored(store: Store, w: Write): Store {
    Store(
      store.versions[(w.asset.assetPid, w.asset.version) := VersionRow(w.project, w.asset.visibility, w.job.candidate.rights)],
      store.assets + {w.asset.assetPid},
      if w.job.key.Some? then store.ledger + [Entry(w.project, w.job.key.value, w.asset)] else store.ledger,
      store.writes + [w])
  }

  ghost function Commit(w: World, s: State, id: nat, r: Reading): State {
    hide Transact;
    if id !in s.pending || !s.pending[id].Cleared? then s
    else
      var job := s.pending[id].job;
      match Transact(w, s, job, r)
      case Abort(e) => Answered(s, id, Failed(e))
      case Replay(asset) => Answered(s, id, Derived(asset))
      case Writes(project, asset, verdict) =>
        Answered(s.(store := Stored(s.store, Write(id, project, job, asset, verdict))), id, Derived(asset))
  }

  // ---------------------------------------------------------------- runs

  /** The steps of the calls, and what others may change meanwhile: memberships, policies,
      projects, and published versions, which only ever appear. */
  datatype Step =
    | BeginStep(id: nat, userId: string, isAgent: bool, params: Params, minted: Option<string>)
    | LookupStep(id: nat)
    | PolicyStep(id: nat)
    | CommitStep(id: nat, reading: Reading)
    | SetMembership(who: Address, membership: Membership)
    | SetPolicy(project: string, policy: PolicyAnswer)
    | SetProject(project: string, visibility: Visibility)
    | Published(address: Address, row: VersionRow)

  ghost function Apply(w: World, s: State, step: Step): State {
    hide Begin, Lookup, CheckPolicy, Commit;
    match step
    case BeginStep(id, userId, isAgent, params, minted) => Begin(s, id, userId, isAgent, params, minted)
    case LookupStep(id) => Lookup(w, s, id)
    case PolicyStep(id) => CheckPolicy(s, id)
    case CommitStep(id, reading) => Commit(w, s, id, reading)
    case SetMembership(who, membership) => s.(members := s.members[who := membership])
    case SetPolicy(project, policy) => s.(policies := s.policies[project := policy])
    case SetProject(project, visibility) => s.(projects := s.projects[project := visibility])
    case Published(address, row) =>
      if address in s.store.versions then s
      else s.(store := s.store.(versions := s.store.versions[address := row], assets := s.store.assets + {address.0}))
  }

  /** Every version belongs to an asset. */
  ghost predicate VersionsHaveAssets(store: Store) {
    forall a :: a in store.versions ==> a.0 in store.assets
  }

  ghost predicate Initial(s: State) {
    && s.store.ledger == [] && s.store.writes == [] && s.pending == map[] && s.answers == map[]
    && VersionsHaveAssets(s.store)
  }

  /** The state after a run, its interleaving chosen freely. */
  ghost function After(w: World, init: State, steps: seq<Step>): State {
    hide Apply;
    if steps == [] then init else Apply(w, After(w, init, steps[..|steps| - 1]), steps[|steps| - 1])
  }
}
