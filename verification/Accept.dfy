/** Accepting a task: the four gates, the guarded transition, and what other commands may do
    between the steps of an accept. */
module Accept {
  import opened Options

  // ---------------------------------------------------------------- states and evidence

  datatype Status = Todo | Ready | Running | WorkerFailed | Verification | Rejected | Blocked | Accepted | Merged

  /** The legal transitions. */
  predicate Legal(from: Status, to: Status) {
    match from
    case Todo => to == Ready || to == Blocked
    case Ready => to == Running || to == Blocked
    case Running => to == Verification || to == WorkerFailed || to == Rejected
    case Verification => to == Accepted || to == Rejected
    case WorkerFailed => to == Ready
    case Rejected => to == Ready || to == Running
    case Blocked => to == Ready
    case Accepted => to == Merged || to == Rejected
    case Merged => false
  }

  datatype Gate = G2 | G3

  datatype JobResult = JobResult(job: string, passed: bool)

  datatype Verdicts = Verdicts(g1: bool, g2: bool, g3: bool, g4: bool)

  /** The evidence on disk; times are instants. */
  datatype Record =
    | Collected(task: string, at: int, ok: bool)
    | Ran(task: string, at: int, gate: Gate, passed: bool, jobs: seq<JobResult>)
    | Reviewed(task: string, at: int, approve: bool, identity: string)
    | Decided(task: string, at: int, accepted: bool, verdicts: Verdicts)

  datatype Spec = Spec(runs: seq<string>, required: seq<string>, g3: map<string, seq<string>>, review: bool, reviewFor: map<string, bool>)
  {
    function G3Jobs(task: string): seq<string> {
      if task in g3 then g3[task] else []
    }

    function JobsFor(gate: Gate, task: string): seq<string> {
      if gate == G2 then runs else G3Jobs(task)
    }

    predicate ReviewRequired(task: string) {
      if task in reviewFor then reviewFor[task] else review
    }
  }

  function CollectsOf(task: string): Record -> bool {
    (r: Record) => r.Collected? && r.task == task
  }

  function RunsOf(task: string, gate: Gate): Record -> bool {
    (r: Record) => r.Ran? && r.task == task && r.gate == gate
  }

  function ReviewsOf(task: string): Record -> bool {
    (r: Record) => r.Reviewed? && r.task == task
  }

  /** The newest record of a kind; of records of one instant the one written later. */
  function Latest(records: seq<Record>, keep: Record -> bool): (r: Option<Record>)
    ensures r.Some? ==> keep(r.value)
  {
    if records == [] then None
    else
      var best, last := Latest(records[..|records| - 1], keep), records[|records| - 1];
      if keep(last) && (best.None? || last.at >= best.value.at) then Some(last) else best
  }

  lemma {:induction false} LatestIsNewest(records: seq<Record>, keep: Record -> bool)
    ensures match Latest(records, keep)
            case None => forall i :: 0 <= i < |records| ==> !keep(records[i])
            case Some(r) => r in records && forall i :: 0 <= i < |records| && keep(records[i]) ==> records[i].at <= r.at
  {
    if records != [] {
      LatestIsNewest(records[..|records| - 1], keep);
    }
  }

  /** Every job is reported as passed. */
  predicate Covered(jobs: seq<string>, results: seq<JobResult>) {
    forall i :: 0 <= i < |jobs| ==> JobResult(jobs[i], true) in results
  }

  predicate G1Green(records: seq<Record>, task: string) {
    var c := Latest(records, CollectsOf(task));
    c.Some? && c.value.ok
  }

  /** A passed G2 run that is not older than the latest collect. */
  predicate G2Reusable(records: seq<Record>, task: string) {
    var g, c := Latest(records, RunsOf(task, G2)), Latest(records, CollectsOf(task));
    g.Some? && g.value.passed && (c.None? || g.value.at >= c.value.at)
  }

  /** A passed G3 run that covers every required job and is not older than the latest collect. */
  predicate G3Reusable(spec: Spec, records: seq<Record>, task: string) {
    var g, c := Latest(records, RunsOf(task, G3)), Latest(records, CollectsOf(task));
    && g.Some? && g.value.passed && Covered(spec.G3Jobs(task), g.value.jobs)
    && c.Some? && g.value.at >= c.value.at
  }

  /** The last report of each job. */
  function Reports(results: seq<JobResult>): map<string, bool> {
    if results == [] then map[]
    else Reports(results[..|results| - 1])[results[|results| - 1].job := results[|results| - 1].passed]
  }

  /** The identity of the code in the task's tree. */
  datatype Tree = Unreadable | NoTree | Tree(identity: string)

  predicate ReviewGreen(spec: Spec, records: seq<Record>, task: string, tree: Tree) {
    var v, c := Latest(records, ReviewsOf(task)), Latest(records, CollectsOf(task));
    spec.ReviewRequired(task) ==>
      && v.Some? && v.value.approve && (c.None? || v.value.at >= c.value.at)
      && !tree.Unreadable? && (tree.Tree? ==> v.value.identity != "" && v.value.identity == tree.identity)
  }

  predicate G2Covers(spec: Spec, records: seq<Record>, task: string) {
    var g := Latest(records, RunsOf(task, G2));
    g.Some? && forall i :: 0 <= i < |spec.required| ==>
      spec.required[i] in Reports(g.value.jobs) && Reports(g.value.jobs)[spec.required[i]]
  }

  predicate G2CurrentAgainstCollect(records: seq<Record>, task: string) {
    var g, c := Latest(records, RunsOf(task, G2)), Latest(records, CollectsOf(task));
    g.Some? && c.Some? && c.value.ok && c.value.at <= g.value.at
  }

  predicate G3Covers(spec: Spec, records: seq<Record>, task: string) {
    var g := Latest(records, RunsOf(task, G3));
    spec.G3Jobs(task) != [] ==> g.Some? && g.value.passed && Covered(spec.G3Jobs(task), g.value.jobs)
  }

  /** G4, the merge gate: the evidence for the code as collected is green throughout. */
  predicate MergeGreen(spec: Spec, records: seq<Record>, task: string, tree: Tree) {
    && G2Covers(spec, records, task) && G2CurrentAgainstCollect(records, task)
    && G3Covers(spec, records, task) && ReviewGreen(spec, records, task, tree)
  }

  // ---------------------------------------------------------------- what green means

  ghost predicate Newest(records: seq<Record>, i: int, keep: Record -> bool) {
    && 0 <= i < |records| && keep(records[i])
    && forall j :: 0 <= j < |records| && keep(records[j]) ==> records[j].at < records[i].at || (records[j].at == records[i].at && j <= i)
  }

  /** The record in use is the newest of its kind, of equally old ones the one written last. */
  lemma {:induction false} LatestExactly(records: seq<Record>, keep: Record -> bool)
    ensures Latest(records, keep).Some? ==> exists i :: Newest(records, i, keep) && records[i] == Latest(records, keep).value
    ensures forall i :: Newest(records, i, keep) ==> Latest(records, keep) == Some(records[i])
  {
    if records != [] {
      var n := |records| - 1;
      var before := records[..n];
      LatestExactly(before, keep);
      LatestIsNewest(before, keep);
      var best := Latest(before, keep);
      assert forall j :: 0 <= j < n ==> records[j] == before[j];
      if keep(records[n]) && (best.None? || records[n].at >= best.value.at) {
        assert Newest(records, n, keep);
      } else if best.Some? {
        var i :| Newest(before, i, keep) && before[i] == best.value;
        assert Newest(records, i, keep);
      }
      forall i | Newest(records, i, keep) ensures Latest(records, keep) == Some(records[i]) {
        if i < n {
          assert Newest(before, i, keep) by {
            assert forall j :: 0 <= j < n ==> before[j] == records[j];
          }
        } else if Latest(before, keep).Some? {
          var k :| Newest(before, k, keep) && before[k] == Latest(before, keep).value;
          assert records[k] == before[k];
        }
      }
    }
  }

  /** The job's last report says that it passed. */
  ghost predicate ReportedPassed(jobs: seq<JobResult>, job: string) {
    exists k :: 0 <= k < |jobs| && jobs[k] == JobResult(job, true) && forall j :: k < j < |jobs| ==> jobs[j].job != job
  }

  lemma ReportedBefore(jobs: seq<JobResult>, n: nat, job: string)
    requires n == |jobs| - 1 && jobs[n].job != job
    ensures ReportedPassed(jobs, job) <==> ReportedPassed(jobs[..n], job)
  {
    var before := jobs[..n];
    assert forall j :: 0 <= j < n ==> jobs[j] == before[j];
    if ReportedPassed(before, job) {
      var k :| 0 <= k < n && before[k] == JobResult(job, true) && forall j :: k < j < n ==> before[j].job != job;
      assert jobs[k] == JobResult(job, true);
    }
    if ReportedPassed(jobs, job) {
      var k :| 0 <= k < |jobs| && jobs[k] == JobResult(job, true) && forall j :: k < j < |jobs| ==> jobs[j].job != job;
      assert before[k] == JobResult(job, true);
    }
  }

  lemma {:induction false} ReportsExactly(jobs: seq<JobResult>, job: string)
    ensures job in Reports(jobs) && Reports(jobs)[job] <==> ReportedPassed(jobs, job)
  {
    if jobs != [] {
      var n := |jobs| - 1;
      if jobs[n].job == job {
        assert jobs[n].passed ==> jobs[n] == JobResult(job, true);
      } else {
        ReportedBefore(jobs, n, job);
        hide ReportedPassed;
        ReportsExactly(jobs[..n], job);
      }
    }
  }

  ghost predicate NamesTheCode(identity: string, tree: Tree) {
    tree == NoTree || (tree.Tree? && identity != "" && identity == tree.identity)
  }

  /** The evidence, record by record: the newest collect is ok; the newest G2 run is not older and its
      last report of every required job is a pass; a task with G3 jobs has a newest G3 run that
      passed and reports each of them as passed; and where a review is required, by the task's own
      rule or else the general one, the newest one approves, is not older than the collect and names
      the code in the tree. */
  ghost predicate EvidenceGreen(spec: Spec, records: seq<Record>, task: string, tree: Tree) {
    exists c, g ::
      && Newest(records, c, CollectsOf(task)) && Newest(records, g, RunsOf(task, G2))
      && records[c].ok && records[c].at <= records[g].at
      && (forall i :: 0 <= i < |spec.required| ==> ReportedPassed(records[g].jobs, spec.required[i]))
      && (task in spec.g3 && spec.g3[task] != [] ==> G3EvidenceGreen(spec.g3[task], records, task))
      && ((if task in spec.reviewFor then spec.reviewFor[task] else spec.review) ==> ReviewEvidenceGreen(records, task, records[c].at, tree))
  }

  ghost predicate G3EvidenceGreen(jobs: seq<string>, records: seq<Record>, task: string) {
    exists h :: Newest(records, h, RunsOf(task, G3)) && records[h].passed && forall i :: 0 <= i < |jobs| ==> JobResult(jobs[i], true) in records[h].jobs
  }

  ghost predicate ReviewEvidenceGreen(records: seq<Record>, task: string, since: int, tree: Tree) {
    exists v :: Newest(records, v, ReviewsOf(task)) && records[v].approve && records[v].at >= since && NamesTheCode(records[v].identity, tree)
  }

  lemma G3Means(spec: Spec, records: seq<Record>, task: string)
    ensures G3Covers(spec, records, task) <==> (task in spec.g3 && spec.g3[task] != [] ==> G3EvidenceGreen(spec.g3[task], records, task))
  {
    hide Latest, Newest;
    LatestExactly(records, RunsOf(task, G3));
  }

  lemma ReviewMeans(spec: Spec, records: seq<Record>, task: string, tree: Tree)
    requires Latest(records, CollectsOf(task)).Some?
    ensures ReviewGreen(spec, records, task, tree)
       <==> ((if task in spec.reviewFor then spec.reviewFor[task] else spec.review) ==>
               ReviewEvidenceGreen(records, task, Latest(records, CollectsOf(task)).value.at, tree))
  {
    hide Latest, Newest;
    LatestExactly(records, ReviewsOf(task));
  }

  /** The merge gate is green exactly when the evidence is. */
  lemma MergeGreenExactly(spec: Spec, records: seq<Record>, task: string, tree: Tree)
    ensures MergeGreen(spec, records, task, tree) <==> EvidenceGreen(spec, records, task, tree)
  {
    hide Latest, Newest, Reports, ReportedPassed, ReviewGreen, ReviewEvidenceGreen, G3Covers, G3EvidenceGreen;
    var c, g := Latest(records, CollectsOf(task)), Latest(records, RunsOf(task, G2));
    LatestExactly(records, CollectsOf(task));
    LatestExactly(records, RunsOf(task, G2));
    G3Means(spec, records, task);
    if c.Some? {
      ReviewMeans(spec, records, task, tree);
    }
    if g.Some? {
      forall i | 0 <= i < |spec.required|
        ensures spec.required[i] in Reports(g.value.jobs) && Reports(g.value.jobs)[spec.required[i]] <==> ReportedPassed(g.value.jobs, spec.required[i])
      {
        ReportsExactly(g.value.jobs, spec.required[i]);
      }
    }
  }

  ghost predicate HasCollect(records: seq<Record>, task: string) {
    exists c :: Newest(records, c, CollectsOf(task))
  }

  ghost predicate PassedSinceCollect(records: seq<Record>, task: string, gate: Gate, i: int) {
    && Newest(records, i, RunsOf(task, gate)) && records[i].passed
    && forall c :: Newest(records, c, CollectsOf(task)) ==> records[i].at >= records[c].at
  }

  ghost predicate CoversSinceCollect(records: seq<Record>, task: string, jobs: seq<string>, h: int) {
    PassedSinceCollect(records, task, G3, h) && forall i :: 0 <= i < |jobs| ==> JobResult(jobs[i], true) in records[h].jobs
  }

  /** G1 is green when the newest collect is ok; a G2 run may be reused when it is the newest, passed
      and is not older than the newest collect. */
  lemma ReuseExactly(records: seq<Record>, task: string)
    ensures G1Green(records, task) <==> exists c :: Newest(records, c, CollectsOf(task)) && records[c].ok
    ensures G2Reusable(records, task) <==> exists g :: PassedSinceCollect(records, task, G2, g)
  {
    hide Latest;
    LatestExactly(records, CollectsOf(task));
    LatestExactly(records, RunsOf(task, G2));
    if G2Reusable(records, task) {
      var g :| Newest(records, g, RunsOf(task, G2)) && records[g] == Latest(records, RunsOf(task, G2)).value;
      assert PassedSinceCollect(records, task, G2, g);
    }
  }

  /** A G3 run may be reused when there is a collect and the newest run passed, is not older, and
      reports every job of the task as passed. */
  lemma G3ReuseExactly(spec: Spec, records: seq<Record>, task: string, jobs: seq<string>)
    requires jobs == if task in spec.g3 then spec.g3[task] else []
    ensures G3Reusable(spec, records, task) <==> HasCollect(records, task) && exists h :: CoversSinceCollect(records, task, jobs, h)
  {
    hide Latest;
    LatestExactly(records, CollectsOf(task));
    LatestExactly(records, RunsOf(task, G3));
    var g := Latest(records, RunsOf(task, G3));
    if G3Reusable(spec, records, task) {
      var h :| Newest(records, h, RunsOf(task, G3)) && records[h] == g.value;
      assert CoversSinceCollect(records, task, jobs, h);
    }
  }

  // ---------------------------------------------------------------- running gates

  /** What running a gate now would give: whether it can run, when, and which jobs pass. */
  datatype Weather = Weather(runnable: bool, at: int, passes: string -> bool)

  function Results(jobs: seq<string>, passes: string -> bool): (r: seq<JobResult>)
    ensures |r| == |jobs| && forall i :: 0 <= i < |jobs| ==> r[i] == JobResult(jobs[i], passes(jobs[i]))
  {
    seq(|jobs|, i requires 0 <= i < |jobs| => JobResult(jobs[i], passes(jobs[i])))
  }

  predicate AllPass(jobs: seq<string>, passes: string -> bool) {
    forall i :: 0 <= i < |jobs| ==> passes(jobs[i])
  }

  /** The record of a run; a gate without jobs cannot run. */
  function RunOf(spec: Spec, task: string, gate: Gate, w: Weather): (r: Option<Record>)
    ensures r.Some? ==> r.value.Ran?
  {
    var jobs := spec.JobsFor(gate, task);
    if !w.runnable || jobs == [] then None
    else Some(Ran(task, w.at, gate, AllPass(jobs, w.passes), Results(jobs, w.passes)))
  }

  // ---------------------------------------------------------------- the steps of an accept

  /** Where an accept stands: what it will do next. */
  datatype Phase =
    | Forcing(task: string)
    | NeedG1(task: string)
    | NeedG2(task: string, g1: bool)
    | NeedG3(task: string, g1: bool)
    | NeedG4(task: string)
    | NeedCommit(task: string)
    | Finished(task: string, accepted: bool)

  datatype Change = Change(task: string, from: Status, to: Status, call: Option<nat>)

  datatype State = State(tasks: map<string, Status>, records: seq<Record>, history: seq<Change>, calls: map<nat, Phase>)

  function At(s: State, call: nat, phase: Phase): State {
    s.(calls := s.calls[call := phase])
  }

  function Recorded(s: State, record: Record): State {
    s.(records := s.records + [record])
  }

  function Refused(s: State, call: nat, task: string, verdicts: Verdicts): State {
    At(Recorded(s, Decided(task, 0, false, verdicts)), call, Finished(task, false))
  }

  /** The guarded transition, against the state as it is when the lock is held. */
  function Transition(s: State, task: string, to: Status, call: Option<nat>): Option<State> {
    if task in s.tasks && Legal(s.tasks[task], to)
    then Some(s.(tasks := s.tasks[task := to], history := s.history + [Change(task, s.tasks[task], to, call)]))
    else None
  }

  /** Reads the task; a task in another state than verification goes straight to the transition
      machinery, which is to refuse it. */
  function Inspect(s: State, call: nat, task: string): State {
    if call in s.calls then s
    else if task !in s.tasks then At(s, call, Finished(task, false))
    else At(s, call, if s.tasks[task] == Verification then NeedG1(task) else Forcing(task))
  }

  /** The transition itself; an accept that passed its gates then records them. */
  function Commit(s: State, call: nat, task: string, gated: bool): State {
    match Transition(s, task, Accepted, Some(call))
    case None => At(s, call, Finished(task, false))
    case Some(t) =>
      At(if gated then Recorded(t, Decided(task, 0, true, Verdicts(true, true, true, true))) else t, call, Finished(task, true))
  }

  function CheckG1(s: State, call: nat, task: string): State {
    At(s, call, NeedG2(task, G1Green(s.records, task)))
  }

  function CheckG2(spec: Spec, s: State, call: nat, task: string, g1: bool, w: Weather): State {
    if G2Reusable(s.records, task) then At(s, call, NeedG3(task, g1))
    else
      match RunOf(spec, task, G2, w)
      case None => Refused(s, call, task, Verdicts(g1, false, false, false))
      case Some(run) =>
        if run.passed then At(Recorded(s, run), call, NeedG3(task, g1))
        else Refused(Recorded(s, run), call, task, Verdicts(g1, false, false, false))
  }

  function AfterG3(s: State, call: nat, task: string, g1: bool): State {
    if g1 then At(s, call, NeedG4(task)) else Refused(s, call, task, Verdicts(false, true, true, false))
  }

  function CheckG3(spec: Spec, s: State, call: nat, task: string, g1: bool, w: Weather): State {
    if spec.G3Jobs(task) == [] || G3Reusable(spec, s.records, task) then AfterG3(s, call, task, g1)
    else
      match RunOf(spec, task, G3, w)
      case None => Refused(s, call, task, Verdicts(g1, true, false, false))
      case Some(run) =>
        if run.passed then AfterG3(Recorded(s, run), call, task, g1)
        else Refused(Recorded(s, run), call, task, Verdicts(g1, true, false, false))
  }

  function CheckG4(spec: Spec, s: State, call: nat, task: string, tree: Tree): State {
    if MergeGreen(spec, s.records, task, tree) then At(s, call, NeedCommit(task))
    else Refused(s, call, task, Verdicts(true, true, true, false))
  }

  /** What a step of an accept meets: the gates' weather, the tree, and whether reading or
      writing the files fails. */
  datatype Surroundings = Surroundings(weather: Weather, tree: Tree, fault: bool)

  /** The next step of a call. */
  function Advance(spec: Spec, s: State, call: nat, env: Surroundings): State {
    if call !in s.calls || s.calls[call].Finished? then s
    else if env.fault then At(s, call, Finished(s.calls[call].task, false))
    else
      match s.calls[call]
      case Forcing(task) => Commit(s, call, task, false)
      case NeedG1(task) => CheckG1(s, call, task)
      case NeedG2(task, g1) => CheckG2(spec, s, call, task, g1, env.weather)
      case NeedG3(task, g1) => CheckG3(spec, s, call, task, g1, env.weather)
      case NeedG4(task) => CheckG4(spec, s, call, task, env.tree)
      case NeedCommit(task) => Commit(s, call, task, true)
      case Finished(_, _) => s
  }

  // ---------------------------------------------------------------- runs

  /** Accepts in progress, and the other commands: they write evidence and move tasks, but
      never to accepted. */
  datatype Step =
    | InspectStep(call: nat, task: string)
    | AdvanceStep(call: nat, env: Surroundings)
    | Evidence(record: Record)
    | Move(task: string, to: Status)

  function Apply(spec: Spec, s: State, step: Step): State {
    match step
    case InspectStep(call, task) => Inspect(s, call, task)
    case AdvanceStep(call, env) => Advance(spec, s, call, env)
    case Evidence(record) => Recorded(s, record)
    case Move(task, to) =>
      if to == Accepted then s
      else match Transition(s, task, to, None) { case None => s case Some(t) => t }
  }

  ghost predicate Initial(s: State) {
    s.history == [] && s.calls == map[]
  }

  function After(spec: Spec, init: State, steps: seq<Step>): State {
    if steps == [] then init else Apply(spec, After(spec, init, steps[..|steps| - 1]), steps[|steps| - 1])
  }

  // ---------------------------------------------------------------- what one step can do

  /** The only steps that accept: a commit of a call that was gated, or of one that was not. */
  predicate Accepts(s: State, step: Step) {
    && step.AdvanceStep? && step.call in s.calls && !step.env.fault
    && (s.calls[step.call].Forcing? || s.calls[step.call].NeedCommit?)
    && s.calls[step.call].task in s.tasks && s.tasks[s.calls[step.call].task] == Verification
  }

  lemma GatesChangeNoTask(spec: Spec, s: State, call: nat, task: string, g1: bool, env: Surroundings)
    ensures CheckG1(s, call, task).tasks == s.tasks && CheckG1(s, call, task).history == s.history
    ensures CheckG2(spec, s, call, task, g1, env.weather).tasks == s.tasks && CheckG2(spec, s, call, task, g1, env.weather).history == s.history
    ensures CheckG3(spec, s, call, task, g1, env.weather).tasks == s.tasks && CheckG3(spec, s, call, task, g1, env.weather).history == s.history
    ensures CheckG4(spec, s, call, task, env.tree).tasks == s.tasks && CheckG4(spec, s, call, task, env.tree).history == s.history
  {
    hide G1Green, G2Reusable, G3Reusable, MergeGreen, RunOf;
  }

  /** Every step of an accept but a successful commit leaves every task's state alone. */
  lemma RefusalChangesNoTask(spec: Spec, s: State, step: Step)
    requires (step.InspectStep? || step.AdvanceStep?) && !Accepts(s, step)
    ensures Apply(spec, s, step).tasks == s.tasks && Apply(spec, s, step).history == s.history
  {
    hide CheckG1, CheckG2, CheckG3, CheckG4;
    if step.AdvanceStep? && step.call in s.calls {
      var p := s.calls[step.call];
      GatesChangeNoTask(spec, s, step.call, p.task, if p.NeedG2? || p.NeedG3? then p.g1 else false, step.env);
    }
  }

  lemma AcceptingStep(spec: Spec, s: State, step: Step)
    requires Accepts(s, step)
    ensures var task := s.calls[step.call].task;
            && Apply(spec, s, step).tasks == s.tasks[task := Accepted]
            && Apply(spec, s, step).history == s.history + [Change(task, Verification, Accepted, Some(step.call))]
            && Apply(spec, s, step).calls == s.calls[step.call := Finished(task, true)]
  {
  }

  /** A gate passes now when it can run, has jobs, and each of them passes. */
  lemma GateRunsExactly(spec: Spec, task: string, gate: Gate, w: Weather)
    ensures GateRuns(spec, task, gate, w)
       <==> var jobs := if gate == G2 then spec.runs else if task in spec.g3 then spec.g3[task] else [];
            w.runnable && jobs != [] && forall i :: 0 <= i < |jobs| ==> w.passes(jobs[i])
  {
  }

  // ---------------------------------------------------------------- the past of a call

  /** What a step of a call can establish. */
  datatype Fact = SawVerification | SawOther | PassedG1 | PassedG2 | PassedG3 | PassedG4

  predicate GateRuns(spec: Spec, task: string, gate: Gate, w: Weather) {
    var run := RunOf(spec, task, gate, w);
    run.Some? && run.value.passed
  }

  /** The step, taken in this state, establishes the fact for the call. */
  predicate Establishes(spec: Spec, s: State, step: Step, call: nat, task: string, fact: Fact) {
    match fact
    case SawVerification => step == InspectStep(call, task) && call !in s.calls && task in s.tasks && s.tasks[task] == Verification
    case SawOther => step == InspectStep(call, task) && call !in s.calls && task in s.tasks && s.tasks[task] != Verification
    case PassedG1 => step.AdvanceStep? && step.call == call && G1Green(s.records, task)
    case PassedG2 => step.AdvanceStep? && step.call == call && (G2Reusable(s.records, task) || GateRuns(spec, task, G2, step.env.weather))
    case PassedG3 =>
      && step.AdvanceStep? && step.call == call
      && (spec.G3Jobs(task) == [] || G3Reusable(spec, s.records, task) || GateRuns(spec, task, G3, step.env.weather))
    case PassedG4 => step.AdvanceStep? && step.call == call && MergeGreen(spec, s.records, task, step.env.tree)
  }

  const ALL_GATES := {SawVerification, PassedG1, PassedG2, PassedG3, PassedG4}

  /** What must have happened for a call to stand where it stands. */
  function Facts(p: Phase): set<Fact> {
    match p
    case Forcing(_) => {SawOther}
    case NeedG1(_) => {SawVerification}
    case NeedG2(_, g1) => {SawVerification} + if g1 then {PassedG1} else {}
    case NeedG3(_, g1) => {SawVerification, PassedG2} + if g1 then {PassedG1} else {}
    case NeedG4(_) => {SawVerification, PassedG1, PassedG2, PassedG3}
    case NeedCommit(_) => ALL_GATES
    case Finished(_, _) => {}
  }

  ghost predicate Happened(spec: Spec, init: State, steps: seq<Step>, call: nat, task: string, fact: Fact) {
    exists k :: 0 <= k < |steps| && Establishes(spec, After(spec, init, steps[..k]), steps[k], call, task, fact)
  }

  ghost predicate PhaseSound(spec: Spec, init: State, steps: seq<Step>, call: nat, p: Phase) {
    forall f :: f in Facts(p) ==> Happened(spec, init, steps, call, p.task, f)
  }

  lemma HappenedStep(spec: Spec, init: State, steps: seq<Step>, call: nat, task: string, fact: Fact)
    requires steps != []
    ensures Happened(spec, init, steps, call, task, fact)
       <==> Happened(spec, init, steps[..|steps| - 1], call, task, fact)
            || Establishes(spec, After(spec, init, steps[..|steps| - 1]), steps[|steps| - 1], call, task, fact)
  {
    hide After, Establishes;
    var before := steps[..|steps| - 1];
    assert forall k :: 0 <= k <= |before| ==> before[..k] == steps[..k];
    if Happened(spec, init, before, call, task, fact) {
      var k :| 0 <= k < |before| && Establishes(spec, After(spec, init, before[..k]), before[k], call, task, fact);
      assert Establishes(spec, After(spec, init, steps[..k]), steps[k], call, task, fact);
    }
    if Happened(spec, init, steps, call, task, fact) {
      var k :| 0 <= k < |steps| && Establishes(spec, After(spec, init, steps[..k]), steps[k], call, task, fact);
      assert k < |before| ==> Establishes(spec, After(spec, init, before[..k]), before[k], call, task, fact);
    }
  }

  lemma OthersStay(spec: Spec, s: State, call: nat, env: Surroundings, other: nat)
    requires other != call
    ensures other in Advance(spec, s, call, env).calls ==> other in s.calls && Advance(spec, s, call, env).calls[other] == s.calls[other]
  {
    hide G1Green, G2Reusable, G3Reusable, MergeGreen, RunOf;
  }

  /** Where the gates leave their call, and what they established on the way. */
  lemma EarlyGates(spec: Spec, s: State, call: nat, task: string, g1: bool, env: Surroundings)
    ensures CheckG1(s, call, task).calls == s.calls[call := NeedG2(task, G1Green(s.records, task))]
    ensures CheckG2(spec, s, call, task, g1, env.weather).calls
         == s.calls[call := if G2Reusable(s.records, task) || GateRuns(spec, task, G2, env.weather) then NeedG3(task, g1) else Finished(task, false)]
  {
    hide G1Green, G2Reusable, RunOf;
  }

  lemma LateGates(spec: Spec, s: State, call: nat, task: string, g1: bool, env: Surroundings)
    ensures CheckG3(spec, s, call, task, g1, env.weather).calls
         == s.calls[call :=
              if g1 && (spec.G3Jobs(task) == [] || G3Reusable(spec, s.records, task) || GateRuns(spec, task, G3, env.weather))
              then NeedG4(task) else Finished(task, false)]
    ensures CheckG4(spec, s, call, task, env.tree).calls
         == s.calls[call := if MergeGreen(spec, s.records, task, env.tree) then NeedCommit(task) else Finished(task, false)]
  {
    hide G3Reusable, MergeGreen, RunOf;
  }

  lemma CommitEnds(s: State, call: nat, task: string, gated: bool)
    ensures exists accepted :: Commit(s, call, task, gated).calls == s.calls[call := Finished(task, accepted)]
  {
    var t := Commit(s, call, task, gated);
    assert t.calls[call].Finished?;
    assert t.calls == s.calls[call := Finished(task, t.calls[call].accepted)];
  }

  lemma AdvancePhase(spec: Spec, s: State, call: nat, env: Surroundings, f: Fact)
    requires call in s.calls && call in Advance(spec, s, call, env).calls && f in Facts(Advance(spec, s, call, env).calls[call])
    ensures var p := Advance(spec, s, call, env).calls[call];
            s.calls[call].task == p.task && (f in Facts(s.calls[call]) || Establishes(spec, s, AdvanceStep(call, env), call, p.task, f))
  {
    hide G1Green, G2Reusable, G3Reusable, MergeGreen, GateRuns, CheckG1, CheckG2, CheckG3, CheckG4, Commit;
    var p := s.calls[call];
    if p.Forcing? || p.NeedCommit? {
      CommitEnds(s, call, p.task, p.NeedCommit?);
    } else {
      var g1 := (p.NeedG2? || p.NeedG3?) && p.g1;
      EarlyGates(spec, s, call, p.task, g1, env);
      LateGates(spec, s, call, p.task, g1, env);
    }
  }

  /** A call's new phase asks for nothing but what it had and what the step established. */
  lemma StepPhase(spec: Spec, s: State, step: Step, call: nat, f: Fact)
    requires call in Apply(spec, s, step).calls && f in Facts(Apply(spec, s, step).calls[call])
    ensures var p := Apply(spec, s, step).calls[call];
            || (call in s.calls && s.calls[call].task == p.task && f in Facts(s.calls[call]))
            || Establishes(spec, s, step, call, p.task, f)
  {
    hide G1Green, G2Reusable, G3Reusable, MergeGreen, GateRuns, Advance;
    if step.AdvanceStep? {
      hide Facts, Establishes;
      if step.call == call {
        if call in s.calls {
          AdvancePhase(spec, s, call, step.env, f);
        } else {
          StrangersStay(spec, s, call, step.env);
        }
      } else {
        OthersStay(spec, s, step.call, step.env, call);
      }
    }
  }

  lemma StrangersStay(spec: Spec, s: State, call: nat, env: Surroundings)
    requires call !in s.calls
    ensures Advance(spec, s, call, env) == s
  {
  }

  lemma {:induction false} PhaseIsSound(spec: Spec, init: State, steps: seq<Step>, call: nat)
    requires Initial(init) && call in After(spec, init, steps).calls
    ensures PhaseSound(spec, init, steps, call, After(spec, init, steps).calls[call])
  {
    hide Apply, Facts, Happened, Establishes;
    if steps != [] {
      var before, step := steps[..|steps| - 1], steps[|steps| - 1];
      var s, p := After(spec, init, before), After(spec, init, steps).calls[call];
      if call in s.calls {
        PhaseIsSound(spec, init, before, call);
      }
      forall f | f in Facts(p) ensures Happened(spec, init, steps, call, p.task, f) {
        StepPhase(spec, s, step, call, f);
        HappenedStep(spec, init, steps, call, p.task, f);
      }
    }
  }

  // ---------------------------------------------------------------- safety over runs

  /** The change was made at step k, from verification, by a call that passed every gate
      before, or by one that had found the task in another state. */
  ghost predicate AcceptedAt(spec: Spec, init: State, steps: seq<Step>, k: nat, c: Change) {
    && k < |steps| && c.from == Verification && c.call.Some?
    && Accepts(After(spec, init, steps[..k]), steps[k]) && steps[k].call == c.call.value
    && ((forall f :: f in ALL_GATES ==> Happened(spec, init, steps[..k], c.call.value, c.task, f))
        || Happened(spec, init, steps[..k], c.call.value, c.task, SawOther))
  }

  lemma StepHistory(spec: Spec, s: State, step: Step)
    ensures var h := Apply(spec, s, step).history;
            || h == s.history
            || (|h| == |s.history| + 1 && h[..|s.history|] == s.history && h[|s.history|].to != Accepted)
            || (Accepts(s, step) && h == s.history + [Change(s.calls[step.call].task, Verification, Accepted, Some(step.call))])
  {
    hide CheckG1, CheckG2, CheckG3, CheckG4, Advance, Inspect;
    if step.AdvanceStep? || step.InspectStep? {
      hide Apply;
      if Accepts(s, step) {
        AcceptingStep(spec, s, step);
      } else {
        RefusalChangesNoTask(spec, s, step);
      }
    }
  }

  /** No task is ever accepted otherwise. */
  lemma {:induction false} EveryAcceptance(spec: Spec, init: State, steps: seq<Step>, i: nat)
    requires Initial(init) && i < |After(spec, init, steps).history| && After(spec, init, steps).history[i].to == Accepted
    ensures exists k :: AcceptedAt(spec, init, steps, k, After(spec, init, steps).history[i])
  {
    hide Apply, Happened, Accepts, ALL_GATES;
    var k := |steps| - 1;
    var before, step := steps[..k], steps[k];
    var s, c := After(spec, init, before), After(spec, init, steps).history[i];
    StepHistory(spec, s, step);
    if i < |s.history| {
      EveryAcceptance(spec, init, before, i);
      var j: nat :| AcceptedAt(spec, init, before, j, s.history[i]);
      assert before[..j] == steps[..j];
      assert AcceptedAt(spec, init, steps, j, c);
    } else {
      AcceptsFrom(s, step);
      PhaseIsSound(spec, init, before, step.call);
      assert AcceptedAt(spec, init, steps, k, c);
    }
  }

  lemma AcceptsFrom(s: State, step: Step)
    requires Accepts(s, step)
    ensures step.AdvanceStep? && step.call in s.calls
    ensures Facts(s.calls[step.call]) == ALL_GATES || Facts(s.calls[step.call]) == {SawOther}
  {
  }

  lemma CallsStay(spec: Spec, s: State, step: Step, call: nat, task: string)
    requires call in s.calls || step == InspectStep(call, task)
    ensures call in Apply(spec, s, step).calls
  {
    hide G1Green, G2Reusable, G3Reusable, MergeGreen, RunOf;
  }

  /** A call looks at its task once. */
  lemma {:induction false} SeenOnce(spec: Spec, init: State, steps: seq<Step>, call: nat, task: string)
    ensures !(Happened(spec, init, steps, call, task, SawVerification) && Happened(spec, init, steps, call, task, SawOther))
    ensures Happened(spec, init, steps, call, task, SawVerification) || Happened(spec, init, steps, call, task, SawOther) ==>
              call in After(spec, init, steps).calls
  {
    hide Apply, Happened;
    if steps == [] {
      NothingHappened(spec, init, steps, call, task);
    } else {
      var before, step := steps[..|steps| - 1], steps[|steps| - 1];
      SeenOnce(spec, init, before, call, task);
      HappenedStep(spec, init, steps, call, task, SawVerification);
      HappenedStep(spec, init, steps, call, task, SawOther);
      if call in After(spec, init, before).calls || step == InspectStep(call, task) {
        CallsStay(spec, After(spec, init, before), step, call, task);
      }
    }
  }

  lemma NothingHappened(spec: Spec, init: State, steps: seq<Step>, call: nat, task: string)
    requires steps == []
    ensures forall f :: !Happened(spec, init, steps, call, task, f)
  {
  }

  /** An acceptance passed all four gates if and only if its call had found the task in
      verification when it looked. */
  lemma GatedExactly(spec: Spec, init: State, steps: seq<Step>, k: nat, c: Change)
    requires AcceptedAt(spec, init, steps, k, c)
    ensures (forall f :: f in ALL_GATES ==> Happened(spec, init, steps[..k], c.call.value, c.task, f))
       <==> Happened(spec, init, steps[..k], c.call.value, c.task, SawVerification)
  {
    hide Happened, Accepts, After;
    SeenOnce(spec, init, steps[..k], c.call.value, c.task);
    assert SawVerification in ALL_GATES;
  }

  lemma AfterThree(spec: Spec, init: State, a: Step, b: Step, c: Step)
    ensures After(spec, init, [a, b, c]) == Apply(spec, Apply(spec, Apply(spec, init, a), b), c)
  {
    hide Apply;
    assert [a, b, c][..2] == [a, b] && [a, b][..1] == [a] && [a][..0] == [];
    assert After(spec, init, [a]) == Apply(spec, After(spec, init, []), a);
  }

  lemma ForcedLate(spec: Spec, s: State, task: string, call: nat, env: Surroundings)
    requires task in s.tasks && s.tasks[task] == Running && call !in s.calls && !env.fault
    ensures var t := Apply(spec, Apply(spec, Apply(spec, s, InspectStep(call, task)), Move(task, Verification)), AdvanceStep(call, env));
            t.tasks == s.tasks[task := Accepted] && t.records == s.records
  {
    hide CheckG1, CheckG2, CheckG3, CheckG4;
    var seen := Apply(spec, s, InspectStep(call, task));
    assert seen == At(s, call, Forcing(task));
  }

  /** The other case happens: a task that reaches verification after an accept has looked at it
      and before that accept tries the transition is accepted with no evidence at all. */
  lemma LateVerificationIsAcceptedUngated(spec: Spec, env: Surroundings)
    requires !env.fault
    ensures var init := State(map["T1" := Running], [], [], map[]);
            var steps := [InspectStep(0, "T1"), Move("T1", Verification), AdvanceStep(0, env)];
            Initial(init) && After(spec, init, steps).tasks == map["T1" := Accepted] && After(spec, init, steps).records == []
  {
    hide Apply, After;
    var init := State(map["T1" := Running], [], [], map[]);
    AfterThree(spec, init, InspectStep(0, "T1"), Move("T1", Verification), AdvanceStep(0, env));
    ForcedLate(spec, init, "T1", 0, env);
  }

  // ---------------------------------------------------------------- evidence at the commit

  /** A record the gates of the task read. */
  predicate Concerns(r: Record, task: string) {
    !r.Decided? && r.task == task
  }

  lemma StepRecords(spec: Spec, s: State, step: Step)
    ensures s.records <= Apply(spec, s, step).records
  {
    hide G1Green, G2Reusable, G3Reusable, MergeGreen, RunOf;
  }

  lemma {:induction false} RecordsGrow(spec: Spec, init: State, steps: seq<Step>, k: nat)
    requires k <= |steps|
    ensures After(spec, init, steps[..k]).records <= After(spec, init, steps).records
  {
    hide Apply;
    if k == |steps| {
      assert steps[..k] == steps;
    } else {
      var before := steps[..|steps| - 1];
      assert before[..k] == steps[..k];
      RecordsGrow(spec, init, before, k);
      StepRecords(spec, After(spec, init, before), steps[|steps| - 1]);
    }
  }

  lemma {:induction false} LatestStays(records: seq<Record>, n: nat, keep: Record -> bool)
    requires n <= |records| && forall i :: n <= i < |records| ==> !keep(records[i])
    ensures Latest(records, keep) == Latest(records[..n], keep)
  {
    if n == |records| {
      assert records[..n] == records;
    } else {
      var before := records[..|records| - 1];
      assert before[..n] == records[..n];
      LatestStays(before, n, keep);
    }
  }

  lemma MergeGreenStays(spec: Spec, records: seq<Record>, n: nat, task: string, tree: Tree)
    requires n <= |records| && forall i :: n <= i < |records| ==> !Concerns(records[i], task)
    ensures MergeGreen(spec, records, task, tree) <==> MergeGreen(spec, records[..n], task, tree)
  {
    hide Latest, Covered, Reports;
    LatestStays(records, n, CollectsOf(task));
    LatestStays(records, n, RunsOf(task, G2));
    LatestStays(records, n, RunsOf(task, G3));
    LatestStays(records, n, ReviewsOf(task));
  }

  /** The merge gate's answer still holds later in the run, the code unchanged, when no record
      that concerns the task was written since. */
  lemma EvidenceStillHolds(spec: Spec, init: State, steps: seq<Step>, j: nat, task: string, tree: Tree)
    requires j <= |steps| && MergeGreen(spec, After(spec, init, steps[..j]).records, task, tree)
    requires var was, now := After(spec, init, steps[..j]).records, After(spec, init, steps).records;
             forall i :: |was| <= i < |now| ==> !Concerns(now[i], task)
    ensures MergeGreen(spec, After(spec, init, steps).records, task, tree)
  {
    hide After, MergeGreen, Concerns;
    RecordsGrow(spec, init, steps, j);
    var was, now := After(spec, init, steps[..j]).records, After(spec, init, steps).records;
    assert now[..|was|] == was;
    MergeGreenStays(spec, now, |was|, task, tree);
  }

  // Which records written in between turn the gate red.

  /** The record of a kind that took the place of the one used before, if one did. */
  function Since(records: seq<Record>, added: seq<Record>, keep: Record -> bool): (r: Option<Record>)
    ensures r.Some? ==> keep(r.value)
  {
    var was, newer := Latest(records, keep), Latest(added, keep);
    if newer.Some? && (was.None? || newer.value.at >= was.value.at) then newer else None
  }

  function Current(records: seq<Record>, added: seq<Record>, keep: Record -> bool): (r: Option<Record>)
    ensures r.Some? ==> keep(r.value)
  {
    if Since(records, added, keep).Some? then Since(records, added, keep) else Latest(records, keep)
  }

  lemma {:induction false} LatestOfBoth(records: seq<Record>, added: seq<Record>, keep: Record -> bool)
    ensures Latest(records + added, keep) == Current(records, added, keep)
  {
    if added == [] {
      assert records + added == records;
    } else {
      var before := added[..|added| - 1];
      assert (records + added)[..|records + added| - 1] == records + before;
      LatestOfBoth(records, before, keep);
    }
  }

  predicate AllRequiredPassed(spec: Spec, run: Record)
    requires run.Ran?
  {
    forall i :: 0 <= i < |spec.required| ==> spec.required[i] in Reports(run.jobs) && Reports(run.jobs)[spec.required[i]]
  }

  predicate NamesTree(review: Record, tree: Tree)
    requires review.Reviewed?
  {
    !tree.Unreadable? && (tree.Tree? ==> review.identity != "" && review.identity == tree.identity)
  }

  /** What the records written since ask of each other and of what was there: a collect that took
      over is ok; a G2 run that took over passed every required job; the collect in use is not
      newer than the G2 run in use if either took over; a G3 run that took over passed and covers
      the required jobs; and, where a review is required, one that took over approves and names
      the tree, and the one in use is not older than the collect in use if either took over. */
  predicate WrittenGreen(spec: Spec, records: seq<Record>, added: seq<Record>, task: string, tree: Tree) {
    var c, c1 := Current(records, added, CollectsOf(task)), Since(records, added, CollectsOf(task));
    var g, g1 := Current(records, added, RunsOf(task, G2)), Since(records, added, RunsOf(task, G2));
    var h1 := Since(records, added, RunsOf(task, G3));
    var v, v1 := Current(records, added, ReviewsOf(task)), Since(records, added, ReviewsOf(task));
    && (c1.Some? ==> c1.value.ok)
    && (g1.Some? ==> AllRequiredPassed(spec, g1.value))
    && (c1.Some? || g1.Some? ==> c.Some? && g.Some? && c.value.at <= g.value.at)
    && (h1.Some? && spec.G3Jobs(task) != [] ==> h1.value.passed && Covered(spec.G3Jobs(task), h1.value.jobs))
    && (spec.ReviewRequired(task) ==>
          && (v1.Some? ==> v1.value.approve && NamesTree(v1.value, tree))
          && (c1.Some? || v1.Some? ==> v.Some? && c.Some? && v.value.at >= c.value.at))
  }

  /** A merge gate that was green is green after more records if and only if those are. */
  lemma GreenAfterExactly(spec: Spec, records: seq<Record>, added: seq<Record>, task: string, tree: Tree)
    requires MergeGreen(spec, records, task, tree)
    ensures MergeGreen(spec, records + added, task, tree) <==> WrittenGreen(spec, records, added, task, tree)
  {
    hide Latest, Covered, Reports, Since;
    LatestOfBoth(records, added, CollectsOf(task));
    LatestOfBoth(records, added, RunsOf(task, G2));
    LatestOfBoth(records, added, RunsOf(task, G3));
    LatestOfBoth(records, added, ReviewsOf(task));
  }

  /** What one record must be to keep the gate green, by its kind; the records it is compared
      with are those in use before it. */
  predicate KeepsGreen(spec: Spec, records: seq<Record>, r: Record, task: string, tree: Tree) {
    var g, v := Latest(records, RunsOf(task, G2)), Latest(records, ReviewsOf(task));
    match r
    case Collected(_, at, ok) =>
      && ok && g.Some? && at <= g.value.at
      && (spec.ReviewRequired(task) ==> v.Some? && at <= v.value.at)
    case Ran(_, _, gate, passed, jobs) =>
      if gate == G2 then AllRequiredPassed(spec, r)
      else spec.G3Jobs(task) != [] ==> passed && Covered(spec.G3Jobs(task), jobs)
    case Reviewed(_, _, approve, _) => spec.ReviewRequired(task) ==> approve && NamesTree(r, tree)
    case Decided(_, _, _, _) => true
  }

  /** The records of the same kind and task. */
  function KindOf(r: Record): Record -> bool {
    match r
    case Collected(task, _, _) => CollectsOf(task)
    case Ran(task, _, gate, _, _) => RunsOf(task, gate)
    case Reviewed(task, _, _, _) => ReviewsOf(task)
    case Decided(task, _, _, _) => (x: Record) => x.Decided? && x.task == task
  }

  /** The record is of the task and not older than those of its kind. */
  ghost predicate TakesOver(records: seq<Record>, r: Record, task: string) {
    r.task == task && forall i :: 0 <= i < |records| && KindOf(r)(records[i]) ==> records[i].at <= r.at
  }

  lemma LatestOfOne(r: Record, keep: Record -> bool)
    ensures Latest([r], keep) == if keep(r) then Some(r) else None
  {
    assert [r][..0] == [];
  }

  lemma SinceOne(records: seq<Record>, r: Record, keep: Record -> bool)
    requires keep(r) ==> forall i :: 0 <= i < |records| && keep(records[i]) ==> records[i].at <= r.at
    ensures Since(records, [r], keep) == if keep(r) then Some(r) else None
    ensures keep(r) && Latest(records, keep).Some? ==> Latest(records, keep).value.at <= r.at
  {
    hide Latest;
    LatestOfOne(r, keep);
    LatestIsNewest(records, keep);
    var was := Latest(records, keep);
    if was.Some? {
      var i :| 0 <= i < |records| && records[i] == was.value;
      assert keep(r) ==> records[i].at <= r.at;
    }
  }

  /** One record, not older than those of its kind, keeps a green gate green if and only if its
      kind's condition holds. */
  lemma RecordKeepsGreenExactly(spec: Spec, records: seq<Record>, r: Record, task: string, tree: Tree)
    requires MergeGreen(spec, records, task, tree) && TakesOver(records, r, task)
    ensures MergeGreen(spec, records + [r], task, tree) <==> KeepsGreen(spec, records, r, task, tree)
  {
    hide Latest, Covered, Reports, Since;
    GreenAfterExactly(spec, records, [r], task, tree);
    SinceOne(records, r, CollectsOf(task));
    SinceOne(records, r, RunsOf(task, G2));
    SinceOne(records, r, RunsOf(task, G3));
    SinceOne(records, r, ReviewsOf(task));
  }

  /** Green then, and now exactly when the records written since are. */
  ghost predicate GreenThenExactly(spec: Spec, was: seq<Record>, now: seq<Record>, task: string, tree: Tree) {
    && MergeGreen(spec, was, task, tree) && was <= now
    && (MergeGreen(spec, now, task, tree) <==> WrittenGreen(spec, was, now[|was|..], task, tree))
  }

  lemma GreenThen(spec: Spec, was: seq<Record>, now: seq<Record>, task: string, tree: Tree)
    requires MergeGreen(spec, was, task, tree) && was <= now
    ensures GreenThenExactly(spec, was, now, task, tree)
  {
    hide MergeGreen, WrittenGreen;
    GreenAfterExactly(spec, was, now[|was|..], task, tree);
    assert was + now[|was|..] == now;
  }

  /** The call's merge gate was at step j, and its answer at step k is decided by what was
      written in between. */
  ghost predicate GateToCommit(spec: Spec, init: State, steps: seq<Step>, j: nat, k: nat, c: Change) {
    && j < k <= |steps| && steps[j].AdvanceStep? && c.call == Some(steps[j].call)
    && GreenThenExactly(spec, After(spec, init, steps[..j]).records, After(spec, init, steps[..k]).records, c.task, steps[j].env.tree)
  }

  /** For every gated acceptance: the merge gate was green at an earlier step of the call, and for
      the code judged there it is green at the commit if and only if what was written in between
      is. */
  lemma EvidenceAtCommitExactly(spec: Spec, init: State, steps: seq<Step>, k: nat, c: Change)
    requires AcceptedAt(spec, init, steps, k, c)
    requires Happened(spec, init, steps[..k], c.call.value, c.task, SawVerification)
    ensures exists j :: GateToCommit(spec, init, steps, j, k, c)
  {
    hide After, GreenThenExactly, Accepts, MergeGreen;
    GatedExactly(spec, init, steps, k, c);
    assert PassedG4 in ALL_GATES;
    var front := steps[..k];
    var j :| 0 <= j < |front| && Establishes(spec, After(spec, init, front[..j]), front[j], c.call.value, c.task, PassedG4);
    assert front[..j] == steps[..j] && front[j] == steps[j];
    RecordsGrow(spec, init, front, j);
    GreenThen(spec, After(spec, init, steps[..j]).records, After(spec, init, front).records, c.task, steps[j].env.tree);
    assert GateToCommit(spec, init, steps, j, k, c);
  }

  lemma NewestIsLatest(records: seq<Record>, r: Record, keep: Record -> bool)
    requires keep(r) && forall i :: 0 <= i < |records| && keep(records[i]) ==> records[i].at <= r.at
    ensures Latest(records + [r], keep) == Some(r)
  {
    LatestIsNewest(records, keep);
    assert (records + [r])[..|records|] == records;
  }

  /** Nothing looks again: a failed collect written after the gates passed and before the commit
      does not stop it, and the task is accepted with a red G1. */
  lemma RedCollectIsNotSeen(spec: Spec, s: State, call: nat, task: string, at: int, env: Surroundings)
    requires call in s.calls && s.calls[call] == NeedCommit(task) && task in s.tasks && s.tasks[task] == Verification && !env.fault
    requires forall i :: 0 <= i < |s.records| && CollectsOf(task)(s.records[i]) ==> s.records[i].at <= at
    ensures var late := Apply(spec, s, Evidence(Collected(task, at, false)));
            && !G1Green(late.records, task) && (forall tree :: !MergeGreen(spec, late.records, task, tree))
            && Apply(spec, late, AdvanceStep(call, env)).tasks == s.tasks[task := Accepted]
  {
    var red := Collected(task, at, false);
    var late := Apply(spec, s, Evidence(red));
    assert late == Recorded(s, red);
    NewestIsLatest(s.records, red, CollectsOf(task));
    hide Latest, G2Covers, G3Covers, ReviewGreen, CheckG1, CheckG2, CheckG3, CheckG4;
    AcceptingStep(spec, late, AdvanceStep(call, env));
  }

  const ONE_JOB := Spec(["j"], ["j"], map[], false, map[])
  const FAIR := Surroundings(Weather(true, 2, job => true), NoTree, false)

  /** An accept of a collected task with nobody else at work, up to its commit. */
  function GreenSteps(): seq<Step> {
    [InspectStep(0, "T1"), AdvanceStep(0, FAIR), AdvanceStep(0, FAIR), AdvanceStep(0, FAIR), AdvanceStep(0, FAIR)]
  }

  function GreenStart(): State {
    State(map["T1" := Verification], [Collected("T1", 1, true)], [], map[])
  }

  function GreenRun(): Record {
    Ran("T1", 2, G2, true, [JobResult("j", true)])
  }

  function GreenAt(records: seq<Record>, phase: Phase): State {
    State(map["T1" := Verification], records, [], map[0 := phase])
  }

  lemma AfterSnoc(spec: Spec, init: State, steps: seq<Step>, step: Step)
    ensures After(spec, init, steps + [step]) == Apply(spec, After(spec, init, steps), step)
  {
    hide Apply;
    assert (steps + [step])[..|steps|] == steps;
  }

  lemma GreenEvidence()
    ensures var c := Collected("T1", 1, true);
            && Latest([c], CollectsOf("T1")) == Some(c) && Latest([c], RunsOf("T1", G2)) == None
            && Latest([c, GreenRun()], CollectsOf("T1")) == Some(c) && Latest([c, GreenRun()], RunsOf("T1", G2)) == Some(GreenRun())
            && Reports(GreenRun().jobs) == map["j" := true]
  {
    var c, run := Collected("T1", 1, true), GreenRun();
    assert [c][..0] == [] && [c, run][..1] == [c];
    assert GreenRun().jobs[..0] == [];
    assert Reports([]) == map[];
  }

  lemma GreenRunIs()
    ensures RunOf(ONE_JOB, "T1", G2, FAIR.weather) == Some(GreenRun())
  {
    assert Results(["j"], FAIR.weather.passes) == [JobResult("j", true)];
  }

  function Early(): seq<Record> {
    [Collected("T1", 1, true)]
  }

  function Late(): seq<Record> {
    [Collected("T1", 1, true), GreenRun()]
  }

  lemma GreenG1()
    ensures Apply(ONE_JOB, GreenStart(), InspectStep(0, "T1")) == GreenAt(Early(), NeedG1("T1"))
    ensures Apply(ONE_JOB, GreenAt(Early(), NeedG1("T1")), AdvanceStep(0, FAIR)) == GreenAt(Early(), NeedG2("T1", true))
  {
    hide Latest, CheckG2, CheckG3, CheckG4;
    GreenEvidence();
  }

  lemma GreenG2()
    ensures Apply(ONE_JOB, GreenAt(Early(), NeedG2("T1", true)), AdvanceStep(0, FAIR)) == GreenAt(Late(), NeedG3("T1", true))
  {
    hide Latest, RunOf, CheckG1, CheckG3, CheckG4;
    GreenEvidence();
    GreenRunIs();
    assert Early() + [GreenRun()] == Late();
  }

  lemma GreenG3()
    ensures Apply(ONE_JOB, GreenAt(Late(), NeedG3("T1", true)), AdvanceStep(0, FAIR)) == GreenAt(Late(), NeedG4("T1"))
  {
    hide Latest, RunOf, CheckG1, CheckG2, CheckG4, Late;
  }

  lemma GreenG4()
    ensures Apply(ONE_JOB, GreenAt(Late(), NeedG4("T1")), AdvanceStep(0, FAIR)) == GreenAt(Late(), NeedCommit("T1"))
  {
    hide Latest, Reports, RunOf, CheckG1, CheckG2, CheckG3;
    GreenEvidence();
    assert MergeGreen(ONE_JOB, Late(), "T1", NoTree);
  }

  /** Such a point is reached: an accept of one task passes its gates and stands before its commit. */
  lemma GreenRunReached()
    ensures Initial(GreenStart())
    ensures After(ONE_JOB, GreenStart(), GreenSteps()) == GreenAt(Late(), NeedCommit("T1"))
  {
    var i, a := InspectStep(0, "T1"), AdvanceStep(0, FAIR);
    assert [] + [i] == [i] && [i] + [a] == [i, a] && [i, a] + [a] == [i, a, a] && [i, a, a] + [a] == [i, a, a, a];
    assert [i, a, a, a] + [a] == GreenSteps();
    hide Apply, GreenRun, GreenSteps, Early, Late, GreenAt;
    GreenG1();
    GreenG2();
    GreenG3();
    GreenG4();
    AfterSnoc(ONE_JOB, GreenStart(), [], i);
    AfterSnoc(ONE_JOB, GreenStart(), [i], a);
    AfterSnoc(ONE_JOB, GreenStart(), [i, a], a);
    AfterSnoc(ONE_JOB, GreenStart(), [i, a, a], a);
    AfterSnoc(ONE_JOB, GreenStart(), [i, a, a, a], a);
  }

  /** And passed: the task is accepted although its latest collect failed. */
  lemma RedCollectHappens()
    ensures var red := GreenSteps() + [Evidence(Collected("T1", 3, false))];
            && Initial(GreenStart())
            && !G1Green(After(ONE_JOB, GreenStart(), red).records, "T1")
            && After(ONE_JOB, GreenStart(), red + [AdvanceStep(0, FAIR)]).tasks == map["T1" := Accepted]
  {
    hide Apply, After, G1Green, GreenSteps, MergeGreen;
    var collect := Evidence(Collected("T1", 3, false));
    GreenRunReached();
    RedCollectIsNotSeen(ONE_JOB, GreenAt(Late(), NeedCommit("T1")), 0, "T1", 3, FAIR);
    AfterSnoc(ONE_JOB, GreenStart(), GreenSteps(), collect);
    AfterSnoc(ONE_JOB, GreenStart(), GreenSteps() + [collect], AdvanceStep(0, FAIR));
  }

  // ---------------------------------------------------------------- one accept, undisturbed

  /** The evidence after the gates an accept runs for itself. */
  function AfterG2(spec: Spec, records: seq<Record>, task: string, w: Weather): seq<Record> {
    if G2Reusable(records, task) then records
    else match RunOf(spec, task, G2, w) { case None => records case Some(run) => records + [run] }
  }

  function AfterGates(spec: Spec, records: seq<Record>, task: string, w2: Weather, w3: Weather): seq<Record> {
    var evidence := AfterG2(spec, records, task, w2);
    if spec.G3Jobs(task) == [] || G3Reusable(spec, evidence, task) then evidence
    else match RunOf(spec, task, G3, w3) { case None => evidence case Some(run) => evidence + [run] }
  }

  /** All four gates are green. */
  predicate Green(spec: Spec, records: seq<Record>, task: string, w2: Weather, w3: Weather, tree: Tree) {
    && G1Green(records, task)
    && (G2Reusable(records, task) || GateRuns(spec, task, G2, w2))
    && (spec.G3Jobs(task) == [] || G3Reusable(spec, AfterG2(spec, records, task, w2), task) || GateRuns(spec, task, G3, w3))
    && MergeGreen(spec, AfterGates(spec, records, task, w2, w3), task, tree)
  }

  method CheckCovered(jobs: seq<string>, results: seq<JobResult>) returns (covered: bool)
    ensures covered == Covered(jobs, results)
  {
    covered := true;
    for i := 0 to |jobs|
      invariant covered == Covered(jobs[..i], results)
    {
      var found := false;
      for k := 0 to |results|
        invariant found == (JobResult(jobs[i], true) in results[..k])
      {
        assert results[..k + 1] == results[..k] + [results[k]];
        if results[k].job == jobs[i] && results[k].passed {
          found := true;
        }
      }
      assert results[..|results|] == results;
      assert jobs[..i + 1] == jobs[..i] + [jobs[i]];
      if !found {
        covered := false;
      }
      assert Covered(jobs[..i + 1], results) <==> Covered(jobs[..i], results) && JobResult(jobs[i], true) in results by {
        assert forall k :: 0 <= k < i ==> jobs[..i + 1][k] == jobs[..i][k];
      }
    }
    assert jobs[..|jobs|] == jobs;
  }

  class Desk {
    const spec: Spec
    var tasks: map<string, Status>
    var records: seq<Record>

    constructor (spec: Spec, tasks: map<string, Status>)
      ensures this.spec == spec && this.tasks == tasks && records == []
    {
      this.spec := spec;
      this.tasks := tasks;
      this.records := [];
    }

    method Refuse(task: string, verdicts: Verdicts)
      modifies this`records
      ensures records == old(records) + [Decided(task, 0, false, verdicts)]
    {
      records := records + [Decided(task, 0, false, verdicts)];
    }

    method NewestRun(task: string, gate: Gate) returns (r: Option<Record>)
      ensures r == Latest(records, RunsOf(task, gate))
    {
      r := None;
      for i := 0 to |records|
        invariant r == Latest(records[..i], RunsOf(task, gate))
      {
        assert records[..i + 1][..i] == records[..i];
        var rec := records[i];
        if rec.Ran? && rec.task == task && rec.gate == gate && (r.None? || rec.at >= r.value.at) {
          r := Some(rec);
        }
      }
      assert records[..|records|] == records;
    }

    /** Reuses a passed run that is current, or runs the gate now. */
    method EnsureG2(task: string, w: Weather) returns (green: bool)
      modifies this`records
      ensures green <==> G2Reusable(old(records), task) || GateRuns(spec, task, G2, w)
      ensures records == AfterG2(spec, old(records), task, w) && old(records) <= records
    {
      hide Latest, RunOf;
      var newest := NewestRun(task, G2);
      var collect := Latest(records, CollectsOf(task));
      if newest.Some? && newest.value.passed && (collect.None? || newest.value.at >= collect.value.at) {
        return true;
      }
      var run := RunOf(spec, task, G2, w);
      if run.Some? {
        records := records + [run.value];
      }
      green := run.Some? && run.value.passed;
    }

    /** Reuses a passed run that covers every job and is current, or runs the gate now. */
    method EnsureG3(task: string, w: Weather) returns (green: bool)
      modifies this`records
      ensures green <==> spec.G3Jobs(task) == [] || G3Reusable(spec, old(records), task) || GateRuns(spec, task, G3, w)
      ensures var run := RunOf(spec, task, G3, w);
              records == if spec.G3Jobs(task) == [] || G3Reusable(spec, old(records), task) || run.None? then old(records)
                         else old(records) + [run.value]
    {
      hide Latest, Covered, RunOf;
      if spec.G3Jobs(task) == [] {
        return true;
      }
      var newest := NewestRun(task, G3);
      if newest.Some? && newest.value.passed {
        var covered := CheckCovered(spec.G3Jobs(task), newest.value.jobs);
        var collect := Latest(records, CollectsOf(task));
        if covered && collect.Some? && newest.value.at >= collect.value.at {
          return true;
        }
      }
      var run := RunOf(spec, task, G3, w);
      if run.Some? {
        records := records + [run.value];
      }
      green := run.Some? && run.value.passed;
    }

    /** With nobody else at work, a task is accepted exactly when it is in verification and all
        four gates are green; every refusal leaves every task as it was. */
    method Accept(task: string, w2: Weather, w3: Weather, tree: Tree) returns (accepted: bool)
      modifies this
      ensures accepted <==> task in old(tasks) && old(tasks)[task] == Verification && Green(spec, old(records), task, w2, w3, tree)
      ensures tasks == if accepted then old(tasks)[task := Accepted] else old(tasks)
      ensures old(records) <= records
    {
      hide G1Green, G2Reusable, G3Reusable, MergeGreen, RunOf, GateRuns, AfterG2;
      if task !in tasks || tasks[task] != Verification {
        return false;
      }
      var g1 := G1Green(records, task);
      var green := EnsureG2(task, w2);
      if !green {
        Refuse(task, Verdicts(g1, false, false, false));
        return false;
      }
      green := EnsureG3(task, w3);
      if !green {
        Refuse(task, Verdicts(g1, true, false, false));
        return false;
      }
      assert records == AfterGates(spec, old(records), task, w2, w3);
      if !g1 {
        Refuse(task, Verdicts(false, true, true, false));
        return false;
      }
      if !MergeGreen(spec, records, task, tree) {
        Refuse(task, Verdicts(true, true, true, false));
        return false;
      }
      tasks := tasks[task := Accepted];
      records := records + [Decided(task, 0, true, Verdicts(true, true, true, true))];
      accepted := true;
    }
  }
}
