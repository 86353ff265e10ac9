/** The task graph's cycle finder: a three-colour depth-first search that answers
    with a dependency cycle, or with nothing when there is none. */
module Acyclic {
  import opened Options

  type Id = string

  /** One record of the task list; an absent dependency list reads as the empty one. */
  datatype Task = Task(id: Id, dependencies: seq<Id>)

  /** The dictionary built from the list: the last record of an id decides. */
  type Graph = map<Id, seq<Id>>

  function ById(tasks: seq<Task>): Graph {
    if tasks == [] then map[]
    else
      var last := tasks[|tasks| - 1];
      ById(tasks[..|tasks| - 1])[last.id := last.dependencies]
  }

  /** Every record's id is defined, by the last record that carries it. */
  lemma {:induction false} ByIdLastRecord(tasks: seq<Task>, i: nat)
    requires i < |tasks|
    ensures tasks[i].id in ById(tasks)
    ensures (forall j :: i < j < |tasks| ==> tasks[j].id != tasks[i].id) ==> ById(tasks)[tasks[i].id] == tasks[i].dependencies
  {
    if i < |tasks| - 1 {
      ByIdLastRecord(tasks[..|tasks| - 1], i);
    }
  }

  /** Nothing else is defined. */
  lemma {:induction false} ByIdOnlyRecords(tasks: seq<Task>, ids: set<Id>)
    requires forall i :: 0 <= i < |tasks| ==> tasks[i].id in ids
    ensures ById(tasks).Keys <= ids
  {
    if tasks != [] {
      ByIdOnlyRecords(tasks[..|tasks| - 1], ids);
    }
  }

  /** A dependency on a task that is not defined is reported elsewhere and is no edge here. */
  ghost predicate Edge(g: Graph, a: Id, b: Id) {
    a in g && b in g[a] && b in g
  }

  ghost predicate Chain(g: Graph, path: seq<Id>) {
    forall i, j :: 0 <= i < |path| - 1 && j == i + 1 ==> Edge(g, path[i], path[j])
  }

  ghost predicate Distinct(path: seq<Id>) {
    forall i, j :: 0 <= i < j < |path| ==> path[i] != path[j]
  }

  /** A closed walk along edges: the reported shape, first entry repeated at the end. */
  ghost predicate IsCycle(g: Graph, c: seq<Id>) {
    |c| >= 2 && c[0] == c[|c| - 1] && Chain(g, c)
  }

  ghost predicate HasCycle(g: Graph) {
    exists c :: IsCycle(g, c)
  }

  /** The reported answer: a cycle that repeats no task but the one that closes it. */
  ghost predicate Found(g: Graph, c: seq<Id>) {
    IsCycle(g, c) && Distinct(c[..|c| - 1])
  }

  /** When each finished task finished: every successor of a finished task finished before it. */
  ghost predicate Finished(g: Graph, finish: map<Id, nat>) {
    forall a, b {:trigger Edge(g, a, b)} :: a in finish && Edge(g, a, b) ==> b in finish && finish[b] < finish[a]
  }

  /** Along a chain that starts finished, finishing times only go down. */
  lemma {:induction false} ChainDescends(g: Graph, finish: map<Id, nat>, c: seq<Id>, i: nat)
    requires Finished(g, finish) && Chain(g, c) && i < |c| && c[0] in finish
    ensures c[i] in finish && finish[c[i]] + i <= finish[c[0]]
  {
    if i > 0 {
      ChainDescends(g, finish, c, i - 1);
      assert Edge(g, c[i - 1], c[i]);
    }
  }

  /** A graph whose every task has finished has no cycle. */
  lemma FinishedGraphIsAcyclic(g: Graph, finish: map<Id, nat>)
    requires Finished(g, finish) && g.Keys <= finish.Keys
    ensures !HasCycle(g)
  {
    if HasCycle(g) {
      var c :| IsCycle(g, c);
      assert Edge(g, c[0], c[1]);
      ChainDescends(g, finish, c, |c| - 1);
    }
  }

  datatype Colour = Grey | Black

  /** What holds between visits: black tasks are the finished ones, grey tasks are
      exactly the path being visited. */
  ghost predicate Coherent(g: Graph, state: map<Id, Colour>, finish: map<Id, nat>, clock: nat, path: seq<Id>) {
    && state.Keys <= g.Keys
    && Finished(g, finish)
    && (forall id :: id in finish ==> finish[id] < clock)
    && (forall id :: id in finish <==> id in state && state[id] == Black)
    && Chain(g, path) && Distinct(path)
    && forall id :: id in path <==> id in state && state[id] == Grey
  }

  ghost predicate Extends(path: seq<Id>, g: Graph, tid: Id) {
    tid in g && (path != [] ==> Edge(g, path[|path| - 1], tid))
  }

  lemma Enter(g: Graph, state: map<Id, Colour>, finish: map<Id, nat>, clock: nat, path: seq<Id>, tid: Id)
    requires Coherent(g, state, finish, clock, path) && Extends(path, g, tid) && tid !in state
    ensures Coherent(g, state[tid := Grey], finish, clock, path + [tid])
  {
    var below := path + [tid];
    assert below[|path|] == tid;
    assert forall id :: id in below <==> id in path || id == tid;
    assert Chain(g, below);
  }

  lemma Leave(g: Graph, state: map<Id, Colour>, finish: map<Id, nat>, clock: nat, path: seq<Id>, tid: Id)
    requires Coherent(g, state, finish, clock, path + [tid])
    requires forall d :: Edge(g, tid, d) ==> d in finish
    ensures Coherent(g, state[tid := Black], finish[tid := clock], clock + 1, path)
    ensures state[tid := Black].Keys == state.Keys
  {
    var below := path + [tid];
    assert below[|path|] == tid;
    assert path == below[..|path|];
    assert tid !in path;
    assert Chain(g, path) && Distinct(path);
    assert Finished(g, finish[tid := clock]);
  }

  /** Closing the path at a task already on it yields a cycle. */
  lemma MeetGrey(g: Graph, state: map<Id, Colour>, finish: map<Id, nat>, clock: nat, path: seq<Id>, tid: Id, k: nat)
    requires Coherent(g, state, finish, clock, path) && Extends(path, g, tid)
    requires k < |path| && path[k] == tid
    ensures Found(g, path[k..] + [tid])
  {
    var c := path[k..] + [tid];
    forall i, j | 0 <= i < |c| - 1 && j == i + 1 ensures Edge(g, c[i], c[j]) {
      assert c[i] == path[k + i];
      if j < |path| - k {
        assert c[j] == path[k + j];
      }
    }
    assert c[..|c| - 1] == path[k..];
  }

  /** The first position of an element of the path. */
  method IndexOf(path: seq<Id>, id: Id) returns (k: nat)
    requires id in path
    ensures k < |path| && path[k] == id && id !in path[..k]
  {
    k := 0;
    while path[k] != id
      invariant k < |path| && id !in path[..k]
      decreases |path| - k
    {
      k := k + 1;
    }
  }

  /** The search, over the state dictionary that every visit shares. */
  class Search {
    const graph: Graph
    var state: map<Id, Colour>
    ghost var finish: map<Id, nat>
    ghost var clock: nat

    constructor (g: Graph)
      ensures graph == g
      ensures Coherent(graph, state, finish, clock, [])
    {
      graph := g;
      state := map[];
      finish := map[];
      clock := 0;
    }

    /** Visits one task below the path of tasks being visited. */
    method Visit(tid: Id, path: seq<Id>) returns (cycle: Option<seq<Id>>)
      requires Coherent(graph, state, finish, clock, path) && Extends(path, graph, tid)
      modifies this`state, this`finish, this`clock
      ensures cycle.Some? ==> Found(graph, cycle.value)
      ensures cycle.None? ==> Coherent(graph, state, finish, clock, path) && tid in finish
      ensures cycle.None? ==> forall id :: id in old(finish) ==> id in finish
      ensures graph.Keys - state.Keys <= old(graph.Keys - state.Keys)
      decreases graph.Keys - state.Keys, 1
    {
      if tid in state {
        if state[tid] == Black {
          return None;
        }
        var k := IndexOf(path, tid);
        MeetGrey(graph, state, finish, clock, path, tid, k);
        return Some(path[k..] + [tid]);
      }
      Enter(graph, state, finish, clock, path, tid);
      assert tid in graph.Keys - state.Keys;
      state := state[tid := Grey];
      cycle := VisitAll(tid, path);
      if cycle.None? {
        Leave(graph, state, finish, clock, path, tid);
        state, finish, clock := state[tid := Black], finish[tid := clock], clock + 1;
      }
    }

    /** The loop over one task's dependencies. */
    method VisitAll(tid: Id, path: seq<Id>) returns (cycle: Option<seq<Id>>)
      requires Coherent(graph, state, finish, clock, path + [tid]) && tid in graph
      modifies this`state, this`finish, this`clock
      ensures cycle.Some? ==> Found(graph, cycle.value)
      ensures cycle.None? ==> Coherent(graph, state, finish, clock, path + [tid])
      ensures cycle.None? ==> forall d :: Edge(graph, tid, d) ==> d in finish
      ensures cycle.None? ==> forall id :: id in old(finish) ==> id in finish
      ensures graph.Keys - state.Keys <= old(graph.Keys - state.Keys)
      decreases graph.Keys - state.Keys, 2
    {
      var deps := graph[tid];
      var i := 0;
      while i < |deps|
        invariant 0 <= i <= |deps|
        invariant Coherent(graph, state, finish, clock, path + [tid])
        invariant forall id :: id in old(finish) ==> id in finish
        invariant graph.Keys - state.Keys <= old(graph.Keys - state.Keys)
        invariant forall j :: 0 <= j < i && deps[j] in graph ==> deps[j] in finish
      {
        if deps[i] in graph {
          assert Extends(path + [tid], graph, deps[i]);
          cycle := Visit(deps[i], path + [tid]);
          if cycle.Some? {
            return;
          }
        }
        i := i + 1;
      }
      cycle := None;
    }
  }

  /** TASKS-ACYCLIC: sound and complete for every finite task list. */
  method CheckAcyclic(tasks: seq<Task>) returns (cycle: Option<seq<Id>>)
    ensures cycle.None? <==> !HasCycle(ById(tasks))
    ensures cycle.Some? ==> Found(ById(tasks), cycle.value)
  {
    var search := new Search(ById(tasks));
    var i := 0;
    while i < |tasks|
      invariant 0 <= i <= |tasks|
      invariant search.graph == ById(tasks) && fresh(search)
      invariant Coherent(search.graph, search.state, search.finish, search.clock, [])
      invariant forall j :: 0 <= j < i ==> tasks[j].id in search.finish
    {
      ByIdLastRecord(tasks, i);
      cycle := search.Visit(tasks[i].id, []);
      if cycle.Some? {
        return;
      }
      i := i + 1;
    }
    ByIdOnlyRecords(tasks, search.finish.Keys);
    FinishedGraphIsAcyclic(search.graph, search.finish);
    cycle := None;
  }
}
