/** The graph runtime of src/m2harness/application/langgraph_main_harness.py: dispatch until no solve task is
    ready, then compose. The tool results are an arbitrary stream. */
module GraphRun {
  import opened Wrappers
  import opened Strings
  import opened Dag
  import opened DagValidator
  import opened Scheduler
  import opened SchedulerInvariants

  predicate SolveReady(s: State, i: nat)
    requires Aligned(s) && i < |s.tasks|
  {
    CanDispatch(s, i)
  }

  /** The first ready solve task in table order. */
  function NextSolve(s: State, from: nat): (r: Option<nat>)
    requires Aligned(s) && from <= |s.tasks|
    ensures r.Some? ==> from <= r.value < |s.tasks| && SolveReady(s, r.value)
    ensures r.Some? ==> forall i | from <= i < r.value :: !SolveReady(s, i)
    ensures r.None? ==> forall i | from <= i < |s.tasks| :: !SolveReady(s, i)
    decreases |s.tasks| - from
  {
    if from == |s.tasks| then None
    else if SolveReady(s, from) then Some(from)
    else NextSolve(s, from + 1)
  }

  datatype Route = ToDispatch | ToCompose | ToEnd

  predicate SolvesCompleted(s: State)
    requires Aligned(s)
  {
    forall i | 0 <= i < |s.tasks| :: s.dag.tasks[i].kind == SolveProblem ==> s.tasks[i].status == Completed
  }

  function RouteOf(s: State): Route
    requires Aligned(s)
  {
    if s.terminal then ToEnd
    else if NextSolve(s, 0).Some? then ToDispatch
    else if SolvesCompleted(s) then ToCompose
    else ToEnd
  }

  function Max(a: int, b: int): int {
    if a >= b then a else b
  }

  function RecursionLimit(dag: Table, maxIterations: nat): int {
    Max(32, |dag.tasks| * (maxIterations + 3) + 8)
  }

  // ---------- the measure: solve tasks still open ----------

  function OpenSolves(s: State): set<string>
    requires Aligned(s)
  {
    set i | 0 <= i < |s.tasks| && s.dag.tasks[i].kind == SolveProblem
            && (s.tasks[i].status == Ready || s.tasks[i].status == Blocked) :: s.tasks[i].taskId
  }

  function SolveIds(dag: Table): set<string> {
    set n | n in dag.tasks && n.kind == SolveProblem :: n.id
  }

  predicate Closes(solved: Solved) {
    solved.Reported? ==> solved.status != SolveBlocked
  }

  predicate Completes(solved: Solved) {
    solved.Reported? && solved.status == SolveCompleted
  }

  lemma OpenShrinks(s: State, t: State, i: nat)
    requires Aligned(s) && Aligned(t) && DistinctRecords(s.tasks) && i < |s.tasks| && t.dag == s.dag
    requires s.dag.tasks[i].kind == SolveProblem && s.tasks[i].status == Ready
    requires t.tasks[i].status == Completed || t.tasks[i].status == Failed
    requires forall k | 0 <= k < |s.tasks| && k != i ::
      t.tasks[k] == s.tasks[k] || (s.tasks[k].status == Blocked && t.tasks[k] == s.tasks[k].(status := Ready))
    ensures OpenSolves(t) == OpenSolves(s) - {s.tasks[i].taskId} && s.tasks[i].taskId in OpenSolves(s)
  {
    forall k | 0 <= k < |s.tasks|
      ensures t.tasks[k].taskId == s.tasks[k].taskId
      ensures t.tasks[k].taskId in OpenSolves(t) ==> s.tasks[k].taskId in OpenSolves(s) && k != i
    {
      if t.tasks[k].taskId in OpenSolves(t) {
        var j :| 0 <= j < |t.tasks| && t.dag.tasks[j].kind == SolveProblem
                 && (t.tasks[j].status == Ready || t.tasks[j].status == Blocked) && t.tasks[j].taskId == t.tasks[k].taskId;
        assert s.tasks[j].taskId == s.tasks[k].taskId;
      }
    }
    forall x | x in OpenSolves(s) && x != s.tasks[i].taskId ensures x in OpenSolves(t) {
      var k :| 0 <= k < |s.tasks| && s.dag.tasks[k].kind == SolveProblem
               && (s.tasks[k].status == Ready || s.tasks[k].status == Blocked) && s.tasks[k].taskId == x;
      assert t.tasks[k].taskId == x;
    }
  }

  /** A dispatch that does not come back BLOCKED closes exactly its own task. */
  lemma DispatchCloses(s: State, i: nat, solved: Solved)
    requires Inv(s) && i < |s.tasks| && CanDispatch(s, i) && Closes(solved)
    ensures Aligned(AfterSolve(s, i, solved))
    ensures OpenSolves(AfterSolve(s, i, solved)) == OpenSolves(s) - {s.tasks[i].taskId}
    ensures s.tasks[i].taskId in OpenSolves(s)
  {
    RecordsDistinct(s);
    DispatchedStatuses(s, i, solved);
    OpenShrinks(s, AfterSolve(s, i, solved), i);
  }

  lemma DispatchedStatuses(s: State, i: nat, solved: Solved)
    requires Aligned(s) && DistinctRecords(s.tasks) && i < |s.tasks| && Closes(solved)
    ensures var t := AfterSolve(s, i, solved);
      && Aligned(t) && t.dag == s.dag
      && (t.tasks[i].status == Completed || t.tasks[i].status == Failed)
      && (Completes(solved) ==> t.tasks[i].status == Completed)
      && forall k | 0 <= k < |s.tasks| && k != i ::
           t.tasks[k] == s.tasks[k] || (s.tasks[k].status == Blocked && t.tasks[k] == s.tasks[k].(status := Ready))
  {
  }

  // ---------- no deadlock ----------

  /** Every task but the publication terminal is a solve task. */
  ghost predicate OnlySolves(dag: Table) {
    forall n | n in dag.tasks :: n.id != dag.terminalTaskId ==> n.kind == SolveProblem
  }

  ghost predicate NoneFailed(s: State) {
    forall i | 0 <= i < |s.tasks| :: s.tasks[i].status != Failed
  }

  lemma NodeOf(nodes: seq<Node>, x: string) returns (k: nat)
    requires UniqueIds(nodes) && x in GraphOf(nodes)
    ensures k < |nodes| && nodes[k].id == x && GraphOf(nodes)[x] == nodes[k].dependsOn
  {
    GraphKeys(nodes, x);
    k :| 0 <= k < |nodes| && nodes[k].id == x;
    GraphAt(nodes, k);
  }

  ghost predicate Finished(s: State, x: string) {
    x in Done(s.tasks) || x == s.dag.terminalTaskId
  }

  /** The part of the invariant that keeps a run of solve tasks alive. */
  ghost predicate Awake(s: State) {
    && Aligned(s) && UniqueIds(s.dag.tasks) && OnlySolves(s.dag) && Settled(s) && NoLostWakeUp(s) && NoneFailed(s)
    && forall t | t in s.dag.tasks :: s.dag.terminalTaskId !in t.dependsOn
  }

  lemma DependenciesFinished(s: State, order: seq<string>, n: nat, i: nat)
    requires Awake(s) && IsTopological(GraphOf(s.dag.tasks), order) && n < |order|
    requires i < |s.tasks| && s.dag.tasks[i].id == order[n]
    requires forall k | 0 <= k < n :: Finished(s, order[k])
    ensures DepsDone(s.dag.tasks[i], Done(s.tasks))
  {
    GraphAt(s.dag.tasks, i);
    assert Before(GraphOf(s.dag.tasks), order, n);
    assert s.dag.tasks[i] in s.dag.tasks;
    forall d | d in s.dag.tasks[i].dependsOn ensures d in Done(s.tasks) {
      var k :| 0 <= k < n && order[..n][k] == d;
      assert Finished(s, order[k]);
    }
  }

  lemma EarliestIsReady(s: State, order: seq<string>, n: nat) returns (i: nat)
    requires Awake(s) && IsTopological(GraphOf(s.dag.tasks), order) && n < |order|
    requires forall k | 0 <= k < n :: Finished(s, order[k])
    requires !Finished(s, order[n])
    ensures i < |s.tasks| && SolveReady(s, i)
  {
    assert order[n] in Elements(order);
    i := NodeOf(s.dag.tasks, order[n]);
    DependenciesFinished(s, order, n, i);
    assert s.dag.tasks[i] in s.dag.tasks;
    RecordsDistinct(s);
    DoneAt(s.tasks, i);
  }

  /** The earliest unfinished solve task of a topological order can run. */
  lemma {:induction false} SomeSolveIsReady(s: State, order: seq<string>, n: nat, last: nat) returns (i: nat)
    requires Awake(s) && IsTopological(GraphOf(s.dag.tasks), order) && n <= last < |order|
    requires forall k | 0 <= k < n :: Finished(s, order[k])
    requires !Finished(s, order[last])
    ensures i < |s.tasks| && SolveReady(s, i)
    decreases last - n
  {
    if Finished(s, order[n]) {
      i := SomeSolveIsReady(s, order, n + 1, last);
    } else {
      i := EarliestIsReady(s, order, n);
    }
  }

  lemma NoSolveReadyMeansCompleted(s: State)
    requires Inv(s) && OnlySolves(s.dag) && NoneFailed(s) && !s.terminal && NextSolve(s, 0).None?
    ensures SolvesCompleted(s)
  {
    var order :| IsTopological(GraphOf(s.dag.tasks), order);
    forall k | 0 <= k < |s.tasks| && s.dag.tasks[k].kind == SolveProblem ensures s.tasks[k].status == Completed {
      GraphAt(s.dag.tasks, k);
      RecordsDistinct(s);
      DoneAt(s.tasks, k);
      assert s.dag.tasks[k].id in Elements(order);
      var j :| 0 <= j < |order| && order[j] == s.dag.tasks[k].id;
      var end := TerminalPosition(s);
      if s.tasks[k].status != Completed {
        var i := SomeSolveIsReady(s, order, 0, j);
      }
    }
  }

  // ---------- the run ----------

  /** The solve tasks dispatched so far, when every result completes: no repetition, dependencies first. */
  ghost predicate DispatchOrder(s: State, dispatched: seq<string>)
    requires Aligned(s)
  {
    && Distinct(dispatched) && Elements(dispatched) == Done(s.tasks) && NoneFailed(s)
    && s.dag.terminalTaskId !in dispatched
    && forall k | 0 <= k < |dispatched| :: Before(GraphOf(s.dag.tasks), dispatched, k)
  }

  lemma StartOrder(dag: Table)
    requires ValidTable(dag)
    ensures Inv(Start(dag)) && DispatchOrder(Start(dag), [])
  {
    StartKeepsInv(dag);
    var s := Start(dag);
    forall r | r in s.tasks ensures r.status != Completed {
      var i :| 0 <= i < |s.tasks| && s.tasks[i] == r;
    }
  }

  lemma LongerOrder(g: Graph, placed: seq<string>, id: string)
    requires forall k | 0 <= k < |placed| :: Before(g, placed, k)
    requires id in g && forall d | d in g[id] :: d in placed
    ensures forall k | 0 <= k < |placed + [id]| :: Before(g, placed + [id], k)
  {
    var longer := placed + [id];
    forall k | 0 <= k < |longer| ensures Before(g, longer, k) {
      if k < |placed| {
        assert Before(g, placed, k);
        assert longer[..k] == placed[..k];
      } else {
        assert longer[..k] == placed;
      }
    }
  }

  lemma DispatchExtendsOrder(s: State, i: nat, solved: Solved, dispatched: seq<string>)
    requires Inv(s) && i < |s.tasks| && CanDispatch(s, i) && Completes(solved) && DispatchOrder(s, dispatched)
    ensures Aligned(AfterSolve(s, i, solved))
    ensures DispatchOrder(AfterSolve(s, i, solved), dispatched + [s.tasks[i].taskId])
  {
    var t, id := AfterSolve(s, i, solved), s.tasks[i].taskId;
    RecordsDistinct(s);
    DoneAt(s.tasks, i);
    DispatchedStatuses(s, i, solved);
    DispatchTarget(s, i);
    AfterSolveInv(s, i, solved);
    assert id !in Elements(dispatched);
    assert Elements(dispatched + [id]) == Elements(dispatched) + {id};
    DependenciesPlaced(s, i, dispatched);
    LongerOrder(GraphOf(s.dag.tasks), dispatched, id);
  }

  lemma DependenciesPlaced(s: State, i: nat, dispatched: seq<string>)
    requires Aligned(s) && UniqueIds(s.dag.tasks) && i < |s.tasks| && CanDispatch(s, i)
    requires Elements(dispatched) == Done(s.tasks)
    ensures s.tasks[i].taskId in GraphOf(s.dag.tasks)
    ensures forall d | d in GraphOf(s.dag.tasks)[s.tasks[i].taskId] :: d in dispatched
  {
    GraphAt(s.dag.tasks, i);
    forall d | d in s.dag.tasks[i].dependsOn ensures d in dispatched {
      assert d in Elements(dispatched);
    }
  }

  lemma AfterSolveInv(s: State, i: nat, solved: Solved)
    requires Inv(s) && i < |s.tasks| && CanDispatch(s, i)
    ensures var t := AfterSolve(s, i, solved);
      Inv(t) && t.dag == s.dag && Done(t.tasks) == Done(s.tasks) + (if Completes(solved) then {s.tasks[i].taskId} else {})
  {
    var p := NodeIndex(s.dag.tasks, s.dag.tasks[i].id);
    assert p.Some?;
    assert s.dag.tasks[p.value].id == s.dag.tasks[i].id;
    assert p.value == i;
    DispatchKeepsInv(s, s.dag.tasks[i].id, solved);
  }

  /** With all solve tasks completed and nothing else in the table, publication succeeds and ends the run. */
  lemma ComposeEndsRun(s: State, dispatched: seq<string>, report: string, paper: string)
    requires Inv(s) && OnlySolves(s.dag) && SolvesCompleted(s) && !s.terminal && DispatchOrder(s, dispatched)
    ensures var r := Publish(s, report, paper, true);
      && r.Ok? && r.value.terminal && AllCompleted(r.value)
      && IsTopological(GraphOf(s.dag.tasks), dispatched + [s.dag.terminalTaskId])
  {
    var end := TerminalPosition(s);
    RecordsDistinct(s);
    forall k | 0 <= k < |s.tasks| && k != end ensures s.tasks[k].status == Completed && s.dag.tasks[k].id in Done(s.tasks) {
      assert s.dag.tasks[k].id != s.dag.tasks[end].id;
      assert s.dag.tasks[k] in s.dag.tasks;
      DoneAt(s.tasks, k);
    }
    var node := s.dag.tasks[end];
    forall d | d in node.dependsOn ensures d in Done(s.tasks) {
      assert NodeIsLocal(Ids(s.dag.tasks), node);
      assert d in Elements(node.dependsOn);
      var n :| n in s.dag.tasks && n.id == d;
      var k :| 0 <= k < |s.dag.tasks| && s.dag.tasks[k] == n;
    }
    PublishedTasks(s, report, paper, true);
    OrderIsComplete(s, dispatched, end);
  }

  lemma OrderIsComplete(s: State, dispatched: seq<string>, end: nat)
    requires Aligned(s) && UniqueIds(s.dag.tasks) && DispatchOrder(s, dispatched)
    requires end < |s.tasks| && s.dag.tasks[end].id == s.dag.terminalTaskId && DepsDone(s.dag.tasks[end], Done(s.tasks))
    requires forall k | 0 <= k < |s.tasks| && k != end :: s.dag.tasks[k].id in Done(s.tasks)
    ensures IsTopological(GraphOf(s.dag.tasks), dispatched + [s.dag.terminalTaskId])
  {
    var g := GraphOf(s.dag.tasks);
    var order := dispatched + [s.dag.terminalTaskId];
    GraphAt(s.dag.tasks, end);
    forall x ensures x in Elements(order) <==> x in g.Keys {
      GraphKeys(s.dag.tasks, x);
      if x in Elements(order) && x != s.dag.terminalTaskId {
        assert x in Elements(dispatched);
        var r :| r in s.tasks && r.taskId == x;
        var k :| 0 <= k < |s.tasks| && s.tasks[k] == r;
        assert s.dag.tasks[k].id == x;
      }
      if x in g.Keys && x != s.dag.terminalTaskId {
        var k :| 0 <= k < |s.dag.tasks| && s.dag.tasks[k].id == x;
        assert x in Elements(dispatched);
      }
    }
    forall d | d in g[s.dag.terminalTaskId] ensures d in dispatched {
      assert d in Elements(dispatched);
    }
    LongerOrder(g, dispatched, s.dag.terminalTaskId);
  }

  lemma OpenAtStart(dag: Table)
    requires ValidTable(dag)
    ensures OpenSolves(Start(dag)) <= SolveIds(dag)
  {
    var s := Start(dag);
    forall x | x in OpenSolves(s) ensures x in SolveIds(dag) {
      var i :| 0 <= i < |s.tasks| && s.dag.tasks[i].kind == SolveProblem && s.tasks[i].taskId == x;
      assert dag.tasks[i] in dag.tasks;
    }
  }

  lemma {:induction false} AtMostAllTasks(tasks: seq<Node>)
    ensures |set n | n in tasks && n.kind == SolveProblem :: n.id| <= |tasks|
    decreases |tasks|
  {
    if tasks == [] {
      assert (set n | n in tasks && n.kind == SolveProblem :: n.id) == {};
    } else {
      var before, last := tasks[..|tasks| - 1], tasks[|tasks| - 1];
      AtMostAllTasks(before);
      var small := set n | n in before && n.kind == SolveProblem :: n.id;
      var all := set n | n in tasks && n.kind == SolveProblem :: n.id;
      assert tasks == before + [last];
      assert all <= small + {last.id};
      SubsetSize(all, small + {last.id});
    }
  }

  // ---------- the states a run goes through ----------

  /** A dispatch step: the first ready solve task, if there is one. */
  function Dispatched(s: State, solved: Solved): (t: State)
    requires Aligned(s)
    ensures Aligned(t)
  {
    match NextSolve(s, 0)
    case None => s
    case Some(i) => AfterSolve(s, i, solved)
  }

  /** The state after `n` dispatch steps; `solve(k)` is the result of the k-th. */
  function RoundState(dag: Table, solve: nat -> Solved, n: nat): (s: State)
    ensures Aligned(s)
  {
    if n == 0 then Start(dag) else Dispatched(RoundState(dag, solve, n - 1), solve(n - 1))
  }

  /** Where the graph goes after each dispatch step. */
  ghost function Routes(dag: Table, solve: nat -> Solved): nat -> Route {
    (n: nat) => RouteOf(RoundState(dag, solve, n))
  }

  /** The first step is always taken; each further one because the route said so. */
  ghost predicate Reaches(routes: nat -> Route, n: nat) {
    forall k: nat | 1 <= k < n :: routes(k) == ToDispatch
  }

  /** After `n` dispatch steps the route leads away from dispatching for the first time. */
  ghost predicate EndsAt(routes: nat -> Route, n: nat) {
    n >= 1 && Reaches(routes, n) && routes(n) != ToDispatch
  }

  /** The steps of a run that ends there, the composition included. */
  ghost function Steps(routes: nat -> Route, n: nat): nat {
    n + if routes(n) == ToCompose then 1 else 0
  }

  /** The run ends by itself within `limit` steps. */
  ghost predicate Fits(routes: nat -> Route, limit: nat) {
    exists n: nat :: EndsAt(routes, n) && Steps(routes, n) <= limit
  }

  /** Whether a run fits is decided where it ends, if it ends, and by the limit otherwise. */
  lemma FitsWhereItEnds(routes: nat -> Route, n: nat, limit: nat)
    requires EndsAt(routes, n)
    ensures Fits(routes, limit) <==> Steps(routes, n) <= limit
  {
    forall m: nat | EndsAt(routes, m) ensures m == n {
    }
  }

  lemma StillGoingDoesNotFit(routes: nat -> Route, limit: nat)
    requires limit >= 1 && Reaches(routes, limit) && routes(limit) == ToDispatch
    ensures !Fits(routes, limit)
  {
  }

  /** One round of the graph: a dispatch step. */
  method DispatchStep(s: State, solved: Solved, ghost dispatched: seq<string>)
    returns (t: State, ghost longer: seq<string>)
    requires Inv(s)
    ensures Inv(t) && t.dag == s.dag
    ensures t == Dispatched(s, solved)
    ensures Closes(solved) && NextSolve(s, 0).Some? ==> |OpenSolves(t)| == |OpenSolves(s)| - 1
    ensures Completes(solved) && DispatchOrder(s, dispatched) ==> DispatchOrder(t, longer)
    ensures s.terminal <==> t.terminal
  {
    var next := NextSolve(s, 0);
    if next.None? {
      return s, dispatched;
    }
    AfterSolveInv(s, next.value, solved);
    if Closes(solved) {
      DispatchCloses(s, next.value, solved);
    }
    if Completes(solved) && DispatchOrder(s, dispatched) {
      DispatchExtendsOrder(s, next.value, solved, dispatched);
    }
    t := AfterSolve(s, next.value, solved);
    longer := dispatched + [s.tasks[next.value].taskId];
  }

  ghost predicate AllClose(solve: nat -> Solved) {
    forall k: nat :: Closes(solve(k))
  }

  ghost predicate AllComplete(solve: nat -> Solved) {
    forall k: nat :: Completes(solve(k))
  }

  /** Where a run stands after `steps` steps, if all results close their task, or even complete it. */
  ghost predicate Going(dag: Table, solve: nat -> Solved, s: State, steps: nat, dispatched: seq<string>) {
    && Inv(s) && s.dag == dag && !s.terminal
    && (AllClose(solve) ==> steps + |OpenSolves(s)| <= |SolveIds(dag)| + 1)
    && (AllComplete(solve) ==> DispatchOrder(s, dispatched))
  }

  /** The states of a run so far. */
  ghost predicate IsPath(dag: Table, solve: nat -> Solved, path: seq<State>) {
    path != [] && path[0] == Start(dag) && forall k: nat | 1 <= k < |path| :: PathStep(solve, path, k)
  }

  ghost predicate PathStep(solve: nat -> Solved, path: seq<State>, k: nat)
    requires 1 <= k < |path|
  {
    && Aligned(path[k - 1]) && path[k] == Dispatched(path[k - 1], solve(k - 1))
    && (k < |path| - 1 ==> RouteOf(path[k]) == ToDispatch)
  }

  /** A path that leads to `s` in `steps` steps. */
  ghost predicate LeadsTo(dag: Table, solve: nat -> Solved, path: seq<State>, s: State, steps: nat) {
    IsPath(dag, solve, path) && |path| == steps + 1 && path[steps] == s
  }

  lemma LongerPath(dag: Table, solve: nat -> Solved, path: seq<State>, s: State, steps: nat, t: State)
    requires LeadsTo(dag, solve, path, s, steps)
    requires Aligned(s) && t == Dispatched(s, solve(steps)) && (steps >= 1 ==> RouteOf(s) == ToDispatch)
    ensures LeadsTo(dag, solve, path + [t], t, steps + 1)
  {
    var longer := path + [t];
    forall k: nat | 1 <= k < |longer| ensures PathStep(solve, longer, k) {
      if k < |path| { assert PathStep(solve, path, k); }
    }
  }

  lemma {:induction false} PathState(dag: Table, solve: nat -> Solved, path: seq<State>, n: nat)
    requires IsPath(dag, solve, path) && n < |path|
    ensures path[n] == RoundState(dag, solve, n)
  {
    if n > 0 {
      PathState(dag, solve, path, n - 1);
      assert PathStep(solve, path, n);
      NextRound(dag, solve, n);
    }
  }

  lemma NextRound(dag: Table, solve: nat -> Solved, n: nat)
    requires n >= 1
    ensures RoundState(dag, solve, n) == Dispatched(RoundState(dag, solve, n - 1), solve(n - 1))
  {
  }

  lemma PathIsRun(dag: Table, solve: nat -> Solved, path: seq<State>, n: nat)
    requires IsPath(dag, solve, path) && n < |path|
    ensures path[n] == RoundState(dag, solve, n) && Reaches(Routes(dag, solve), n)
  {
    PathState(dag, solve, path, n);
    forall k: nat | 1 <= k < n ensures Routes(dag, solve)(k) == ToDispatch {
      PathState(dag, solve, path, k);
      assert PathStep(solve, path, k);
    }
  }

  /** The first dispatch, right after the start. */
  method FirstRound(dag: Table, solve: nat -> Solved)
    returns (s: State, ghost dispatched: seq<string>, ghost path: seq<State>)
    requires ValidTable(dag)
    ensures Going(dag, solve, s, 1, dispatched) && LeadsTo(dag, solve, path, s, 1)
  {
    StartOrder(dag);
    OpenAtStart(dag);
    SubsetSize(OpenSolves(Start(dag)), SolveIds(dag));
    s, dispatched := DispatchStep(Start(dag), solve(0), []);
    LongerPath(dag, solve, [Start(dag)], Start(dag), 0, s);
    path := [Start(dag)] + [s];
  }

  method Round(s: State, steps: nat, solve: nat -> Solved, ghost dag: Table, ghost dispatched: seq<string>,
               ghost path: seq<State>) returns (t: State, ghost longer: seq<string>, ghost longerPath: seq<State>)
    requires Going(dag, solve, s, steps, dispatched) && steps >= 1 && RouteOf(s) == ToDispatch
    requires LeadsTo(dag, solve, path, s, steps)
    ensures Going(dag, solve, t, steps + 1, longer) && LeadsTo(dag, solve, longerPath, t, steps + 1)
  {
    t, longer := DispatchStep(s, solve(steps), dispatched);
    LongerPath(dag, solve, path, s, steps, t);
    longerPath := path + [t];
  }

  /** Start, and dispatch rounds while the route says so and the recursion limit allows. `solve(k)` is the result of
      the k-th dispatch. */
  method DispatchAll(dag: Table, limit: nat, solve: nat -> Solved)
    returns (s: State, steps: nat, ghost dispatched: seq<string>, ghost path: seq<State>)
    requires ValidTable(dag) && limit >= 1
    ensures Going(dag, solve, s, steps, dispatched) && LeadsTo(dag, solve, path, s, steps) && 1 <= steps <= limit
    ensures RouteOf(s) == ToDispatch ==> steps == limit
  {
    s, dispatched, path := FirstRound(dag, solve);
    steps := 1;
    while RouteOf(s) == ToDispatch && steps < limit
      invariant Going(dag, solve, s, steps, dispatched) && LeadsTo(dag, solve, path, s, steps) && 1 <= steps <= limit
      decreases limit - steps
    {
      s, dispatched, path := Round(s, steps, solve, dag, dispatched, path);
      steps := steps + 1;
    }
  }

  /** Published, with every task COMPLETED. */
  ghost predicate IsPublished(s: State, report: string, paper: string) {
    && s.terminal && s.finalReport == Some(report) && s.finalPaper == Some(paper)
    && forall i | 0 <= i < |s.tasks| :: s.tasks[i].status == Completed
  }

  /** Some solve task is not COMPLETED, and none can be dispatched. */
  ghost predicate IsStuck(s: State)
    requires Aligned(s)
  {
    && !s.terminal
    && (exists i :: 0 <= i < |s.tasks| && s.dag.tasks[i].kind == SolveProblem && s.tasks[i].status != Completed)
    && forall i | 0 <= i < |s.tasks| && s.dag.tasks[i].kind == SolveProblem :: !IsReady(s, i)
  }

  lemma PublishedAll(s: State, report: string, paper: string, valid: bool)
    requires Inv(s) && Publish(s, report, paper, valid).Ok?
    ensures var t := Publish(s, report, paper, valid).value; Inv(t) && valid && IsPublished(t, report, paper)
  {
    PublishKeepsInv(s, report, paper, valid);
    FinishedThreeWays(Publish(s, report, paper, valid).value);
  }

  lemma StoppedStuck(s: State)
    requires Aligned(s) && !s.terminal && RouteOf(s) == ToEnd
    ensures IsStuck(s)
  {
    assert !SolvesCompleted(s);
    var k :| 0 <= k < |s.tasks| && s.dag.tasks[k].kind == SolveProblem && s.tasks[k].status != Completed;
    forall i | 0 <= i < |s.tasks| && s.dag.tasks[i].kind == SolveProblem ensures !IsReady(s, i) {
      assert !SolveReady(s, i);
    }
  }

  /** The dispatch rounds, and what they leave of the limit. */
  method RunRounds(dag: Table, limit: nat, solve: nat -> Solved)
    returns (s: State, steps: nat, ghost dispatched: seq<string>)
    requires ValidTable(dag) && limit >= 1
    ensures Going(dag, solve, s, steps, dispatched) && 1 <= steps <= limit
    ensures RouteOf(s) == ToDispatch ==> steps == limit && !Fits(Routes(dag, solve), limit)
    ensures RouteOf(s) != ToDispatch ==> (Fits(Routes(dag, solve), limit) <==> steps < limit || RouteOf(s) == ToEnd)
  {
    ghost var path;
    s, steps, dispatched, path := DispatchAll(dag, limit, solve);
    PathIsRun(dag, solve, path, steps);
    assert RouteOf(s) == Routes(dag, solve)(steps);
    if RouteOf(s) == ToDispatch {
      StillGoingDoesNotFit(Routes(dag, solve), limit);
    } else {
      FitsWhereItEnds(Routes(dag, solve), steps, limit);
    }
  }

  /** `run`: the dispatch rounds, then compose. `valid` is the outcome of the publication check. */
  method Run(dag: Table, maxIterations: nat, solve: nat -> Solved, report: string, paper: string, valid: bool)
    returns (r: Result<State>, steps: nat, ghost dispatched: seq<string>)
    requires ValidTable(dag)
    ensures AllClose(solve) ==> steps <= |SolveIds(dag)| + 2 <= RecursionLimit(dag, maxIterations)
    ensures AllComplete(solve) && OnlySolves(dag) && valid ==>
      && r.Ok? && r.value.terminal && AllCompleted(r.value)
      && IsTopological(GraphOf(dag.tasks), dispatched + [dag.terminalTaskId])
    ensures r.Ok? ==> Inv(r.value) && (IsStuck(r.value) || (valid && IsPublished(r.value, report, paper)))
    ensures steps <= RecursionLimit(dag, maxIterations)
    ensures r == Err(Conflict) <==> !Fits(Routes(dag, solve), RecursionLimit(dag, maxIterations))
  {
    var limit := RecursionLimit(dag, maxIterations);
    LimitIsEnough(dag, maxIterations);
    var s;
    s, steps, dispatched := RunRounds(dag, limit, solve);
    if RouteOf(s) == ToDispatch {
      StillOpen(s);
      return Err(Conflict), steps, dispatched;
    }
    if AllComplete(solve) && OnlySolves(dag) {
      NoSolveReadyMeansCompleted(s);
      ComposeEndsRun(s, dispatched, report, paper);
    }
    if RouteOf(s) == ToCompose {
      if steps == limit {
        return Err(Conflict), steps, dispatched;
      }
      steps := steps + 1;
      var published := Publish(s, report, paper, valid);
      if published.Ok? {
        PublishedAll(s, report, paper, valid);
      }
      return published, steps, dispatched;
    }
    StoppedStuck(s);
    return Ok(s), steps, dispatched;
  }

  /** The limit is the larger of 32 and the tasks times the iterations and three, plus eight. */
  lemma LimitIsEnough(dag: Table, maxIterations: nat)
    requires ValidTable(dag)
    ensures |SolveIds(dag)| + 3 <= RecursionLimit(dag, maxIterations)
    ensures var perTask := |dag.tasks| * (maxIterations + 3) + 8;
      RecursionLimit(dag, maxIterations) == if perTask > 32 then perTask else 32
  {
    AtMostAllTasks(dag.tasks);
    assert |dag.tasks| * (maxIterations + 3) >= |dag.tasks|;
  }

  lemma StillOpen(s: State)
    requires Aligned(s) && NextSolve(s, 0).Some?
    ensures |OpenSolves(s)| >= 1
  {
    assert s.tasks[NextSolve(s, 0).value].taskId in OpenSolves(s);
  }
}
