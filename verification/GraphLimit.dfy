/** BLOCKED results and the recursion limit of src/m2harness/application/langgraph_main_harness.py: a BLOCKED task is
    ready again at once, so only BLOCKED results can exhaust the limit, and a tail of them always does. */
module GraphLimit {
  import opened Dag
  import opened DagValidator
  import opened Scheduler
  import opened SchedulerInvariants
  import opened GraphRun

  /** The BLOCKED results among the first `n`. */
  function Blockings(solve: nat -> Solved, n: nat): nat {
    if n == 0 then 0 else Blockings(solve, n - 1) + if Closes(solve(n - 1)) then 0 else 1
  }

  lemma OpenStays(s: State, t: State, i: nat)
    requires Aligned(s) && Aligned(t) && t.dag == s.dag && i < |s.tasks| && CanDispatch(s, i)
    requires forall k | 0 <= k < |s.tasks| && k != i ::
      t.tasks[k] == s.tasks[k] || (s.tasks[k].status == Blocked && t.tasks[k] == s.tasks[k].(status := Ready))
    ensures OpenSolves(t) <= OpenSolves(s)
  {
    forall x | x in OpenSolves(t) ensures x in OpenSolves(s) {
      var k :| 0 <= k < |t.tasks| && t.dag.tasks[k].kind == SolveProblem
               && (t.tasks[k].status == Ready || t.tasks[k].status == Blocked) && t.tasks[k].taskId == x;
      assert s.tasks[k].taskId == x;
    }
  }

  lemma BlockedRecords(s: State, i: nat, solved: Solved)
    requires Inv(s) && i < |s.tasks| && CanDispatch(s, i) && !Closes(solved)
    ensures var t := AfterSolve(s, i, solved);
      && Aligned(t) && t.dag == s.dag && t.terminal == s.terminal && t.tasks[i].status == Ready
      && forall k | 0 <= k < |s.tasks| && k != i ::
           t.tasks[k] == s.tasks[k] || (s.tasks[k].status == Blocked && t.tasks[k] == s.tasks[k].(status := Ready))
  {
    RecordsDistinct(s);
    DoneReplace(s.tasks, i, SolvedRecord(s.tasks[i], solved));
  }

  /** A BLOCKED result opens no solve task and leaves the dispatched one ready. */
  lemma BlockedKeepsOpen(s: State, i: nat, solved: Solved)
    requires Inv(s) && i < |s.tasks| && CanDispatch(s, i) && !Closes(solved)
    ensures var t := AfterSolve(s, i, solved);
      && Inv(t) && t.dag == s.dag && t.terminal == s.terminal
      && OpenSolves(t) <= OpenSolves(s) && CanDispatch(t, i)
  {
    AfterSolveInv(s, i, solved);
    BlockedRecords(s, i, solved);
    OpenStays(s, AfterSolve(s, i, solved), i);
  }

  lemma ReadyIsFound(s: State, i: nat)
    requires Aligned(s) && i < |s.tasks| && CanDispatch(s, i)
    ensures NextSolve(s, 0).Some?
  {
    assert SolveReady(s, i);
  }

  /** One round: the open solve tasks shrink by one, or the result was BLOCKED. */
  lemma RoundOpens(s: State, solved: Solved)
    requires Inv(s) && !s.terminal && NextSolve(s, 0).Some?
    ensures var t := Dispatched(s, solved);
      && Inv(t) && t.dag == s.dag && !t.terminal
      && |OpenSolves(t)| + (if Closes(solved) then 1 else 0) <= |OpenSolves(s)|
      && (!Closes(solved) ==> NextSolve(t, 0).Some?)
  {
    var i := NextSolve(s, 0).value;
    if Closes(solved) {
      AfterSolveInv(s, i, solved);
      DispatchCloses(s, i, solved);
    } else {
      BlockedKeepsOpen(s, i, solved);
      SubsetSize(OpenSolves(AfterSolve(s, i, solved)), OpenSolves(s));
      ReadyIsFound(AfterSolve(s, i, solved), i);
    }
  }

  /** A state reached by `n` rounds, `blocked` of which came back BLOCKED. */
  ghost predicate StandsAt(dag: Table, s: State, n: nat, blocked: nat) {
    && Inv(s) && s.dag == dag && !s.terminal
    && n + |OpenSolves(s)| <= |SolveIds(dag)| + blocked + if n == 0 then 0 else 1
  }

  lemma NextStandsAt(dag: Table, s: State, t: State, k: nat, n: nat, blocked: nat, more: nat, solved: Solved)
    requires StandsAt(dag, s, k, blocked) && RouteOf(s) == ToDispatch
    requires n == k + 1 && t == Dispatched(s, solved) && more == blocked + if Closes(solved) then 0 else 1
    ensures StandsAt(dag, t, n, more) && (!Closes(solved) ==> RouteOf(t) == ToDispatch)
  {
    RoundOpens(s, solved);
  }

  /** Where a run stands after `n` rounds. */
  ghost predicate Standing(dag: Table, solve: nat -> Solved, n: nat) {
    StandsAt(dag, RoundState(dag, solve, n), n, Blockings(solve, n))
  }

  lemma FirstStanding(dag: Table, solve: nat -> Solved)
    requires ValidTable(dag)
    ensures Standing(dag, solve, 0) && Standing(dag, solve, 1)
  {
    StartOrder(dag);
    OpenAtStart(dag);
    SubsetSize(OpenSolves(Start(dag)), SolveIds(dag));
    if NextSolve(Start(dag), 0).Some? {
      RoundOpens(Start(dag), solve(0));
    }
    NextRound(dag, solve, 1);
  }

  lemma OneRound(dag: Table, solve: nat -> Solved, k: nat, n: nat)
    requires n == k + 1
    ensures RoundState(dag, solve, n) == Dispatched(RoundState(dag, solve, k), solve(k))
    ensures Blockings(solve, n) == Blockings(solve, k) + if Closes(solve(k)) then 0 else 1
  {
    NextRound(dag, solve, n);
  }

  lemma NextStanding(dag: Table, solve: nat -> Solved, k: nat, n: nat)
    requires n == k + 1 && Standing(dag, solve, k) && Routes(dag, solve)(k) == ToDispatch
    ensures Standing(dag, solve, n)
    ensures !Closes(solve(k)) ==> Routes(dag, solve)(n) == ToDispatch
  {
    OneRound(dag, solve, k, n);
    NextStandsAt(dag, RoundState(dag, solve, k), RoundState(dag, solve, n), k, n,
                 Blockings(solve, k), Blockings(solve, n), solve(k));
  }

  lemma {:induction false} ByRounds(holds: nat -> bool, m: nat, n: nat)
    requires m <= n && holds(m) && forall k: nat, l: nat | m <= k < n && l == k + 1 && holds(k) :: holds(l)
    ensures holds(n)
  {
    if m < n {
      ByRounds(holds, m, n - 1);
    }
  }

  lemma RunStanding(dag: Table, solve: nat -> Solved, n: nat)
    requires ValidTable(dag) && Reaches(Routes(dag, solve), n)
    ensures Standing(dag, solve, n)
  {
    FirstStanding(dag, solve);
    if n >= 1 {
      var holds := (k: nat) => Standing(dag, solve, k);
      forall k: nat, l: nat | 1 <= k < n && l == k + 1 && holds(k) ensures holds(l) {
        NextStanding(dag, solve, k, l);
      }
      ByRounds(holds, 1, n);
    }
  }

  lemma {:induction false} FitsOrReaches(routes: nat -> Route, n: nat, limit: nat)
    requires n <= limit
    ensures Reaches(routes, n) || Fits(routes, limit)
  {
    if n > 0 {
      FitsOrReaches(routes, n - 1, limit);
      if Reaches(routes, n - 1) && !Reaches(routes, n) {
        FitsWhereItEnds(routes, n - 1, limit);
      }
    }
  }

  /** Only BLOCKED results exhaust the limit: all but |solve tasks| + 1 of its steps went to them. */
  lemma LimitNeedsBlocked(dag: Table, solve: nat -> Solved, limit: nat)
    requires ValidTable(dag) && !Fits(Routes(dag, solve), limit)
    ensures limit <= |SolveIds(dag)| + Blockings(solve, limit) + 1
  {
    FitsOrReaches(Routes(dag, solve), limit, limit);
    RunStanding(dag, solve, limit);
  }

  /** A BLOCKED result is followed by another dispatch. */
  lemma BlockedGoesOn(dag: Table, solve: nat -> Solved, k: nat, n: nat)
    requires ValidTable(dag) && n == k + 1 && Reaches(Routes(dag, solve), k) && Routes(dag, solve)(k) == ToDispatch
    requires !Closes(solve(k))
    ensures Routes(dag, solve)(n) == ToDispatch
  {
    RunStanding(dag, solve, k);
    NextStanding(dag, solve, k, n);
  }

  lemma NeverEnds(routes: nat -> Route, m: nat, limit: nat)
    requires Reaches(routes, m) && routes(m) == ToDispatch
    requires forall k: nat, n: nat | m <= k && n == k + 1 && Reaches(routes, k) && routes(k) == ToDispatch ::
      routes(n) == ToDispatch
    ensures !Fits(routes, limit)
  {
    forall n: nat | n > m && Reaches(routes, n) ensures routes(n) == ToDispatch {
      assert Reaches(routes, n - 1) && routes(n - 1) == ToDispatch;
    }
  }

  /** A run whose results are BLOCKED from some round on, with a task ready there, fits in no limit. */
  lemma BlockedExhaustsEveryLimit(dag: Table, solve: nat -> Solved, m: nat, limit: nat)
    requires ValidTable(dag) && Reaches(Routes(dag, solve), m) && Routes(dag, solve)(m) == ToDispatch
    requires forall k: nat | k >= m :: !Closes(solve(k))
    ensures !Fits(Routes(dag, solve), limit)
  {
    var routes := Routes(dag, solve);
    forall k: nat, n: nat | m <= k && n == k + 1 && Reaches(routes, k) && routes(k) == ToDispatch
      ensures routes(n) == ToDispatch
    {
      BlockedGoesOn(dag, solve, k, n);
    }
    NeverEnds(routes, m, limit);
  }
}
