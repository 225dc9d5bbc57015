/** When does READY mean "dependencies COMPLETED" all along a run? Exactly when every rollback is of a task whose own
    dependencies are COMPLETED. */
module SchedulerReadiness {
  import opened Dag
  import opened DagValidator
  import opened Scheduler
  import opened SchedulerInvariants
  import opened SchedulerExamples

  /** A rollback that takes effect is of a task whose dependencies are COMPLETED. */
  ghost predicate RollsBackReady(s: State, op: Op)
    requires Aligned(s)
  {
    op.OpRollback? && Rollback(s, op.root, op.rollbackReason).Ok? ==>
      DepsDone(s.dag.tasks[NodeIndex(s.dag.tasks, op.root).value], Done(s.tasks))
  }

  lemma StartReadiness(dag: Table)
    ensures Aligned(Start(dag)) && ReadyMeansDone(Start(dag))
  {
  }

  /** After a dispatch: READY before, or unlocked by it. */
  lemma DispatchReadiness(s: State, id: string, solved: Solved)
    requires Inv(s) && ReadyMeansDone(s) && Dispatch(s, id, solved).Ok?
    ensures Aligned(Dispatch(s, id, solved).value) && ReadyMeansDone(Dispatch(s, id, solved).value)
  {
    var i := DispatchIsAfterSolve(s, id, solved);
    AfterSolveKeepsInv(s, i, solved);
    var t, r := AfterSolve(s, i, solved), SolvedRecord(s.tasks[i], solved);
    SolvedRecordOutcome(s.tasks[i], solved);
    var replaced := Replace(s.tasks, r);
    DoneUnlock(s.dag, replaced);
    forall k | 0 <= k < |t.tasks| && t.tasks[k].status == Ready ensures DepsDone(t.dag.tasks[k], Done(t.tasks)) {
      if replaced[k].status == Ready {
        assert replaced[k] == s.tasks[k];
      }
    }
  }

  lemma PublishReadiness(s: State, report: string, paper: string, valid: bool)
    requires Inv(s) && Publish(s, report, paper, valid).Ok?
    ensures Aligned(Publish(s, report, paper, valid).value) && ReadyMeansDone(Publish(s, report, paper, valid).value)
  {
    PublishedTasks(s, report, paper, valid);
  }

  lemma ReplanReadiness(s: State, dag: Table, reason: string)
    requires Inv(s) && ValidTable(dag) && Replan(s, dag, reason).Ok?
    ensures Aligned(Replan(s, dag, reason).value) && ReadyMeansDone(Replan(s, dag, reason).value)
  {
    ReplanDone(s, dag, reason);
  }

  /** One operation keeps it, unless it is a rollback of a task that still waits. */
  lemma OpReadiness(s: State, op: Op)
    requires Inv(s) && OpValid(op) && ReadyMeansDone(s)
    ensures Aligned(Apply(s, op)) && (ReadyMeansDone(Apply(s, op)) <==> RollsBackReady(s, op))
  {
    match op {
      case OpDispatch(id, solved) => if Dispatch(s, id, solved).Ok? { DispatchReadiness(s, id, solved); }
      case OpPublish(report, paper, valid) => if Publish(s, report, paper, valid).Ok? { PublishReadiness(s, report, paper, valid); }
      case OpRollback(root, reason) => if Rollback(s, root, reason).Ok? { RollbackReadiness(s, root, reason); }
      case OpReplan(dag, reason) => if Replan(s, dag, reason).Ok? { ReplanReadiness(s, dag, reason); }
    }
  }

  lemma AfterOp(s: State, op: Op, t: State)
    requires Inv(s) && IsOp(s, op, t) && ReadyMeansDone(s)
    ensures Aligned(t) && (ReadyMeansDone(t) <==> RollsBackReady(s, op))
  {
    OpReadiness(s, op);
  }

  lemma SoundState(dag: Table, states: seq<State>, ops: seq<Op>, k: nat) returns (s: State)
    requires ValidTable(dag) && IsRun(dag, states, ops) && k < |states|
    ensures s == states[k] && Inv(s)
  {
    RunKeepsInv(dag, states, ops, k);
    s := states[k];
  }

  lemma OneOp(dag: Table, states: seq<State>, ops: seq<Op>, k: nat, n: nat) returns (s: State, op: Op, t: State)
    requires IsRun(dag, states, ops) && n == k + 1 && n < |states|
    ensures s == states[k] && op == ops[k] && t == states[n] && IsOp(s, op, t)
  {
    assert IsStep(states, ops, n);
    s, op, t := states[k], ops[k], states[n];
  }

  lemma StepReadiness(dag: Table, states: seq<State>, ops: seq<Op>, k: nat, n: nat)
    requires ValidTable(dag) && IsRun(dag, states, ops) && n == k + 1 && n < |states| && ReadyMeansDone(states[k])
    ensures ReadyMeansDone(states[n]) <==> RollsBackReady(states[k], ops[k])
  {
    var same := SoundState(dag, states, ops, k);
    var s, op, t := OneOp(dag, states, ops, k, n);
    AfterOp(s, op, t);
  }

  lemma {:induction false} RunStaysReady(dag: Table, states: seq<State>, ops: seq<Op>, k: nat)
    requires ValidTable(dag) && IsRun(dag, states, ops) && k < |states|
    requires forall j | 0 <= j < |ops| :: RollsBackReady(states[j], ops[j])
    ensures ReadyMeansDone(states[k])
    decreases k
  {
    if k == 0 {
      StartReadiness(dag);
    } else {
      RunStaysReady(dag, states, ops, k - 1);
      StepReadiness(dag, states, ops, k - 1, k);
    }
  }

  /** Along a whole run of start, dispatch, publish, rollback and replan: READY always means that the dependencies are
      COMPLETED, if and only if every rollback that takes effect is of a task whose dependencies are COMPLETED. */
  lemma RunReadiness(dag: Table, states: seq<State>, ops: seq<Op>)
    requires ValidTable(dag) && IsRun(dag, states, ops)
    ensures (forall k | 0 <= k < |states| :: ReadyMeansDone(states[k]))
       <==> (forall k | 0 <= k < |ops| :: RollsBackReady(states[k], ops[k]))
  {
    if forall k | 0 <= k < |states| :: ReadyMeansDone(states[k]) {
      forall k | 0 <= k < |ops| ensures RollsBackReady(states[k], ops[k]) {
        assert ReadyMeansDone(states[k]) && ReadyMeansDone(states[k + 1]);
        StepReadiness(dag, states, ops, k, k + 1);
      }
    }
    if forall k | 0 <= k < |ops| :: RollsBackReady(states[k], ops[k]) {
      forall k | 0 <= k < |states| ensures ReadyMeansDone(states[k]) {
        RunStaysReady(dag, states, ops, k);
      }
    }
  }
}
