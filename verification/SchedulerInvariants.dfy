/** What every sequence of scheduler operations keeps. */
module SchedulerInvariants {
  import opened Wrappers
  import opened Strings
  import opened Dag
  import opened DagValidator
  import opened Scheduler

  // ---------- the invariant ----------

  ghost predicate Settled(s: State) {
    forall i | 0 <= i < |s.tasks| :: s.tasks[i].status != Running && s.tasks[i].status != RevisionRequired
  }

  /** No lost wake-up: a BLOCKED task still waits for something. */
  ghost predicate NoLostWakeUp(s: State)
    requires Aligned(s)
  {
    forall i | 0 <= i < |s.tasks| :: s.tasks[i].status == Blocked ==> !DepsDone(s.dag.tasks[i], Done(s.tasks))
  }

  ghost predicate AllCompleted(s: State) {
    forall i | 0 <= i < |s.tasks| :: s.tasks[i].status == Completed
  }

  ghost predicate TerminalExact(s: State) {
    && (s.terminal <==> s.dag.terminalTaskId in Done(s.tasks))
    && (s.terminal ==> AllCompleted(s))
    && (s.terminal <==> s.finalReport.Some?) && (s.terminal <==> s.finalPaper.Some?)
  }

  /** The part of the invariant that is about the records. */
  ghost predicate RecordsInv(s: State) {
    Aligned(s) && Settled(s) && NoLostWakeUp(s) && TerminalExact(s)
  }

  ghost predicate Inv(s: State) {
    RecordsInv(s) && ValidTable(s.dag)
  }

  /** The COMPLETED set is closed under dependencies. */
  ghost predicate CompletedClosed(s: State)
    requires Aligned(s)
  {
    forall i | 0 <= i < |s.tasks| :: s.tasks[i].status == Completed ==> DepsDone(s.dag.tasks[i], Done(s.tasks))
  }

  // ---------- tables and statuses ----------

  lemma RecordsDistinct(s: State)
    requires Aligned(s) && UniqueIds(s.dag.tasks)
    ensures DistinctRecords(s.tasks)
  {
    forall i, j | 0 <= i < j < |s.tasks| ensures s.tasks[i].taskId != s.tasks[j].taskId {
      assert s.dag.tasks[i].id != s.dag.tasks[j].id;
    }
  }

  lemma DoneAt(tasks: seq<Record>, i: nat)
    requires DistinctRecords(tasks) && i < |tasks|
    ensures tasks[i].taskId in Done(tasks) <==> tasks[i].status == Completed
  {
    if tasks[i].taskId in Done(tasks) {
      var r :| r in tasks && r.status == Completed && r.taskId == tasks[i].taskId;
      var j :| 0 <= j < |tasks| && tasks[j] == r;
      assert i == j;
    }
  }

  lemma DoneReplace(tasks: seq<Record>, i: nat, r: Record)
    requires DistinctRecords(tasks) && i < |tasks| && r.taskId == tasks[i].taskId && tasks[i].status != Completed
    ensures DistinctRecords(Replace(tasks, r))
    ensures Done(Replace(tasks, r)) == Done(tasks) + (if r.status == Completed then {r.taskId} else {})
  {
    var after := Replace(tasks, r);
    forall x ensures x in Done(after) <==> x in Done(tasks) || (r.status == Completed && x == r.taskId) {
      if x in Done(after) {
        var y :| y in after && y.status == Completed && y.taskId == x;
        var j :| 0 <= j < |after| && after[j] == y;
        if tasks[j].taskId != r.taskId { assert tasks[j] in tasks; }
      }
      if x in Done(tasks) {
        var y :| y in tasks && y.status == Completed && y.taskId == x;
        var j :| 0 <= j < |tasks| && tasks[j] == y;
        assert j != i;
        assert after[j] == y;
      }
      if x == r.taskId { assert after[i] == r; }
    }
  }

  lemma DoneUnlock(dag: Table, tasks: seq<Record>)
    requires |tasks| == |dag.tasks|
    ensures Done(Unlock(dag, tasks)) == Done(tasks)
  {
    var after := Unlock(dag, tasks);
    forall x ensures x in Done(after) <==> x in Done(tasks) {
      if x in Done(after) {
        var y :| y in after && y.status == Completed && y.taskId == x;
        var j :| 0 <= j < |after| && after[j] == y;
        assert tasks[j] == y;
        assert y in tasks;
      }
      if x in Done(tasks) {
        var y :| y in tasks && y.status == Completed && y.taskId == x;
        var j :| 0 <= j < |tasks| && tasks[j] == y;
        assert after[j] == y;
        assert y in after;
      }
    }
  }

  /** The terminal task's record decides whether the whole run counts as finished. */
  lemma TerminalPosition(s: State) returns (t: nat)
    requires Aligned(s) && ValidTable(s.dag)
    ensures t < |s.tasks| && s.dag.tasks[t].id == s.dag.terminalTaskId && s.dag.tasks[t].kind == PublishLatex
    ensures s.dag.terminalTaskId in Done(s.tasks) <==> s.tasks[t].status == Completed
    ensures NodeIndex(s.dag.tasks, s.dag.terminalTaskId) == Some(t)
  {
    var node :| node in s.dag.tasks && node.id == s.dag.terminalTaskId && node.kind == PublishLatex && node.terminal;
    t :| 0 <= t < |s.dag.tasks| && s.dag.tasks[t] == node;
    RecordsDistinct(s);
    DoneAt(s.tasks, t);
    var p := NodeIndex(s.dag.tasks, s.dag.terminalTaskId);
    assert p.Some?;
    assert s.dag.tasks[p.value].id == s.dag.tasks[t].id;
  }

  /** In a state that keeps the invariant the three ways to be finished agree. */
  lemma FinishedThreeWays(s: State)
    requires Inv(s)
    ensures s.terminal <==> AllCompleted(s)
    ensures s.terminal <==> s.finalReport.Some?
  {
    var t := TerminalPosition(s);
  }

  // ---------- start ----------

  lemma StartKeepsInv(dag: Table)
    requires ValidTable(dag)
    ensures Inv(Start(dag)) && CompletedClosed(Start(dag))
  {
    var s := Start(dag);
    assert Done(s.tasks) == {} by {
      forall r | r in s.tasks ensures r.status != Completed {
        var i :| 0 <= i < |s.tasks| && s.tasks[i] == r;
      }
    }
    forall i | 0 <= i < |s.tasks| && s.tasks[i].status == Blocked ensures !DepsDone(dag.tasks[i], Done(s.tasks)) {
      assert dag.tasks[i].dependsOn[0] in dag.tasks[i].dependsOn;
    }
  }

  // ---------- dispatch ----------

  /** A run with a task to dispatch is not finished, and that task is not the publication terminal. */
  lemma DispatchTarget(s: State, i: nat)
    requires Inv(s) && i < |s.tasks| && CanDispatch(s, i)
    ensures !s.terminal && s.dag.tasks[i].id != s.dag.terminalTaskId
  {
    var t := TerminalPosition(s);
  }

  lemma UnlockLosesNothing(dag: Table, tasks: seq<Record>)
    requires |tasks| == |dag.tasks|
    ensures var after := Unlock(dag, tasks);
      forall k | 0 <= k < |after| ::
        && after[k].taskId == tasks[k].taskId
        && (after[k].status == Blocked ==> !DepsDone(dag.tasks[k], Done(after)))
        && (after[k].status != tasks[k].status ==> after[k].status == Ready)
  {
    DoneUnlock(dag, tasks);
  }

  ghost predicate Outcome(status: TaskStatus) {
    status == Completed || status == Failed || status == Blocked
  }

  lemma SolvedRecordOutcome(r: Record, solved: Solved)
    ensures var x := SolvedRecord(r, solved);
      && x.taskId == r.taskId && x.attempts == r.attempts + 1 && Outcome(x.status)
      && (x.status == Completed <==> solved.Reported? && solved.status == SolveCompleted)
      && (x.status == Blocked ==> solved.Reported?)
  {
  }

  /** The task table after a dispatch. */
  lemma DispatchedTasks(s: State, i: nat, r: Record, unlock: bool)
    requires RecordsInv(s) && UniqueIds(s.dag.tasks) && i < |s.tasks| && CanDispatch(s, i)
    requires r.taskId == s.tasks[i].taskId && Outcome(r.status) && (unlock || r.status == Failed)
    ensures var tasks := if unlock then Unlock(s.dag, Replace(s.tasks, r)) else Replace(s.tasks, r);
      && Done(tasks) == Done(s.tasks) + (if r.status == Completed then {r.taskId} else {})
      && forall k | 0 <= k < |tasks| ::
           && tasks[k].taskId == s.tasks[k].taskId
           && tasks[k].status != Running && tasks[k].status != RevisionRequired
           && (tasks[k].status == Blocked ==> !DepsDone(s.dag.tasks[k], Done(tasks)))
  {
    RecordsDistinct(s);
    var replaced := Replace(s.tasks, r);
    DoneReplace(s.tasks, i, r);
    forall k | 0 <= k < |replaced| ensures replaced[k] == s.tasks[k] || replaced[k] == r {
    }
    if unlock {
      DoneUnlock(s.dag, replaced);
      UnlockLosesNothing(s.dag, replaced);
    }
  }

  /** What is left to check for a table of an unfinished run. */
  lemma OpenRunInv(s: State, tasks: seq<Record>, t: State)
    requires RecordsInv(s) && !s.terminal && t.tasks == tasks && t.dag == s.dag && t.terminal == s.terminal
    requires t.finalReport == s.finalReport && t.finalPaper == s.finalPaper
    requires |tasks| == |s.tasks| && s.dag.terminalTaskId !in Done(tasks)
    requires forall k | 0 <= k < |tasks| ::
      && tasks[k].taskId == s.tasks[k].taskId
      && tasks[k].status != Running && tasks[k].status != RevisionRequired
      && (tasks[k].status == Blocked ==> !DepsDone(s.dag.tasks[k], Done(tasks)))
    ensures RecordsInv(t)
  {
  }

  lemma AfterSolveKeepsInv(s: State, i: nat, solved: Solved)
    requires Inv(s) && i < |s.tasks| && CanDispatch(s, i)
    ensures var t := AfterSolve(s, i, solved);
      && Inv(t) && t.version == s.version + 1
      && Done(t.tasks) == Done(s.tasks) + (if solved.Reported? && solved.status == SolveCompleted then {s.tasks[i].taskId} else {})
  {
    DispatchTarget(s, i);
    AfterSolveKeepsRecords(s, i, solved);
  }

  lemma AfterSolveKeepsRecords(s: State, i: nat, solved: Solved)
    requires RecordsInv(s) && UniqueIds(s.dag.tasks) && i < |s.tasks| && CanDispatch(s, i)
    requires !s.terminal && s.dag.tasks[i].id != s.dag.terminalTaskId
    ensures var t := AfterSolve(s, i, solved);
      && RecordsInv(t) && t.dag == s.dag && t.version == s.version + 1
      && Done(t.tasks) == Done(s.tasks) + (if solved.Reported? && solved.status == SolveCompleted then {s.tasks[i].taskId} else {})
  {
    var r := SolvedRecord(s.tasks[i], solved);
    SolvedRecordOutcome(s.tasks[i], solved);
    DispatchedTasks(s, i, r, solved.Reported?);
    var t := AfterSolve(s, i, solved);
    OpenRunInv(s, t.tasks, t);
  }

  lemma DispatchIsAfterSolve(s: State, id: string, solved: Solved) returns (i: nat)
    requires Aligned(s) && Dispatch(s, id, solved).Ok?
    ensures i < |s.tasks| && CanDispatch(s, i) && s.tasks[i].taskId == id
    ensures Dispatch(s, id, solved).value == AfterSolve(s, i, solved)
  {
    i := NodeIndex(s.dag.tasks, id).value;
  }

  lemma DispatchKeepsInv(s: State, id: string, solved: Solved)
    requires Inv(s) && Dispatch(s, id, solved).Ok?
    ensures var t := Dispatch(s, id, solved).value;
      && Inv(t) && t.version == s.version + 1
      && Done(t.tasks) == Done(s.tasks) + (if solved.Reported? && solved.status == SolveCompleted then {id} else {})
  {
    var i := DispatchIsAfterSolve(s, id, solved);
    AfterSolveKeepsInv(s, i, solved);
  }

  lemma ClosedGrows(s: State, t: State, id: string, i: nat)
    requires Aligned(s) && Aligned(t) && UniqueIds(s.dag.tasks) && t.dag == s.dag && CompletedClosed(s)
    requires i < |s.tasks| && s.dag.tasks[i].id == id && DepsDone(s.dag.tasks[i], Done(s.tasks))
    requires Done(s.tasks) <= Done(t.tasks) <= Done(s.tasks) + {id}
    ensures CompletedClosed(t)
  {
    RecordsDistinct(s);
    RecordsDistinct(t);
    forall k | 0 <= k < |t.tasks| && t.tasks[k].status == Completed ensures DepsDone(t.dag.tasks[k], Done(t.tasks)) {
      DoneAt(t.tasks, k);
      if t.tasks[k].taskId != id {
        DoneAt(s.tasks, k);
      } else {
        assert s.dag.tasks[k].id == s.dag.tasks[i].id;
      }
    }
  }

  lemma DispatchKeepsClosure(s: State, id: string, solved: Solved)
    requires Inv(s) && CompletedClosed(s) && Dispatch(s, id, solved).Ok?
    ensures CompletedClosed(Dispatch(s, id, solved).value)
  {
    DispatchKeepsInv(s, id, solved);
    ClosedGrows(s, Dispatch(s, id, solved).value, id, NodeIndex(s.dag.tasks, id).value);
  }

  lemma BlockedRecord(s: State, i: nat, solved: Solved)
    requires Inv(s) && i < |s.tasks| && CanDispatch(s, i) && solved.Reported? && solved.status == SolveBlocked
    ensures var t := AfterSolve(s, i, solved);
      && Aligned(t) && t.dag == s.dag && i < |t.tasks|
      && t.tasks[i].status == Ready && t.tasks[i].attempts == s.tasks[i].attempts + 1
  {
    RecordsDistinct(s);
    DoneReplace(s.tasks, i, SolvedRecord(s.tasks[i], solved));
  }

  /** A BLOCKED solve result does not block: the task is READY again, ready to run, one attempt later. */
  lemma BlockedResultIsReadyAgain(s: State, id: string, reportId: string, error: Option<string>)
    requires Inv(s) && Dispatch(s, id, Reported(reportId, SolveBlocked, error)).Ok?
    ensures var t := Dispatch(s, id, Reported(reportId, SolveBlocked, error)).value;
      var i := NodeIndex(s.dag.tasks, id).value;
      && Aligned(t) && i < |t.tasks| && CanDispatch(t, i)
      && t.tasks[i].attempts == s.tasks[i].attempts + 1 && Done(t.tasks) == Done(s.tasks)
  {
    var solved := Reported(reportId, SolveBlocked, error);
    var i := NodeIndex(s.dag.tasks, id).value;
    BlockedRecord(s, i, solved);
    AfterSolveKeepsInv(s, i, solved);
  }

  // ---------- publish ----------

  /** When every record is COMPLETED, every dependency is. */
  lemma AllDone(s: State)
    requires Aligned(s) && AllCompleted(s)
    requires forall n | n in s.dag.tasks :: NodeIsLocal(Ids(s.dag.tasks), n)
    ensures Done(s.tasks) == Ids(s.dag.tasks) && CompletedClosed(s)
  {
    forall k | 0 <= k < |s.tasks| ensures s.dag.tasks[k].id in Done(s.tasks) {
      assert s.tasks[k] in s.tasks;
    }
    forall x | x in Ids(s.dag.tasks) ensures x in Done(s.tasks) {
      var n :| n in s.dag.tasks && n.id == x;
      var k :| 0 <= k < |s.dag.tasks| && s.dag.tasks[k] == n;
    }
    forall x | x in Done(s.tasks) ensures x in Ids(s.dag.tasks) {
      var r :| r in s.tasks && r.taskId == x;
      var k :| 0 <= k < |s.tasks| && s.tasks[k] == r;
      assert s.dag.tasks[k] in s.dag.tasks;
    }
    forall k, d | 0 <= k < |s.tasks| && d in s.dag.tasks[k].dependsOn ensures d in Done(s.tasks) {
      assert s.dag.tasks[k] in s.dag.tasks;
      assert NodeIsLocal(Ids(s.dag.tasks), s.dag.tasks[k]);
      assert d in Elements(s.dag.tasks[k].dependsOn);
    }
  }

  lemma PublishedTasks(s: State, report: string, paper: string, valid: bool)
    requires Inv(s) && Publish(s, report, paper, valid).Ok?
    ensures var t := Publish(s, report, paper, valid).value;
      && Aligned(t) && AllCompleted(t) && t.dag == s.dag && t.terminal && t.version == s.version + 1
      && t.finalReport == Some(report) && t.finalPaper == Some(paper)
  {
    var i := TerminalPosition(s);
    var t := Publish(s, report, paper, valid).value;
    RecordsDistinct(s);
    forall k | 0 <= k < |t.tasks| ensures t.tasks[k].status == Completed && t.tasks[k].taskId == s.tasks[k].taskId {
    }
  }

  lemma PublishKeepsInv(s: State, report: string, paper: string, valid: bool)
    requires Inv(s) && Publish(s, report, paper, valid).Ok?
    ensures var t := Publish(s, report, paper, valid).value;
      Inv(t) && t.terminal && t.version == s.version + 1 && CompletedClosed(t)
  {
    PublishedTasks(s, report, paper, valid);
    var t := Publish(s, report, paper, valid).value;
    AllDone(t);
    var i := TerminalPosition(t);
  }

  // ---------- rollback ----------

  lemma RollbackDone(tasks: seq<Record>, root: string, affected: set<string>, reason: string)
    requires root in affected
    ensures Done(RollbackTasks(tasks, root, affected, reason)) == Done(tasks) - affected
  {
    var after := RollbackTasks(tasks, root, affected, reason);
    forall x ensures x in Done(after) <==> x in Done(tasks) && x !in affected {
      if x in Done(after) {
        var r :| r in after && r.status == Completed && r.taskId == x;
        var i :| 0 <= i < |after| && after[i] == r;
        assert tasks[i] == r;
        assert r in tasks;
      }
      if x in Done(tasks) && x !in affected {
        var r :| r in tasks && r.status == Completed && r.taskId == x;
        var i :| 0 <= i < |tasks| && tasks[i] == r;
        assert after[i] == r;
        assert r in after;
      }
    }
  }

  lemma RootIsDownstream(nodes: seq<Node>, root: string)
    requires NodeIndex(nodes, root).Some?
    ensures root in Downstream(nodes, root)
  {
    var k := NodeIndex(nodes, root).value;
    assert DependencyPath(GraphOf(nodes), [root], root, root);
    assert DependsOn(GraphOf(nodes), nodes[k].id, root);
  }

  /** A task below the rolled-back one waits for another affected task. */
  lemma DownstreamWaits(nodes: seq<Node>, k: nat, root: string) returns (d: string)
    requires UniqueIds(nodes) && k < |nodes| && nodes[k].id in Downstream(nodes, root) && nodes[k].id != root
    requires forall n | n in nodes :: NodeIsLocal(Ids(nodes), n)
    ensures d in nodes[k].dependsOn && d in Downstream(nodes, root)
  {
    var g := GraphOf(nodes);
    var path :| DependencyPath(g, path, nodes[k].id, root);
    d := path[1];
    GraphAt(nodes, k);
    assert DependencyPath(g, path[1..], d, root);
    assert NodeIsLocal(Ids(nodes), nodes[k]);
    assert d in Elements(nodes[k].dependsOn);
    var n :| n in nodes && n.id == d;
    var j :| 0 <= j < |nodes| && nodes[j] == n;
    assert DependsOn(g, nodes[j].id, root);
  }

  lemma RollbackWakesAll(s: State, root: string, affected: set<string>, reason: string)
    requires Aligned(s) && UniqueIds(s.dag.tasks) && NoLostWakeUp(s) && affected == Downstream(s.dag.tasks, root) && root in affected
    requires forall n | n in s.dag.tasks :: NodeIsLocal(Ids(s.dag.tasks), n)
    ensures var tasks := RollbackTasks(s.tasks, root, affected, reason);
      forall k | 0 <= k < |tasks| && tasks[k].status == Blocked :: !DepsDone(s.dag.tasks[k], Done(tasks))
  {
    var tasks := RollbackTasks(s.tasks, root, affected, reason);
    RollbackDone(s.tasks, root, affected, reason);
    forall k | 0 <= k < |tasks| && tasks[k].status == Blocked ensures !DepsDone(s.dag.tasks[k], Done(tasks)) {
      if tasks[k].taskId in affected {
        var d := DownstreamWaits(s.dag.tasks, k, root);
      } else {
        assert tasks[k] == s.tasks[k];
      }
    }
  }

  lemma RollbackKeepsInv(s: State, root: string, reason: string)
    requires Inv(s) && Rollback(s, root, reason).Ok?
    ensures var t := Rollback(s, root, reason).value; Inv(t) && t.version == s.version + 1
  {
    RollbackKeepsRecords(s, root, reason);
  }

  lemma RollbackKeepsRecords(s: State, root: string, reason: string)
    requires RecordsInv(s) && UniqueIds(s.dag.tasks) && (forall n | n in s.dag.tasks :: NodeIsLocal(Ids(s.dag.tasks), n))
    requires Rollback(s, root, reason).Ok?
    ensures var t := Rollback(s, root, reason).value; RecordsInv(t) && t.dag == s.dag && t.version == s.version + 1
  {
    var affected := Downstream(s.dag.tasks, root);
    var tasks := RollbackTasks(s.tasks, root, affected, reason);
    RootIsDownstream(s.dag.tasks, root);
    RollbackDone(s.tasks, root, affected, reason);
    RollbackWakesAll(s, root, affected, reason);
    var t := Rollback(s, root, reason).value;
    OpenRunInv(s, tasks, t.(finalReport := s.finalReport, finalPaper := s.finalPaper));
  }

  lemma DownstreamIsDependsOn(nodes: seq<Node>, k: nat, root: string)
    requires k < |nodes|
    ensures nodes[k].id in Downstream(nodes, root) <==> DependsOn(GraphOf(nodes), nodes[k].id, root)
  {
  }

  lemma UnaffectedDependencies(nodes: seq<Node>, k: nat, root: string, d: string)
    requires UniqueIds(nodes) && k < |nodes| && d in nodes[k].dependsOn && nodes[k].id !in Downstream(nodes, root)
    ensures d !in Downstream(nodes, root)
  {
    GraphAt(nodes, k);
    DownstreamIsDependsOn(nodes, k, root);
    if d in Downstream(nodes, root) {
      ExtendPath(GraphOf(nodes), nodes[k].id, d, root);
    }
  }

  /** The records after a rollback of `root`. */
  ghost predicate RolledBack(s: State, t: State, root: string, reason: string)
    requires Aligned(s) && Aligned(t) && |t.tasks| == |s.tasks|
  {
    forall k | 0 <= k < |s.tasks| :: t.tasks[k] ==
      if !DependsOn(GraphOf(s.dag.tasks), s.dag.tasks[k].id, root) then s.tasks[k]
      else if s.dag.tasks[k].id == root then s.tasks[k].(status := Ready, lastError := Some(Given(reason)))
      else s.tasks[k].(status := Blocked, lastError := Some(UpstreamRollback(root)))
  }

  /** Rollback is exact: the affected set is the task and its transitive dependents, and every other record is
      untouched. */
  lemma RollbackIsExact(s: State, root: string, reason: string)
    requires Aligned(s) && Rollback(s, root, reason).Ok?
    ensures var t := Rollback(s, root, reason).value; Aligned(t) && t.dag == s.dag && RolledBack(s, t, root, reason)
  {
    forall k | 0 <= k < |s.tasks|
      ensures s.dag.tasks[k].id in Downstream(s.dag.tasks, root) <==> DependsOn(GraphOf(s.dag.tasks), s.dag.tasks[k].id, root)
    {
      DownstreamIsDependsOn(s.dag.tasks, k, root);
    }
  }

  /** Rollback keeps COMPLETED closed under dependencies. */
  lemma RollbackKeepsClosure(s: State, root: string, reason: string)
    requires Aligned(s) && UniqueIds(s.dag.tasks) && CompletedClosed(s) && Rollback(s, root, reason).Ok?
    ensures var t := Rollback(s, root, reason).value; Aligned(t) && CompletedClosed(t)
  {
    var affected := Downstream(s.dag.tasks, root);
    var tasks := RollbackTasks(s.tasks, root, affected, reason);
    RootIsDownstream(s.dag.tasks, root);
    RollbackDone(s.tasks, root, affected, reason);
    forall k | 0 <= k < |tasks| && tasks[k].status == Completed ensures DepsDone(s.dag.tasks[k], Done(tasks)) {
      assert tasks[k] == s.tasks[k];
      forall d | d in s.dag.tasks[k].dependsOn ensures d in Done(tasks) {
        UnaffectedDependencies(s.dag.tasks, k, root, d);
      }
    }
  }

  // ---------- replan ----------

  lemma ReplanDone(s: State, dag: Table, reason: string)
    requires Inv(s) && ValidTable(dag) && Replan(s, dag, reason).Ok?
    ensures var t := Replan(s, dag, reason).value;
      && Aligned(t) && Done(t.tasks) == KeptIds(s, dag)
      && (forall k | 0 <= k < |t.tasks| :: t.tasks[k].status != Completed ==>
            t.tasks[k].status == if DepsDone(dag.tasks[k], KeptIds(s, dag)) then Ready else Blocked)
  {
    var t, kept := Replan(s, dag, reason).value, KeptIds(s, dag);
    RecordsDistinct(s);
    forall k | 0 <= k < |dag.tasks|
      ensures t.tasks[k].taskId == dag.tasks[k].id
      ensures t.tasks[k].status == Completed <==> dag.tasks[k].id in kept
      ensures t.tasks[k].status != Completed ==> t.tasks[k].status == if DepsDone(dag.tasks[k], kept) then Ready else Blocked
    {
      ReplanOne(s, dag, k);
    }
    forall x | x in kept ensures x in Ids(dag.tasks) {
      var node :| node in dag.tasks && Kept(s, node) && node.id == x;
    }
    DoneIsKept(dag.tasks, t.tasks, kept);
  }

  /** Records that are COMPLETED exactly for the ids of a set. */
  lemma DoneIsKept(nodes: seq<Node>, tasks: seq<Record>, kept: set<string>)
    requires |nodes| == |tasks| && kept <= Ids(nodes)
    requires forall k | 0 <= k < |nodes| :: tasks[k].taskId == nodes[k].id && (tasks[k].status == Completed <==> nodes[k].id in kept)
    ensures Done(tasks) == kept
  {
    forall x ensures x in Done(tasks) <==> x in kept {
      if x in Done(tasks) {
        var r :| r in tasks && r.status == Completed && r.taskId == x;
        var i :| 0 <= i < |tasks| && tasks[i] == r;
      }
      if x in kept {
        var node :| node in nodes && node.id == x;
        var k :| 0 <= k < |nodes| && nodes[k] == node;
        assert tasks[k] in tasks;
      }
    }
  }

  lemma ReplanOne(s: State, dag: Table, k: nat)
    requires Inv(s) && UniqueIds(dag.tasks) && k < |dag.tasks|
    ensures var r, kept := ReplanRecord(s, dag.tasks[k], KeptIds(s, dag)), KeptIds(s, dag);
      && r.taskId == dag.tasks[k].id
      && (r.status == Completed <==> dag.tasks[k].id in kept)
      && (r.status != Completed ==> r.status == if DepsDone(dag.tasks[k], kept) then Ready else Blocked)
  {
    var kept := KeptIds(s, dag);
    if dag.tasks[k].id in kept {
      var node :| node in dag.tasks && Kept(s, node) && node.id == dag.tasks[k].id;
      var i :| 0 <= i < |s.tasks| && s.dag.tasks[i] == node && s.tasks[i].status == Completed;
      var p := NodeIndex(s.dag.tasks, dag.tasks[k].id);
      assert p.Some?;
      assert s.dag.tasks[p.value].id == s.dag.tasks[i].id;
      assert p.value == i;
    }
  }

  /** An unfinished run cannot keep the publication task complete. */
  lemma TerminalIsNotKept(s: State, dag: Table)
    requires Inv(s) && !s.terminal && UniqueIds(dag.tasks) && TerminalIsSink(dag)
    ensures dag.terminalTaskId !in KeptIds(s, dag)
  {
    if dag.terminalTaskId in KeptIds(s, dag) {
      var node :| node in dag.tasks && Kept(s, node) && node.id == dag.terminalTaskId;
      var end :| end in dag.tasks && end.id == dag.terminalTaskId && end.kind == PublishLatex && end.terminal;
      SameNode(dag.tasks, node, end);
      var i :| 0 <= i < |s.tasks| && s.dag.tasks[i] == node && s.tasks[i].status == Completed;
      assert s.dag.tasks[i] in s.dag.tasks;
      RecordsDistinct(s);
      DoneAt(s.tasks, i);
      assert false;
    }
  }

  lemma ReplannedRecords(t: State, kept: set<string>)
    requires Aligned(t) && Done(t.tasks) == kept && t.dag.terminalTaskId !in kept
    requires !t.terminal && t.finalReport.None? && t.finalPaper.None?
    requires forall k | 0 <= k < |t.tasks| :: t.tasks[k].status != Completed ==>
               t.tasks[k].status == if DepsDone(t.dag.tasks[k], kept) then Ready else Blocked
    ensures RecordsInv(t)
  {
  }

  lemma ReplanKeepsInv(s: State, dag: Table, reason: string)
    requires Inv(s) && ValidTable(dag) && Replan(s, dag, reason).Ok?
    ensures var t := Replan(s, dag, reason).value; Inv(t) && t.version == s.version + 1
  {
    ReplanDone(s, dag, reason);
    TerminalIsNotKept(s, dag);
    ReplannedRecords(Replan(s, dag, reason).value, KeptIds(s, dag));
  }

  lemma SameNode(nodes: seq<Node>, a: Node, b: Node)
    requires UniqueIds(nodes) && a in nodes && b in nodes && a.id == b.id
    ensures a == b
  {
    var i :| 0 <= i < |nodes| && nodes[i] == a;
    var j :| 0 <= j < |nodes| && nodes[j] == b;
    assert i == j;
  }

  /** The node with this id is in both tables, column for column. */
  ghost predicate UnchangedId(s: State, dag: Table, id: string) {
    exists node :: node in s.dag.tasks && node.id == id && node in dag.tasks
  }

  /** Replan keeps COMPLETED closed exactly when no dependency of an unchanged completed task was changed. */
  ghost predicate KeptTasksHaveUnchangedDependencies(s: State, dag: Table)
    requires Aligned(s)
  {
    forall node, d | node in dag.tasks && Kept(s, node) && d in node.dependsOn :: UnchangedId(s, dag, d)
  }

  lemma KeptRecord(s: State, dag: Table, reason: string, k: nat)
    requires Inv(s) && ValidTable(dag) && Replan(s, dag, reason).Ok? && k < |dag.tasks|
    ensures var t := Replan(s, dag, reason).value;
      |t.tasks| == |dag.tasks| && (t.tasks[k].status == Completed <==> Kept(s, dag.tasks[k]))
  {
    ReplanOne(s, dag, k);
    assert dag.tasks[k] in dag.tasks;
    if dag.tasks[k].id in KeptIds(s, dag) {
      var node :| node in dag.tasks && Kept(s, node) && node.id == dag.tasks[k].id;
      SameNode(dag.tasks, node, dag.tasks[k]);
    }
  }

  lemma ReplanClosure(s: State, dag: Table, reason: string)
    requires Inv(s) && CompletedClosed(s) && ValidTable(dag) && Replan(s, dag, reason).Ok?
    ensures Aligned(Replan(s, dag, reason).value)
    ensures CompletedClosed(Replan(s, dag, reason).value) <==> KeptTasksHaveUnchangedDependencies(s, dag)
  {
    ReplanDone(s, dag, reason);
    var t, kept := Replan(s, dag, reason).value, KeptIds(s, dag);
    if CompletedClosed(t) {
      forall node, d | node in dag.tasks && Kept(s, node) && d in node.dependsOn
        ensures UnchangedId(s, dag, d)
      {
        var k :| 0 <= k < |dag.tasks| && dag.tasks[k] == node;
        KeptRecord(s, dag, reason, k);
        assert DepsDone(t.dag.tasks[k], Done(t.tasks));
        KeptDependency(s, dag, node, d);
      }
    }
    if KeptTasksHaveUnchangedDependencies(s, dag) {
      forall k | 0 <= k < |t.tasks| && t.tasks[k].status == Completed ensures DepsDone(t.dag.tasks[k], Done(t.tasks)) {
        KeptRecord(s, dag, reason, k);
        forall d | d in dag.tasks[k].dependsOn ensures d in kept {
          assert dag.tasks[k] in dag.tasks;
          KeptDependency(s, dag, dag.tasks[k], d);
        }
      }
    }
  }

  lemma KeptDependency(s: State, dag: Table, node: Node, d: string)
    requires Inv(s) && CompletedClosed(s) && node in dag.tasks && Kept(s, node) && d in node.dependsOn
    ensures d in KeptIds(s, dag) <==> UnchangedId(s, dag, d)
  {
    RecordsDistinct(s);
    var i :| 0 <= i < |s.tasks| && s.dag.tasks[i] == node && s.tasks[i].status == Completed;
    assert d in Done(s.tasks);
    if d in KeptIds(s, dag) {
      var prior :| prior in dag.tasks && Kept(s, prior) && prior.id == d;
      assert prior in s.dag.tasks;
    }
    if UnchangedId(s, dag, d) {
      var prior :| prior in s.dag.tasks && prior.id == d && prior in dag.tasks;
      var j :| 0 <= j < |s.dag.tasks| && s.dag.tasks[j] == prior;
      assert s.tasks[j].taskId == d;
      DoneAt(s.tasks, j);
      assert Kept(s, prior);
    }
  }

  // ---------- every run ----------

  datatype Op =
    | OpDispatch(id: string, solved: Solved)
    | OpPublish(report: string, paper: string, valid: bool)
    | OpRollback(root: string, rollbackReason: string)
    | OpReplan(dag: Table, replanReason: string)

  ghost function OrUnchanged(s: State, r: Result<State>): State {
    if r.Ok? then r.value else s
  }

  ghost function Apply(s: State, op: Op): State
    requires Aligned(s)
  {
    match op
    case OpDispatch(id, solved) => OrUnchanged(s, Dispatch(s, id, solved))
    case OpPublish(report, paper, valid) => OrUnchanged(s, Publish(s, report, paper, valid))
    case OpRollback(root, reason) => OrUnchanged(s, Rollback(s, root, reason))
    case OpReplan(dag, reason) => OrUnchanged(s, Replan(s, dag, reason))
  }

  /** A replan takes a table object, which the validator has accepted. */
  ghost predicate OpValid(op: Op) {
    op.OpReplan? ==> ValidTable(op.dag)
  }

  lemma OpKeepsInv(s: State, op: Op)
    requires Inv(s) && OpValid(op)
    ensures Inv(Apply(s, op))
  {
    match op {
      case OpDispatch(id, solved) => if Dispatch(s, id, solved).Ok? { DispatchKeepsInv(s, id, solved); }
      case OpPublish(report, paper, valid) => if Publish(s, report, paper, valid).Ok? { PublishKeepsInv(s, report, paper, valid); }
      case OpRollback(root, reason) => if Rollback(s, root, reason).Ok? { RollbackKeepsInv(s, root, reason); }
      case OpReplan(dag, reason) => if Replan(s, dag, reason).Ok? { ReplanKeepsInv(s, dag, reason); }
    }
  }

  /** The committed states of one run: each is an operation applied to the one before. */
  ghost predicate IsRun(dag: Table, states: seq<State>, ops: seq<Op>) {
    && |states| == |ops| + 1 && states[0] == Start(dag)
    && (forall s | s in states :: Aligned(s))
    && (forall k: nat | 1 <= k < |states| :: IsStep(states, ops, k))
  }

  ghost predicate IsStep(states: seq<State>, ops: seq<Op>, k: nat)
    requires |states| == |ops| + 1 && 1 <= k < |states|
  {
    IsOp(states[k - 1], ops[k - 1], states[k])
  }

  ghost predicate IsOp(s: State, op: Op, t: State) {
    OpValid(op) && Aligned(s) && t == Apply(s, op)
  }

  lemma FirstInv(dag: Table, states: seq<State>, ops: seq<Op>)
    requires ValidTable(dag) && IsRun(dag, states, ops)
    ensures Inv(states[0]) && CompletedClosed(states[0])
  {
    StartKeepsInv(dag);
  }

  lemma StepKeepsInv(dag: Table, states: seq<State>, ops: seq<Op>, k: nat)
    requires IsRun(dag, states, ops) && 1 <= k < |states| && Inv(states[k - 1])
    ensures Inv(states[k])
  {
    assert IsStep(states, ops, k);
    OpKeepsInv(states[k - 1], ops[k - 1]);
  }

  lemma {:induction false} RunKeepsInv(dag: Table, states: seq<State>, ops: seq<Op>, k: nat)
    requires ValidTable(dag) && IsRun(dag, states, ops) && k < |states|
    ensures Inv(states[k])
    decreases k
  {
    if k == 0 {
      FirstInv(dag, states, ops);
    } else {
      RunKeepsInv(dag, states, ops, k - 1);
      StepKeepsInv(dag, states, ops, k);
    }
  }

  /** Main result: in every committed state of every run no task is BLOCKED while all its dependencies are
      COMPLETED, none is RUNNING or REVISION_REQUIRED, and terminal, all-COMPLETED and having a final report
      are the same. */
  lemma EveryCommittedStateIsSound(dag: Table, states: seq<State>, ops: seq<Op>, k: nat)
    requires ValidTable(dag) && IsRun(dag, states, ops) && k < |states|
    ensures var s := states[k];
      && Aligned(s)
      && (forall i | 0 <= i < |s.tasks| :: s.tasks[i].status == Blocked ==> !DepsDone(s.dag.tasks[i], Done(s.tasks)))
      && (forall i | 0 <= i < |s.tasks| :: s.tasks[i].status in {Blocked, Ready, Completed, Failed})
      && (s.terminal <==> AllCompleted(s)) && (s.terminal <==> s.finalReport.Some?)
  {
    RunKeepsInv(dag, states, ops, k);
    FinishedThreeWays(states[k]);
  }

  lemma OpKeepsClosure(s: State, op: Op)
    requires Inv(s) && OpValid(op) && CompletedClosed(s)
    requires op.OpReplan? ==> KeptTasksHaveUnchangedDependencies(s, op.dag)
    ensures Inv(Apply(s, op)) && CompletedClosed(Apply(s, op))
  {
    OpKeepsInv(s, op);
    match op {
      case OpDispatch(id, solved) => if Dispatch(s, id, solved).Ok? { DispatchKeepsClosure(s, id, solved); }
      case OpPublish(report, paper, valid) => if Publish(s, report, paper, valid).Ok? { PublishKeepsInv(s, report, paper, valid); }
      case OpRollback(root, reason) => if Rollback(s, root, reason).Ok? { RollbackKeepsClosure(s, root, reason); }
      case OpReplan(dag, reason) => if Replan(s, dag, reason).Ok? { ReplanClosure(s, dag, reason); }
    }
  }

  lemma StepKeepsClosure(dag: Table, states: seq<State>, ops: seq<Op>, k: nat)
    requires IsRun(dag, states, ops) && 1 <= k < |states| && Inv(states[k - 1]) && CompletedClosed(states[k - 1])
    requires ops[k - 1].OpReplan? ==> KeptTasksHaveUnchangedDependencies(states[k - 1], ops[k - 1].dag)
    ensures Inv(states[k]) && CompletedClosed(states[k])
  {
    assert IsStep(states, ops, k);
    OpKeepsClosure(states[k - 1], ops[k - 1]);
  }

  /** COMPLETED is closed under dependencies all along a run whose replans keep dependencies of kept tasks. */
  lemma {:induction false} RunKeepsClosure(dag: Table, states: seq<State>, ops: seq<Op>, k: nat)
    requires ValidTable(dag) && IsRun(dag, states, ops) && k < |states|
    requires forall j | 0 <= j < |ops| :: ops[j].OpReplan? ==> KeptTasksHaveUnchangedDependencies(states[j], ops[j].dag)
    ensures Inv(states[k]) && CompletedClosed(states[k])
    decreases k
  {
    if k == 0 {
      FirstInv(dag, states, ops);
    } else {
      RunKeepsClosure(dag, states, ops, k - 1);
      StepKeepsClosure(dag, states, ops, k);
    }
  }
}
