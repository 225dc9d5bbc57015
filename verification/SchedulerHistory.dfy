/** What a run of operations leaves in the records: which tasks are COMPLETED or FAILED, which report each refers to, and
    which reports are stored, from the operations alone. */
module SchedulerHistory {
  import opened Wrappers
  import opened Strings
  import opened Dag
  import opened DagValidator
  import opened Scheduler
  import opened SchedulerInvariants
  import opened SchedulerReadiness
  import opened DispatchKeys

  datatype Fate = Open | Succeeded | Lost

  /** How a task stands, and the report that its record refers to. */
  datatype View = View(fate: Fate, report: Option<string>)

  function ViewOf(s: State, x: string): View
    requires |s.tasks| == |s.dag.tasks|
  {
    match NodeIndex(s.dag.tasks, x)
    case None => View(Open, None)
    case Some(i) => RecordView(s.tasks[i])
  }

  function RecordView(r: Record): View {
    View(if r.status == Completed then Succeeded else if r.status == Failed then Lost else Open, r.lastReport)
  }

  /** What a tool call means for the task: only a stored report can complete it, and only a BLOCKED one leaves it open. */
  function CallView(solved: Solved, before: Option<string>): View {
    match solved
    case Reported(id, status, _) =>
      View(if status == SolveCompleted then Succeeded else if status == SolveBlocked then Open else Lost, Some(id))
    case _ => View(Lost, before)
  }

  /** What a committed operation was: a call came back for a task, the terminal was published, a rollback opened the tasks
      it affects, or a replan kept some tasks. */
  datatype Event = Called(id: string, solved: Solved) | Published(terminal: string) | RolledBack(affected: set<string>)
    | Replanned(kept: set<string>) | Refused

  ghost function EventOf(s: State, op: Op): Event
    requires Aligned(s)
  {
    match op
    case OpDispatch(id, solved) => if Dispatch(s, id, solved).Ok? then Called(id, solved) else Refused
    case OpPublish(report, paper, valid) =>
      if Publish(s, report, paper, valid).Ok? then Published(s.dag.terminalTaskId) else Refused
    case OpRollback(root, reason) => if Rollback(s, root, reason).Ok? then RolledBack(Downstream(s.dag.tasks, root)) else Refused
    case OpReplan(dag, reason) => if Replan(s, dag, reason).Ok? then Replanned(KeptIds(s, dag)) else Refused
  }

  /** What one event makes of a task. */
  ghost function NextView(e: Event, x: string, v: View): View {
    match e
    case Called(id, solved) => if x == id then CallView(solved, v.report) else v
    case Published(terminal) => if x == terminal then v.(fate := Succeeded) else v
    case RolledBack(affected) => if x in affected then v.(fate := Open) else v
    case Replanned(kept) => if x in kept then v else View(Open, None)
    case Refused => v
  }

  /** The report that one event stores. */
  ghost function NewReports(e: Event): seq<string> {
    if e.Called? && e.solved.Reported? then [e.solved.reportId] else []
  }

  ghost predicate HasStatus(s: State, x: string, status: TaskStatus) {
    exists r :: r in s.tasks && r.taskId == x && r.status == status
  }

  /** A dispatch commits for a READY solve task whose dependencies are all COMPLETED. */
  lemma DispatchCommitsIff(s: State, id: string, solved: Solved)
    requires Aligned(s) && UniqueIds(s.dag.tasks)
    ensures Dispatch(s, id, solved).Ok? <==> exists node ::
      && node in s.dag.tasks && node.id == id && node.kind == SolveProblem
      && HasStatus(s, id, Ready) && forall d | d in node.dependsOn :: HasStatus(s, d, Completed)
  {
  }

  /** A publication commits with a valid paper, when all other tasks are COMPLETED. */
  lemma PublishCommitsIff(s: State, report: string, paper: string, valid: bool)
    requires Inv(s)
    ensures Publish(s, report, paper, valid).Ok? <==>
      valid && forall r | r in s.tasks && r.taskId != s.dag.terminalTaskId :: r.status == Completed
  {
    var end := TerminalPosition(s);
    if forall r | r in s.tasks && r.taskId != s.dag.terminalTaskId :: r.status == Completed {
      var node := s.dag.tasks[end];
      forall d | d in node.dependsOn ensures d in Done(s.tasks) {
        OtherTask(s, end, d);
      }
      forall k | 0 <= k < |s.tasks| && k != end ensures s.tasks[k].status == Completed {
        assert s.tasks[k].taskId != s.dag.terminalTaskId && s.tasks[k] in s.tasks;
      }
    } else {
      var r :| r in s.tasks && r.taskId != s.dag.terminalTaskId && r.status != Completed;
      var k :| 0 <= k < |s.tasks| && s.tasks[k] == r;
    }
  }

  lemma OtherTask(s: State, end: nat, d: string)
    requires Aligned(s) && end < |s.tasks| && d in s.dag.tasks[end].dependsOn
    requires forall t | t in s.dag.tasks :: NodeIsLocal(Ids(s.dag.tasks), t)
    requires forall r | r in s.tasks && r.taskId != s.dag.tasks[end].id :: r.status == Completed
    ensures d in Done(s.tasks)
  {
    assert NodeIsLocal(Ids(s.dag.tasks), s.dag.tasks[end]);
    assert d in Elements(s.dag.tasks[end].dependsOn);
    var n :| n in s.dag.tasks && n.id == d;
    var k :| 0 <= k < |s.dag.tasks| && s.dag.tasks[k] == n;
    assert s.tasks[k] in s.tasks;
  }

  /** Up to the end of the run a rollback to any task of the table commits, and so does any replan. */
  lemma WayBackCommitsIff(s: State, x: string, reason: string, dag: Table)
    requires Aligned(s)
    ensures Rollback(s, x, reason).Ok? <==> !s.terminal && exists node :: node in s.dag.tasks && node.id == x
    ensures Replan(s, dag, reason).Ok? <==> !s.terminal
  {
  }

  // ---------- one operation ----------

  ghost predicate Viewed(s: State, e: Event, t: State, x: string)
    requires |s.tasks| == |s.dag.tasks|
  {
    |t.tasks| == |t.dag.tasks| && ViewOf(t, x) == NextView(e, x, ViewOf(s, x)) && t.reportIds == s.reportIds + NewReports(e)
  }

  lemma Unchanged(s: State, x: string)
    requires Aligned(s)
    ensures Viewed(s, Refused, s, x)
  {
  }

  lemma ViewAt(s: State, k: nat)
    requires Aligned(s) && UniqueIds(s.dag.tasks) && k < |s.tasks|
    ensures ViewOf(s, s.dag.tasks[k].id) == RecordView(s.tasks[k])
  {
    AttemptsAt(s, k);
  }

  lemma SameViews(s: State, t: State, x: string)
    requires Aligned(s) && Aligned(t) && t.dag == s.dag
    requires forall k | 0 <= k < |s.tasks| && s.dag.tasks[k].id == x :: RecordView(t.tasks[k]) == RecordView(s.tasks[k])
    ensures ViewOf(t, x) == ViewOf(s, x)
  {
  }

  lemma DispatchedViews(s: State, i: nat, solved: Solved)
    requires Aligned(s) && UniqueIds(s.dag.tasks) && i < |s.tasks|
    ensures var t := AfterSolve(s, i, solved);
      && Aligned(t) && t.dag == s.dag && t.reportIds == s.reportIds + (if solved.Reported? then [solved.reportId] else [])
      && RecordView(t.tasks[i]) == CallView(solved, s.tasks[i].lastReport)
      && forall k | 0 <= k < |s.tasks| && k != i :: RecordView(t.tasks[k]) == RecordView(s.tasks[k])
  {
    RecordsDistinct(s);
  }

  lemma DispatchView(s: State, id: string, solved: Solved, x: string)
    requires Aligned(s) && UniqueIds(s.dag.tasks) && Dispatch(s, id, solved).Ok?
    ensures var t := Dispatch(s, id, solved).value;
      && Aligned(t) && t.reportIds == s.reportIds + (if solved.Reported? then [solved.reportId] else [])
      && ViewOf(t, x) == if x == id then CallView(solved, ViewOf(s, x).report) else ViewOf(s, x)
  {
    var i := DispatchIsAfterSolve(s, id, solved);
    DispatchedViews(s, i, solved);
    var t := AfterSolve(s, i, solved);
    if x == id {
      ViewAt(s, i);
      ViewAt(t, i);
    } else {
      SameViews(s, t, x);
    }
  }

  lemma PublishView(s: State, report: string, paper: string, valid: bool, x: string)
    requires Inv(s) && Publish(s, report, paper, valid).Ok?
    ensures var t := Publish(s, report, paper, valid).value;
      && Aligned(t) && t.reportIds == s.reportIds
      && ViewOf(t, x) == if x == s.dag.terminalTaskId then ViewOf(s, x).(fate := Succeeded) else ViewOf(s, x)
  {
    PublishedTasks(s, report, paper, valid);
    var t := Publish(s, report, paper, valid).value;
    var end := TerminalPosition(s);
    RecordsDistinct(s);
    if x == s.dag.terminalTaskId {
      ViewAt(s, end);
      ViewAt(t, end);
    } else {
      SameViews(s, t, x);
    }
  }

  lemma RollbackView(s: State, root: string, reason: string, t: State, x: string)
    requires Aligned(s) && UniqueIds(s.dag.tasks) && Rollback(s, root, reason) == Ok(t)
    ensures Viewed(s, RolledBack(Downstream(s.dag.tasks, root)), t, x)
  {
    var affected := Downstream(s.dag.tasks, root);
    forall k | 0 <= k < |s.tasks|
      ensures t.tasks[k].taskId == s.tasks[k].taskId
      ensures RecordView(t.tasks[k])
              == if s.tasks[k].taskId in affected then RecordView(s.tasks[k]).(fate := Open) else RecordView(s.tasks[k])
    {
    }
    match NodeIndex(s.dag.tasks, x) {
      case None =>
      case Some(i) =>
    }
  }

  lemma ReplannedRecord(s: State, dag: Table, x: string, node: Node)
    requires Aligned(s) && node.id == x
    ensures RecordView(ReplanRecord(s, node, KeptIds(s, dag))) == if x in KeptIds(s, dag) then ViewOf(s, x) else View(Open, None)
  {
    if x in KeptIds(s, dag) {
      var other :| other in dag.tasks && Kept(s, other) && other.id == x;
      var i :| 0 <= i < |s.tasks| && s.dag.tasks[i] == other;
    }
  }

  lemma ReplannedAt(s: State, dag: Table, reason: string, t: State, k: nat)
    requires Aligned(s) && Replan(s, dag, reason) == Ok(t) && k < |dag.tasks|
    ensures |t.tasks| == |dag.tasks| && t.dag == dag && t.tasks[k] == ReplanRecord(s, dag.tasks[k], KeptIds(s, dag))
  {
  }

  lemma ReplannedColumns(s: State, dag: Table, reason: string, t: State)
    requires Aligned(s) && Replan(s, dag, reason) == Ok(t)
    ensures |t.tasks| == |dag.tasks| && t.dag == dag && t.reportIds == s.reportIds
  {
  }

  lemma ReplanView(s: State, dag: Table, reason: string, t: State, x: string)
    requires Aligned(s) && Replan(s, dag, reason) == Ok(t) && |t.tasks| == |dag.tasks| && t.dag == dag
    ensures ViewOf(t, x) == if x in KeptIds(s, dag) then ViewOf(s, x) else View(Open, None)
  {
    match NodeIndex(dag.tasks, x) {
      case None => KeptIsInTable(s, dag, x);
      case Some(k) =>
        ReplannedAt(s, dag, reason, t, k);
        ReplannedRecord(s, dag, x, dag.tasks[k]);
    }
  }

  lemma DispatchOpView(s: State, id: string, solved: Solved, x: string) returns (e: Event, t: State)
    requires Inv(s)
    ensures e == EventOf(s, OpDispatch(id, solved)) && t == OrUnchanged(s, Dispatch(s, id, solved)) && Viewed(s, e, t, x)
  {
    if Dispatch(s, id, solved).Ok? {
      DispatchView(s, id, solved, x);
      e, t := Called(id, solved), Dispatch(s, id, solved).value;
    } else {
      Unchanged(s, x);
      e, t := Refused, s;
    }
  }

  lemma PublishOpView(s: State, report: string, paper: string, valid: bool, x: string) returns (e: Event, t: State)
    requires Inv(s)
    ensures e == EventOf(s, OpPublish(report, paper, valid)) && t == OrUnchanged(s, Publish(s, report, paper, valid))
    ensures Viewed(s, e, t, x)
  {
    if Publish(s, report, paper, valid).Ok? {
      PublishView(s, report, paper, valid, x);
      e, t := Published(s.dag.terminalTaskId), Publish(s, report, paper, valid).value;
    } else {
      Unchanged(s, x);
      e, t := Refused, s;
    }
  }

  lemma RollbackEvent(s: State, root: string, reason: string) returns (e: Event, t: State)
    requires Aligned(s)
    ensures e == EventOf(s, OpRollback(root, reason)) && t == Apply(s, OpRollback(root, reason))
    ensures e == Refused ==> t == s
    ensures e != Refused ==> e == RolledBack(Downstream(s.dag.tasks, root)) && Rollback(s, root, reason) == Ok(t)
  {
    e, t := EventOf(s, OpRollback(root, reason)), Apply(s, OpRollback(root, reason));
  }

  lemma ReplanEvent(s: State, dag: Table, reason: string) returns (e: Event, t: State)
    requires Aligned(s)
    ensures e == EventOf(s, OpReplan(dag, reason)) && t == Apply(s, OpReplan(dag, reason))
    ensures e == Refused ==> t == s
    ensures e != Refused ==> e == Replanned(KeptIds(s, dag)) && Replan(s, dag, reason) == Ok(t)
  {
    e, t := EventOf(s, OpReplan(dag, reason)), Apply(s, OpReplan(dag, reason));
  }

  lemma RollbackOpView(s: State, root: string, reason: string, x: string) returns (e: Event, t: State)
    requires Inv(s)
    ensures e == EventOf(s, OpRollback(root, reason)) && t == Apply(s, OpRollback(root, reason)) && Viewed(s, e, t, x)
  {
    e, t := RollbackEvent(s, root, reason);
    if e == Refused {
      Unchanged(s, x);
    } else {
      RollbackView(s, root, reason, t, x);
    }
  }

  lemma ReplanViewed(s: State, dag: Table, reason: string, t: State, x: string)
    requires Aligned(s) && Replan(s, dag, reason) == Ok(t)
    ensures Viewed(s, Replanned(KeptIds(s, dag)), t, x)
  {
    ReplannedColumns(s, dag, reason, t);
    ReplanView(s, dag, reason, t, x);
  }

  lemma ReplanOpView(s: State, dag: Table, reason: string, x: string) returns (e: Event, t: State)
    requires Aligned(s)
    ensures e == EventOf(s, OpReplan(dag, reason)) && t == Apply(s, OpReplan(dag, reason)) && Viewed(s, e, t, x)
  {
    e, t := ReplanEvent(s, dag, reason);
    if e == Refused {
      Unchanged(s, x);
    } else {
      ReplanViewed(s, dag, reason, t, x);
    }
  }

  lemma OpView(s: State, op: Op, x: string) returns (e: Event, t: State)
    requires Inv(s) && OpValid(op)
    ensures e == EventOf(s, op) && t == Apply(s, op) && Viewed(s, e, t, x)
  {
    match op {
      case OpDispatch(id, solved) => e, t := DispatchOpView(s, id, solved, x);
      case OpPublish(report, paper, valid) => e, t := PublishOpView(s, report, paper, valid, x);
      case OpRollback(root, reason) => e, t := RollbackOpView(s, root, reason, x);
      case OpReplan(dag, reason) => e, t := ReplanOpView(s, dag, reason, x);
    }
  }

  // ---------- a run ----------

  /** What the operations of a run were. */
  ghost function Events(states: seq<State>, ops: seq<Op>): (events: seq<Event>)
    requires Shaped(states, ops)
    ensures |events| == |ops|
  {
    seq(|ops|, k requires 0 <= k < |ops| => EventOf(states[k], ops[k]))
  }

  /** How a task stands after the first `k` events: as the last one that touched it left it. */
  ghost function HistoryView(events: seq<Event>, x: string, k: nat): View
    requires k <= |events|
  {
    if k == 0 then View(Open, None) else NextView(events[k - 1], x, HistoryView(events, x, k - 1))
  }

  /** The reports that the first `k` events stored, in order. */
  ghost function HistoryReports(events: seq<Event>, k: nat): seq<string>
    requires k <= |events|
  {
    if k == 0 then [] else HistoryReports(events, k - 1) + NewReports(events[k - 1])
  }

  lemma NextHistory(events: seq<Event>, e: Event, x: string, k: nat, n: nat)
    requires n == k + 1 && n <= |events| && events[k] == e
    ensures HistoryView(events, x, n) == NextView(e, x, HistoryView(events, x, k))
    ensures HistoryReports(events, n) == HistoryReports(events, k) + NewReports(e)
  {
  }

  lemma FirstView(dag: Table, x: string)
    ensures Aligned(Start(dag)) && ViewOf(Start(dag), x) == View(Open, None) && Start(dag).reportIds == []
  {
  }

  lemma OneOpViewed(dag: Table, states: seq<State>, ops: seq<Op>, x: string, k: nat, n: nat)
    returns (s: State, e: Event, t: State)
    requires ValidTable(dag) && IsRun(dag, states, ops) && n == k + 1 && n <= |ops|
    ensures s == states[k] && e == EventOf(states[k], ops[k]) && t == states[n] && Aligned(s) && Viewed(s, e, t, x)
  {
    var same := SoundState(dag, states, ops, k);
    var op, next;
    s, op, next := OneOp(dag, states, ops, k, n);
    e, t := OpView(s, op, x);
  }

  /** Every record is what the run says: COMPLETED or FAILED by the last call that came back for the task, unless a
      rollback or a replan came after it; it refers to the last report stored for it; and the stored reports are those of
      the dispatches, in order. */
  lemma {:induction false} RunIsHistory(dag: Table, states: seq<State>, ops: seq<Op>, x: string, k: nat)
    requires ValidTable(dag) && IsRun(dag, states, ops) && k <= |ops|
    ensures Aligned(states[k]) && ViewOf(states[k], x) == HistoryView(Events(states, ops), x, k)
    ensures states[k].reportIds == HistoryReports(Events(states, ops), k)
    decreases k
  {
    if k == 0 {
      FirstView(dag, x);
    } else {
      RunIsHistory(dag, states, ops, x, k - 1);
      var s, e, t := OneOpViewed(dag, states, ops, x, k - 1, k);
      NextHistory(Events(states, ops), e, x, k - 1, k);
    }
  }

  // ---------- texts ----------

  /** The error that a record shows after a call. */
  lemma ErrorTexts(s: State, i: nat, solved: Solved)
    requires Aligned(s) && UniqueIds(s.dag.tasks) && i < |s.tasks|
    ensures var t := AfterSolve(s, i, solved);
      && Aligned(t) && t.tasks[i].attempts == s.tasks[i].attempts + 1
      && t.tasks[i].lastError == match solved
           case ToolError(message) => if message.Some? then Some(Given(message.value)) else None
           case InvalidReport(detail) => Some(NotAReport(detail))
           case ReportNotPersisted(detail) => Some(NotPersisted(detail))
           case Reported(_, status, error) =>
             if status == SolveCompleted then None
             else if error.Some? && (status != SolveRevisionRequired || error.value != "") then Some(Given(error.value))
             else if status == SolveRevisionRequired then Some(UnfinishedRevision)
             else None
  {
    RecordsDistinct(s);
  }

  /** What publication and the two ways back leave in the run's own columns. */
  lemma RunColumns(s: State, op: Op)
    requires Inv(s) && OpValid(op)
    ensures op.OpPublish? && Publish(s, op.report, op.paper, op.valid).Ok? ==>
      && op.valid && Apply(s, op).finalReport == Some(op.report) && Apply(s, op).finalPaper == Some(op.paper)
      && Apply(s, op).decisions == s.decisions
    ensures op.OpRollback? && Rollback(s, op.root, op.rollbackReason).Ok? ==>
      Apply(s, op).decisions == s.decisions + [Decision("rollback", op.rollbackReason, Downstream(s.dag.tasks, op.root))]
    ensures op.OpReplan? && Replan(s, op.dag, op.replanReason).Ok? ==>
      && |Apply(s, op).decisions| == |s.decisions| + 1
      && (var d := Apply(s, op).decisions[|s.decisions|];
          && d.kind == "replan" && d.reason == op.replanReason
          && forall x :: x in d.affected <==>
               exists n: Node :: n.id == x && ((n in s.dag.tasks && n !in op.dag.tasks) || (n in op.dag.tasks && n !in s.dag.tasks)))
  {
  }
}
