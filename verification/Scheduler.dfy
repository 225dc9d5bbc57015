/** The run state of src/m2harness/application/main_harness.py: start, dispatch, publish, rollback and replan as
    functions from one committed state to the next, and the three loops they contain. */
module Scheduler {
  import opened Wrappers
  import opened Dag
  import opened DagValidator

  datatype TaskStatus = Blocked | Ready | Running | Completed | RevisionRequired | Failed

  /** The texts a record's `last_error` may hold. */
  datatype Reason =
    | Given(text: string)
    | NotAReport(detail: string)
    | NotPersisted(detail: string)
    | UnfinishedRevision
    | UpstreamRollback(root: string)

  function Message(reason: Reason): string {
    match reason
    case Given(text) => text
    case NotAReport(detail) => "invalid solve_problem report: " + detail
    case NotPersisted(detail) => "durable report persistence failed: " + detail
    case UnfinishedRevision =>
      "solve_problem returned an unfinished internal revision; " + "no outer retry is permitted"
    case UpstreamRollback(root) => "upstream rollback: " + root
  }

  datatype Record = Record(taskId: string, status: TaskStatus, attempts: nat, lastReport: Option<string>,
                           lastError: Option<Reason>)

  datatype SolveStatus = SolveCompleted | SolveRevisionRequired | SolveBlocked | SolveFailed

  /** What the `solve_problem` tool call came back with. */
  datatype Solved =
    | ToolError(message: Option<string>)
    | InvalidReport(detail: string)
    | ReportNotPersisted(detail: string)
    | Reported(reportId: string, status: SolveStatus, error: Option<string>)

  datatype Decision = Decision(kind: string, reason: string, affected: set<string>)

  datatype State = State(
    dag: Table, tasks: seq<Record>, reportIds: seq<string>, decisions: seq<Decision>,
    finalReport: Option<string>, finalPaper: Option<string>, terminal: bool, version: nat)

  /** The ids whose record is COMPLETED. */
  function Done(tasks: seq<Record>): set<string> {
    set r | r in tasks && r.status == Completed :: r.taskId
  }

  predicate DepsDone(node: Node, done: set<string>) {
    forall d | d in node.dependsOn :: d in done
  }

  // ---------- start ----------

  function StartRecord(node: Node): Record {
    Record(node.id, if node.dependsOn == [] then Ready else Blocked, 0, None, None)
  }

  function Start(dag: Table): State {
    State(dag, seq(|dag.tasks|, i requires 0 <= i < |dag.tasks| => StartRecord(dag.tasks[i])),
          [], [], None, None, false, 1)
  }

  // ---------- ready_tasks ----------

  predicate Aligned(s: State) {
    |s.tasks| == |s.dag.tasks| && forall i | 0 <= i < |s.tasks| :: s.tasks[i].taskId == s.dag.tasks[i].id
  }

  /** Position i is ready to run: READY and every dependency COMPLETED. */
  predicate IsReady(s: State, i: nat)
    requires Aligned(s) && i < |s.tasks|
  {
    s.tasks[i].status == Ready && DepsDone(s.dag.tasks[i], Done(s.tasks))
  }

  // ---------- dispatch ----------

  function Replace(tasks: seq<Record>, r: Record): seq<Record> {
    seq(|tasks|, i requires 0 <= i < |tasks| => if tasks[i].taskId == r.taskId then r else tasks[i])
  }

  function UnlockRecord(node: Node, r: Record, done: set<string>): Record {
    if r.status == Blocked && DepsDone(node, done) then r.(status := Ready) else r
  }

  /** `_unlock_dependents`: every BLOCKED task whose dependencies are all COMPLETED becomes READY. */
  function Unlock(dag: Table, tasks: seq<Record>): seq<Record>
    requires |tasks| == |dag.tasks|
  {
    seq(|tasks|, i requires 0 <= i < |tasks| => UnlockRecord(dag.tasks[i], tasks[i], Done(tasks)))
  }

  function Commit(s: State, expected: nat): State {
    s.(version := expected + 1)
  }

  function AsGiven(error: Option<string>): Option<Reason> {
    match error
    case None => None
    case Some(text) => Some(Given(text))
  }

  /** The record's final status and error for a report. */
  function Verdict(status: SolveStatus, error: Option<string>): (TaskStatus, Option<Reason>) {
    match status
    case SolveCompleted => (Completed, None)
    case SolveRevisionRequired =>
      (Failed, if error.Some? && error.value != "" then Some(Given(error.value)) else Some(UnfinishedRevision))
    case SolveBlocked => (Blocked, AsGiven(error))
    case SolveFailed => (Failed, AsGiven(error))
  }

  predicate CanDispatch(s: State, i: nat)
    requires Aligned(s) && i < |s.tasks|
  {
    s.dag.tasks[i].kind == SolveProblem && IsReady(s, i)
  }

  /** The task's record after the tool call: one more attempt, and the verdict. */
  function SolvedRecord(r: Record, solved: Solved): Record {
    var running := r.(status := Running, attempts := r.attempts + 1, lastError := None);
    match solved
    case Reported(reportId, status, error) =>
      var (final, text) := Verdict(status, error);
      running.(status := final, lastReport := Some(reportId), lastError := text)
    case ToolError(message) => running.(status := Failed, lastError := AsGiven(message))
    case InvalidReport(detail) => running.(status := Failed, lastError := Some(NotAReport(detail)))
    case ReportNotPersisted(detail) => running.(status := Failed, lastError := Some(NotPersisted(detail)))
  }

  /** `dispatch` of the task at position i, after its guards passed and the tool call came back. Only a stored
      report unlocks dependents. */
  function AfterSolve(s: State, i: nat, solved: Solved): State
    requires Aligned(s) && i < |s.tasks|
  {
    var tasks := Replace(s.tasks, SolvedRecord(s.tasks[i], solved));
    if solved.Reported? then
      Commit(s.(tasks := Unlock(s.dag, tasks), reportIds := s.reportIds + [solved.reportId]), s.version)
    else
      Commit(s.(tasks := tasks), s.version)
  }

  function NodeIndex(tasks: seq<Node>, id: string): (r: Option<nat>)
    ensures r.Some? ==> r.value < |tasks| && tasks[r.value].id == id
    ensures r.None? ==> forall i | 0 <= i < |tasks| :: tasks[i].id != id
  {
    if tasks == [] then None
    else if tasks[0].id == id then Some(0)
    else
      match NodeIndex(tasks[1..], id)
      case None =>
        assert forall i | 1 <= i < |tasks| :: tasks[i] == tasks[1..][i - 1];
        None
      case Some(i) => Some(i + 1)
  }

  function Dispatch(s: State, id: string, solved: Solved): Result<State>
    requires Aligned(s)
  {
    match NodeIndex(s.dag.tasks, id)
    case None => Err(ValueError)
    case Some(i) => if CanDispatch(s, i) then Ok(AfterSolve(s, i, solved)) else Err(ValueError)
  }

  // ---------- publish ----------

  /** `publish` and `generate_paper`; `valid` is the outcome of `validate_publication_artifacts`. */
  function Publish(s: State, report: string, paper: string, valid: bool): Result<State>
    requires Aligned(s)
  {
    match NodeIndex(s.dag.tasks, s.dag.terminalTaskId)
    case None => Err(ValueError)
    case Some(i) =>
      if s.dag.tasks[i].kind != PublishLatex then Err(ValueError)
      else if exists k :: 0 <= k < |s.tasks| && k != i && s.tasks[k].status != Completed then Err(ValueError)
      else if !DepsDone(s.dag.tasks[i], Done(s.tasks)) then Err(ValueError)
      else if !valid then Err(ValueError)
      else
        Ok(Commit(s.(tasks := Replace(s.tasks, s.tasks[i].(status := Completed)),
                     finalReport := Some(report), finalPaper := Some(paper), terminal := true), s.version))
  }

  // ---------- rollback ----------

  /** `x` depends on `root` through a chain of direct dependencies. */
  ghost predicate DependencyPath(g: Graph, path: seq<string>, x: string, root: string) {
    && path != [] && path[0] == x && path[|path| - 1] == root
    && forall k | 0 <= k < |path| - 1 :: path[k] in g && path[k + 1] in g[path[k]]
  }

  ghost predicate DependsOn(g: Graph, x: string, root: string) {
    exists path :: DependencyPath(g, path, x, root)
  }

  ghost predicate ClosedUnderDependents(tasks: seq<Node>, s: set<string>) {
    forall k | 0 <= k < |tasks| :: (exists d :: d in tasks[k].dependsOn && d in s) ==> tasks[k].id in s
  }

  lemma ExtendPath(g: Graph, x: string, d: string, root: string)
    requires x in g && d in g[x] && DependsOn(g, d, root)
    ensures DependsOn(g, x, root)
  {
    var path :| DependencyPath(g, path, d, root);
    assert DependencyPath(g, [x] + path, x, root);
  }

  lemma {:induction false} ClosureHoldsPaths(tasks: seq<Node>, s: set<string>, path: seq<string>, x: string, root: string)
    requires UniqueIds(tasks) && ClosedUnderDependents(tasks, s) && root in s
    requires DependencyPath(GraphOf(tasks), path, x, root)
    ensures x in s
    decreases |path|
  {
    if |path| > 1 {
      ClosureHoldsPaths(tasks, s, path[1..], path[1], root);
      GraphKeys(tasks, x);
      var k :| 0 <= k < |tasks| && tasks[k].id == x;
      GraphAt(tasks, k);
      assert path[1] in tasks[k].dependsOn;
    }
  }

  /** The fixpoint loop of `rollback`: it finds exactly the task and its transitive dependents. */
  method Affected(tasks: seq<Node>, root: string) returns (affected: set<string>)
    requires UniqueIds(tasks)
    ensures root in affected
    ensures forall k | 0 <= k < |tasks| :: tasks[k].id in affected <==> DependsOn(GraphOf(tasks), tasks[k].id, root)
    ensures affected <= Ids(tasks) + {root}
  {
    ghost var g := GraphOf(tasks);
    affected := {root};
    assert DependencyPath(g, [root], root, root);
    var changed := true;
    while changed
      invariant root in affected && affected <= Ids(tasks) + {root}
      invariant forall x | x in affected :: DependsOn(g, x, root)
      invariant !changed ==> ClosedUnderDependents(tasks, affected)
      decreases Ids(tasks) + {root} - affected, changed
    {
      affected, changed := OneSweep(tasks, root, affected);
    }
    forall k | 0 <= k < |tasks| ensures DependsOn(g, tasks[k].id, root) ==> tasks[k].id in affected {
      if DependsOn(g, tasks[k].id, root) {
        var path :| DependencyPath(g, path, tasks[k].id, root);
        ClosureHoldsPaths(tasks, affected, path, tasks[k].id, root);
      }
    }
  }

  /** One `for node in state.dag.tasks` sweep. */
  method OneSweep(tasks: seq<Node>, root: string, start: set<string>) returns (affected: set<string>, changed: bool)
    requires UniqueIds(tasks) && start <= Ids(tasks) + {root}
    requires forall x | x in start :: DependsOn(GraphOf(tasks), x, root)
    ensures start <= affected <= Ids(tasks) + {root}
    ensures forall x | x in affected :: DependsOn(GraphOf(tasks), x, root)
    ensures changed ==> start < affected
    ensures !changed ==> affected == start && ClosedUnderDependents(tasks, affected)
  {
    affected, changed := start, false;
    var k := 0;
    while k < |tasks|
      invariant 0 <= k <= |tasks|
      invariant start <= affected <= Ids(tasks) + {root}
      invariant forall x | x in affected :: DependsOn(GraphOf(tasks), x, root)
      invariant changed ==> start < affected
      invariant !changed ==> affected == start
      invariant !changed ==> forall j | 0 <= j < k ::
        (exists d :: d in tasks[j].dependsOn && d in affected) ==> tasks[j].id in affected
    {
      var node := tasks[k];
      if node.id !in affected && exists d :: d in node.dependsOn && d in affected {
        GraphAt(tasks, k);
        var d :| d in node.dependsOn && d in affected;
        ExtendPath(GraphOf(tasks), node.id, d, root);
        affected := affected + {node.id};
        changed := true;
      }
      k := k + 1;
    }
  }

  function RollbackRecord(r: Record, root: string, affected: set<string>, reason: string): Record {
    if r.taskId !in affected then r
    else if r.taskId == root then r.(status := Ready, lastError := Some(Given(reason)))
    else r.(status := Blocked, lastError := Some(UpstreamRollback(root)))
  }

  /** The affected ids: `root` and everything that depends on it. */
  ghost function Downstream(tasks: seq<Node>, root: string): set<string> {
    set k | 0 <= k < |tasks| && DependsOn(GraphOf(tasks), tasks[k].id, root) :: tasks[k].id
  }

  function RollbackTasks(tasks: seq<Record>, root: string, affected: set<string>, reason: string): seq<Record> {
    seq(|tasks|, i requires 0 <= i < |tasks| => RollbackRecord(tasks[i], root, affected, reason))
  }

  ghost function Rollback(s: State, root: string, reason: string): Result<State>
    requires Aligned(s)
  {
    if s.terminal || NodeIndex(s.dag.tasks, root).None? then Err(ValueError)
    else
      var affected := Downstream(s.dag.tasks, root);
      Ok(Commit(s.(tasks := RollbackTasks(s.tasks, root, affected, reason), decisions := s.decisions + [Decision("rollback", reason, affected)],
                   finalReport := None, finalPaper := None, terminal := false), s.version))
  }

  /** `rollback` as the program runs it: the loop, then the list of records. */
  method RunRollback(s: State, root: string, reason: string) returns (r: Result<State>)
    requires Aligned(s) && UniqueIds(s.dag.tasks)
    ensures r == Rollback(s, root, reason)
  {
    if s.terminal {
      return Err(ValueError);
    }
    var at := NodeIndex(s.dag.tasks, root);
    if at.None? {
      return Err(ValueError);
    }
    var affected := Affected(s.dag.tasks, root);
    assert affected == Downstream(s.dag.tasks, root);
    var tasks: seq<Record> := [];
    var i := 0;
    while i < |s.tasks|
      invariant 0 <= i <= |s.tasks|
      invariant |tasks| == i && forall k | 0 <= k < i :: tasks[k] == RollbackRecord(s.tasks[k], root, affected, reason)
    {
      tasks := tasks + [RollbackRecord(s.tasks[i], root, affected, reason)];
      i := i + 1;
    }
    assert tasks == RollbackTasks(s.tasks, root, affected, reason);
    r := Ok(Commit(s.(tasks := tasks, decisions := s.decisions + [Decision("rollback", reason, affected)],
                      finalReport := None, finalPaper := None, terminal := false), s.version));
  }

  // ---------- replan ----------

  /** The new node is the old node, and the old task was COMPLETED. */
  predicate Kept(s: State, node: Node)
    requires Aligned(s)
  {
    exists i :: 0 <= i < |s.tasks| && s.dag.tasks[i] == node && s.tasks[i].status == Completed
  }

  function KeptIds(s: State, dag: Table): set<string>
    requires Aligned(s)
  {
    set node | node in dag.tasks && Kept(s, node) :: node.id
  }

  function ReplanRecord(s: State, node: Node, kept: set<string>): Record
    requires Aligned(s)
  {
    match NodeIndex(s.dag.tasks, node.id)
    case Some(i) =>
      if node.id in kept then s.tasks[i]
      else Record(node.id, if DepsDone(node, kept) then Ready else Blocked, 0, None, None)
    case None => Record(node.id, if DepsDone(node, kept) then Ready else Blocked, 0, None, None)
  }

  /** Ids added, removed or changed. */
  function ChangedIds(before: seq<Node>, after: seq<Node>): set<string> {
    (set n | n in before && n !in after :: n.id) + (set n | n in after && n !in before :: n.id)
  }

  function Replan(s: State, dag: Table, reason: string): Result<State>
    requires Aligned(s)
  {
    if s.terminal then Err(ValueError)
    else
      var kept := KeptIds(s, dag);
      var tasks := seq(|dag.tasks|, i requires 0 <= i < |dag.tasks| => ReplanRecord(s, dag.tasks[i], kept));
      var changed := ChangedIds(s.dag.tasks, dag.tasks);
      Ok(Commit(s.(dag := dag, tasks := tasks, decisions := s.decisions + [Decision("replan", reason, changed)],
                   finalReport := None, finalPaper := None, terminal := false), s.version))
  }

  /** `{item.task_id: item for item in state.tasks}`. */
  function ById(tasks: seq<Record>): map<string, Record>
    decreases |tasks|
  {
    if tasks == [] then map[]
    else ById(tasks[..|tasks| - 1])[tasks[|tasks| - 1].taskId := tasks[|tasks| - 1]]
  }

  ghost predicate DistinctRecords(tasks: seq<Record>) {
    forall i, j | 0 <= i < j < |tasks| :: tasks[i].taskId != tasks[j].taskId
  }

  lemma {:induction false} ByIdAt(tasks: seq<Record>, i: nat)
    requires DistinctRecords(tasks) && i < |tasks|
    ensures tasks[i].taskId in ById(tasks) && ById(tasks)[tasks[i].taskId] == tasks[i]
    decreases |tasks|
  {
    if i < |tasks| - 1 {
      ByIdAt(tasks[..|tasks| - 1], i);
    }
  }

  /** The dictionary after the first k nodes were visited. */
  ghost predicate HalfUnlocked(nodes: seq<Node>, tasks: seq<Record>, byId: map<string, Record>, k: nat)
    requires |nodes| == |tasks|
  {
    forall i | 0 <= i < |tasks| :: tasks[i].taskId in byId &&
      byId[tasks[i].taskId] == if i < k then UnlockRecord(nodes[i], tasks[i], Done(tasks)) else tasks[i]
  }

  ghost predicate SameIds(nodes: seq<Node>, tasks: seq<Record>) {
    |nodes| == |tasks| && forall i | 0 <= i < |tasks| :: tasks[i].taskId == nodes[i].id
  }

  /** A lookup of a dependency sees COMPLETED exactly when the table had it COMPLETED: unlocking completes nothing. */
  lemma LookupSeesCompleted(nodes: seq<Node>, tasks: seq<Record>, byId: map<string, Record>, k: nat, d: string)
    requires SameIds(nodes, tasks) && UniqueIds(nodes) && HalfUnlocked(nodes, tasks, byId, k) && d in Ids(nodes)
    ensures d in byId && (byId[d].status == Completed <==> d in Done(tasks))
  {
    var t :| t in nodes && t.id == d;
    var i :| 0 <= i < |nodes| && nodes[i] == t;
    assert tasks[i].taskId == d;
    if d in Done(tasks) {
      var r :| r in tasks && r.status == Completed && r.taskId == d;
      var j :| 0 <= j < |tasks| && tasks[j] == r;
      assert nodes[j].id == nodes[i].id;
      assert i == j;
    }
  }

  lemma UnlockStep(nodes: seq<Node>, tasks: seq<Record>, byId: map<string, Record>, k: nat)
    requires SameIds(nodes, tasks) && UniqueIds(nodes) && k < |tasks| && HalfUnlocked(nodes, tasks, byId, k)
    ensures HalfUnlocked(nodes, tasks, byId[nodes[k].id := UnlockRecord(nodes[k], tasks[k], Done(tasks))], k + 1)
  {
  }

  /** `_unlock_dependents` as the program runs it: a dictionary updated while it is read. */
  method RunUnlock(dag: Table, tasks: seq<Record>) returns (r: seq<Record>)
    requires SameIds(dag.tasks, tasks) && UniqueIds(dag.tasks)
    requires forall i, d | 0 <= i < |tasks| && d in dag.tasks[i].dependsOn :: d in Ids(dag.tasks)
    ensures r == Unlock(dag, tasks)
  {
    var byId := ById(tasks);
    forall i | 0 <= i < |tasks| ensures tasks[i].taskId in byId && byId[tasks[i].taskId] == tasks[i] {
      ByIdAt(tasks, i);
    }
    var k := 0;
    while k < |tasks|
      invariant 0 <= k <= |tasks|
      invariant HalfUnlocked(dag.tasks, tasks, byId, k)
    {
      byId := UnlockOne(dag.tasks, tasks, byId, k);
      k := k + 1;
    }
    r := seq(|tasks|, i requires 0 <= i < |tasks| && tasks[i].taskId in byId => byId[tasks[i].taskId]);
  }

  method UnlockOne(nodes: seq<Node>, tasks: seq<Record>, byId0: map<string, Record>, k: nat)
    returns (byId: map<string, Record>)
    requires SameIds(nodes, tasks) && UniqueIds(nodes) && k < |tasks| && HalfUnlocked(nodes, tasks, byId0, k)
    requires forall d | d in nodes[k].dependsOn :: d in Ids(nodes)
    ensures HalfUnlocked(nodes, tasks, byId, k + 1)
  {
    byId := byId0;
    var node := nodes[k];
    assert tasks[k].taskId == node.id;
    var current := byId[node.id];
    forall d | d in node.dependsOn ensures d in byId && (byId[d].status == Completed <==> d in Done(tasks)) {
      LookupSeesCompleted(nodes, tasks, byId, k, d);
    }
    UnlockStep(nodes, tasks, byId, k);
    if current.status == Blocked && forall d | d in node.dependsOn :: byId[d].status == Completed {
      byId := byId[node.id := current.(status := Ready)];
    } else {
      assert byId == byId[node.id := UnlockRecord(node, tasks[k], Done(tasks))];
    }
  }
}
