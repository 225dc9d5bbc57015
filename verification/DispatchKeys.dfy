/** The idempotency keys under which `dispatch` calls the solve tool. A key names the task and the number of the attempt,
    and a replan may start the attempts of a task anew: then a key comes back, and the tool runtime answers with the
    result it has on record for it. */
module DispatchKeys {
  import opened Wrappers
  import opened Dag
  import opened DagValidator
  import opened Scheduler
  import opened SchedulerInvariants
  import opened SchedulerExamples
  import Json
  import JsonRoundTrip
  import ToolStore
  import Tools

  /** What a key is made of, within one run of the harness. */
  datatype Key = Key(task: string, attempt: nat)

  function KeyText(run: string, k: Key): string {
    "main-harness:" + run + ":" + (k.task + (":attempt" + ("-" + Json.IntText(k.attempt))))
  }

  // ---------- the text of a key ----------

  lemma {:induction false} DigitsHaveNoDash(n: nat)
    ensures '-' !in Json.Digits(n)
  {
    if n >= 10 { DigitsHaveNoDash(n / 10); }
  }

  lemma SameNumber(m: nat, n: nat)
    requires Json.IntText(m) == Json.IntText(n)
    ensures m == n
  {
    JsonRoundTrip.ParsePrintedInt(m, []);
    JsonRoundTrip.ParsePrintedInt(n, []);
    assert Json.IntText(m) + [] == Json.IntText(n) + [];
  }

  /** A text ends in one way only in a dash and something without a dash. */
  lemma LastDash(a: string, c: string, b: string, d: string)
    requires a + ("-" + c) == b + ("-" + d) && '-' !in c && '-' !in d
    ensures a == b && c == d
  {
    var s, t := a + ("-" + c), b + ("-" + d);
    if |a| != |b| { DashInside(a, c, b, d); }
    assert a == s[..|a|] && b == t[..|b|];
    assert c == s[|a| + 1..] && d == t[|b| + 1..];
  }

  /** A later dash lies in what follows the earlier one. */
  lemma DashInside(a: string, c: string, b: string, d: string)
    requires a + ("-" + c) == b + ("-" + d) && |a| != |b|
    ensures '-' in c || '-' in d
  {
    var s, t := a + ("-" + c), b + ("-" + d);
    assert s[|a|] == '-' && t[|b|] == '-';
    if |a| < |b| {
      assert s[|b|] == c[|b| - |a| - 1];
    } else {
      assert t[|a|] == d[|a| - |b| - 1];
    }
  }

  /** Within a run, equal texts are equal keys. */
  lemma KeyTextIsInjective(run: string, k: Key, l: Key)
    requires KeyText(run, k) == KeyText(run, l)
    ensures k == l
  {
    var head := "main-harness:" + run + ":";
    var s, t := k.task + (":attempt" + ("-" + Json.IntText(k.attempt))), l.task + (":attempt" + ("-" + Json.IntText(l.attempt)));
    assert s == KeyText(run, k)[|head|..] && t == KeyText(run, l)[|head|..];
    DigitsHaveNoDash(k.attempt);
    DigitsHaveNoDash(l.attempt);
    assert s == (k.task + ":attempt") + ("-" + Json.IntText(k.attempt));
    assert t == (l.task + ":attempt") + ("-" + Json.IntText(l.attempt));
    LastDash(k.task + ":attempt", Json.IntText(k.attempt), l.task + ":attempt", Json.IntText(l.attempt));
    SameNumber(k.attempt, l.attempt);
    assert k.task == (k.task + ":attempt")[..|k.task|] && l.task == (l.task + ":attempt")[..|l.task|];
  }

  // ---------- attempts, one operation at a time ----------

  /** The attempt column of a task, and 0 for a task that is not in the table. */
  function AttemptsOf(s: State, x: string): nat
    requires Aligned(s)
  {
    match NodeIndex(s.dag.tasks, x)
    case None => 0
    case Some(i) => s.tasks[i].attempts
  }

  /** The operation calls the solve tool for this task. */
  ghost predicate Dispatches(s: State, op: Op, x: string)
    requires Aligned(s)
  {
    op.OpDispatch? && op.id == x && Dispatch(s, x, op.solved).Ok?
  }

  ghost function KeyOf(s: State, op: Op): Key
    requires Aligned(s) && op.OpDispatch?
  {
    Key(op.id, AttemptsOf(s, op.id) + 1)
  }

  /** The operation is a replan that starts an attempted task anew, or drops it. */
  ghost predicate Resets(s: State, op: Op, x: string)
    requires Aligned(s)
  {
    op.OpReplan? && Replan(s, op.dag, op.replanReason).Ok? && AttemptsOf(s, x) > 0 && x !in KeptIds(s, op.dag)
  }

  lemma AttemptsAt(s: State, k: nat)
    requires Aligned(s) && UniqueIds(s.dag.tasks) && k < |s.tasks|
    ensures NodeIndex(s.dag.tasks, s.dag.tasks[k].id) == Some(k)
    ensures AttemptsOf(s, s.dag.tasks[k].id) == s.tasks[k].attempts
  {
    var i := NodeIndex(s.dag.tasks, s.dag.tasks[k].id);
    assert i.Some?;
    assert s.dag.tasks[i.value].id == s.dag.tasks[k].id;
  }

  /** Two states with one table: the columns agree where the records do. */
  lemma SameTable(s: State, t: State, x: string)
    requires Aligned(s) && Aligned(t) && t.dag == s.dag
    requires forall k | 0 <= k < |s.tasks| && s.dag.tasks[k].id == x :: t.tasks[k].attempts == s.tasks[k].attempts
    ensures AttemptsOf(t, x) == AttemptsOf(s, x)
  {
  }

  /** After a dispatch every record has the attempts it had, but the dispatched one has one more. */
  lemma DispatchRecords(s: State, i: nat, solved: Solved)
    requires Aligned(s) && UniqueIds(s.dag.tasks) && i < |s.tasks|
    ensures var t := AfterSolve(s, i, solved);
      && Aligned(t) && t.dag == s.dag
      && forall k | 0 <= k < |s.tasks| :: t.tasks[k].attempts == s.tasks[k].attempts + if k == i then 1 else 0
  {
    RecordsDistinct(s);
    SolvedRecordOutcome(s.tasks[i], solved);
  }

  lemma OneMore(s: State, t: State, i: nat, x: string)
    requires Aligned(s) && Aligned(t) && t.dag == s.dag && UniqueIds(s.dag.tasks) && i < |s.tasks|
    requires forall k | 0 <= k < |s.tasks| :: t.tasks[k].attempts == s.tasks[k].attempts + if k == i then 1 else 0
    ensures AttemptsOf(t, x) == AttemptsOf(s, x) + if x == s.dag.tasks[i].id then 1 else 0
  {
    AttemptsAt(s, i);
  }

  lemma DispatchCounts(s: State, id: string, solved: Solved, x: string)
    requires Aligned(s) && UniqueIds(s.dag.tasks) && Dispatch(s, id, solved).Ok?
    ensures var t := Dispatch(s, id, solved).value;
      Aligned(t) && AttemptsOf(t, x) == AttemptsOf(s, x) + if x == id then 1 else 0
  {
    var i := DispatchIsAfterSolve(s, id, solved);
    DispatchRecords(s, i, solved);
    OneMore(s, AfterSolve(s, i, solved), i, x);
  }

  lemma PublishCounts(s: State, report: string, paper: string, valid: bool, x: string)
    requires Inv(s) && Publish(s, report, paper, valid).Ok?
    ensures var t := Publish(s, report, paper, valid).value; Aligned(t) && AttemptsOf(t, x) == AttemptsOf(s, x)
  {
    PublishedTasks(s, report, paper, valid);
    var i := TerminalPosition(s);
    RecordsDistinct(s);
    SameTable(s, Publish(s, report, paper, valid).value, x);
  }

  lemma RollbackRecords(tasks: seq<Record>, root: string, affected: set<string>, reason: string)
    ensures var t := RollbackTasks(tasks, root, affected, reason);
      |t| == |tasks| && forall k | 0 <= k < |tasks| :: t[k].attempts == tasks[k].attempts && t[k].taskId == tasks[k].taskId
  {
  }

  lemma RollbackCounts(s: State, root: string, reason: string, x: string)
    requires Aligned(s) && Rollback(s, root, reason).Ok?
    ensures var t := Rollback(s, root, reason).value; Aligned(t) && AttemptsOf(t, x) == AttemptsOf(s, x)
  {
    RollbackRecords(s.tasks, root, Downstream(s.dag.tasks, root), reason);
    SameTable(s, Rollback(s, root, reason).value, x);
  }

  lemma KeptIsInTable(s: State, dag: Table, x: string)
    requires Aligned(s) && NodeIndex(dag.tasks, x).None?
    ensures x !in KeptIds(s, dag)
  {
    forall node | node in dag.tasks ensures node.id != x {
      var k :| 0 <= k < |dag.tasks| && dag.tasks[k] == node;
    }
  }

  lemma ReplanCounts(s: State, dag: Table, reason: string, x: string)
    requires Inv(s) && ValidTable(dag) && Replan(s, dag, reason).Ok?
    ensures var t := Replan(s, dag, reason).value;
      Aligned(t) && AttemptsOf(t, x) == if x in KeptIds(s, dag) then AttemptsOf(s, x) else 0
  {
    ReplanDone(s, dag, reason);
    var t := Replan(s, dag, reason).value;
    match NodeIndex(dag.tasks, x) {
      case None => KeptIsInTable(s, dag, x);
      case Some(k) =>
        assert t.tasks[k] == ReplanRecord(s, dag.tasks[k], KeptIds(s, dag));
        if x in KeptIds(s, dag) {
          var node :| node in dag.tasks && Kept(s, node) && node.id == x;
          var i :| 0 <= i < |s.tasks| && s.dag.tasks[i] == node;
          AttemptsAt(s, i);
        }
    }
  }

  /** What an operation makes of a task's attempt column. */
  lemma OpCounts(s: State, op: Op, x: string)
    requires Inv(s) && OpValid(op)
    ensures Aligned(Apply(s, op))
    ensures AttemptsOf(Apply(s, op), x) ==
      if Dispatches(s, op, x) then AttemptsOf(s, x) + 1 else if Resets(s, op, x) then 0 else AttemptsOf(s, x)
  {
    match op {
      case OpDispatch(id, solved) => if Dispatch(s, id, solved).Ok? { DispatchCounts(s, id, solved, x); }
      case OpPublish(report, paper, valid) => if Publish(s, report, paper, valid).Ok? { PublishCounts(s, report, paper, valid, x); }
      case OpRollback(root, reason) => if Rollback(s, root, reason).Ok? { RollbackCounts(s, root, reason, x); }
      case OpReplan(dag, reason) => if Replan(s, dag, reason).Ok? { ReplanCounts(s, dag, reason, x); }
    }
  }

  // ---------- a column that counts up, and may be reset ----------

  /** A column, where it counts up, and where it is reset from a number above zero. */
  ghost predicate Counts(column: seq<nat>, ups: seq<bool>, resets: seq<bool>) {
    && |ups| == |resets| == |column| - 1 && column[0] == 0
    && forall k: nat | k < |ups| :: CountsAt(column, ups, resets, k)
  }

  ghost predicate CountsAt(column: seq<nat>, ups: seq<bool>, resets: seq<bool>, k: nat)
    requires |ups| == |resets| == |column| - 1 && k < |ups|
  {
    && column[k + 1] == (if ups[k] then column[k] + 1 else if resets[k] then 0 else column[k])
    && (resets[k] ==> column[k] > 0)
  }

  /** It never counts up twice from the same number. */
  ghost predicate NeverTwice(column: seq<nat>, ups: seq<bool>)
    requires |ups| < |column|
  {
    forall i, j | 0 <= i < j < |ups| && ups[i] && ups[j] :: column[i] != column[j]
  }

  ghost predicate NoUpAfterReset(ups: seq<bool>, resets: seq<bool>)
    requires |ups| == |resets|
  {
    forall r, j | 0 <= r < j < |ups| && resets[r] :: !ups[j]
  }

  /** To get from zero above zero it counts up from zero. */
  lemma {:induction false} UpFromZero(column: seq<nat>, ups: seq<bool>, resets: seq<bool>, first: nat, last: nat) returns (i: nat)
    requires Counts(column, ups, resets) && first <= last < |column| && column[first] == 0 < column[last]
    ensures first <= i < last && ups[i] && column[i] == 0
    decreases last
  {
    assert CountsAt(column, ups, resets, last - 1);
    if column[last - 1] > 0 {
      i := UpFromZero(column, ups, resets, first, last - 1);
    } else {
      i := last - 1;
    }
  }

  /** To fall it is reset. */
  lemma {:induction false} ResetToFall(column: seq<nat>, ups: seq<bool>, resets: seq<bool>, first: nat, last: nat) returns (r: nat)
    requires Counts(column, ups, resets) && first <= last < |column| && column[last] < column[first]
    ensures first <= r < last && resets[r]
    decreases last
  {
    assert CountsAt(column, ups, resets, last - 1);
    if column[last - 1] < column[first] {
      r := ResetToFall(column, ups, resets, first, last - 1);
    } else {
      r := last - 1;
    }
  }

  lemma UpAfterResetIsTwice(column: seq<nat>, ups: seq<bool>, resets: seq<bool>, r: nat, j: nat)
    requires Counts(column, ups, resets) && r < j < |ups| && resets[r] && !ups[r] && ups[j]
    ensures !NeverTwice(column, ups)
  {
    assert CountsAt(column, ups, resets, r);
    var i := UpFromZero(column, ups, resets, 0, r);
    var k := j;
    if column[j] > 0 { k := UpFromZero(column, ups, resets, r + 1, j); }
    assert i < k && ups[i] && ups[k] && column[i] == column[k];
  }

  lemma NeverTwiceIff(column: seq<nat>, ups: seq<bool>, resets: seq<bool>)
    requires Counts(column, ups, resets) && forall k | 0 <= k < |ups| :: !(ups[k] && resets[k])
    ensures NeverTwice(column, ups) <==> NoUpAfterReset(ups, resets)
  {
    if NeverTwice(column, ups) {
      forall r, j | 0 <= r < j < |ups| && resets[r] ensures !ups[j] {
        if ups[j] { UpAfterResetIsTwice(column, ups, resets, r, j); }
      }
    } else {
      var i, j :| 0 <= i < j < |ups| && ups[i] && ups[j] && column[i] == column[j];
      assert CountsAt(column, ups, resets, i);
      var r := ResetToFall(column, ups, resets, i + 1, j);
      assert resets[r] && ups[j];
    }
  }

  // ---------- over a run ----------

  ghost predicate Shaped(states: seq<State>, ops: seq<Op>) {
    |states| == |ops| + 1 && forall s | s in states :: Aligned(s)
  }

  ghost function Column(states: seq<State>, x: string): (c: seq<nat>)
    requires forall s | s in states :: Aligned(s)
    ensures |c| == |states|
  {
    seq(|states|, k requires 0 <= k < |states| => AttemptsOf(states[k], x))
  }

  ghost function Ups(states: seq<State>, ops: seq<Op>, x: string): seq<bool>
    requires Shaped(states, ops)
  {
    seq(|ops|, k requires 0 <= k < |ops| => Dispatches(states[k], ops[k], x))
  }

  ghost function ResetsOf(states: seq<State>, ops: seq<Op>, x: string): seq<bool>
    requires Shaped(states, ops)
  {
    seq(|ops|, k requires 0 <= k < |ops| => Resets(states[k], ops[k], x))
  }

  lemma OpColumn(s: State, op: Op, t: State, x: string)
    requires Inv(s) && IsOp(s, op, t)
    ensures Aligned(t)
    ensures AttemptsOf(t, x) ==
      if Dispatches(s, op, x) then AttemptsOf(s, x) + 1 else if Resets(s, op, x) then 0 else AttemptsOf(s, x)
  {
    OpCounts(s, op, x);
  }

  lemma StepColumn(dag: Table, states: seq<State>, ops: seq<Op>, k: nat, x: string)
    requires ValidTable(dag) && IsRun(dag, states, ops) && k < |ops|
    ensures CountsAt(Column(states, x), Ups(states, ops, x), ResetsOf(states, ops, x), k)
  {
    RunKeepsInv(dag, states, ops, k);
    var n := k + 1;
    assert IsStep(states, ops, n);
    OpColumn(states[k], ops[k], states[n], x);
  }

  lemma RunCounts(dag: Table, states: seq<State>, ops: seq<Op>, x: string)
    requires ValidTable(dag) && IsRun(dag, states, ops)
    ensures Counts(Column(states, x), Ups(states, ops, x), ResetsOf(states, ops, x))
  {
    FirstIsZero(dag, states, ops, x);
    var c, u, z := Column(states, x), Ups(states, ops, x), ResetsOf(states, ops, x);
    forall k: nat | k < |u| ensures CountsAt(c, u, z, k) {
      StepColumn(dag, states, ops, k, x);
    }
  }

  lemma FirstIsZero(dag: Table, states: seq<State>, ops: seq<Op>, x: string)
    requires IsRun(dag, states, ops)
    ensures Column(states, x)[0] == 0
  {
    StartsAtZero(dag, x);
  }

  lemma StartsAtZero(dag: Table, x: string)
    ensures Aligned(Start(dag)) && AttemptsOf(Start(dag), x) == 0
  {
  }

  /** No two calls of the solve tool for this task use one key: a key names the task and its attempt column plus one. */
  ghost predicate KeysDistinct(states: seq<State>, ops: seq<Op>, x: string)
    requires Shaped(states, ops)
  {
    forall i, j | 0 <= i < j < |ops| && Dispatches(states[i], ops[i], x) && Dispatches(states[j], ops[j], x) ::
      KeyOf(states[i], ops[i]) != KeyOf(states[j], ops[j])
  }

  /** No replan resets this task after an attempt, if it is dispatched later. */
  ghost predicate NoResetIsDispatched(states: seq<State>, ops: seq<Op>, x: string)
    requires Shaped(states, ops)
  {
    forall r, j | 0 <= r < j < |ops| && Resets(states[r], ops[r], x) :: !Dispatches(states[j], ops[j], x)
  }

  /** For one task: its keys are pairwise different if and only if no replan resets it after an attempt and it is
      dispatched again. */
  lemma KeysDistinctIff(dag: Table, states: seq<State>, ops: seq<Op>, x: string)
    requires ValidTable(dag) && IsRun(dag, states, ops)
    ensures KeysDistinct(states, ops, x) <==> NoResetIsDispatched(states, ops, x)
  {
    var c, u, z := Column(states, x), Ups(states, ops, x), ResetsOf(states, ops, x);
    RunCounts(dag, states, ops, x);
    NeverTwiceIff(c, u, z);
    AsColumns(states, ops, x);
  }

  lemma AsColumns(states: seq<State>, ops: seq<Op>, x: string)
    requires Shaped(states, ops)
    ensures KeysDistinct(states, ops, x) <==> NeverTwice(Column(states, x), Ups(states, ops, x))
    ensures NoResetIsDispatched(states, ops, x) <==> NoUpAfterReset(Ups(states, ops, x), ResetsOf(states, ops, x))
  {
    var c, u, z := Column(states, x), Ups(states, ops, x), ResetsOf(states, ops, x);
    if NeverTwice(c, u) {
      forall i, j | 0 <= i < j < |ops| && Dispatches(states[i], ops[i], x) && Dispatches(states[j], ops[j], x)
        ensures KeyOf(states[i], ops[i]) != KeyOf(states[j], ops[j])
      {
        assert u[i] && u[j] && c[i] != c[j];
      }
    }
    if KeysDistinct(states, ops, x) {
      forall i, j | 0 <= i < j < |u| && u[i] && u[j] ensures c[i] != c[j] {
        assert KeyOf(states[i], ops[i]) != KeyOf(states[j], ops[j]);
      }
    }
    if NoUpAfterReset(u, z) {
      forall r, j | 0 <= r < j < |ops| && Resets(states[r], ops[r], x) ensures !Dispatches(states[j], ops[j], x) {
        assert z[r] && !u[j];
      }
    }
    if NoResetIsDispatched(states, ops, x) {
      forall r, j | 0 <= r < j < |u| && z[r] ensures !u[j] {
        assert !Dispatches(states[j], ops[j], x);
      }
    }
  }

  /** The operation calls the solve tool. */
  ghost predicate Calls(s: State, op: Op)
    requires Aligned(s)
  {
    op.OpDispatch? && Dispatches(s, op, op.id)
  }

  /** The texts of the idempotency keys of all dispatches of a run are pairwise different. */
  ghost predicate TextsDistinct(run: string, states: seq<State>, ops: seq<Op>)
    requires Shaped(states, ops)
  {
    forall i, j | 0 <= i < j < |ops| && Calls(states[i], ops[i]) && Calls(states[j], ops[j]) ::
      KeyText(run, KeyOf(states[i], ops[i])) != KeyText(run, KeyOf(states[j], ops[j]))
  }

  lemma TextsAreKeys(run: string, states: seq<State>, ops: seq<Op>)
    requires Shaped(states, ops)
    ensures TextsDistinct(run, states, ops) <==> forall x :: KeysDistinct(states, ops, x)
  {
    if TextsDistinct(run, states, ops) {
      forall x, i, j | 0 <= i < j < |ops| && Dispatches(states[i], ops[i], x) && Dispatches(states[j], ops[j], x)
        ensures KeyOf(states[i], ops[i]) != KeyOf(states[j], ops[j])
      {
        assert Calls(states[i], ops[i]) && Calls(states[j], ops[j]);
      }
    }
    if forall x :: KeysDistinct(states, ops, x) {
      forall i, j | 0 <= i < j < |ops| && Calls(states[i], ops[i]) && Calls(states[j], ops[j])
        ensures KeyText(run, KeyOf(states[i], ops[i])) != KeyText(run, KeyOf(states[j], ops[j]))
      {
        assert KeysDistinct(states, ops, ops[i].id);
        if KeyText(run, KeyOf(states[i], ops[i])) == KeyText(run, KeyOf(states[j], ops[j])) {
          KeyTextIsInjective(run, KeyOf(states[i], ops[i]), KeyOf(states[j], ops[j]));
        }
      }
    }
  }

  /** Over every run of operations: the idempotency keys of all dispatches are pairwise different if and only if no replan
      resets an attempted task that is dispatched again. */
  lemma DispatchKeysDistinctIff(run: string, dag: Table, states: seq<State>, ops: seq<Op>)
    requires ValidTable(dag) && IsRun(dag, states, ops)
    ensures TextsDistinct(run, states, ops) <==> forall x :: NoResetIsDispatched(states, ops, x)
  {
    TextsAreKeys(run, states, ops);
    forall x ensures KeysDistinct(states, ops, x) <==> NoResetIsDispatched(states, ops, x) {
      KeysDistinctIff(dag, states, ops, x);
    }
  }

  // ---------- a key that comes back ----------

  const SOLVED := Reported("r", SolveCompleted, None)

  lemma FirstCanDispatch(s: State, spec: string, solved: Solved)
    requires s.dag == Example(spec) && Aligned(s) && s.tasks[0].status == Ready
    ensures Dispatch(s, "a", solved).Ok?
  {
    assert s.dag.tasks[0].id == "a";
    var i := NodeIndex(s.dag.tasks, "a");
    assert i == Some(0);
  }

  /** The contract changed, so the record is new: READY, and no attempts. */
  lemma ChangedIsReset(s: State)
    requires s.dag == Example("a") && Inv(s) && Replan(s, Example("changed"), "new").Ok?
    ensures "a" !in KeptIds(s, Example("changed"))
    ensures var t := Replan(s, Example("changed"), "new").value;
      t.dag == Example("changed") && Aligned(t) && t.tasks[0].status == Ready && AttemptsOf(t, "a") == 0
  {
    var dag := Example("changed");
    ExampleIsValid("changed");
    assert dag.tasks[0].spec != s.dag.tasks[0].spec;
    forall node | node in dag.tasks && Kept(s, node) ensures node.id != "a" {
      assert dag.tasks[0].id == "a" && dag.tasks[1].id == "b" && dag.tasks[2].id == "p";
    }
    ReplanDone(s, dag, "new");
    ReplanOne(s, dag, 0);
    ReplanCounts(s, dag, "new", "a");
    assert dag.tasks[0].dependsOn == [];
  }

  lemma DispatchIsOp(s: State, x: string, solved: Solved)
    requires Aligned(s) && UniqueIds(s.dag.tasks) && Dispatch(s, x, solved).Ok?
    ensures var op, t := OpDispatch(x, solved), Dispatch(s, x, solved).value;
      && IsOp(s, op, t) && Aligned(t) && Dispatches(s, op, x)
      && KeyOf(s, op) == Key(x, AttemptsOf(s, x) + 1) && AttemptsOf(t, x) == AttemptsOf(s, x) + 1
  {
    DispatchCounts(s, x, solved, x);
  }

  lemma ReplanIsOp(s: State, dag: Table, reason: string, x: string)
    requires Aligned(s) && ValidTable(dag) && Replan(s, dag, reason).Ok? && AttemptsOf(s, x) > 0 && x !in KeptIds(s, dag)
    ensures IsOp(s, OpReplan(dag, reason), Replan(s, dag, reason).value) && Resets(s, OpReplan(dag, reason), x)
  {
  }

  /** The first task of a fresh run is solved. */
  lemma FirstSolve() returns (t: State)
    ensures var s := Start(Example("a"));
      && Inv(s) && Dispatch(s, "a", SOLVED).Ok? && t == Dispatch(s, "a", SOLVED).value && AttemptsOf(s, "a") == 0
    ensures Inv(t) && t.dag == Example("a") && !t.terminal
  {
    var s := Start(Example("a"));
    ExampleIsValid("a");
    StartKeepsInv(Example("a"));
    StartsAtZero(Example("a"), "a");
    FirstCanDispatch(s, "a", SOLVED);
    DispatchKeepsInv(s, "a", SOLVED);
    var i := DispatchIsAfterSolve(s, "a", SOLVED);
    DispatchTarget(s, i);
    t := Dispatch(s, "a", SOLVED).value;
  }

  lemma SecondCanSolve(s: State)
    requires s.dag == Example("changed") && Aligned(s) && s.tasks[0].status == Ready
    ensures UniqueIds(s.dag.tasks) && Dispatch(s, "a", SOLVED).Ok?
  {
    ExampleGraph("changed");
    FirstCanDispatch(s, "changed", SOLVED);
  }

  /** The first task is solved, and the plan then changes its contract. */
  lemma PlanChanges() returns (plan: Table, s1: State, dag: Table, s2: State)
    ensures ValidTable(plan) && Inv(Start(plan)) && AttemptsOf(Start(plan), "a") == 0
    ensures Dispatch(Start(plan), "a", SOLVED).Ok? && s1 == Dispatch(Start(plan), "a", SOLVED).value && Inv(s1)
    ensures ValidTable(dag) && Replan(s1, dag, "new").Ok? && s2 == Replan(s1, dag, "new").value && "a" !in KeptIds(s1, dag)
    ensures Aligned(s2) && UniqueIds(s2.dag.tasks) && AttemptsOf(s2, "a") == 0 && Dispatch(s2, "a", SOLVED).Ok?
  {
    plan, dag := Example("a"), Example("changed");
    s1 := FirstSolve();
    ExampleIsValid("a");
    ExampleIsValid("changed");
    ChangedIsReset(s1);
    s2 := Replan(s1, dag, "new").value;
    SecondCanSolve(s2);
  }

  /** The run of three operations: the first task is solved, the plan changes its contract, and it is solved again. Both
      dispatches call the tool under one key. */
  lemma KeyComesBack() returns (plan: Table, dag: Table, s1: State, s2: State, s3: State)
    ensures var s0, solve, replan := Start(plan), OpDispatch("a", SOLVED), OpReplan(dag, "new");
      && ValidTable(plan) && Aligned(s0) && Aligned(s1) && Aligned(s2)
      && IsOp(s0, solve, s1) && IsOp(s1, replan, s2) && IsOp(s2, solve, s3)
      && Dispatches(s0, solve, "a") && Resets(s1, replan, "a") && Dispatches(s2, solve, "a")
      && KeyOf(s0, solve) == KeyOf(s2, solve)
  {
    plan, s1, dag, s2 := PlanChanges();
    DispatchIsOp(Start(plan), "a", SOLVED);
    ReplanIsOp(s1, dag, "new", "a");
    DispatchIsOp(s2, "a", SOLVED);
    s3 := Dispatch(s2, "a", SOLVED).value;
  }

  /** What the tool runtime makes of a key that comes back: once its first result is on record, the second call gets that
      result, whatever the handler would answer now, and the handler does not run. */
  method SolveTwice(runtime: Tools.ToolRuntime, run: string, k: Key, now: int, later: int, token: string, other: string,
                    first: ToolStore.ToolResult, second: ToolStore.ToolResult)
    returns (r1: ToolStore.ToolResult, r2: ToolStore.ToolResult, ran: bool)
    requires runtime.Valid() && runtime.MayRun(KeyText(run, k), now)
    modifies runtime, runtime.store
    ensures runtime.Valid()
    ensures r1 == r2 == first && !ran
    ensures runtime.Runs(KeyText(run, k)) == old(runtime.Runs(KeyText(run, k))) + 1
  {
    var once;
    r1, once := runtime.Execute("1", KeyText(run, k), now, token, first, false);
    r2, ran := runtime.Execute("2", KeyText(run, k), later, other, second, false);
  }
}
