/** Building blocks for concrete runs of the workflow: from any state, one worker's steps put together to whole calls
    of `run_step`. Times are texts of one digit; leases taken at "5" last until "9". */
module WorkflowCourses {
  import opened Wrappers
  import opened Strings
  import opened Contracts
  import opened Store
  import opened Workflow
  import WorkflowRaces

  const ALICE := Proc("A", "q")

  /** Where a run starts, whether only `ALICE` and the environment act in it, and how often each of her stages fails
      before it succeeds. */
  datatype Course = Course(cfg: Config, from: System, solo: bool, fails: nat)

  ghost predicate Allowed(co: Course, a: Action) {
    co.solo ==> WorkflowRaces.Actor(a).None? || WorkflowRaces.Actor(a) == Some(ALICE)
  }

  predicate Plays(co: Course, p: Proc) {
    co.solo ==> p == ALICE
  }

  ghost predicate IsStep(co: Course, trace: seq<System>, actions: seq<Action>, i: nat)
    requires |trace| == |actions| + 1 && i < |actions|
  {
    Allowed(co, actions[i]) && trace[i + 1] == Next(co.cfg, trace[i], actions[i])
  }

  /** The states that the actions lead through. */
  ghost predicate IsTrace(co: Course, trace: seq<System>, actions: seq<Action>) {
    && |trace| == |actions| + 1 && trace[0] == co.from
    && forall i: nat | i < |actions| :: IsStep(co, trace, actions, i)
  }

  ghost predicate Reachable(co: Course, sys: System) {
    exists trace, actions :: IsTrace(co, trace, actions) && trace[|actions|] == sys
  }

  lemma {:induction false} TraceIsRun(co: Course, trace: seq<System>, actions: seq<Action>)
    requires IsTrace(co, trace, actions) && co.from == START
    ensures trace[|actions|] == Workflow.After(co.cfg, actions)
    decreases |actions|
  {
    if actions != [] {
      var n := |actions| - 1;
      assert IsStep(co, trace, actions, n);
      FrontIsTrace(co, trace, actions);
      TraceIsRun(co, trace[..n + 1], actions[..n]);
    }
  }

  lemma FrontIsTrace(co: Course, trace: seq<System>, actions: seq<Action>)
    requires IsTrace(co, trace, actions) && actions != []
    ensures IsTrace(co, trace[..|actions|], actions[..|actions| - 1])
  {
    var n := |actions| - 1;
    var front, less := trace[..n + 1], actions[..n];
    forall i: nat | i < n ensures IsStep(co, front, less, i) {
      assert IsStep(co, trace, actions, i);
    }
  }

  /** A state with a trace from the start is the state after some sequence of actions. */
  lemma ReachableIsRun(co: Course, sys: System) returns (actions: seq<Action>)
    requires Reachable(co, sys) && co.from == START
    ensures sys == Workflow.After(co.cfg, actions)
  {
    var trace;
    trace, actions :| IsTrace(co, trace, actions) && trace[|actions|] == sys;
    TraceIsRun(co, trace, actions);
  }

  lemma StartIsReachable(co: Course)
    ensures Reachable(co, co.from)
  {
    assert IsTrace(co, [co.from], []);
  }

  lemma Go(co: Course, sys: System, a: Action) returns (next: System)
    requires Reachable(co, sys) && Allowed(co, a)
    ensures Reachable(co, next) && next == Next(co.cfg, sys, a)
  {
    var trace, actions :| IsTrace(co, trace, actions) && trace[|actions|] == sys;
    next := Next(co.cfg, sys, a);
    var longer, more := trace + [next], actions + [a];
    forall i: nat | i < |more| ensures IsStep(co, longer, more, i) {
      if i < |actions| { assert IsStep(co, trace, actions, i); }
    }
    assert IsTrace(co, longer, more) && longer[|more|] == next;
  }

  /** `p` alone moved, and only the question's row may have changed. */
  ghost predicate OnlyRow(sys: System, next: System, p: Proc, row: Question, pc: Pc) {
    && next.tables.projects == sys.tables.projects
    && next.tables.activities == sys.tables.activities
    && next.tables.questions == sys.tables.questions[p.question := row]
    && next.procs == sys.procs[p := pc] && next.ends == sys.ends
  }

  /** The question's row, ready for `p` to take or keep the lease at time "5". */
  ghost predicate Free(sys: System, p: Proc) {
    && p.question in sys.tables.questions
    && (var row := sys.tables.questions[p.question];
        && row.projectId in sys.tables.projects
        && (row.leaseOwner == None || row.leaseOwner == Some(p.worker) || row.leaseExpires == Some("2")))
    && PcOf(sys, p).Idle?
  }

  // ---------- one worker's run_step, from the free question to its decision ----------

  lemma Later()
    ensures Less("2", "5") && !Less("5", "2") && Less("5", "9") && !Less("9", "5") && Less("1", "2") && !Less("2", "1")
    ensures Leq("5", "9")
  {
  }

  lemma Take(co: Course, sys: System, p: Proc) returns (next: System)
    requires Reachable(co, sys) && Free(sys, p) && Plays(co, p)
    ensures Reachable(co, next)
    ensures OnlyRow(sys, next, p,
                    sys.tables.questions[p.question].(leaseOwner := Some(p.worker), leaseExpires := Some("9")), Leased)
  {
    Later();
    next := Go(co, sys, ActAcquire(p, "5", "9"));
  }

  lemma LoadRow(co: Course, sys: System, p: Proc) returns (next: System)
    requires Reachable(co, sys) && PcOf(sys, p).Leased? && p.question in sys.tables.questions && Plays(co, p)
    ensures Reachable(co, next)
    ensures var row := sys.tables.questions[p.question];
      OnlyRow(sys, next, p, row, Loaded(Snapshot(row.state, row.revision)))
  {
    next := Go(co, sys, ActLoad(p));
    assert sys.tables.questions[p.question := sys.tables.questions[p.question]] == sys.tables.questions;
  }

  /** The row of a question whose lease `p` holds until `until`. */
  predicate Held(sys: System, p: Proc, until: string) {
    p.question in sys.tables.questions
    && sys.tables.questions[p.question].leaseOwner == Some(p.worker)
    && sys.tables.questions[p.question].leaseExpires == Some(until)
  }

  lemma EnterFresh(co: Course, sys: System, p: Proc, now: string, until: string) returns (next: System)
    requires Reachable(co, sys) && Held(sys, p, until) && until != "" && !Less(until, now) && Plays(co, p)
    requires var row := sys.tables.questions[p.question];
      && PcOf(sys, p) == Loaded(Snapshot(row.state, row.revision))
      && EntryOf(row.state).Some? && EntryOf(row.state).value.target != row.state
    ensures Reachable(co, next)
    ensures var row := sys.tables.questions[p.question];
      var entry := EntryOf(row.state).value;
      OnlyRow(sys, next, p, row.(state := entry.target, failureReason := None, version := row.version + 1), Entered(entry.stage))
  {
    next := Go(co, sys, ActEnter(p, now));
  }

  /** The question is in its executing state already: no transition and no second look. */
  lemma EnterAgain(co: Course, sys: System, p: Proc) returns (next: System)
    requires Reachable(co, sys) && p.question in sys.tables.questions && Plays(co, p)
    requires var row := sys.tables.questions[p.question];
      && PcOf(sys, p) == Loaded(Snapshot(row.state, row.revision))
      && EntryOf(row.state).Some? && EntryOf(row.state).value.target == row.state
    ensures Reachable(co, next) && next.tables == sys.tables && next.ends == sys.ends
    ensures var row := sys.tables.questions[p.question];
      next.procs == sys.procs[p := Staged(Snapshot(row.state, row.revision), EntryOf(row.state).value.stage)]
  {
    next := Go(co, sys, ActEnter(p, "5"));
  }

  lemma ReadAgain(co: Course, sys: System, p: Proc) returns (next: System)
    requires Reachable(co, sys) && PcOf(sys, p).Entered? && p.question in sys.tables.questions && Plays(co, p)
    ensures Reachable(co, next)
    ensures var row := sys.tables.questions[p.question];
      OnlyRow(sys, next, p, row, Staged(Snapshot(row.state, row.revision), PcOf(sys, p).stage))
  {
    next := Go(co, sys, ActReload(p));
    assert sys.tables.questions[p.question := sys.tables.questions[p.question]] == sys.tables.questions;
  }

  /** Only the activities and `p` moved. */
  ghost predicate OnlyActivity(sys: System, next: System, p: Proc, id: Uuid, row: Activity, pc: Pc) {
    && next.tables.projects == sys.tables.projects
    && next.tables.questions == sys.tables.questions
    && next.tables.activities == sys.tables.activities[id := row]
    && next.procs == sys.procs[p := pc] && next.ends == sys.ends
  }

  ghost predicate NoneYet(sys: System, q: Uuid, stage: Stage, revision: int) {
    forall i | i in sys.tables.activities :: !HasKey(sys.tables.activities[i], q, stage, revision)
  }

  /** The one row of its key. */
  ghost predicate Sole(sys: System, q: Uuid, stage: Stage, revision: int, id: Uuid) {
    && id in sys.tables.activities && HasKey(sys.tables.activities[id], q, stage, revision)
    && forall i | i in sys.tables.activities && HasKey(sys.tables.activities[i], q, stage, revision) :: i == id
  }

  lemma Create(co: Course, sys: System, p: Proc, id: Uuid) returns (next: System)
    requires Reachable(co, sys) && PcOf(sys, p).Staged? && p.question in sys.tables.questions && Plays(co, p)
    requires sys.tables.questions[p.question].projectId in sys.tables.projects
    requires id !in sys.tables.activities && NoneYet(sys, p.question, PcOf(sys, p).stage, PcOf(sys, p).q.revision)
    ensures Reachable(co, next)
    ensures var pc := PcOf(sys, p);
      OnlyActivity(sys, next, p, id,
                   Activity(sys.tables.questions[p.question].projectId, p.question, pc.stage, pc.q.revision, StatusPending,
                            0, None, None, None, None, None, "5"),
                   Claiming(pc.q, pc.stage, id))
    ensures Sole(next, p.question, PcOf(sys, p).stage, PcOf(sys, p).q.revision, id)
  {
    next := Go(co, sys, ActStage(p, id, "5"));
  }

  /** The activity is there already, and open. */
  lemma Join(co: Course, sys: System, p: Proc, id: Uuid) returns (next: System)
    requires Reachable(co, sys) && PcOf(sys, p).Staged? && p.question in sys.tables.questions && Plays(co, p)
    requires Sole(sys, p.question, PcOf(sys, p).stage, PcOf(sys, p).q.revision, id)
    requires sys.tables.activities[id].status != Succeeded
    ensures Reachable(co, next) && next.tables == sys.tables && next.ends == sys.ends
    ensures next.procs == sys.procs[p := Claiming(PcOf(sys, p).q, PcOf(sys, p).stage, id)]
  {
    next := Go(co, sys, ActStage(p, id, "5"));
  }

  /** An activity with `n` failed attempts, and one left. */
  predicate Claimable(co: Course, sys: System, id: Uuid, n: int) {
    && id in sys.tables.activities && sys.tables.activities[id].attempts == n < co.cfg.maxAttempts
    && (sys.tables.activities[id].status == StatusPending || sys.tables.activities[id].status == StatusFailed)
  }

  function ClaimedRow(row: Activity, p: Proc): Activity {
    row.(status := Running, attempts := row.attempts + 1, request := Some(""), error := None,
         worker := Some(p.worker), leaseExpires := Some("9"))
  }

  lemma Claim(co: Course, sys: System, p: Proc, n: nat) returns (next: System)
    requires Reachable(co, sys) && PcOf(sys, p).Claiming? && Claimable(co, sys, PcOf(sys, p).activity, n) && Plays(co, p)
    ensures Reachable(co, next)
    ensures var pc := PcOf(sys, p);
      OnlyActivity(sys, next, p, pc.activity, ClaimedRow(sys.tables.activities[pc.activity], p),
                   Executing(pc.q, pc.stage, pc.activity, n + 1))
  {
    next := Go(co, sys, ActClaim(p, "5", "9", ""));
  }

  lemma Execute(co: Course, sys: System, p: Proc, response: Response) returns (next: System)
    requires Reachable(co, sys) && PcOf(sys, p).Executing? && Acceptable(co.cfg, PcOf(sys, p).stage, response) && Plays(co, p)
    ensures Reachable(co, next) && next.tables == sys.tables && next.ends == sys.ends
    ensures var pc := PcOf(sys, p); next.procs == sys.procs[p := Committing(pc.q, pc.stage, pc.activity, pc.attempt, response)]
  {
    next := Go(co, sys, ActExecute(p, response));
  }

  predicate ClaimedBy(sys: System, p: Proc, id: Uuid, n: nat) {
    && id in sys.tables.activities
    && sys.tables.activities[id].worker == Some(p.worker) && sys.tables.activities[id].attempts == n
    && sys.tables.activities[id].status == Running && sys.tables.activities[id].leaseExpires == Some("9")
  }

  lemma Complete(co: Course, sys: System, p: Proc) returns (next: System)
    requires Reachable(co, sys) && PcOf(sys, p).Committing? && ClaimedBy(sys, p, PcOf(sys, p).activity, PcOf(sys, p).attempt)
    requires Plays(co, p)
    ensures Reachable(co, next)
    ensures var pc := PcOf(sys, p);
      OnlyActivity(sys, next, p, pc.activity,
                   sys.tables.activities[pc.activity].(status := Succeeded, result := Some(pc.response), worker := None, leaseExpires := None),
                   Deciding(pc.q, pc.stage, pc.activity, pc.response))
  {
    Later();
    next := Go(co, sys, ActComplete(p, "5", []));
  }

  /** `claim_activity` returned the row another worker committed, and the worker executes all the same. */
  lemma LateWorker(co: Course, s0: System, p: Proc, response: Response) returns (sys: System)
    requires Reachable(co, s0) && PcOf(s0, p).Claiming? && Acceptable(co.cfg, PcOf(s0, p).stage, response) && Plays(co, p)
    requires var id := PcOf(s0, p).activity; id in s0.tables.activities && s0.tables.activities[id].status == Succeeded
    ensures Reachable(co, sys) && sys.tables == s0.tables && sys.ends == s0.ends
    ensures var pc := PcOf(s0, p); sys.procs == s0.procs[p := Deciding(pc.q, pc.stage, pc.activity, response)]
  {
    var s1 := Go(co, s0, ActClaim(p, "5", "9", ""));
    var s2 := Execute(co, s1, p, response);
    sys := Go(co, s2, ActComplete(p, "5", []));
  }

  // ---------- Alice's stages ----------

  function ProjectOf(sys: System): Uuid {
    if "q" in sys.tables.questions then sys.tables.questions["q"].projectId else ""
  }

  ghost predicate Ready(sys: System, state: QuestionState, revision: int) {
    && Free(sys, ALICE)
    && sys.tables.questions["q"].state == state && sys.tables.questions["q"].revision == revision
  }

  ghost predicate Holding(sys: System, state: QuestionState, revision: int) {
    && Held(sys, ALICE, "9")
    && sys.tables.questions["q"].projectId in sys.tables.projects
    && sys.tables.questions["q"].state == state && sys.tables.questions["q"].revision == revision
  }

  /** Alice leases the question and reads it. */
  lemma TakeAndLoad(co: Course, s: System, state: QuestionState, revision: int) returns (sys: System)
    requires Reachable(co, s) && Ready(s, state, revision)
    ensures Reachable(co, sys) && sys.tables.activities == s.tables.activities && Holding(sys, state, revision)
    ensures sys.procs == s.procs[ALICE := Loaded(Snapshot(state, revision))] && sys.ends == s.ends
    ensures ProjectOf(sys) == ProjectOf(s)
  {
    var s1 := Take(co, s, ALICE);
    sys := LoadRow(co, s1, ALICE);
  }

  /** Where a state leads, if it has a stage. */
  function EntryFor(state: QuestionState): Entry {
    if EntryOf(state).Some? then EntryOf(state).value else Entry(ModelingStage, state)
  }

  /** Alice leases the question and reaches the point where she looks for its activity. */
  lemma Arrive(co: Course, s: System, state: QuestionState, revision: int) returns (sys: System)
    requires Reachable(co, s) && Ready(s, state, revision) && EntryOf(state).Some?
    ensures var entry := EntryFor(state);
      && Reachable(co, sys) && sys.tables.activities == s.tables.activities && Holding(sys, entry.target, revision)
      && sys.procs == s.procs[ALICE := Staged(Snapshot(entry.target, revision), entry.stage)] && sys.ends == s.ends
    ensures ProjectOf(sys) == ProjectOf(s)
  {
    var s1 := TakeAndLoad(co, s, state, revision);
    if state == EntryFor(state).target {
      sys := EnterAgain(co, s1, ALICE);
    } else {
      Later();
      var s2 := EnterFresh(co, s1, ALICE, "5", "9");
      sys := ReadAgain(co, s2, ALICE);
    }
  }

  /** The row after `n` more failed attempts. */
  function TriedRow(row: Activity, n: nat): Activity {
    if n == 0 then row
    else row.(status := StatusFailed, attempts := row.attempts + n, request := Some(""), error := Some(""),
              worker := None, leaseExpires := None)
  }

  /** The activities after `n` more failed attempts at one of them. */
  function Tried(activities: map<Uuid, Activity>, id: Uuid, n: nat): map<Uuid, Activity> {
    if id in activities then activities[id := TriedRow(activities[id], n)] else activities
  }

  function TriedOnce(activities: map<Uuid, Activity>, id: Uuid): map<Uuid, Activity> {
    Tried(activities, id, 1)
  }

  lemma Raise(co: Course, s: System) returns (sys: System)
    requires Reachable(co, s) && PcOf(s, ALICE).Executing?
    ensures Reachable(co, sys) && sys.tables == s.tables && sys.ends == s.ends
    ensures var pc := PcOf(s, ALICE); sys.procs == s.procs[ALICE := Failing(pc.q, pc.stage, pc.activity, pc.attempt)]
  {
    sys := Go(co, s, ActRaise(ALICE));
  }

  /** The executor raises; the attempt is recorded as failed and the lease released. */
  lemma Fail(co: Course, s: System) returns (sys: System)
    requires Reachable(co, s) && PcOf(s, ALICE).Executing? && ClaimedBy(s, ALICE, PcOf(s, ALICE).activity, PcOf(s, ALICE).attempt)
    ensures Reachable(co, sys)
    ensures var pc := PcOf(s, ALICE);
      OnlyActivity(s, sys, ALICE, pc.activity,
                   s.tables.activities[pc.activity].(status := StatusFailed, error := Some(""), worker := None, leaseExpires := None),
                   Releasing(Raised))
  {
    Later();
    var s1 := Raise(co, s);
    sys := Go(co, s1, ActFail(ALICE, "5", ""));
  }

  function EndAt(pc: Pc): seq<StepEnd> {
    if pc.Releasing? then [pc.end] else []
  }

  lemma LetGo(co: Course, s: System, state: QuestionState, revision: int) returns (sys: System)
    requires Reachable(co, s) && Holding(s, state, revision) && PcOf(s, ALICE).Releasing?
    ensures Reachable(co, sys) && sys.tables.activities == s.tables.activities && sys.procs == s.procs[ALICE := Idle]
    ensures Ready(sys, state, revision) && EndsOf(sys, ALICE) == EndsOf(s, ALICE) + EndAt(PcOf(s, ALICE))
    ensures ProjectOf(sys) == ProjectOf(s)
  {
    sys := Go(co, s, ActRelease(ALICE));
  }

  /** Alice is about to claim `id`. */
  ghost predicate AboutTo(s: System, stage: Stage, revision: int, id: Uuid) {
    && Holding(s, ExecState(stage), revision) && Sole(s, "q", stage, revision, id)
    && PcOf(s, ALICE) == Claiming(Snapshot(ExecState(stage), revision), stage, id)
  }

  /** A failed attempt: one call of `run_step` ends with an exception. */
  lemma FailedCall(co: Course, s: System, stage: Stage, revision: int, id: Uuid, n: nat) returns (sys: System)
    requires Reachable(co, s) && AboutTo(s, stage, revision, id) && Claimable(co, s, id, n)
    ensures Reachable(co, sys) && Ready(sys, ExecState(stage), revision) && sys.procs == s.procs[ALICE := Idle]
    ensures sys.tables.activities == TriedOnce(s.tables.activities, id)
    ensures ProjectOf(sys) == ProjectOf(s)
  {
    var s1 := Claim(co, s, ALICE, n);
    var s2 := Fail(co, s1);
    sys := LetGo(co, s2, ExecState(stage), revision);
    assert sys.tables.activities == s.tables.activities[id := TriedRow(s.tables.activities[id], 1)];
    var pc := PcOf(s1, ALICE);
    assert s.procs[ALICE := pc][ALICE := Releasing(Raised)][ALICE := Idle] == s.procs[ALICE := Idle];
  }

  predicate IsOpen(s: System, id: Uuid) {
    id in s.tables.activities && s.tables.activities[id].status != Succeeded
  }

  /** The next call up to its claim. */
  lemma Return(co: Course, s: System, stage: Stage, revision: int, id: Uuid) returns (sys: System)
    requires Reachable(co, s) && Ready(s, ExecState(stage), revision) && Sole(s, "q", stage, revision, id)
    requires IsOpen(s, id)
    ensures Reachable(co, sys) && AboutTo(sys, stage, revision, id) && sys.tables.activities == s.tables.activities
    ensures sys.procs == s.procs[ALICE := Claiming(Snapshot(ExecState(stage), revision), stage, id)] && sys.ends == s.ends
    ensures ProjectOf(sys) == ProjectOf(s)
  {
    var s1 := TakeAndLoad(co, s, ExecState(stage), revision);
    var s2 := EnterAgain(co, s1, ALICE);
    sys := Join(co, s2, ALICE, id);
  }

  /** A failed attempt, and the next call up to its claim. */
  lemma FailOnce(co: Course, s: System, stage: Stage, revision: int, id: Uuid, n: nat) returns (sys: System)
    requires Reachable(co, s) && AboutTo(s, stage, revision, id) && Claimable(co, s, id, n)
    ensures Reachable(co, sys) && AboutTo(sys, stage, revision, id) && sys.procs == s.procs
    ensures sys.tables.activities == TriedOnce(s.tables.activities, id)
    ensures ProjectOf(sys) == ProjectOf(s)
  {
    var s1 := FailedCall(co, s, stage, revision, id, n);
    SameKeys(s, s1, stage, revision, id, TriedRow(s.tables.activities[id], 1));
    sys := Return(co, s1, stage, revision, id);
    assert s.procs[ALICE := Idle][ALICE := PcOf(s, ALICE)] == s.procs;
  }

  lemma SameKeys(s: System, next: System, stage: Stage, revision: int, id: Uuid, row: Activity)
    requires Sole(s, "q", stage, revision, id) && HasKey(row, "q", stage, revision)
    requires next.tables.activities == s.tables.activities[id := row]
    ensures Sole(next, "q", stage, revision, id)
  {
  }

  lemma {:induction false} FailTimes(co: Course, s: System, stage: Stage, revision: int, id: Uuid, n: nat, k: nat)
    returns (sys: System)
    requires Reachable(co, s) && AboutTo(s, stage, revision, id) && Claimable(co, s, id, n) && n + k < co.cfg.maxAttempts
    ensures Reachable(co, sys) && AboutTo(sys, stage, revision, id) && sys.procs == s.procs && Claimable(co, sys, id, n + k)
    ensures sys.tables.activities == Tried(s.tables.activities, id, k)
    ensures ProjectOf(sys) == ProjectOf(s)
    ensures k == 0 ==> sys == s
    decreases k
  {
    if k == 0 {
      sys := s;
    } else {
      var s1 := FailOnce(co, s, stage, revision, id, n);
      sys := FailTimes(co, s1, stage, revision, id, n + 1, k - 1);
    }
  }

  /** The row of an activity that succeeded after `fails` failed attempts. */
  function DoneRow(projectId: Uuid, stage: Stage, revision: int, fails: nat, response: Response): Activity {
    Activity(projectId, "q", stage, revision, Succeeded, fails + 1, Some(""), Some(response), None, None, None, "5")
  }

  /** The activities after one more attempt at one of them, which succeeds. */
  function Finished(activities: map<Uuid, Activity>, id: Uuid, response: Response): map<Uuid, Activity> {
    if id !in activities then activities
    else
      var row := activities[id];
      activities[id := row.(status := Succeeded, attempts := row.attempts + 1, request := Some(""), result := Some(response),
                            error := None, worker := None, leaseExpires := None)]
  }

  /** Alice claims, executes and commits an activity. */
  lemma RunClaimed(co: Course, s: System, stage: Stage, revision: int, id: Uuid, n: nat, response: Response) returns (sys: System)
    requires Reachable(co, s) && AboutTo(s, stage, revision, id) && Claimable(co, s, id, n) && Acceptable(co.cfg, stage, response)
    ensures Reachable(co, sys) && Holding(sys, ExecState(stage), revision) && sys.ends == s.ends
    ensures sys.tables.questions == s.tables.questions && sys.tables.projects == s.tables.projects
    ensures sys.tables.activities == Finished(s.tables.activities, id, response)
    ensures sys.procs == s.procs[ALICE := Deciding(Snapshot(ExecState(stage), revision), stage, id, response)]
  {
    var s1 := Claim(co, s, ALICE, n);
    var s2 := Execute(co, s1, ALICE, response);
    sys := Complete(co, s2, ALICE);
  }

  function NewRow(projectId: Uuid, stage: Stage, revision: int): Activity {
    Activity(projectId, "q", stage, revision, StatusPending, 0, None, None, None, None, None, "5")
  }

  predicate HasRow(s: System, id: Uuid, row: Activity) {
    id in s.tables.activities && s.tables.activities[id] == row
  }

  /** Alice leases the question and creates the activity of its stage. */
  lemma OpenStage(co: Course, s: System, state: QuestionState, revision: int, id: Uuid) returns (sys: System)
    requires Reachable(co, s) && Ready(s, state, revision) && EntryOf(state).Some? && co.fails < co.cfg.maxAttempts
    requires id !in s.tables.activities && NoneYet(s, "q", EntryFor(state).stage, revision)
    ensures var stage := EntryFor(state).stage;
      && Reachable(co, sys) && AboutTo(sys, stage, revision, id) && Claimable(co, sys, id, 0)
      && sys.procs == s.procs[ALICE := Claiming(Snapshot(ExecState(stage), revision), stage, id)] && sys.ends == s.ends
      && sys.tables.activities == s.tables.activities[id := NewRow(ProjectOf(s), stage, revision)]
    ensures ProjectOf(sys) == ProjectOf(s)
  {
    var s1 := Arrive(co, s, state, revision);
    sys := Create(co, s1, ALICE, id);
  }

  lemma NewToDone(row: Activity, n: nat, response: Response, activities: map<Uuid, Activity>, id: Uuid)
    requires row == NewRow(row.projectId, row.stage, row.revision)
    ensures Finished(Tried(activities[id := row], id, n), id, response)
      == activities[id := DoneRow(row.projectId, row.stage, row.revision, n, response)]
  {
    var tried := TriedRow(row, n);
    assert activities[id := row][id := tried] == activities[id := tried];
  }

  /** Alice's attempts at an activity just created. */
  lemma RunOpened(co: Course, s: System, stage: Stage, revision: int, id: Uuid, response: Response) returns (sys: System)
    requires Reachable(co, s) && AboutTo(s, stage, revision, id) && co.fails < co.cfg.maxAttempts
    requires Acceptable(co.cfg, stage, response)
    requires HasRow(s, id, NewRow(ProjectOf(s), stage, revision))
    ensures Reachable(co, sys) && Holding(sys, ExecState(stage), revision)
    ensures sys.tables.activities == s.tables.activities[id :=
              DoneRow(ProjectOf(s), stage, revision, co.fails, response)]
    ensures sys.procs == s.procs[ALICE := Deciding(Snapshot(ExecState(stage), revision), stage, id, response)]
    ensures co.fails == 0 ==> sys.ends == s.ends
  {
    var s1 := FailTimes(co, s, stage, revision, id, 0, co.fails);
    sys := RunClaimed(co, s1, stage, revision, id, co.fails, response);
    NewToDone(s.tables.activities[id], co.fails, response, s.tables.activities, id);
    assert s.tables.activities[id := s.tables.activities[id]] == s.tables.activities;
  }

  /** Alice leases the question, runs its stage, at last with success, and commits. */
  lemma RunStage(co: Course, s: System, state: QuestionState, revision: int, id: Uuid, response: Response) returns (sys: System)
    requires Reachable(co, s) && Ready(s, state, revision) && EntryOf(state).Some? && co.fails < co.cfg.maxAttempts
    requires id !in s.tables.activities && NoneYet(s, "q", EntryFor(state).stage, revision)
    requires Acceptable(co.cfg, EntryFor(state).stage, response)
    ensures var entry := EntryFor(state);
      && Reachable(co, sys) && Holding(sys, entry.target, revision)
      && sys.tables.activities == s.tables.activities[id :=
           DoneRow(ProjectOf(s), entry.stage, revision, co.fails, response)]
      && sys.procs == s.procs[ALICE := Deciding(Snapshot(entry.target, revision), entry.stage, id, response)]
    ensures co.fails == 0 ==> sys.ends == s.ends
  {
    var stage := EntryFor(state).stage;
    var s1 := OpenStage(co, s, state, revision, id);
    sys := RunOpened(co, s1, stage, revision, id, response);
    assert s.procs[ALICE := PcOf(s1, ALICE)][ALICE := PcOf(sys, ALICE)] == s.procs[ALICE := PcOf(sys, ALICE)];
  }

  /** Alice's last transition. */
  lemma MoveOn(co: Course, s: System, a: Action, state: QuestionState, target: QuestionState, revision: Option<int>)
    returns (sys: System)
    requires Reachable(co, s) && Held(s, ALICE, "9") && Holding(s, state, s.tables.questions["q"].revision) && Allowed(co, a)
    requires Next(co.cfg, s, a) == Transit(s, ALICE, "5", {state}, target, revision, None, Moved)
    ensures Reachable(co, sys) && sys.tables.activities == s.tables.activities && sys.procs == s.procs[ALICE := Moved]
    ensures Holding(sys, target, if revision.Some? then revision.value else s.tables.questions["q"].revision)
    ensures sys.ends == s.ends
  {
    Later();
    sys := Go(co, s, a);
  }

  lemma LookBack(co: Course, s: System, state: QuestionState, revision: int) returns (sys: System)
    requires Reachable(co, s) && Holding(s, state, revision) && PcOf(s, ALICE).Moved?
    ensures Reachable(co, sys) && sys.tables == s.tables && sys.ends == s.ends
    ensures sys.procs == s.procs[ALICE := Releasing(Returned(Ended(state)))]
  {
    sys := Go(co, s, ActReadBack(ALICE));
  }

  lemma LookAndLetGo(co: Course, s: System, state: QuestionState, revision: int) returns (sys: System)
    requires Reachable(co, s) && Holding(s, state, revision) && PcOf(s, ALICE).Moved?
    ensures Reachable(co, sys) && sys.tables.activities == s.tables.activities && sys.procs == s.procs[ALICE := Idle]
    ensures Ready(sys, state, revision) && EndsOf(sys, ALICE) == EndsOf(s, ALICE) + [Returned(Ended(state))]
  {
    var s1 := LookBack(co, s, state, revision);
    sys := LetGo(co, s1, state, revision);
    assert s.procs[ALICE := PcOf(s1, ALICE)][ALICE := Idle] == s.procs[ALICE := Idle];
  }

  /** The end of a modeling or coding stage. */
  lemma ConcludeStage(co: Course, s: System, state: QuestionState, target: QuestionState, revision: int) returns (sys: System)
    requires Reachable(co, s) && Holding(s, state, revision) && PcOf(s, ALICE).Deciding?
    requires (state == Modeling && target == ReadyForCoding && PcOf(s, ALICE).response.output.ModelingOutput?)
      || (state == Coding && target == ReadyForReview && PcOf(s, ALICE).response.output.CodingOutput?)
    ensures Reachable(co, sys) && Ready(sys, target, revision)
    ensures sys.tables.activities == s.tables.activities && sys.procs == s.procs[ALICE := Idle]
    ensures EndsOf(sys, ALICE) == EndsOf(s, ALICE) + [Returned(false)]
  {
    var s1 := MoveOn(co, s, ActDecide(ALICE, "5", None, None), state, target, None);
    sys := LookAndLetGo(co, s1, target, revision);
    assert s.procs[ALICE := Moved][ALICE := Idle] == s.procs[ALICE := Idle];
  }
}
