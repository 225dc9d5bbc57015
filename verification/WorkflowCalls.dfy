/** Several calls of `run_step` in flight for one worker id and one question. The workflow model gives each worker id
    one position per question; here every call has its own. With one call in flight per worker id and question the two
    models agree; with two the evidence gate can be passed on the evidence of an earlier revision. */
module WorkflowCalls {
  import opened Wrappers
  import opened Contracts
  import opened Store
  import opened Workflow
  import opened WorkflowSafety
  import opened WorkflowCourses
  import opened WorkflowExamples
  import opened NoRevisions
  import Strings
  import StoreRuns
  import WorkflowRaces

  /** A call of `run_step` by a worker id on a question. */
  datatype Invocation = Invocation(who: Proc, number: nat)

  /** The shared tables, and where every call stands. */
  datatype World = World(tables: Tables, calls: map<Invocation, Pc>)

  const EMPTY_WORLD := World(EMPTY, map[])

  function PcAt(w: World, c: Invocation): Pc {
    if c in w.calls then w.calls[c] else Idle
  }

  /** A call sees the tables and its own position; the store sees its worker id and question. */
  function View(w: World, c: Invocation): System {
    System(w.tables, map[c.who := PcAt(w, c)], map[], false)
  }

  datatype Deed = Deed(call: Invocation, action: Action)

  /** The call takes the action, which is its own or the environment's. */
  ghost function Act(cfg: Config, w: World, c: Invocation, a: Action): World {
    if WorkflowRaces.Actor(a).Some? && WorkflowRaces.Actor(a) != Some(c.who) then w
    else
      var next := Next(cfg, View(w, c), a);
      World(next.tables, w.calls[c := PcOf(next, c.who)])
  }

  ghost function AfterDeeds(cfg: Config, deeds: seq<Deed>): World
    decreases |deeds|
  {
    if deeds == [] then EMPTY_WORLD
    else
      var last := deeds[|deeds| - 1];
      Act(cfg, AfterDeeds(cfg, deeds[..|deeds| - 1]), last.call, last.action)
  }

  // ---------- one call at a time ----------

  /** At most one call in flight per worker id and question. */
  ghost predicate OneCall(w: World) {
    forall c, d | c in w.calls && d in w.calls && c.who == d.who && !w.calls[c].Idle? && !w.calls[d].Idle? :: c == d
  }

  ghost predicate OneCallAlways(cfg: Config, deeds: seq<Deed>) {
    forall n | 0 <= n <= |deeds| :: OneCall(AfterDeeds(cfg, deeds[..n]))
  }

  /** The workflow model's state for the calls. */
  ghost predicate Represents(w: World, sys: System) {
    && sys.tables == w.tables
    && (forall c | c in w.calls && !w.calls[c].Idle? :: PcOf(sys, c.who) == w.calls[c])
    && (forall p | !PcOf(sys, p).Idle? :: InFlight(w, p, PcOf(sys, p)))
  }

  ghost predicate InFlight(w: World, p: Proc, pc: Pc) {
    exists c :: c in w.calls && c.who == p && w.calls[c] == pc
  }

  // ---------- a step depends on the tables and the actor's own position ----------

  ghost predicate SameStep(cfg: Config, sys: System, v: System, a: Action, p: Proc) {
    Next(cfg, sys, a).tables == Next(cfg, v, a).tables && PcOf(Next(cfg, sys, a), p) == PcOf(Next(cfg, v, a), p)
  }

  predicate Alike(sys: System, v: System, p: Proc) {
    sys.tables == v.tables && PcOf(sys, p) == PcOf(v, p)
  }

  /** From like states, one step leads to like states. */
  lemma TransitByView(sys: System, v: System, p: Proc, now: string, expected: set<QuestionState>, target: QuestionState,
                      revision: Option<int>, reason: Option<string>, next: Pc)
    requires Alike(sys, v, p)
    ensures Alike(Transit(sys, p, now, expected, target, revision, reason, next),
                  Transit(v, p, now, expected, target, revision, reason, next), p)
  {
  }

  lemma AcquireByView(sys: System, v: System, p: Proc, now: string, expires: string)
    requires Alike(sys, v, p)
    ensures Alike(DoAcquire(sys, p, now, expires), DoAcquire(v, p, now, expires), p)
  {
  }

  lemma EnterByView(sys: System, v: System, p: Proc, q: Snapshot, now: string)
    requires Alike(sys, v, p)
    ensures Alike(DoEnter(sys, p, q, now), DoEnter(v, p, q, now), p)
  {
    if EntryOf(q.state).Some? {
      var entry := EntryOf(q.state).value;
      TransitByView(sys, v, p, now, {q.state}, entry.target, None, None, Entered(entry.stage));
    }
  }

  lemma StageByView(sys: System, v: System, p: Proc, q: Snapshot, stage: Stage, id: Uuid, now: string)
    requires Alike(sys, v, p)
    ensures Alike(DoStage(sys, p, q, stage, id, now), DoStage(v, p, q, stage, id, now), p)
  {
    if p.question in sys.tables.questions {
      var project := sys.tables.questions[p.question].projectId;
      var out := GetOrCreateActivity(sys.tables, p.question, project, q.revision, stage, id, now);
      assert out == GetOrCreateActivity(v.tables, p.question, project, q.revision, stage, id, now);
    }
  }

  lemma ClaimByView(cfg: Config, sys: System, v: System, p: Proc, pc: Pc, now: string, expires: string, request: string)
    requires Alike(sys, v, p) && pc.Claiming?
    ensures Alike(DoClaim(cfg, sys, p, pc.q, pc.stage, pc.activity, now, expires, request),
                  DoClaim(cfg, v, p, pc.q, pc.stage, pc.activity, now, expires, request), p)
  {
  }

  lemma ReadByView(cfg: Config, sys: System, v: System, a: Action, p: Proc)
    requires Alike(sys, v, p) && (a == ActLoad(p) || a == ActReload(p))
    ensures SameStep(cfg, sys, v, a, p)
  {
  }

  lemma FrontByView(cfg: Config, sys: System, v: System, a: Action, p: Proc)
    requires Alike(sys, v, p) && WorkflowRaces.Actor(a) == Some(p) && IsFront(a)
    ensures SameStep(cfg, sys, v, a, p)
  {
    var pc := PcOf(sys, p);
    match a {
      case ActAcquire(_, now, expires) => AcquireByView(sys, v, p, now, expires);
      case ActEnter(_, now) => if pc.Loaded? { EnterByView(sys, v, p, pc.q, now); }
      case ActStage(_, id, now) => if pc.Staged? { StageByView(sys, v, p, pc.q, pc.stage, id, now); }
      case ActClaim(_, now, expires, request) => if pc.Claiming? { ClaimByView(cfg, sys, v, p, pc, now, expires, request); }
      case ActGiveUp(_, now, reason) =>
        if pc.GivingUp? {
          TransitByView(sys, v, p, now, {pc.q.state}, Failed, None, Some(reason), Releasing(Returned(true)));
        }
      case _ => ReadByView(cfg, sys, v, a, p);
    }
  }

  lemma VerdictByView(cfg: Config, sys: System, v: System, p: Proc, pc: Pc, now: string, m: Option<Uuid>, c: Option<Uuid>)
    requires Alike(sys, v, p) && pc.Deciding? && pc.response.output.ReviewOutput? && PcOf(sys, p) == pc
    requires pc.response.output.approve
    ensures Alike(DoDecide(cfg, sys, p, pc, now, m, c), DoDecide(cfg, v, p, pc, now, m, c), p)
  {
  }

  lemma RejectByView(cfg: Config, sys: System, v: System, p: Proc, pc: Pc, now: string, m: Option<Uuid>, c: Option<Uuid>)
    requires Alike(sys, v, p) && pc.Deciding? && pc.response.output.ReviewOutput? && PcOf(sys, p) == pc
    requires !pc.response.output.approve
    ensures Alike(DoDecide(cfg, sys, p, pc, now, m, c), DoDecide(cfg, v, p, pc, now, m, c), p)
  {
    if pc.q.revision + 1 > cfg.maxRevisions {
      TransitByView(sys, v, p, now, {Reviewing}, Failed, None, Some(cfg.exhausted), Moved);
    } else {
      TransitByView(sys, v, p, now, {Reviewing}, RevisionRequired, Some(pc.q.revision + 1), None, Moved);
    }
  }

  lemma DecideByView(cfg: Config, sys: System, v: System, p: Proc, pc: Pc, now: string, m: Option<Uuid>, c: Option<Uuid>)
    requires Alike(sys, v, p) && pc.Deciding? && PcOf(sys, p) == pc
    ensures Alike(DoDecide(cfg, sys, p, pc, now, m, c), DoDecide(cfg, v, p, pc, now, m, c), p)
  {
    match pc.response.output {
      case ModelingOutput(_) => TransitByView(sys, v, p, now, {Modeling}, ReadyForCoding, None, None, Moved);
      case CodingOutput(_, _) => TransitByView(sys, v, p, now, {Coding}, ReadyForReview, None, None, Moved);
      case FinalizeOutput => TransitByView(sys, v, p, now, {Finalizing}, Completed, None, None, Moved);
      case ReviewOutput(approve) =>
        if approve { VerdictByView(cfg, sys, v, p, pc, now, m, c); } else { RejectByView(cfg, sys, v, p, pc, now, m, c); }
    }
  }

  lemma CompleteByView(sys: System, v: System, p: Proc, now: string, artifacts: seq<Artifact>)
    requires Alike(sys, v, p) && PcOf(sys, p).Committing?
    ensures Alike(DoComplete(sys, p, PcOf(sys, p), now, artifacts), DoComplete(v, p, PcOf(v, p), now, artifacts), p)
  {
  }

  lemma BackByView(cfg: Config, sys: System, v: System, a: Action, p: Proc)
    requires Alike(sys, v, p) && WorkflowRaces.Actor(a) == Some(p) && IsBack(a)
    ensures SameStep(cfg, sys, v, a, p)
  {
    var pc := PcOf(sys, p);
    match a {
      case ActDecide(_, now, m, c) => if pc.Deciding? { DecideByView(cfg, sys, v, p, pc, now, m, c); }
      case ActComplete(_, now, artifacts) => if pc.Committing? { CompleteByView(sys, v, p, now, artifacts); }
      case ActConclude(_, now, reason) => ConcludeByView(cfg, sys, v, p, now, reason);
      case ActFail(_, _, _) => FailByView(cfg, sys, v, a, p);
      case ActExecute(_, _) => ExecuteByView(cfg, sys, v, a, p);
      case ActRaise(_) => ExecuteByView(cfg, sys, v, a, p);
      case _ => SmallByView(cfg, sys, v, a, p);
    }
  }

  lemma ConcludeByView(cfg: Config, sys: System, v: System, p: Proc, now: string, reason: string)
    requires Alike(sys, v, p)
    ensures SameStep(cfg, sys, v, ActConclude(p, now, reason), p)
  {
    TransitByView(sys, v, p, now, {Reviewing}, Approved, None, None, Moved);
    TransitByView(sys, v, p, now, {Reviewing}, Failed, None, Some(reason), Moved);
  }

  lemma FailByView(cfg: Config, sys: System, v: System, a: Action, p: Proc)
    requires Alike(sys, v, p) && WorkflowRaces.Actor(a) == Some(p) && a.ActFail?
    ensures SameStep(cfg, sys, v, a, p)
  {
  }

  lemma ExecuteByView(cfg: Config, sys: System, v: System, a: Action, p: Proc)
    requires Alike(sys, v, p) && WorkflowRaces.Actor(a) == Some(p) && (a.ActExecute? || a.ActRaise?)
    ensures SameStep(cfg, sys, v, a, p)
  {
  }

  lemma SmallByView(cfg: Config, sys: System, v: System, a: Action, p: Proc)
    requires Alike(sys, v, p) && WorkflowRaces.Actor(a) == Some(p) && IsBack(a)
    requires a.ActReadBack? || a.ActRelease? || a.ActCrash?
    ensures SameStep(cfg, sys, v, a, p)
  {
  }

  lemma OutsideByView(cfg: Config, sys: System, v: System, a: Action, p: Proc)
    requires sys.tables == v.tables && !IsFront(a) && !IsBack(a)
    ensures Next(cfg, sys, a).tables == Next(cfg, v, a).tables && Next(cfg, sys, a).procs == sys.procs
    ensures Next(cfg, v, a).procs == v.procs
  {
  }

  lemma ByView(cfg: Config, sys: System, v: System, a: Action, p: Proc)
    requires Alike(sys, v, p) && (WorkflowRaces.Actor(a).Some? ==> WorkflowRaces.Actor(a) == Some(p))
    ensures SameStep(cfg, sys, v, a, p)
  {
    if IsFront(a) {
      FrontByView(cfg, sys, v, a, p);
    } else if IsBack(a) {
      BackByView(cfg, sys, v, a, p);
    } else {
      OutsideByView(cfg, sys, v, a, p);
    }
  }

  /** A call that is not in flight can only begin. */
  lemma IdleStep(cfg: Config, v: System, a: Action, p: Proc)
    requires PcOf(v, p).Idle? && WorkflowRaces.Actor(a) == Some(p) && (IsFront(a) || IsBack(a))
    ensures PcOf(Next(cfg, v, a), p).Idle? ==> Next(cfg, v, a).tables == v.tables
  {
  }

  // ---------- the simulation ----------

  /** The call's step is the worker's step. */
  lemma OwnCallStep(cfg: Config, w: World, sys: System, c: Invocation, a: Action)
    requires Represents(w, sys) && OneCall(w) && PcAt(w, c) == PcOf(sys, c.who)
    requires WorkflowRaces.Actor(a).Some? ==> WorkflowRaces.Actor(a) == Some(c.who)
    ensures Represents(Act(cfg, w, c, a), Next(cfg, sys, a))
  {
    var next, w' := Next(cfg, sys, a), Act(cfg, w, c, a);
    ByView(cfg, sys, View(w, c), a, c.who);
    forall p | p != c.who ensures PcOf(next, p) == PcOf(sys, p) {
      WorkflowRaces.OthersUntouched(cfg, sys, a, p);
    }
    MovedCall(w, w', sys, next, c);
  }

  lemma MovedCall(w: World, w': World, sys: System, next: System, c: Invocation)
    requires Represents(w, sys) && OneCall(w) && PcAt(w, c) == PcOf(sys, c.who)
    requires next.tables == w'.tables && w'.calls == w.calls[c := PcOf(next, c.who)]
    requires forall p | p != c.who :: PcOf(next, p) == PcOf(sys, p)
    ensures Represents(w', next)
  {
    forall p | !PcOf(next, p).Idle? ensures InFlight(w', p, PcOf(next, p)) {
      if p == c.who {
        assert c in w'.calls;
      } else {
        assert PcOf(next, p) == PcOf(sys, p) && InFlight(w, p, PcOf(sys, p));
        var d :| d in w.calls && d.who == p && w.calls[d] == PcOf(sys, p);
        assert d in w'.calls && w'.calls[d] == PcOf(next, p);
      }
    }
  }

  /** A call that is not in flight, while another one of its worker id is: it cannot begin without breaking the
      condition, and a heartbeat or the environment does not look at positions. */
  lemma OtherCallStep(cfg: Config, w: World, sys: System, c: Invocation, a: Action) returns (next: System)
    requires Represents(w, sys) && OneCall(Act(cfg, w, c, a)) && PcAt(w, c) != PcOf(sys, c.who)
    requires WorkflowRaces.Actor(a).Some? ==> WorkflowRaces.Actor(a) == Some(c.who)
    ensures Represents(Act(cfg, w, c, a), next) && (next == sys || next == Next(cfg, sys, a))
  {
    var w' := Act(cfg, w, c, a);
    var v := View(w, c);
    var d :| d in w.calls && d.who == c.who && w.calls[d] == PcOf(sys, c.who);
    assert PcAt(w, c).Idle? && d != c && d in w'.calls && !w'.calls[d].Idle?;
    assert c in w'.calls && w'.calls[c].Idle?;
    if IsFront(a) || IsBack(a) {
      IdleStep(cfg, v, a, c.who);
      next := sys;
    } else {
      OutsideByView(cfg, sys, v, a, c.who);
      next := Next(cfg, sys, a);
    }
    IdleCall(w, w', sys, next, c);
  }

  lemma IdleCall(w: World, w': World, sys: System, next: System, c: Invocation)
    requires Represents(w, sys) && PcAt(w, c).Idle?
    requires next.tables == w'.tables && next.procs == sys.procs && w'.calls == w.calls[c := Idle]
    ensures Represents(w', next)
  {
    forall p | !PcOf(next, p).Idle? ensures InFlight(w', p, PcOf(next, p)) {
      assert PcOf(next, p) == PcOf(sys, p) && InFlight(w, p, PcOf(sys, p));
      var d :| d in w.calls && d.who == p && w.calls[d] == PcOf(sys, p);
      assert d in w'.calls && w'.calls[d] == PcOf(next, p);
    }
  }

  lemma CallStep(cfg: Config, w: World, sys: System, c: Invocation, a: Action) returns (next: System)
    requires Represents(w, sys) && OneCall(w) && OneCall(Act(cfg, w, c, a))
    ensures Represents(Act(cfg, w, c, a), next) && (next == sys || next == Next(cfg, sys, a))
  {
    if WorkflowRaces.Actor(a).Some? && WorkflowRaces.Actor(a) != Some(c.who) {
      next := sys;
    } else if PcAt(w, c) == PcOf(sys, c.who) {
      OwnCallStep(cfg, w, sys, c, a);
      next := Next(cfg, sys, a);
    } else {
      next := OtherCallStep(cfg, w, sys, c, a);
    }
  }

  lemma FrontOfOneCall(cfg: Config, deeds: seq<Deed>, n: nat)
    requires OneCallAlways(cfg, deeds) && n <= |deeds|
    ensures OneCallAlways(cfg, deeds[..n])
  {
    var front := deeds[..n];
    forall k | 0 <= k <= |front| ensures OneCall(AfterDeeds(cfg, front[..k])) {
      assert front[..k] == deeds[..k];
    }
  }

  /** With one call in flight per worker id and question, a run of calls is a run of the workflow model: whatever
      holds of the tables after every interleaving there, holds here. */
  lemma {:induction false} OneCallIsWorkflow(cfg: Config, deeds: seq<Deed>) returns (actions: seq<Action>)
    requires OneCallAlways(cfg, deeds)
    ensures Represents(AfterDeeds(cfg, deeds), Workflow.After(cfg, actions))
    decreases |deeds|
  {
    if deeds == [] {
      actions := [];
    } else {
      var n := |deeds| - 1;
      FrontOfOneCall(cfg, deeds, n);
      var before := OneCallIsWorkflow(cfg, deeds[..n]);
      assert deeds[..|deeds|] == deeds && OneCall(AfterDeeds(cfg, deeds[..n]));
      var sys := Workflow.After(cfg, before);
      var next := CallStep(cfg, AfterDeeds(cfg, deeds[..n]), sys, deeds[n].call, deeds[n].action);
      if next == sys {
        actions := before;
      } else {
        actions := before + [deeds[n].action];
        assert actions[..|before|] == before;
      }
    }
  }

  /** The evidence gate, for calls: it holds if no worker id has two calls in flight on one question. */
  lemma EvidenceGateForCalls(cfg: Config, deeds: seq<Deed>, q: Uuid)
    requires OneCallAlways(cfg, deeds)
    ensures var t := AfterDeeds(cfg, deeds).tables;
      q in t.questions ==>
        && (t.questions[q].state in {Approved, Finalizing, Completed} ==> Evidence(t, q, t.questions[q].revision))
        && (t.questions[q].state == Completed ==> FinalEvidence(cfg, t, q, t.questions[q].revision))
  {
    var actions := OneCallIsWorkflow(cfg, deeds);
    EvidenceGate(cfg, actions, q);
  }

  // ---------- two calls of one worker id ----------

  const FIRST := Invocation(ALICE, 0)
  const SECOND := Invocation(ALICE, 1)

  ghost predicate OnlyTwo(deeds: seq<Deed>) {
    forall d | d in deeds :: d.call == FIRST || d.call == SECOND
  }

  ghost predicate Arises(cfg: Config, w: World) {
    exists deeds :: OnlyTwo(deeds) && w == AfterDeeds(cfg, deeds)
  }

  lemma GoOn(cfg: Config, w: World, c: Invocation, a: Action) returns (next: World)
    requires Arises(cfg, w) && (c == FIRST || c == SECOND)
    ensures Arises(cfg, next) && next == Act(cfg, w, c, a)
  {
    var deeds :| OnlyTwo(deeds) && w == AfterDeeds(cfg, deeds);
    var more := deeds + [Deed(c, a)];
    next := Act(cfg, w, c, a);
    assert more[..|deeds|] == deeds;
    assert OnlyTwo(more) && next == AfterDeeds(cfg, more);
  }

  /** The other call of the two. */
  function Other(c: Invocation): Invocation {
    if c == FIRST then SECOND else FIRST
  }

  /** The tables, and where the two calls stand, `c` first. */
  ghost predicate Stands(cfg: Config, t: Tables, c: Invocation, mine: Pc, other: Pc) {
    exists w :: Arises(cfg, w) && w.tables == t && PcAt(w, c) == mine && PcAt(w, Other(c)) == other
  }

  /** Whatever Alice can do from some state of the workflow model, one of her calls can do. */
  lemma {:induction false} Lift(co: Course, trace: seq<System>, actions: seq<Action>, c: Invocation, other: Pc)
    requires co.solo && IsTrace(co, trace, actions) && (c == FIRST || c == SECOND)
    requires Stands(co.cfg, co.from.tables, c, PcOf(co.from, ALICE), other)
    ensures Stands(co.cfg, trace[|actions|].tables, c, PcOf(trace[|actions|], ALICE), other)
    decreases |actions|
  {
    if actions != [] {
      var n := |actions| - 1;
      FrontIsTrace(co, trace, actions);
      Lift(co, trace[..n + 1], actions[..n], c, other);
      assert IsStep(co, trace, actions, n);
      LiftStep(co.cfg, trace[n], actions[n], c, other);
    }
  }

  lemma LiftStep(cfg: Config, sys: System, a: Action, c: Invocation, other: Pc)
    requires c == FIRST || c == SECOND
    requires WorkflowRaces.Actor(a).Some? ==> WorkflowRaces.Actor(a) == Some(ALICE)
    requires Stands(cfg, sys.tables, c, PcOf(sys, ALICE), other)
    ensures Stands(cfg, Next(cfg, sys, a).tables, c, PcOf(Next(cfg, sys, a), ALICE), other)
  {
    var w :| Arises(cfg, w) && w.tables == sys.tables && PcAt(w, c) == PcOf(sys, ALICE) && PcAt(w, Other(c)) == other;
    var next := GoOn(cfg, w, c, a);
    ByView(cfg, sys, View(w, c), a, ALICE);
  }

  lemma LiftAll(co: Course, sys: System, c: Invocation, other: Pc)
    requires co.solo && Reachable(co, sys) && (c == FIRST || c == SECOND)
    requires Stands(co.cfg, co.from.tables, c, PcOf(co.from, ALICE), other)
    ensures Stands(co.cfg, sys.tables, c, PcOf(sys, ALICE), other)
  {
    var trace, actions :| IsTrace(co, trace, actions) && trace[|actions|] == sys;
    Lift(co, trace, actions, c, other);
  }

  lemma Swap(cfg: Config, t: Tables, c: Invocation, mine: Pc, other: Pc)
    requires Stands(cfg, t, c, mine, other) && (c == FIRST || c == SECOND)
    ensures Stands(cfg, t, Other(c), other, mine)
  {
    var w :| Arises(cfg, w) && w.tables == t && PcAt(w, c) == mine && PcAt(w, Other(c)) == other;
    assert PcAt(w, Other(Other(c))) == mine;
  }

  /** Where the next part of the run starts, from what the call that moves sees. */
  function From(cfg: Config, t: Tables, pc: Pc): Course {
    Course(cfg, System(t, map[ALICE := pc], map[], false), true, 0)
  }

  const BAD := Response(CodingOutput(false, map[]), [], [], None, None)

  /** One committed modeling row, and one committed coding row, of revision 0, and no other such rows. */
  ghost predicate Modeled(t: Tables, m: Uuid, c: Uuid) {
    && IsCommitted(t, m, "q", ModelingStage) && t.activities[m].result == Some(MODEL)
    && IsCommitted(t, c, "q", CodingStage) && t.activities[c].result == Some(CODE) && t.activities[c].revision == 0
    && (forall i | i in t.activities && t.activities[i].stage == CodingStage :: i == c)
    && (forall i | i in t.activities && t.activities[i].stage == ModelingStage :: i == m)
  }

  function ReviewClaim(id: Uuid): Pc {
    Claiming(Snapshot(Reviewing, 0), ReviewStage, id)
  }

  /** The review activity of revision 0 is created and open. */
  ghost predicate ReviewOpen(cfg: Config, t: Tables, id: Uuid) {
    var s := From(cfg, t, ReviewClaim(id));
    AboutTo(s.from, ReviewStage, 0, id) && Claimable(s, s.from, id, 0)
  }

  lemma Beginning(cfg: Config)
    ensures Stands(cfg, EMPTY, SECOND, Idle, Idle)
  {
    assert EMPTY_WORLD == AfterDeeds(cfg, []) && OnlyTwo([]);
  }

  lemma ModeledRows(s: Tables, t: Tables, u: Tables, h: Past, c: Uuid, code: Activity, id: Uuid, review: Activity)
    requires History(s, h) && h.rows == 1 && c !in s.activities && t.activities == s.activities[c := code]
    requires code == DoneRow(code.projectId, CodingStage, 0, 0, CODE)
    requires id !in t.activities && u.activities == t.activities[id := review] && review.stage == ReviewStage
    ensures Modeled(u, h.model, c)
  {
    assert |s.activities.Keys| == |s.activities| == 1;
    assert |s.activities.Keys - {h.model}| == 0;
    assert s.activities.Keys == {h.model};
  }

  /** The second call models, codes, and creates the review activity, which it is about to claim. */
  lemma SecondOpensReview(cfg: Config) returns (t: Tables, c: Uuid, id: Uuid)
    requires cfg.maxAttempts >= 1
    ensures Stands(cfg, t, SECOND, ReviewClaim(id), Idle) && ReviewOpen(cfg, t, id) && Modeled(t, "m", c)
  {
    var co := Course(cfg, START, true, 0);
    var h := Past("m", 0, 1, {}, 1);
    var s1 := FirstModelAlone(co);
    var s2, row;
    s2, c, row := CodeRound(co, s1, ReadyForCoding, h, 1);
    RoundIsFree(s1, h, ReviewStage);
    ReviewIsFree(s1, s2, 0, c, row);
    id := Fresh(s2.tables.activities.Keys);
    var s3 := OpenStage(co, s2, ReadyForReview, 0, id);
    ModeledRows(s1.tables, s2.tables, s3.tables, h, c, row, id, s3.tables.activities[id]);
    Beginning(cfg);
    LiftAll(co, s3, SECOND, Idle);
    t := s3.tables;
  }

  /** The review row is committed; modeling and coding rows are as they were. */
  lemma ReviewedRows(s: Tables, t: Tables, m: Uuid, c: Uuid, id: Uuid)
    requires Modeled(s, m, c) && id in s.activities && s.activities[id].stage == ReviewStage
    requires id in t.activities && t.activities == s.activities[id := t.activities[id]] && t.activities[id].stage == ReviewStage
    ensures Modeled(t, m, c) && ReadsModeling(t, "q", Some(m)) && ReadsCoding(t, "q", 0, Some(c))
  {
    Strings.LessIrreflexive(t.activities[m].createdAt);
  }

  /** The first call joins, commits its approval, and passes the gate for revision 0. */
  lemma FirstPassesGate(cfg: Config, s: Tables, m: Uuid, c: Uuid, id: Uuid) returns (t: Tables)
    requires Stands(cfg, s, SECOND, ReviewClaim(id), Idle) && ReviewOpen(cfg, s, id) && Modeled(s, m, c)
    ensures Stands(cfg, t, FIRST, Approving(Snapshot(Reviewing, 0)), ReviewClaim(id)) && Modeled(t, m, c)
    ensures Holding(From(cfg, t, Idle).from, Reviewing, 0)
    ensures id in t.activities && t.activities[id].status == Succeeded
  {
    var co := From(cfg, s, Idle);
    StartIsReachable(co);
    var s1 := WorkflowCourses.Return(co, co.from, ReviewStage, 0, id);
    var s2 := RunClaimed(co, s1, ReviewStage, 0, id, 0, Verdict(true));
    ReviewedRows(s, s2.tables, m, c, id);
    var s3 := PassGate(co, s2, 0, id, m, c);
    Swap(cfg, s, SECOND, ReviewClaim(id), Idle);
    LiftAll(co, s3, FIRST, ReviewClaim(id));
    t := s3.tables;
  }

  /** The second call is handed the committed row, acts on its own rejection, and ends. */
  lemma SecondRejects(cfg: Config, s: Tables, id: Uuid) returns (t: Tables)
    requires Stands(cfg, s, SECOND, ReviewClaim(id), Approving(Snapshot(Reviewing, 0))) && cfg.maxRevisions >= 1
    requires Holding(From(cfg, s, Idle).from, Reviewing, 0) && id in s.activities && s.activities[id].status == Succeeded
    ensures Stands(cfg, t, SECOND, Idle, Approving(Snapshot(Reviewing, 0)))
    ensures Ready(From(cfg, t, Idle).from, RevisionRequired, 1) && t.activities == s.activities
  {
    var co := From(cfg, s, ReviewClaim(id));
    StartIsReachable(co);
    var s1 := LateWorker(co, co.from, ALICE, Verdict(false));
    var s2 := Reject(co, s1, 0, id);
    LiftAll(co, s2, SECOND, Approving(Snapshot(Reviewing, 0)));
    t := s2.tables;
  }

  /** Its next calls commit a failed execution for revision 1 and bring the question to review again. */
  lemma SecondCodesBadly(cfg: Config, s: Tables, m: Uuid, c: Uuid) returns (t: Tables, bad: Uuid)
    requires Stands(cfg, s, SECOND, Idle, Approving(Snapshot(Reviewing, 0))) && cfg.maxAttempts >= 1
    requires Ready(From(cfg, s, Idle).from, RevisionRequired, 1) && Modeled(s, m, c)
    ensures Stands(cfg, t, SECOND, Staged(Snapshot(Reviewing, 1), ReviewStage), Approving(Snapshot(Reviewing, 0)))
    ensures Holding(From(cfg, t, Idle).from, Reviewing, 1)
    ensures bad !in s.activities && bad in t.activities && t.activities == s.activities[bad := t.activities[bad]]
    ensures t.activities[bad].stage == CodingStage && t.activities[bad].result == Some(BAD)
  {
    var co := From(cfg, s, Idle);
    StartIsReachable(co);
    bad := Fresh(s.activities.Keys);
    var s1, row := CodeHalf(co, co.from, RevisionRequired, 1, bad, BAD);
    var s2 := Arrive(co, s1, ReadyForReview, 1);
    LiftAll(co, s2, SECOND, Approving(Snapshot(Reviewing, 0)));
    t := s2.tables;
  }

  /** The first call goes on: it owns the lease by its worker id, and the question is in review. */
  lemma FirstConcludes(cfg: Config, s: Tables, other: Pc) returns (t: Tables)
    requires Stands(cfg, s, FIRST, Approving(Snapshot(Reviewing, 0)), other)
    requires Holding(From(cfg, s, Idle).from, Reviewing, 1)
    ensures Stands(cfg, t, FIRST, Moved, other) && Holding(From(cfg, t, Idle).from, Approved, 1) && t.activities == s.activities
  {
    var co := From(cfg, s, Approving(Snapshot(Reviewing, 0)));
    StartIsReachable(co);
    var s1 := ApproveMove(co, co.from, 1);
    LiftAll(co, s1, FIRST, other);
    t := s1.tables;
  }

  /** Only the failed execution stands for revision 1. */
  lemma NoEvidence(s: Tables, t: Tables, m: Uuid, c: Uuid, bad: Uuid)
    requires Modeled(s, m, c) && bad !in s.activities && bad in t.activities
    requires t.activities == s.activities[bad := t.activities[bad]]
    requires t.activities[bad].stage == CodingStage && t.activities[bad].result == Some(BAD)
    ensures !Evidence(t, "q", 1)
  {
    forall i | IsCommitted(t, i, "q", CodingStage) && t.activities[i].revision == 1 ensures i == bad {
    }
  }

  /** With two calls of one worker id in flight, a question can become APPROVED without evidence: for all settings that
      allow a revision there is such a run. */
  lemma TwoCallsPassTheGate(cfg: Config) returns (deeds: seq<Deed>)
    requires cfg.maxAttempts >= 1 && cfg.maxRevisions >= 1
    ensures var t := AfterDeeds(cfg, deeds).tables;
      && OnlyTwo(deeds) && "q" in t.questions
      && t.questions["q"].state == Approved && !Evidence(t, "q", t.questions["q"].revision)
  {
    var approving := Approving(Snapshot(Reviewing, 0));
    var t1, c, id := SecondOpensReview(cfg);
    var t2 := FirstPassesGate(cfg, t1, "m", c, id);
    Swap(cfg, t2, FIRST, approving, ReviewClaim(id));
    var t3 := SecondRejects(cfg, t2, id);
    var t4, bad := SecondCodesBadly(cfg, t3, "m", c);
    Swap(cfg, t4, SECOND, Staged(Snapshot(Reviewing, 1), ReviewStage), approving);
    var t5 := FirstConcludes(cfg, t4, Staged(Snapshot(Reviewing, 1), ReviewStage));
    NoEvidence(t3, t5, "m", c, bad);
    deeds := StandsIsRun(cfg, t5, FIRST, Moved, Staged(Snapshot(Reviewing, 1), ReviewStage));
  }

  lemma StandsIsRun(cfg: Config, t: Tables, c: Invocation, mine: Pc, other: Pc) returns (deeds: seq<Deed>)
    requires Stands(cfg, t, c, mine, other)
    ensures OnlyTwo(deeds) && AfterDeeds(cfg, deeds).tables == t
  {
    var w :| Arises(cfg, w) && w.tables == t;
    deeds :| OnlyTwo(deeds) && w == AfterDeeds(cfg, deeds);
  }

  // ---------- the exact condition ----------

  /** The calls of a worker id on a question that are in flight. */
  ghost function CallsOf(w: World, p: Proc): set<Invocation> {
    set c | c in w.calls && c.who == p && !w.calls[c].Idle?
  }

  ghost predicate AtMost(w: World, n: nat) {
    forall p :: |CallsOf(w, p)| <= n
  }

  ghost predicate AtMostAlways(cfg: Config, deeds: seq<Deed>, n: nat) {
    forall k | 0 <= k <= |deeds| :: AtMost(AfterDeeds(cfg, deeds[..k]), n)
  }

  lemma {:induction false} Smaller(a: set<Invocation>, b: set<Invocation>)
    requires a <= b
    ensures |a| <= |b|
    decreases |a|
  {
    if a != {} {
      var x :| x in a;
      Smaller(a - {x}, b - {x});
    }
  }

  lemma AtMostOne(w: World, n: nat)
    requires AtMost(w, n) && n <= 1
    ensures OneCall(w)
  {
    forall c, d | c in w.calls && d in w.calls && c.who == d.who && !w.calls[c].Idle? && !w.calls[d].Idle? ensures c == d {
      var calls := CallsOf(w, c.who);
      assert c in calls && d in calls;
      Smaller({c, d}, calls);
    }
  }

  lemma {:induction false} OnlyTwoAct(cfg: Config, deeds: seq<Deed>)
    requires OnlyTwo(deeds)
    ensures AfterDeeds(cfg, deeds).calls.Keys <= {FIRST, SECOND}
    decreases |deeds|
  {
    if deeds != [] {
      var n := |deeds| - 1;
      assert deeds[n] in deeds && OnlyTwo(deeds[..n]);
      OnlyTwoAct(cfg, deeds[..n]);
    }
  }

  lemma OnlyTwoAtMost(cfg: Config, deeds: seq<Deed>, n: nat)
    requires OnlyTwo(deeds) && n >= 2
    ensures AtMostAlways(cfg, deeds, n)
  {
    forall k | 0 <= k <= |deeds| ensures AtMost(AfterDeeds(cfg, deeds[..k]), n) {
      assert OnlyTwo(deeds[..k]);
      OnlyTwoAct(cfg, deeds[..k]);
      forall p ensures |CallsOf(AfterDeeds(cfg, deeds[..k]), p)| <= n {
        Smaller(CallsOf(AfterDeeds(cfg, deeds[..k]), p), {FIRST, SECOND});
      }
    }
  }

  /** The gate: evidence behind it, and final evidence at the end. */
  ghost predicate Gated(cfg: Config, t: Tables, q: Uuid) {
    q in t.questions ==>
      && (t.questions[q].state in {Approved, Finalizing, Completed} ==> Evidence(t, q, t.questions[q].revision))
      && (t.questions[q].state == Completed ==> FinalEvidence(cfg, t, q, t.questions[q].revision))
  }

  ghost predicate AlwaysGated(cfg: Config, n: nat) {
    forall deeds, q | AtMostAlways(cfg, deeds, n) :: Gated(cfg, AfterDeeds(cfg, deeds).tables, q)
  }

  // ---------- without revisions ----------

  /** The tables are sound without any ownership, and so is every call's position. */
  ghost predicate WorldSound(cfg: Config, w: World) {
    TablesSound(cfg, w.tables) && forall c | c in w.calls :: PositionSound(cfg, w.tables, c.who.question, w.calls[c])
  }

  lemma ActIsSound(cfg: Config, w: World, c: Invocation, a: Action)
    requires cfg.maxRevisions == 0 && WorldSound(cfg, w)
    ensures WorldSound(cfg, Act(cfg, w, c, a))
  {
    var w' := Act(cfg, w, c, a);
    if WorkflowRaces.Actor(a).None? || WorkflowRaces.Actor(a) == Some(c.who) {
      StepIsSound(cfg, View(w, c), a, c.who);
      forall d | d in w'.calls ensures PositionSound(cfg, w'.tables, d.who.question, w'.calls[d]) {
        if d != c { PositionStays(cfg, w.tables, w'.tables, d.who.question, w.calls[d]); }
      }
    }
  }

  lemma {:induction false} NoRevisionsAlwaysSound(cfg: Config, deeds: seq<Deed>)
    requires cfg.maxRevisions == 0
    ensures WorldSound(cfg, AfterDeeds(cfg, deeds))
    decreases |deeds|
  {
    if deeds == [] {
      StoreRuns.CoverRows(EMPTY);
    } else {
      var n := |deeds| - 1;
      NoRevisionsAlwaysSound(cfg, deeds[..n]);
      ActIsSound(cfg, AfterDeeds(cfg, deeds[..n]), deeds[n].call, deeds[n].action);
    }
  }

  /** Without revisions the gate holds however many calls of one worker id are in flight. */
  lemma NoRevisionsGate(cfg: Config, deeds: seq<Deed>, q: Uuid)
    requires cfg.maxRevisions == 0
    ensures Gated(cfg, AfterDeeds(cfg, deeds).tables, q)
  {
    NoRevisionsAlwaysSound(cfg, deeds);
    var t := AfterDeeds(cfg, deeds).tables;
    if q in t.questions {
      assert RowSound(cfg, t, q, t.questions[q]);
    }
  }

  lemma AtMostOneGate(cfg: Config, deeds: seq<Deed>, n: nat, q: Uuid)
    requires AtMostAlways(cfg, deeds, n) && n <= 1
    ensures Gated(cfg, AfterDeeds(cfg, deeds).tables, q)
  {
    forall k | 0 <= k <= |deeds| ensures OneCall(AfterDeeds(cfg, deeds[..k])) {
      AtMostOne(AfterDeeds(cfg, deeds[..k]), n);
    }
    EvidenceGateForCalls(cfg, deeds, q);
  }

  /** Exactly when the gate holds in all runs with at most `n` calls in flight per worker id and question: if n is at most
      one, or if no revision is allowed. */
  lemma GateIffOneCall(cfg: Config, n: nat)
    requires cfg.maxAttempts >= 1
    ensures AlwaysGated(cfg, n) <==> n <= 1 || cfg.maxRevisions == 0
  {
    if n <= 1 || cfg.maxRevisions == 0 {
      forall deeds, q | AtMostAlways(cfg, deeds, n) ensures Gated(cfg, AfterDeeds(cfg, deeds).tables, q) {
        if n <= 1 { AtMostOneGate(cfg, deeds, n, q); } else { NoRevisionsGate(cfg, deeds, q); }
      }
    } else {
      var deeds := TwoCallsPassTheGate(cfg);
      OnlyTwoAtMost(cfg, deeds, n);
      assert !Gated(cfg, AfterDeeds(cfg, deeds).tables, "q");
    }
  }
}
