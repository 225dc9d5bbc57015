/** Is the response a worker acts on the response that was committed? For one worker per question, with any
    crashes, always. For several workers not: `claim_activity` and `complete_activity` hand back a row that
    another worker committed meanwhile without an error, and `run_step` goes on with its own response. */
module WorkflowRaces {
  import opened Wrappers
  import opened Contracts
  import opened Store
  import opened StoreRuns
  import opened Workflow
  import opened WorkflowSafety
  import Fencing

  /** The worker acts on what is committed. */
  predicate ActsOnCommitted(t: Tables, pc: Pc) {
    pc.Deciding? ==> pc.activity in t.activities && t.activities[pc.activity].result == Some(pc.response)
  }

  predicate Working(pc: Pc) {
    pc.Claiming? || pc.Executing? || pc.Committing?
  }

  /** A worker on its way to commit has an activity that nobody has committed yet. */
  predicate StillOpen(t: Tables, pc: Pc) {
    Working(pc) ==> (pc.activity in t.activities && t.activities[pc.activity].status != Succeeded)
  }

  predicate Honest(t: Tables, pc: Pc) {
    ActsOnCommitted(t, pc) && StillOpen(t, pc)
  }

  /** The exact condition, for any number of workers: completing leads to acting on the committed response if and
      only if the row was not yet committed at that moment, or was committed with the very same response. */
  lemma CompletionActsOnCommitted(cfg: Config, sys: System, p: Proc, now: string, artifacts: seq<Artifact>)
    requires Inv(cfg, sys) && PcOf(sys, p).Committing?
    requires PcOf(DoComplete(sys, p, PcOf(sys, p), now, artifacts), p).Deciding?
    ensures var pc, next := PcOf(sys, p), DoComplete(sys, p, PcOf(sys, p), now, artifacts);
      ActsOnCommitted(next.tables, PcOf(next, p)) <==>
        (sys.tables.activities[pc.activity].status != Succeeded || sys.tables.activities[pc.activity].result == Some(pc.response))
  {
    PcInv(cfg, sys, p);
    var pc := PcOf(sys, p);
    if sys.tables.activities[pc.activity].status != Succeeded {
      Fencing.CompleteShape(sys.tables, pc.activity, p.worker, now, pc.response, artifacts, Some(pc.attempt));
    }
  }

  // ---------- one worker per question ----------

  /** While only `w` works on `q`: its activity is still open until it commits, and then it holds its response. */
  ghost predicate SoleWorker(sys: System, q: Uuid, w: string) {
    && (forall p | p in sys.procs && p.question == q && p.worker != w :: sys.procs[p].Idle?)
    && Honest(sys.tables, PcOf(sys, Proc(w, q)))
  }

  /** The worker an action belongs to; the environment has none. */
  function Actor(a: Action): Option<Proc> {
    match a
    case ActAcquire(p, _, _) => Some(p)
    case ActLoad(p) => Some(p)
    case ActEnter(p, _) => Some(p)
    case ActReload(p) => Some(p)
    case ActStage(p, _, _) => Some(p)
    case ActClaim(p, _, _, _) => Some(p)
    case ActGiveUp(p, _, _) => Some(p)
    case ActExecute(p, _) => Some(p)
    case ActRaise(p) => Some(p)
    case ActComplete(p, _, _) => Some(p)
    case ActFail(p, _, _) => Some(p)
    case ActDecide(p, _, _, _) => Some(p)
    case ActConclude(p, _, _) => Some(p)
    case ActReadBack(p) => Some(p)
    case ActRelease(p) => Some(p)
    case ActCrash(p) => Some(p)
    case ActRenewQuestion(p, _, _) => Some(p)
    case ActRenewActivity(p, _, _, _, _) => Some(p)
    case ActCreateProject(_, _) => None
    case ActCreateQuestion(_, _, _, _, _) => None
    case ActRegisterArtifact(_) => None
  }

  predicate OnlyBy(a: Action, q: Uuid, w: string) {
    Actor(a).Some? && Actor(a).value.question == q ==> Actor(a).value.worker == w
  }

  /** No action but a completion of this very activity commits it. */
  ghost predicate StaysOpen(s: Tables, t: Tables, id: Uuid) {
    id in s.activities ==>
      (&& id in t.activities
       && (s.activities[id].status == Succeeded ==> t.activities[id] == s.activities[id])
       && (s.activities[id].status != Succeeded ==> t.activities[id].status != Succeeded))
  }

  lemma CallLeavesOpen(s: Tables, c: Call, id: Uuid)
    requires !(c.CallComplete? && c.id == id)
    ensures StaysOpen(s, Store.After(s, c), id)
  {
    if id in s.activities {
      if s.activities[id].status == Succeeded {
        Fencing.SucceededStays(s, c, id);
      } else {
        Fencing.OtherCallsDoNotCommit(s, c, id);
      }
    }
  }

  /** The store call behind an action of a worker, if it makes one. */
  ghost function CallOf(cfg: Config, sys: System, a: Action): Option<Call> {
    match a
    case ActAcquire(p, now, expires) => Some(CallAcquire(p.question, p.worker, now, expires))
    case ActStage(p, id, now) =>
      if PcOf(sys, p).Staged? && p.question in sys.tables.questions
      then Some(CallGetOrCreate(p.question, sys.tables.questions[p.question].projectId, PcOf(sys, p).q.revision,
                                PcOf(sys, p).stage, id, now)) else None
    case ActClaim(p, now, expires, request) =>
      if PcOf(sys, p).Claiming?
      then Some(CallClaim(PcOf(sys, p).activity, p.worker, now, expires, cfg.maxAttempts, request)) else None
    case ActComplete(p, now, artifacts) =>
      if PcOf(sys, p).Committing?
      then Some(CallComplete(PcOf(sys, p).activity, p.worker, now, PcOf(sys, p).response, artifacts, Some(PcOf(sys, p).attempt)))
      else None
    case ActFail(p, now, error) =>
      if PcOf(sys, p).Failing?
      then Some(CallFail(PcOf(sys, p).activity, p.worker, now, error, Some(PcOf(sys, p).attempt))) else None
    case ActRelease(p) => Some(CallRelease(p.question, p.worker))
    case ActRenewQuestion(p, now, expires) => Some(CallRenew(p.question, p.worker, now, expires))
    case ActRenewActivity(p, id, now, expires, attempt) => Some(CallRenewActivity(id, p.worker, now, expires, attempt))
    case ActCreateProject(id, name) => Some(CallCreateProject(id, name))
    case ActCreateQuestion(projectId, key, title, problem, id) => Some(CallCreateQuestion(projectId, key, title, problem, id))
    case ActRegisterArtifact(artifact) => Some(CallRegisterArtifact(artifact))
    case _ => None
  }

  lemma TransitLeavesActivities(sys: System, p: Proc, now: string, expected: set<QuestionState>, target: QuestionState,
                                revision: Option<int>, reason: Option<string>, next: Pc)
    ensures Transit(sys, p, now, expected, target, revision, reason, next).tables.activities == sys.tables.activities
  {
  }

  predicate Transiting(a: Action) {
    a.ActEnter? || a.ActGiveUp? || a.ActDecide? || a.ActConclude?
  }

  lemma DecidingLeavesActivities(cfg: Config, sys: System, p: Proc, pc: Pc, now: string, m: Option<Uuid>, c: Option<Uuid>)
    requires pc.Deciding?
    ensures DoDecide(cfg, sys, p, pc, now, m, c).tables.activities == sys.tables.activities
  {
    TransitLeavesActivities(sys, p, now, {Modeling}, ReadyForCoding, None, None, Moved);
    TransitLeavesActivities(sys, p, now, {Coding}, ReadyForReview, None, None, Moved);
    TransitLeavesActivities(sys, p, now, {Finalizing}, Completed, None, None, Moved);
    TransitLeavesActivities(sys, p, now, {Reviewing}, Failed, None, Some(cfg.exhausted), Moved);
    TransitLeavesActivities(sys, p, now, {Reviewing}, RevisionRequired, Some(pc.q.revision + 1), None, Moved);
  }

  lemma TransitingLeavesActivities(cfg: Config, sys: System, a: Action)
    requires Transiting(a)
    ensures Next(cfg, sys, a).tables.activities == sys.tables.activities
  {
    match a {
      case ActDecide(p, now, m, c) =>
        if PcOf(sys, p).Deciding? { DecidingLeavesActivities(cfg, sys, p, PcOf(sys, p), now, m, c); }
      case ActEnter(p, now) =>
        if PcOf(sys, p).Loaded? && EntryOf(PcOf(sys, p).q.state).Some? {
          var q := PcOf(sys, p).q;
          var entry := EntryOf(q.state).value;
          TransitLeavesActivities(sys, p, now, {q.state}, entry.target, None, None, Entered(entry.stage));
        }
      case ActGiveUp(p, now, reason) =>
        if PcOf(sys, p).GivingUp? {
          TransitLeavesActivities(sys, p, now, {PcOf(sys, p).q.state}, Failed, None, Some(reason), Releasing(Returned(true)));
        }
      case ActConclude(p, now, reason) =>
        TransitLeavesActivities(sys, p, now, {Reviewing}, Approved, None, None, Moved);
        TransitLeavesActivities(sys, p, now, {Reviewing}, Failed, None, Some(reason), Moved);
    }
  }

  ghost predicate IsCallStep(cfg: Config, sys: System, a: Action) {
    Next(cfg, sys, a).tables == sys.tables
    || (CallOf(cfg, sys, a).Some? && Next(cfg, sys, a).tables == Store.After(sys.tables, CallOf(cfg, sys, a).value))
  }

  predicate ActivityAction(a: Action) {
    a.ActStage? || a.ActClaim? || a.ActComplete? || a.ActFail? || a.ActRenewActivity?
  }

  lemma ActivityActionIsCall(cfg: Config, sys: System, a: Action)
    requires ActivityAction(a)
    ensures IsCallStep(cfg, sys, a)
  {
    match a {
      case ActStage(_, _, _) => StageIsCall(cfg, sys, a);
      case ActClaim(_, _, _, _) => ClaimIsCall(cfg, sys, a);
      case ActComplete(_, _, _) => CompleteIsCall(cfg, sys, a);
      case _ =>
    }
  }

  lemma StageIsCall(cfg: Config, sys: System, a: Action)
    requires a.ActStage?
    ensures IsCallStep(cfg, sys, a)
  {
  }

  lemma ClaimIsCall(cfg: Config, sys: System, a: Action)
    requires a.ActClaim?
    ensures IsCallStep(cfg, sys, a)
  {
  }

  lemma CompleteIsCall(cfg: Config, sys: System, a: Action)
    requires a.ActComplete?
    ensures IsCallStep(cfg, sys, a)
  {
  }

  lemma OtherActionIsCall(cfg: Config, sys: System, a: Action)
    requires !Transiting(a) && !ActivityAction(a)
    ensures IsCallStep(cfg, sys, a)
  {
  }

  lemma NextIsCall(cfg: Config, sys: System, a: Action)
    requires !Transiting(a)
    ensures IsCallStep(cfg, sys, a)
  {
    if ActivityAction(a) {
      ActivityActionIsCall(cfg, sys, a);
    } else {
      OtherActionIsCall(cfg, sys, a);
    }
  }

  /** An action that does not complete activity `id` leaves it open, or committed as it was. */
  lemma ActionLeavesOpen(cfg: Config, sys: System, a: Action, id: Uuid)
    requires !(a.ActComplete? && PcOf(sys, a.p).Committing? && PcOf(sys, a.p).activity == id)
    ensures StaysOpen(sys.tables, Next(cfg, sys, a).tables, id)
  {
    if Transiting(a) {
      TransitingLeavesActivities(cfg, sys, a);
    } else {
      NextIsCall(cfg, sys, a);
      if Next(cfg, sys, a).tables != sys.tables {
        CallLeavesOpen(sys.tables, CallOf(cfg, sys, a).value, id);
      }
    }
  }

  lemma OthersUntouched(cfg: Config, sys: System, a: Action, p: Proc)
    requires Actor(a) != Some(p)
    ensures PcOf(Next(cfg, sys, a), p) == PcOf(sys, p)
  {
  }

  /** A worker on another question cannot touch this one's activity. */
  lemma OtherQuestionLeavesOpen(cfg: Config, sys: System, a: Action, p: Proc, id: Uuid)
    requires Inv(cfg, sys) && Actor(a) != Some(p) && id in sys.tables.activities
    requires sys.tables.activities[id].questionId == p.question
    requires a.ActComplete? ==> a.p.question != p.question || PcOf(sys, a.p).Idle?
    ensures StaysOpen(sys.tables, Next(cfg, sys, a).tables, id)
  {
    if a.ActComplete? {
      PcInv(cfg, sys, a.p);
    }
    ActionLeavesOpen(cfg, sys, a, id);
  }

  /** The sole worker's own step. */
  lemma OwnStep(cfg: Config, sys: System, a: Action, p: Proc)
    requires Inv(cfg, sys) && Actor(a) == Some(p)
    requires Honest(sys.tables, PcOf(sys, p))
    ensures var next := Next(cfg, sys, a); Honest(next.tables, PcOf(next, p))
  {
    PcInv(cfg, sys, p);
    var pc := PcOf(sys, p);
    match a {
      case ActStage(_, id, now) =>
        if pc.Staged? { OwnStage(cfg, sys, p, id, now); }
      case ActComplete(_, now, artifacts) =>
        if pc.Committing? {
          RowHolds(sys.tables, pc.activity);
          if CompleteActivity(sys.tables, pc.activity, p.worker, now, pc.response, artifacts, Some(pc.attempt)).result.Ok? {
            Fencing.CompleteShape(sys.tables, pc.activity, p.worker, now, pc.response, artifacts, Some(pc.attempt));
          }
        }
      case ActClaim(_, now, expires, request) =>
        if pc.Claiming? { OwnClaim(cfg, sys, p, now, expires, request); }
      case _ => OwnQuietStep(cfg, sys, a, p);
    }
  }

  lemma OwnStage(cfg: Config, sys: System, p: Proc, id: Uuid, now: string)
    requires Inv(cfg, sys) && PcOf(sys, p).Staged?
    ensures var next := DoStage(sys, p, PcOf(sys, p).q, PcOf(sys, p).stage, id, now); Honest(next.tables, PcOf(next, p))
  {
    PcInv(cfg, sys, p);
    var q, stage := PcOf(sys, p).q, PcOf(sys, p).stage;
    var project := sys.tables.questions[p.question].projectId;
    var out := GetOrCreateActivity(sys.tables, p.question, project, q.revision, stage, id, now);
    CallKeepsHold(sys.tables, CallGetOrCreate(p.question, project, q.revision, stage, id, now));
    if out.result.Ok? {
      RowHolds(out.tables, out.result.value);
    }
  }

  lemma OwnClaim(cfg: Config, sys: System, p: Proc, now: string, expires: string, request: string)
    requires PcOf(sys, p).Claiming? && StillOpen(sys.tables, PcOf(sys, p))
    ensures var pc := PcOf(sys, p);
      var next := DoClaim(cfg, sys, p, pc.q, pc.stage, pc.activity, now, expires, request);
      !PcOf(next, p).Deciding? && StillOpen(next.tables, PcOf(next, p))
  {
  }

  predicate DecidesOnCommitted(t: Tables, pc: Pc) {
    pc.Deciding? ==> pc.activity in t.activities && t.activities[pc.activity].status == Succeeded
  }

  lemma HonestStays(s: Tables, t: Tables, was: Pc, is_: Pc)
    requires Honest(s, was) && (is_.Deciding? ==> was == is_)
    requires Working(is_) ==> Working(was) && was.activity == is_.activity
    requires was.Deciding? || Working(was) ==> StaysOpen(s, t, was.activity)
    requires DecidesOnCommitted(s, was)
    ensures Honest(t, is_)
  {
  }

  /** Steps that neither stage, claim nor complete: the position keeps its activity, or drops it. */
  lemma QuietStepIsHonest(cfg: Config, sys: System, a: Action, p: Proc)
    requires Actor(a) == Some(p) && !a.ActStage? && !a.ActComplete? && !a.ActClaim?
    requires Honest(sys.tables, PcOf(sys, p)) && DecidesOnCommitted(sys.tables, PcOf(sys, p))
    ensures var next := Next(cfg, sys, a); Honest(next.tables, PcOf(next, p))
  {
    QuietPosition(cfg, sys, a, p);
    var pc, next := PcOf(sys, p), Next(cfg, sys, a);
    if pc.Deciding? || Working(pc) {
      ActionLeavesOpen(cfg, sys, a, pc.activity);
    }
    HonestStays(sys.tables, next.tables, pc, PcOf(next, p));
  }

  lemma OwnQuietStep(cfg: Config, sys: System, a: Action, p: Proc)
    requires Inv(cfg, sys) && Actor(a) == Some(p) && !a.ActStage? && !a.ActComplete? && !a.ActClaim?
    requires Honest(sys.tables, PcOf(sys, p))
    ensures var next := Next(cfg, sys, a); Honest(next.tables, PcOf(next, p))
  {
    PcInv(cfg, sys, p);
    QuietStepIsHonest(cfg, sys, a, p);
  }

  lemma QuietPosition(cfg: Config, sys: System, a: Action, p: Proc)
    requires Actor(a) == Some(p) && !a.ActStage? && !a.ActComplete? && !a.ActClaim?
    ensures var was, is_ := PcOf(sys, p), PcOf(Next(cfg, sys, a), p);
      && (is_.Deciding? ==> was == is_)
      && (Working(is_) ==> Working(was) && was.activity == is_.activity)
  {
  }

  /** A step of anyone but `p` leaves `p` as honest as it was. */
  lemma OtherStep(cfg: Config, sys: System, a: Action, p: Proc)
    requires Inv(cfg, sys) && Actor(a) != Some(p) && Honest(sys.tables, PcOf(sys, p))
    requires a.ActComplete? ==> a.p.question != p.question || PcOf(sys, a.p).Idle?
    ensures var next := Next(cfg, sys, a); Honest(next.tables, PcOf(next, p))
  {
    OthersUntouched(cfg, sys, a, p);
    var pc := PcOf(sys, p);
    if pc.Deciding? || Working(pc) {
      PcInv(cfg, sys, p);
      OtherQuestionLeavesOpen(cfg, sys, a, p, pc.activity);
      if pc.Deciding? {
        RowHolds(sys.tables, pc.activity);
      }
    }
  }

  lemma NextKeepsSoleWorker(cfg: Config, sys: System, a: Action, q: Uuid, w: string)
    requires Inv(cfg, sys) && SoleWorker(sys, q, w) && OnlyBy(a, q, w)
    ensures SoleWorker(Next(cfg, sys, a), q, w)
  {
    var p, next := Proc(w, q), Next(cfg, sys, a);
    forall x | x in next.procs && x.question == q && x.worker != w ensures next.procs[x].Idle? {
      OthersUntouched(cfg, sys, a, x);
      assert PcOf(next, x) == PcOf(sys, x);
    }
    if Actor(a) == Some(p) {
      OwnStep(cfg, sys, a, p);
    } else {
      OtherStep(cfg, sys, a, p);
    }
  }

  lemma {:induction false} SoleWorkerAlways(cfg: Config, actions: seq<Action>, q: Uuid, w: string)
    requires forall a | a in actions :: OnlyBy(a, q, w)
    ensures SoleWorker(Workflow.After(cfg, actions), q, w)
    decreases |actions|
  {
    if actions != [] {
      var before := actions[..|actions| - 1];
      SoleWorkerAlways(cfg, before, q, w);
      EveryRunKeepsInv(cfg, before);
      NextKeepsSoleWorker(cfg, Workflow.After(cfg, before), actions[|actions| - 1], q, w);
    }
  }

  /** With one worker per question, any number of crashes and any clock, the response acted on is always the
      committed one, and the worker never executes an activity that is already committed. */
  lemma OneWorkerActsOnCommitted(cfg: Config, actions: seq<Action>, q: Uuid, w: string)
    requires forall a | a in actions :: OnlyBy(a, q, w)
    ensures var sys := Workflow.After(cfg, actions);
      var pc := PcOf(sys, Proc(w, q));
      && ActsOnCommitted(sys.tables, pc)
      && (pc.Executing? ==> pc.activity in sys.tables.activities && sys.tables.activities[pc.activity].status != Succeeded)
  {
    SoleWorkerAlways(cfg, actions, q, w);
  }
}
