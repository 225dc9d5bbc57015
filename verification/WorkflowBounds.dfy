/** Bounds on the question workflow over every interleaving: revisions, transitions, and how often `run_step` can
    return with the question still open. */
module WorkflowBounds {
  import opened Wrappers
  import opened Contracts
  import opened Store
  import opened StoreRuns
  import opened Workflow
  import opened WorkflowSafety
  import Fencing

  // ---------- history invariants ----------

  /** How many of these steps returned a result with the question still open. */
  function Opens(ends: seq<StepEnd>): nat
    decreases |ends|
  {
    if ends == [] then 0 else Opens(ends[..|ends| - 1]) + if ends[|ends| - 1] == Returned(false) then 1 else 0
  }

  function OpenReturns(sys: System, p: Proc): nat {
    Opens(EndsOf(sys, p))
  }

  lemma OneMoreEnd(ends: seq<StepEnd>, end: StepEnd)
    ensures Opens(ends + [end]) == Opens(ends) + if end == Returned(false) then 1 else 0
  {
    assert (ends + [end])[..|ends|] == ends;
  }

  /** How many stages a question in this state has behind it. */
  function Mark(cfg: Config, state: QuestionState, revision: int): int {
    match state
    case Pending => 0
    case Modeling => 0
    case ReadyForCoding => 1 + 2 * revision
    case RevisionRequired => 1 + 2 * revision
    case Coding => 1 + 2 * revision
    case ReadyForReview => 2 + 2 * revision
    case Reviewing => 2 + 2 * revision
    case Approved => 3 + 2 * cfg.maxRevisions
    case Finalizing => 3 + 2 * cfg.maxRevisions
    case Completed => 3 + 2 * cfg.maxRevisions
    case Failed => 3 + 2 * cfg.maxRevisions
  }

  function Marks(cfg: Config, t: Tables, q: Uuid): int {
    if q in t.questions then Mark(cfg, t.questions[q].state, t.questions[q].revision) else 0
  }

  predicate IsEnded(t: Tables, q: Uuid) {
    q in t.questions && Ended(t.questions[q].state)
  }

  /** About to return with the question still open. */
  predicate MovedOn(t: Tables, q: Uuid, pc: Pc) {
    (pc.Moved? && !IsEnded(t, q)) || pc == Releasing(Returned(false))
  }

  /** Each return of a worker with the question still open is backed by a stage that the question has behind it. */
  predicate AdvancesBacked(cfg: Config, sys: System, p: Proc) {
    OpenReturns(sys, p) + (if MovedOn(sys.tables, p.question, PcOf(sys, p)) then 1 else 0) <= Marks(cfg, sys.tables, p.question)
  }

  predicate PastReview(state: QuestionState) {
    state == Finalizing || state == Completed || state == Failed
  }

  /** Where activities may exist when each was created by a worker that still owned the lease. */
  ghost predicate Disciplined(t: Tables) {
    forall id | id in t.activities :: t.activities[id].questionId in t.questions &&
      (t.activities[id].stage == ModelingStage ==> t.activities[id].revision == 0) &&
      (t.activities[id].stage == FinalizeStage ==>
         PastReview(t.questions[t.activities[id].questionId].state)
         && t.activities[id].revision == t.questions[t.activities[id].questionId].revision)
  }

  ghost predicate Bounded(cfg: Config, sys: System) {
    && (forall p :: AdvancesBacked(cfg, sys, p))
    && (!sys.stale ==> Disciplined(sys.tables))
  }

  /** No question loses its place, and an ended one stays ended. */
  ghost predicate MarksGrow(cfg: Config, s: Tables, t: Tables) {
    forall q :: Marks(cfg, s, q) <= Marks(cfg, t, q) && (IsEnded(s, q) ==> IsEnded(t, q))
  }

  lemma OthersStayBacked(cfg: Config, sys: System, next: System, p: Proc)
    requires Bounded(cfg, sys) && MarksGrow(cfg, sys.tables, next.tables)
    requires forall x | x != p :: PcOf(next, x) == PcOf(sys, x) && OpenReturns(next, x) == OpenReturns(sys, x)
    requires AdvancesBacked(cfg, next, p)
    ensures forall x :: AdvancesBacked(cfg, next, x)
  {
    forall x ensures AdvancesBacked(cfg, next, x) {
      assert AdvancesBacked(cfg, sys, x);
      assert Marks(cfg, sys.tables, x.question) <= Marks(cfg, next.tables, x.question);
    }
  }

  lemma QuietMarks(cfg: Config, s: Tables, t: Tables, p: Proc)
    requires QuietQuestions(s, t, p)
    ensures MarksGrow(cfg, s, t) && forall q | q in s.questions :: IsEnded(t, q) == IsEnded(s, q)
  {
    forall q ensures Marks(cfg, s, q) <= Marks(cfg, t, q) && (q in s.questions ==> IsEnded(t, q) == IsEnded(s, q)) {
      if q in s.questions {
        assert QuietRow(s.questions[q], t.questions[q], q == p.question, p.worker);
      }
    }
  }

  /** No activity was created. */
  ghost predicate SameActivityKeys(s: Tables, t: Tables) {
    forall id | id in t.activities ::
      id in s.activities
      && HasKey(t.activities[id], s.activities[id].questionId, s.activities[id].stage, s.activities[id].revision)
  }

  lemma QuietDiscipline(s: Tables, t: Tables, p: Proc)
    requires QuietQuestions(s, t, p) && Disciplined(s) && SameActivityKeys(s, t)
    ensures Disciplined(t)
  {
    forall id | id in t.activities
      ensures t.activities[id].questionId in t.questions
      ensures t.activities[id].stage == ModelingStage ==> t.activities[id].revision == 0
      ensures t.activities[id].stage == FinalizeStage ==>
        (PastReview(t.questions[t.activities[id].questionId].state)
         && t.activities[id].revision == t.questions[t.activities[id].questionId].revision)
    {
      var q := s.activities[id].questionId;
      assert QuietRow(s.questions[q], t.questions[q], q == p.question, p.worker);
    }
  }

  /** A step that moves no question and creates no activity. */
  lemma QuietBounds(cfg: Config, sys: System, next: System, p: Proc)
    requires Bounded(cfg, sys) && QuietQuestions(sys.tables, next.tables, p) && SameActivityKeys(sys.tables, next.tables)
    requires next.stale == sys.stale && next.ends == sys.ends
    requires forall x | x != p :: PcOf(next, x) == PcOf(sys, x)
    requires PcOf(next, p) == PcOf(sys, p)
      || (MovedOn(next.tables, p.question, PcOf(next, p)) ==> MovedOn(sys.tables, p.question, PcOf(sys, p)))
    ensures Bounded(cfg, next)
  {
    QuietMarks(cfg, sys.tables, next.tables, p);
    assert AdvancesBacked(cfg, sys, p) && Marks(cfg, sys.tables, p.question) <= Marks(cfg, next.tables, p.question);
    OthersStayBacked(cfg, sys, next, p);
    if !next.stale {
      QuietDiscipline(sys.tables, next.tables, p);
    }
  }

  /** The move brings the question as far as it must: one stage on if the worker will count it, and no ended question
      moves. */
  ghost predicate Further(cfg: Config, row: Question, after: Question, counts: bool) {
    && Mark(cfg, after.state, after.revision) >= Mark(cfg, row.state, row.revision) + (if counts && !Ended(after.state) then 1 else 0)
    && !Ended(row.state)
    && (PastReview(row.state) ==> PastReview(after.state) && after.revision == row.revision)
  }

  /** A transition: one more stage for the worker that made it, and FINALIZING leads only to an end. */
  lemma TransitBounds(cfg: Config, sys: System, p: Proc, now: string, expected: set<QuestionState>, target: QuestionState,
                      revision: Option<int>, reason: Option<string>, next: Pc)
    requires Bounded(cfg, sys) && !PcOf(sys, p).Moved? && !PcOf(sys, p).Releasing? && next != Releasing(Returned(false))
    requires Owns(sys.tables, p) && sys.tables.questions[p.question].state in expected ==>
      var row := sys.tables.questions[p.question]; Further(cfg, row, MovedRow(row, target, revision, reason), next.Moved?)
    ensures Bounded(cfg, Transit(sys, p, now, expected, target, revision, reason, next))
  {
    var out := Transition(sys.tables, p.question, p.worker, now, expected, target, revision, reason);
    var sys' := Transit(sys, p, now, expected, target, revision, reason, next);
    TransitionRow(sys.tables, p, now, expected, target, revision, reason);
    assert AdvancesBacked(cfg, sys, p);
    forall q ensures Marks(cfg, sys.tables, q) <= Marks(cfg, sys'.tables, q) && (IsEnded(sys.tables, q) ==> IsEnded(sys'.tables, q)) {
    }
    OthersStayBacked(cfg, sys, sys', p);
    if !sys'.stale && out.result.Ok? {
      MovedDiscipline(sys.tables, out.tables, p.question);
    }
  }

  lemma MovedDiscipline(s: Tables, t: Tables, q: Uuid)
    requires Disciplined(s) && t.activities == s.activities && s.questions.Keys <= t.questions.Keys && q in s.questions
    requires forall x | x in s.questions && x != q :: t.questions[x] == s.questions[x]
    requires PastReview(s.questions[q].state) ==>
      PastReview(t.questions[q].state) && t.questions[q].revision == s.questions[q].revision
    ensures Disciplined(t)
  {
  }

  // ---------- the steps ----------

  lemma AcquireBounds(cfg: Config, sys: System, p: Proc, now: string, expires: string)
    requires Bounded(cfg, sys) && PcOf(sys, p).Idle?
    ensures Bounded(cfg, DoAcquire(sys, p, now, expires))
  {
    if AcquireQuestionLease(sys.tables, p.question, p.worker, now, expires).result.Ok? {
      LeaseQuiet(sys.tables, p, now, expires);
      QuietBounds(cfg, sys, DoAcquire(sys, p, now, expires), p);
    } else {
      OneMoreEnd(EndsOf(sys, p), Raised);
      assert AdvancesBacked(cfg, sys, p);
      OthersStayBacked(cfg, sys, DoAcquire(sys, p, now, expires), p);
    }
  }

  lemma SameTablesQuiet(t: Tables, p: Proc)
    ensures QuietQuestions(t, t, p) && SameActivityKeys(t, t)
  {
  }

  lemma PcBounds(cfg: Config, sys: System, next: System, p: Proc)
    requires Bounded(cfg, sys) && next.tables == sys.tables && next.stale == sys.stale && next.ends == sys.ends
    requires forall x | x != p :: PcOf(next, x) == PcOf(sys, x)
    requires !MovedOn(next.tables, p.question, PcOf(next, p))
    ensures Bounded(cfg, next)
  {
    SameTablesQuiet(sys.tables, p);
    QuietBounds(cfg, sys, next, p);
  }

  lemma EnterBounds(cfg: Config, sys: System, p: Proc, now: string)
    requires Inv(cfg, sys) && Bounded(cfg, sys) && PcOf(sys, p).Loaded?
    ensures Bounded(cfg, DoEnter(sys, p, PcOf(sys, p).q, now))
  {
    IsPlaced(cfg, sys, p);
    var q := PcOf(sys, p).q;
    match EntryOf(q.state) {
      case None => PcBounds(cfg, sys, DoEnter(sys, p, q, now), p);
      case Some(entry) =>
        if q.state == entry.target {
          PcBounds(cfg, sys, DoEnter(sys, p, q, now), p);
        } else {
          EnteredBounds(cfg, sys, p, now, q, entry);
        }
    }
  }

  lemma EnteredBounds(cfg: Config, sys: System, p: Proc, now: string, q: Snapshot, entry: Entry)
    requires Placed(cfg, sys, p) && Bounded(cfg, sys) && PcOf(sys, p) == Loaded(q)
    requires EntryOf(q.state) == Some(entry) && q.state != entry.target
    ensures Bounded(cfg, Transit(sys, p, now, {q.state}, entry.target, None, None, Entered(entry.stage)))
  {
    TransitBounds(cfg, sys, p, now, {q.state}, entry.target, None, None, Entered(entry.stage));
  }

  lemma SameQuestionsBacked(cfg: Config, sys: System, next: System, p: Proc)
    requires Bounded(cfg, sys) && next.tables.questions == sys.tables.questions && next.ends == sys.ends
    requires forall x | x != p :: PcOf(next, x) == PcOf(sys, x)
    requires !MovedOn(next.tables, p.question, PcOf(next, p)) || PcOf(next, p) == PcOf(sys, p)
    ensures forall x :: AdvancesBacked(cfg, next, x)
  {
    SameQuestionsQuiet(sys.tables, next.tables, p);
    QuietMarks(cfg, sys.tables, next.tables, p);
    assert AdvancesBacked(cfg, sys, p);
    OthersStayBacked(cfg, sys, next, p);
  }

  lemma StageMoves(sys: System, p: Proc, q: Snapshot, stage: Stage, id: Uuid, now: string)
    ensures var next := DoStage(sys, p, q, stage, id, now);
      && next.tables.questions == sys.tables.questions && next.ends == sys.ends
      && (forall x | x != p :: PcOf(next, x) == PcOf(sys, x))
      && (!MovedOn(next.tables, p.question, PcOf(next, p)) || PcOf(next, p) == PcOf(sys, p))
  {
  }

  lemma StageBounds(cfg: Config, sys: System, p: Proc, id: Uuid, now: string)
    requires Inv(cfg, sys) && Bounded(cfg, sys) && PcOf(sys, p).Staged?
    ensures Bounded(cfg, DoStage(sys, p, PcOf(sys, p).q, PcOf(sys, p).stage, id, now))
  {
    PcInv(cfg, sys, p);
    var q, stage := PcOf(sys, p).q, PcOf(sys, p).stage;
    var project := sys.tables.questions[p.question].projectId;
    var out := GetOrCreateActivity(sys.tables, p.question, project, q.revision, stage, id, now);
    var next := DoStage(sys, p, q, stage, id, now);
    StageMoves(sys, p, q, stage, id, now);
    SameQuestionsBacked(cfg, sys, next, p);
    if !next.stale && out.tables != sys.tables {
      assert QuestionInv(cfg, sys.tables, p.question);
      CreatedDiscipline(sys.tables, out.tables, p, q, stage, id);
    }
  }

  lemma CreatedDiscipline(s: Tables, t: Tables, p: Proc, q: Snapshot, stage: Stage, id: Uuid)
    requires Disciplined(s) && t.questions == s.questions && Owns(s, p) && Matches(s.questions[p.question], Staged(q, stage))
    requires id in t.activities && t.activities == s.activities[id := t.activities[id]]
    requires HasKey(t.activities[id], p.question, stage, q.revision)
    requires BeforeCoding(s.questions[p.question].state) ==> s.questions[p.question].revision == 0
    ensures Disciplined(t)
  {
  }

  lemma ClaimQuiet(t: Tables, a: Uuid, w: string, now: string, expires: string, max: nat, request: string)
    ensures var next := ClaimActivity(t, a, w, now, expires, max, request).tables;
      next.questions == t.questions && SameActivityKeys(t, next)
  {
  }

  lemma ClaimBounds(cfg: Config, sys: System, p: Proc, now: string, expires: string, request: string)
    requires Bounded(cfg, sys) && PcOf(sys, p).Claiming?
    ensures var pc := PcOf(sys, p); Bounded(cfg, DoClaim(cfg, sys, p, pc.q, pc.stage, pc.activity, now, expires, request))
  {
    var pc := PcOf(sys, p);
    var next := DoClaim(cfg, sys, p, pc.q, pc.stage, pc.activity, now, expires, request);
    ClaimQuiet(sys.tables, pc.activity, p.worker, now, expires, cfg.maxAttempts, request);
    SameQuestionsQuiet(sys.tables, next.tables, p);
    QuietBounds(cfg, sys, next, p);
  }

  lemma CompleteQuiet(t: Tables, a: Uuid, w: string, now: string, r: Response, artifacts: seq<Artifact>, attempt: nat)
    ensures var next := CompleteActivity(t, a, w, now, r, artifacts, Some(attempt)).tables;
      next.questions == t.questions && SameActivityKeys(t, next)
  {
    if a in t.activities && t.activities[a].status != Succeeded
      && CompleteActivity(t, a, w, now, r, artifacts, Some(attempt)).result.Ok? {
      Fencing.CompleteShape(t, a, w, now, r, artifacts, Some(attempt));
    }
  }

  lemma CompleteBounds(cfg: Config, sys: System, p: Proc, now: string, artifacts: seq<Artifact>)
    requires Bounded(cfg, sys) && PcOf(sys, p).Committing?
    ensures Bounded(cfg, Next(cfg, sys, ActComplete(p, now, artifacts)))
  {
    var pc := PcOf(sys, p);
    var next := DoComplete(sys, p, pc, now, artifacts);
    CompleteQuiet(sys.tables, pc.activity, p.worker, now, pc.response, artifacts, pc.attempt);
    SameQuestionsQuiet(sys.tables, next.tables, p);
    QuietBounds(cfg, sys, next, p);
  }

  lemma FailBounds(cfg: Config, sys: System, p: Proc, now: string, error: string)
    requires Bounded(cfg, sys) && PcOf(sys, p).Failing?
    ensures Bounded(cfg, Next(cfg, sys, ActFail(p, now, error)))
  {
    var pc := PcOf(sys, p);
    var next := Move(sys, p, FailActivity(sys.tables, pc.activity, p.worker, now, error, Some(pc.attempt)).tables, Releasing(Raised));
    SameQuestionsQuiet(sys.tables, next.tables, p);
    QuietBounds(cfg, sys, next, p);
  }

  /** What the invariant says of the question a worker is at. */
  ghost predicate Placed(cfg: Config, sys: System, p: Proc) {
    && p.question in sys.tables.questions && QuestionInv(cfg, sys.tables, p.question)
    && (Owns(sys.tables, p) ==> Matches(sys.tables.questions[p.question], PcOf(sys, p)))
  }

  lemma IsPlaced(cfg: Config, sys: System, p: Proc)
    requires Inv(cfg, sys) && !PcOf(sys, p).Idle?
    ensures Placed(cfg, sys, p)
  {
    PcInv(cfg, sys, p);
    assert QuestionInv(cfg, sys.tables, p.question);
  }

  lemma FailBy(cfg: Config, sys: System, p: Proc, now: string, expected: QuestionState, reason: string, next: Pc)
    requires Placed(cfg, sys, p) && Bounded(cfg, sys) && !PcOf(sys, p).Moved? && !PcOf(sys, p).Releasing?
    requires next == Moved || next == Releasing(Returned(true))
    requires Owns(sys.tables, p) ==> !Ended(expected)
    ensures Bounded(cfg, Transit(sys, p, now, {expected}, Failed, None, Some(reason), next))
  {
    TransitBounds(cfg, sys, p, now, {expected}, Failed, None, Some(reason), next);
  }

  lemma GiveUpBounds(cfg: Config, sys: System, p: Proc, now: string, reason: string)
    requires Inv(cfg, sys) && Bounded(cfg, sys) && PcOf(sys, p).GivingUp?
    ensures Bounded(cfg, Transit(sys, p, now, {PcOf(sys, p).q.state}, Failed, None, Some(reason), Releasing(Returned(true))))
  {
    IsPlaced(cfg, sys, p);
    FailBy(cfg, sys, p, now, PcOf(sys, p).q.state, reason, Releasing(Returned(true)));
  }

  lemma ReviseBounds(cfg: Config, sys: System, p: Proc, now: string)
    requires Placed(cfg, sys, p) && Bounded(cfg, sys) && PcOf(sys, p).Deciding?
    ensures Bounded(cfg, Transit(sys, p, now, {Reviewing}, RevisionRequired, Some(PcOf(sys, p).q.revision + 1), None, Moved))
  {
    TransitBounds(cfg, sys, p, now, {Reviewing}, RevisionRequired, Some(PcOf(sys, p).q.revision + 1), None, Moved);
  }

  lemma ApproveBounds(cfg: Config, sys: System, p: Proc, now: string)
    requires Placed(cfg, sys, p) && Bounded(cfg, sys) && PcOf(sys, p).Approving?
    ensures Bounded(cfg, Transit(sys, p, now, {Reviewing}, Approved, None, None, Moved))
  {
    TransitBounds(cfg, sys, p, now, {Reviewing}, Approved, None, None, Moved);
  }

  lemma StageEndBounds(cfg: Config, sys: System, p: Proc, now: string)
    requires Placed(cfg, sys, p) && Bounded(cfg, sys) && PcOf(sys, p).Deciding?
    ensures Bounded(cfg, Transit(sys, p, now, {Modeling}, ReadyForCoding, None, None, Moved))
    ensures Bounded(cfg, Transit(sys, p, now, {Coding}, ReadyForReview, None, None, Moved))
    ensures Bounded(cfg, Transit(sys, p, now, {Finalizing}, Completed, None, None, Moved))
  {
    TransitBounds(cfg, sys, p, now, {Modeling}, ReadyForCoding, None, None, Moved);
    TransitBounds(cfg, sys, p, now, {Coding}, ReadyForReview, None, None, Moved);
    TransitBounds(cfg, sys, p, now, {Finalizing}, Completed, None, None, Moved);
  }

  lemma AdvanceBounds(cfg: Config, sys: System, p: Proc, now: string, m: Option<Uuid>, c: Option<Uuid>)
    requires Placed(cfg, sys, p) && Bounded(cfg, sys) && PcOf(sys, p).Deciding?
    requires !PcOf(sys, p).response.output.ReviewOutput?
    ensures Bounded(cfg, DoDecide(cfg, sys, p, PcOf(sys, p), now, m, c))
  {
    StageEndBounds(cfg, sys, p, now);
  }

  lemma VerdictBounds(cfg: Config, sys: System, p: Proc, now: string, m: Option<Uuid>, c: Option<Uuid>)
    requires Bounded(cfg, sys) && PcOf(sys, p).Deciding? && PcOf(sys, p).response.output.ReviewOutput?
    requires PcOf(sys, p).response.output.approve
    ensures Bounded(cfg, DoDecide(cfg, sys, p, PcOf(sys, p), now, m, c))
  {
    var pc := PcOf(sys, p);
    if ReadsModeling(sys.tables, p.question, m) && ReadsCoding(sys.tables, p.question, pc.q.revision, c) {
      var next := if GatePasses(sys.tables, p.question, m, c) then Approving(pc.q) else Rejecting(pc.q);
      PcBounds(cfg, sys, Move(sys, p, sys.tables, next), p);
    }
  }

  lemma RejectBounds(cfg: Config, sys: System, p: Proc, now: string, m: Option<Uuid>, c: Option<Uuid>)
    requires Placed(cfg, sys, p) && Bounded(cfg, sys) && PcOf(sys, p).Deciding?
    requires PcOf(sys, p).response.output.ReviewOutput? && !PcOf(sys, p).response.output.approve
    ensures Bounded(cfg, DoDecide(cfg, sys, p, PcOf(sys, p), now, m, c))
  {
    if PcOf(sys, p).q.revision + 1 > cfg.maxRevisions {
      FailBy(cfg, sys, p, now, Reviewing, cfg.exhausted, Moved);
    } else {
      ReviseBounds(cfg, sys, p, now);
    }
  }

  lemma DecideBounds(cfg: Config, sys: System, p: Proc, now: string, m: Option<Uuid>, c: Option<Uuid>)
    requires Inv(cfg, sys) && Bounded(cfg, sys) && PcOf(sys, p).Deciding?
    ensures Bounded(cfg, Next(cfg, sys, ActDecide(p, now, m, c)))
  {
    IsPlaced(cfg, sys, p);
    DecideIs(cfg, sys, p, now, m, c);
    match PcOf(sys, p).response.output {
      case ReviewOutput(approve) =>
        if approve { VerdictBounds(cfg, sys, p, now, m, c); } else { RejectBounds(cfg, sys, p, now, m, c); }
      case _ => AdvanceBounds(cfg, sys, p, now, m, c);
    }
  }

  lemma ConcludeBounds(cfg: Config, sys: System, p: Proc, now: string, reason: string)
    requires Inv(cfg, sys) && Bounded(cfg, sys)
    ensures Bounded(cfg, Next(cfg, sys, ActConclude(p, now, reason)))
  {
    if PcOf(sys, p).Approving? {
      IsPlaced(cfg, sys, p);
      ApproveBounds(cfg, sys, p, now);
    } else if PcOf(sys, p).Rejecting? {
      IsPlaced(cfg, sys, p);
      FailBy(cfg, sys, p, now, Reviewing, reason, Moved);
    }
  }

  lemma ReleaseMarks(cfg: Config, t: Tables, p: Proc)
    ensures var u := ReleaseQuestionLease(t, p.question, p.worker).tables; QuietQuestions(t, u, p) && MarksGrow(cfg, t, u)
  {
    var u := ReleaseQuestionLease(t, p.question, p.worker).tables;
    LeaseQuiet(t, p, "", "");
    QuietMarks(cfg, t, u, p);
  }

  lemma ReleaseBacked(cfg: Config, sys: System, p: Proc)
    requires AdvancesBacked(cfg, sys, p) && PcOf(sys, p).Releasing?
    requires MarksGrow(cfg, sys.tables, ReleaseQuestionLease(sys.tables, p.question, p.worker).tables)
    ensures AdvancesBacked(cfg, DoRelease(sys, p, PcOf(sys, p).end), p)
  {
    OneMoreEnd(EndsOf(sys, p), PcOf(sys, p).end);
    var next := DoRelease(sys, p, PcOf(sys, p).end);
    assert Marks(cfg, sys.tables, p.question) <= Marks(cfg, next.tables, p.question);
  }

  lemma ReleasedBounds(cfg: Config, sys: System, p: Proc)
    requires Bounded(cfg, sys) && PcOf(sys, p).Releasing?
    ensures Bounded(cfg, DoRelease(sys, p, PcOf(sys, p).end))
  {
    var next := DoRelease(sys, p, PcOf(sys, p).end);
    ReleaseMarks(cfg, sys.tables, p);
    assert AdvancesBacked(cfg, sys, p);
    ReleaseBacked(cfg, sys, p);
    OthersStayBacked(cfg, sys, next, p);
    if !next.stale {
      QuietDiscipline(sys.tables, next.tables, p);
    }
  }

  lemma ReleaseBounds(cfg: Config, sys: System, p: Proc)
    requires Bounded(cfg, sys) && PcOf(sys, p).Releasing?
    ensures Bounded(cfg, Next(cfg, sys, ActRelease(p)))
  {
    ReleasedBounds(cfg, sys, p);
  }

  lemma ReadBackBounds(cfg: Config, sys: System, p: Proc)
    requires Bounded(cfg, sys)
    ensures Bounded(cfg, Next(cfg, sys, ActReadBack(p)))
  {
    SameTablesQuiet(sys.tables, p);
    QuietBounds(cfg, sys, Next(cfg, sys, ActReadBack(p)), p);
  }

  lemma RenewBounds(cfg: Config, sys: System, p: Proc, now: string, expires: string)
    requires Bounded(cfg, sys)
    ensures Bounded(cfg, sys.(tables := RenewQuestionLease(sys.tables, p.question, p.worker, now, expires).tables))
  {
    LeaseQuiet(sys.tables, p, now, expires);
    QuietBounds(cfg, sys, sys.(tables := RenewQuestionLease(sys.tables, p.question, p.worker, now, expires).tables), p);
  }

  lemma RenewActivityBounds(cfg: Config, sys: System, p: Proc, a: Uuid, now: string, expires: string, attempt: Option<nat>)
    requires Bounded(cfg, sys)
    ensures Bounded(cfg, sys.(tables := RenewActivityLease(sys.tables, a, p.worker, now, expires, attempt).tables))
  {
    var next := sys.(tables := RenewActivityLease(sys.tables, a, p.worker, now, expires, attempt).tables);
    SameQuestionsQuiet(sys.tables, next.tables, p);
    QuietBounds(cfg, sys, next, p);
  }

  lemma EnvironmentQuiet(s: Tables, c: Call, p: Proc)
    requires c.CallCreateProject? || c.CallCreateQuestion? || c.CallRegisterArtifact?
    ensures QuietQuestions(s, Store.After(s, c), p) && SameActivityKeys(s, Store.After(s, c))
  {
    EnvironmentIsQuiet(s, c, p);
  }

  lemma EnvironmentBounds(cfg: Config, sys: System, c: Call)
    requires Bounded(cfg, sys) && (c.CallCreateProject? || c.CallCreateQuestion? || c.CallRegisterArtifact?)
    ensures Bounded(cfg, sys.(tables := Store.After(sys.tables, c)))
  {
    var p := Proc("", "");
    var next := sys.(tables := Store.After(sys.tables, c));
    EnvironmentQuiet(sys.tables, c, p);
    QuietBounds(cfg, sys, next, p);
  }

  /** The steps that touch nothing but the worker's own position. */
  predicate IsOwnStep(a: Action, p: Proc) {
    a == ActLoad(p) || a == ActReload(p) || a == ActRaise(p) || a == ActCrash(p) || (a.ActExecute? && a.p == p)
  }

  lemma OwnStepShape(cfg: Config, sys: System, a: Action, p: Proc)
    requires IsOwnStep(a, p)
    ensures var next := Next(cfg, sys, a);
      next == sys || (p in next.procs && !next.procs[p].Moved? && next.procs[p] != Releasing(Returned(false))
                      && next == sys.(procs := sys.procs[p := next.procs[p]]))
  {
  }

  lemma OwnStepBounds(cfg: Config, sys: System, a: Action, p: Proc)
    requires Bounded(cfg, sys) && IsOwnStep(a, p)
    ensures Bounded(cfg, Next(cfg, sys, a))
  {
    OwnStepShape(cfg, sys, a, p);
    if Next(cfg, sys, a) != sys {
      PcBounds(cfg, sys, Next(cfg, sys, a), p);
    }
  }

  lemma FrontKeepsBounds(cfg: Config, sys: System, a: Action)
    requires Inv(cfg, sys) && Bounded(cfg, sys) && IsFront(a)
    ensures Bounded(cfg, Next(cfg, sys, a))
  {
    match a {
      case ActAcquire(p, now, expires) => if PcOf(sys, p).Idle? { AcquireBounds(cfg, sys, p, now, expires); }
      case ActLoad(p) => OwnStepBounds(cfg, sys, a, p);
      case ActEnter(p, now) => if PcOf(sys, p).Loaded? { EnterBounds(cfg, sys, p, now); }
      case ActReload(p) => OwnStepBounds(cfg, sys, a, p);
      case ActStage(p, id, now) => if PcOf(sys, p).Staged? { StageBounds(cfg, sys, p, id, now); }
      case ActClaim(p, now, expires, request) => if PcOf(sys, p).Claiming? { ClaimBounds(cfg, sys, p, now, expires, request); }
      case ActGiveUp(p, now, reason) =>
        if PcOf(sys, p).GivingUp? { GiveUpBounds(cfg, sys, p, now, reason); }
    }
  }

  lemma BackKeepsBounds(cfg: Config, sys: System, a: Action)
    requires Inv(cfg, sys) && Bounded(cfg, sys) && IsBack(a)
    ensures Bounded(cfg, Next(cfg, sys, a))
  {
    match a {
      case ActComplete(p, now, artifacts) => if PcOf(sys, p).Committing? { CompleteBounds(cfg, sys, p, now, artifacts); }
      case ActFail(p, now, error) => if PcOf(sys, p).Failing? { FailBounds(cfg, sys, p, now, error); }
      case ActDecide(p, now, m, c) =>
        if PcOf(sys, p).Deciding? { DecideBounds(cfg, sys, p, now, m, c); }
      case ActConclude(p, now, reason) =>
        ConcludeBounds(cfg, sys, p, now, reason);
      case ActRelease(p) => if PcOf(sys, p).Releasing? { ReleaseBounds(cfg, sys, p); }
      case _ => PositionBounds(cfg, sys, a);
    }
  }

  lemma PositionBounds(cfg: Config, sys: System, a: Action)
    requires Bounded(cfg, sys) && (a.ActExecute? || a.ActRaise? || a.ActReadBack? || a.ActCrash?)
    ensures Bounded(cfg, Next(cfg, sys, a))
  {
    if a.ActReadBack? {
      ReadBackBounds(cfg, sys, a.p);
    } else {
      OwnStepBounds(cfg, sys, a, a.p);
    }
  }

  lemma NextKeepsBounds(cfg: Config, sys: System, a: Action)
    requires Inv(cfg, sys) && Bounded(cfg, sys)
    ensures Bounded(cfg, Next(cfg, sys, a))
  {
    if IsFront(a) {
      FrontKeepsBounds(cfg, sys, a);
    } else if IsBack(a) {
      BackKeepsBounds(cfg, sys, a);
    } else {
      OutsideKeepsBounds(cfg, sys, a);
    }
  }

  lemma OutsideKeepsBounds(cfg: Config, sys: System, a: Action)
    requires Bounded(cfg, sys) && !IsFront(a) && !IsBack(a)
    ensures Bounded(cfg, Next(cfg, sys, a))
  {
    match a {
      case ActRenewQuestion(p, now, expires) => RenewBounds(cfg, sys, p, now, expires);
      case ActRenewActivity(p, activity, now, expires, attempt) => RenewActivityBounds(cfg, sys, p, activity, now, expires, attempt);
      case ActCreateProject(id, name) => EnvironmentBounds(cfg, sys, CallCreateProject(id, name));
      case ActCreateQuestion(projectId, key, title, problem, id) =>
        EnvironmentBounds(cfg, sys, CallCreateQuestion(projectId, key, title, problem, id));
      case ActRegisterArtifact(artifact) => EnvironmentBounds(cfg, sys, CallRegisterArtifact(artifact));
    }
  }

  lemma {:induction false} EveryRunIsBounded(cfg: Config, actions: seq<Action>)
    ensures Inv(cfg, Workflow.After(cfg, actions)) && Bounded(cfg, Workflow.After(cfg, actions))
    decreases |actions|
  {
    EveryRunKeepsInv(cfg, actions);
    if actions != [] {
      EveryRunIsBounded(cfg, actions[..|actions| - 1]);
      NextKeepsBounds(cfg, Workflow.After(cfg, actions[..|actions| - 1]), actions[|actions| - 1]);
    }
  }

  // ---------- main results ----------

  /** Over every interleaving a question makes at most 8 + 4R transitions, its revision stays within the limit R,
      and no worker's `run_step` returns more than 2R+3 times with the question still open. */
  lemma WorkflowIsBounded(cfg: Config, actions: seq<Action>, p: Proc)
    ensures var sys := Workflow.After(cfg, actions);
      && OpenReturns(sys, p) <= 2 * cfg.maxRevisions + 3
      && (p.question in sys.tables.questions ==>
            && 0 <= sys.tables.questions[p.question].revision <= cfg.maxRevisions
            && sys.tables.questions[p.question].version <= 9 + 4 * cfg.maxRevisions)
  {
    EveryRunIsBounded(cfg, actions);
    var sys := Workflow.After(cfg, actions);
    assert AdvancesBacked(cfg, sys, p);
    if p.question in sys.tables.questions {
      assert QuestionInv(cfg, sys.tables, p.question);
    }
  }

  // ---------- counting activities ----------

  ghost function ActivitiesOf(t: Tables, q: Uuid): set<Uuid> {
    set id | id in t.activities && t.activities[id].questionId == q
  }

  ghost function UpTo(n: nat): (s: set<int>)
    ensures |s| == n && forall i :: i in s <==> 0 <= i < n
  {
    if n == 0 then {} else UpTo(n - 1) + {n - 1}
  }

  /** A set that maps injectively into 0..n-1 has at most n elements. */
  lemma InjectionBound(ids: set<Uuid>, code: map<Uuid, int>, n: nat)
    requires forall i | i in ids :: i in code && 0 <= code[i] < n
    requires forall i, j | i in ids && j in ids && code[i] == code[j] :: i == j
    ensures |ids| <= n
  {
    InjectionInto(ids, code, UpTo(n));
  }

  lemma {:induction false} InjectionInto(ids: set<Uuid>, code: map<Uuid, int>, range: set<int>)
    requires forall i | i in ids :: i in code && code[i] in range
    requires forall i, j | i in ids && j in ids && code[i] == code[j] :: i == j
    ensures |ids| <= |range|
    decreases |ids|
  {
    if ids != {} {
      var i :| i in ids;
      InjectionInto(ids - {i}, code, range - {code[i]});
    }
  }

  /** The slot of an activity when every activity was created under the lease. */
  function Slot(cfg: Config, stage: Stage, revision: int): int {
    match stage
    case ModelingStage => 0
    case FinalizeStage => 1
    case CodingStage => 2 + 2 * revision
    case ReviewStage => 3 + 2 * revision
  }

  lemma OnePerSlot(cfg: Config, t: Tables, i: Uuid, j: Uuid)
    requires UniqueKeys(t.activities) && Disciplined(t) && ActivitiesInRange(cfg, t)
    requires i in t.activities && j in t.activities && t.activities[i].questionId == t.activities[j].questionId
    requires Slot(cfg, t.activities[i].stage, t.activities[i].revision) == Slot(cfg, t.activities[j].stage, t.activities[j].revision)
    ensures i == j
  {
    var a, b := t.activities[i], t.activities[j];
    assert InRange(cfg, a.revision) && InRange(cfg, b.revision);
    assert a.stage == b.stage && a.revision == b.revision;
    KeyIsUnique(t.activities, i, j, a.questionId, a.stage, a.revision);
  }

  lemma DisciplinedAreFewer(cfg: Config, t: Tables, q: Uuid)
    requires ActivitiesInRange(cfg, t) && UniqueKeys(t.activities) && Disciplined(t)
    ensures |ActivitiesOf(t, q)| <= 2 * cfg.maxRevisions + 4
  {
    var ids := ActivitiesOf(t, q);
    var code := map id | id in t.activities :: Slot(cfg, t.activities[id].stage, t.activities[id].revision);
    forall i, j | i in ids && j in ids && code[i] == code[j] ensures i == j {
      OnePerSlot(cfg, t, i, j);
    }
    forall i | i in ids ensures 0 <= code[i] < 2 * cfg.maxRevisions + 4 {
      assert InRange(cfg, t.activities[i].revision);
    }
    InjectionBound(ids, code, 2 * cfg.maxRevisions + 4);
  }

  /** If every activity was created by a worker that still owned the question lease, at most 2R+4 exist. */
  lemma LeasedActivitiesAreFewer(cfg: Config, actions: seq<Action>, q: Uuid)
    requires !Workflow.After(cfg, actions).stale
    ensures |ActivitiesOf(Workflow.After(cfg, actions).tables, q)| <= 2 * cfg.maxRevisions + 4
  {
    EveryRunIsBounded(cfg, actions);
    KeysAreUnique(Workflow.After(cfg, actions).tables);
    DisciplinedAreFewer(cfg, Workflow.After(cfg, actions).tables, q);
  }
}
