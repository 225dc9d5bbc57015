/** How many activities can a question have? Each stage and revision has one row, but which rows can exist?
    `_enter_stage` reads the question again after its transition committed, so a worker that lost the lease in
    between takes over a later revision for a stage that is long past. That can happen once per question, for
    modeling, and only if revisions are allowed; then the bound is one more than a disciplined run would need. */
module WorkflowCounts {
  import opened Wrappers
  import opened Contracts
  import opened Store
  import opened StoreRuns
  import opened Workflow
  import opened WorkflowSafety
  import opened WorkflowBounds
  import WorkflowRaces
  import Fencing

  // ---------- the end of a question ----------

  predicate FinalAt(t: Tables, q: Uuid, revision: int) {
    q in t.questions && PastReview(t.questions[q].state) && t.questions[q].revision == revision
  }

  predicate Started(t: Tables, q: Uuid) {
    q in t.questions && t.questions[q].state != Pending
  }

  /** A worker that will create or has found a final activity knows the final revision. */
  predicate Late(t: Tables, q: Uuid, pc: Pc) {
    match pc
    case Loaded(s) => s.state == Finalizing ==> FinalAt(t, q, s.revision)
    case Entered(stage) => stage == FinalizeStage ==> q in t.questions && PastReview(t.questions[q].state)
    case Staged(s, stage) => stage == FinalizeStage ==> FinalAt(t, q, s.revision)
    case _ => true
  }

  ghost predicate FinalsAtEnd(t: Tables) {
    forall id | id in t.activities && t.activities[id].stage == FinalizeStage ::
      FinalAt(t, t.activities[id].questionId, t.activities[id].revision)
  }

  // ---------- the one worker that can model again ----------

  /** A worker that entered modeling by its own transition and has not yet looked the question up again, or has
      and found a later revision. */
  predicate Holds(pc: Pc) {
    (pc.Entered? && pc.stage == ModelingStage) || (pc.Staged? && pc.stage == ModelingStage && pc.q.revision != 0)
  }

  predicate Holder(sys: System, p: Proc) {
    Holds(PcOf(sys, p))
  }

  predicate Remodel(t: Tables, id: Uuid) {
    id in t.activities && t.activities[id].stage == ModelingStage && t.activities[id].revision != 0
  }

  /** Per question at most one such worker or one such activity, and none before the question has started. */
  ghost predicate OneHolder(sys: System) {
    && (forall p, x | Holder(sys, p) && Holder(sys, x) && p.question == x.question :: p == x)
    && (forall p, id | Holder(sys, p) && Remodel(sys.tables, id) :: sys.tables.activities[id].questionId != p.question)
    && (forall i, j | Remodel(sys.tables, i) && Remodel(sys.tables, j)
                      && sys.tables.activities[i].questionId == sys.tables.activities[j].questionId :: i == j)
    && (forall p | Holder(sys, p) :: Started(sys.tables, p.question))
    && (forall id | Remodel(sys.tables, id) :: Started(sys.tables, sys.tables.activities[id].questionId))
  }

  predicate LoadedSound(pc: Pc) {
    pc.Loaded? && pc.q.state == Modeling ==> pc.q.revision == 0
  }

  ghost predicate Counted(sys: System) {
    && FinalsAtEnd(sys.tables)
    && (forall p: Proc :: Late(sys.tables, p.question, PcOf(sys, p)))
    && (forall p :: LoadedSound(PcOf(sys, p)))
    && OneHolder(sys)
  }

  // ---------- what one step does to questions ----------

  /** A question keeps its final revision, and never becomes PENDING again. */
  ghost predicate Forward(s: Tables, t: Tables) {
    && (forall q, r :: FinalAt(s, q, r) ==> FinalAt(t, q, r))
    && (forall q :: Started(s, q) ==> Started(t, q))
  }

  lemma CallForward(s: Tables, c: Call)
    requires !c.CallTransition?
    ensures Forward(s, Store.After(s, c))
  {
    var t := Store.After(s, c);
    forall q | q in s.questions
      ensures q in t.questions && t.questions[q].state == s.questions[q].state && t.questions[q].revision == s.questions[q].revision
    {
      CallKeepsState(s, c, q);
    }
  }

  lemma CallKeepsState(s: Tables, c: Call, q: Uuid)
    requires !c.CallTransition? && q in s.questions
    ensures var t := Store.After(s, c);
      q in t.questions && t.questions[q].state == s.questions[q].state && t.questions[q].revision == s.questions[q].revision
  {
    if c.CallComplete? {
      CompleteKeepsQuestions(s, c);
    }
  }

  lemma CompleteKeepsQuestions(s: Tables, c: Call)
    requires c.CallComplete?
    ensures Store.After(s, c).questions == s.questions
  {
    if c.id in s.activities && s.activities[c.id].status != Succeeded
      && CompleteActivity(s, c.id, c.worker, c.now, c.result, c.artifacts, c.attempt).result.Ok? {
      Fencing.CompleteShape(s, c.id, c.worker, c.now, c.result, c.artifacts, c.attempt);
    }
  }

  lemma TransitForward(sys: System, p: Proc, now: string, expected: set<QuestionState>, target: QuestionState,
                       revision: Option<int>, reason: Option<string>, next: Pc)
    requires target != Pending
    requires forall state | state in expected && PastReview(state) :: PastReview(target) && revision.None?
    ensures Forward(sys.tables, Transit(sys, p, now, expected, target, revision, reason, next).tables)
  {
  }

  lemma EnterForward(sys: System, p: Proc, q: Snapshot, now: string)
    ensures Forward(sys.tables, DoEnter(sys, p, q, now).tables)
  {
    if EntryOf(q.state).Some? && q.state != EntryOf(q.state).value.target {
      var entry := EntryOf(q.state).value;
      TransitForward(sys, p, now, {q.state}, entry.target, None, None, Entered(entry.stage));
    }
  }

  lemma ReviewForward(cfg: Config, sys: System, p: Proc, pc: Pc, now: string, m: Option<Uuid>, c: Option<Uuid>)
    requires pc.Deciding? && pc.response.output.ReviewOutput?
    ensures Forward(sys.tables, DoDecide(cfg, sys, p, pc, now, m, c).tables)
  {
    if !pc.response.output.approve {
      if pc.q.revision + 1 > cfg.maxRevisions {
        TransitForward(sys, p, now, {Reviewing}, Failed, None, Some(cfg.exhausted), Moved);
      } else {
        TransitForward(sys, p, now, {Reviewing}, RevisionRequired, Some(pc.q.revision + 1), None, Moved);
      }
    }
  }

  lemma DecideForward(cfg: Config, sys: System, p: Proc, pc: Pc, now: string, m: Option<Uuid>, c: Option<Uuid>)
    requires pc.Deciding?
    ensures Forward(sys.tables, DoDecide(cfg, sys, p, pc, now, m, c).tables)
  {
    match pc.response.output {
      case ModelingOutput(_) => TransitForward(sys, p, now, {Modeling}, ReadyForCoding, None, None, Moved);
      case CodingOutput(_, _) => TransitForward(sys, p, now, {Coding}, ReadyForReview, None, None, Moved);
      case FinalizeOutput => TransitForward(sys, p, now, {Finalizing}, Completed, None, None, Moved);
      case ReviewOutput(_) => ReviewForward(cfg, sys, p, pc, now, m, c);
    }
  }

  lemma NextForward(cfg: Config, sys: System, a: Action)
    ensures Forward(sys.tables, Next(cfg, sys, a).tables)
  {
    if WorkflowRaces.Transiting(a) {
      TransitingForward(cfg, sys, a);
    } else {
      CallStepForward(cfg, sys, a);
    }
  }

  lemma TransitingForward(cfg: Config, sys: System, a: Action)
    requires WorkflowRaces.Transiting(a)
    ensures Forward(sys.tables, Next(cfg, sys, a).tables)
  {
    match a {
      case ActEnter(p, now) => if PcOf(sys, p).Loaded? { EnterForward(sys, p, PcOf(sys, p).q, now); }
      case ActGiveUp(p, now, reason) =>
        if PcOf(sys, p).GivingUp? {
          TransitForward(sys, p, now, {PcOf(sys, p).q.state}, Failed, None, Some(reason), Releasing(Returned(true)));
        }
      case ActDecide(p, now, m, c) => if PcOf(sys, p).Deciding? { DecideForward(cfg, sys, p, PcOf(sys, p), now, m, c); }
      case ActConclude(p, now, reason) => ConcludeForward(cfg, sys, p, now, reason);
    }
  }

  lemma ConcludeForward(cfg: Config, sys: System, p: Proc, now: string, reason: string)
    ensures Forward(sys.tables, Next(cfg, sys, ActConclude(p, now, reason)).tables)
  {
    if PcOf(sys, p).Approving? {
      TransitForward(sys, p, now, {Reviewing}, Approved, None, None, Moved);
    } else if PcOf(sys, p).Rejecting? {
      TransitForward(sys, p, now, {Reviewing}, Failed, None, Some(reason), Moved);
    }
  }

  lemma CallStepForward(cfg: Config, sys: System, a: Action)
    requires !WorkflowRaces.Transiting(a)
    ensures Forward(sys.tables, Next(cfg, sys, a).tables)
  {
    WorkflowRaces.NextIsCall(cfg, sys, a);
    if Next(cfg, sys, a).tables != sys.tables {
      CallForward(sys.tables, WorkflowRaces.CallOf(cfg, sys, a).value);
    }
  }

  // ---------- what one step does to activities ----------

  /** The keys of all rows are kept. */
  ghost predicate KeepsKeys(s: Tables, t: Tables) {
    forall id | id in s.activities :: id in t.activities
      && HasKey(t.activities[id], s.activities[id].questionId, s.activities[id].stage, s.activities[id].revision)
  }

  lemma CallKeepsKeys(s: Tables, c: Call)
    requires !c.CallGetOrCreate?
    ensures KeepsKeys(s, Store.After(s, c)) && Store.After(s, c).activities.Keys == s.activities.Keys
  {
    if c.CallComplete? {
      CompleteKeepsKeys(s, c);
    } else {
      OtherKeepsKeys(s, c);
    }
  }

  lemma OtherKeepsKeys(s: Tables, c: Call)
    requires !c.CallGetOrCreate? && !c.CallComplete?
    ensures KeepsKeys(s, Store.After(s, c)) && Store.After(s, c).activities.Keys == s.activities.Keys
  {
  }

  lemma CompleteKeepsKeys(s: Tables, c: Call)
    requires c.CallComplete?
    ensures KeepsKeys(s, Store.After(s, c)) && Store.After(s, c).activities.Keys == s.activities.Keys
  {
    if c.id in s.activities && s.activities[c.id].status != Succeeded
      && CompleteActivity(s, c.id, c.worker, c.now, c.result, c.artifacts, c.attempt).result.Ok? {
      Fencing.CompleteShape(s, c.id, c.worker, c.now, c.result, c.artifacts, c.attempt);
    }
  }

  lemma NextKeepsKeys(cfg: Config, sys: System, a: Action)
    requires !a.ActStage?
    ensures var t := Next(cfg, sys, a).tables; KeepsKeys(sys.tables, t) && t.activities.Keys == sys.tables.activities.Keys
  {
    if WorkflowRaces.Transiting(a) {
      WorkflowRaces.TransitingLeavesActivities(cfg, sys, a);
    } else {
      WorkflowRaces.NextIsCall(cfg, sys, a);
      if Next(cfg, sys, a).tables != sys.tables {
        CallKeepsKeys(sys.tables, WorkflowRaces.CallOf(cfg, sys, a).value);
      }
    }
  }

  // ---------- the positions ----------

  /** The worker that acts reaches a sound position. */
  lemma NewPosition(cfg: Config, sys: System, a: Action, p: Proc)
    requires Inv(cfg, sys) && WorkflowRaces.Actor(a) == Some(p)
    requires Late(sys.tables, p.question, PcOf(sys, p)) && LoadedSound(PcOf(sys, p))
    ensures var next := Next(cfg, sys, a); Late(next.tables, p.question, PcOf(next, p)) && LoadedSound(PcOf(next, p))
  {
    if a.ActEnter? {
      EnterPosition(cfg, sys, p, a.now);
    } else if a.ActLoad? || a.ActReload? {
      ReadPosition(cfg, sys, a, p);
    } else {
      StaysSound(cfg, sys, a, p);
    }
  }

  lemma StaysSound(cfg: Config, sys: System, a: Action, p: Proc)
    requires WorkflowRaces.Actor(a) == Some(p) && !a.ActLoad? && !a.ActEnter? && !a.ActReload?
    requires Late(sys.tables, p.question, PcOf(sys, p)) && LoadedSound(PcOf(sys, p))
    ensures var next := Next(cfg, sys, a); Late(next.tables, p.question, PcOf(next, p)) && LoadedSound(PcOf(next, p))
  {
    NextForward(cfg, sys, a);
    OtherPosition(cfg, sys, a, p);
    var next := Next(cfg, sys, a);
    if Early(PcOf(next, p)) {
      LateForward(sys.tables, next.tables, p.question, PcOf(sys, p));
    }
  }

  lemma ReadPosition(cfg: Config, sys: System, a: Action, p: Proc)
    requires Inv(cfg, sys) && (a == ActLoad(p) || a == ActReload(p))
    requires Late(sys.tables, p.question, PcOf(sys, p)) && LoadedSound(PcOf(sys, p))
    ensures var next := Next(cfg, sys, a); Late(next.tables, p.question, PcOf(next, p)) && LoadedSound(PcOf(next, p))
  {
    if Read(sys, p).Some? { assert QuestionInv(cfg, sys.tables, p.question); }
  }

  lemma EnterPosition(cfg: Config, sys: System, p: Proc, now: string)
    requires Late(sys.tables, p.question, PcOf(sys, p)) && LoadedSound(PcOf(sys, p))
    ensures var next := Next(cfg, sys, ActEnter(p, now)); Late(next.tables, p.question, PcOf(next, p)) && LoadedSound(PcOf(next, p))
  {
    NextForward(cfg, sys, ActEnter(p, now));
  }

  predicate Early(pc: Pc) {
    pc.Loaded? || pc.Entered? || pc.Staged?
  }

  lemma OtherPosition(cfg: Config, sys: System, a: Action, p: Proc)
    requires WorkflowRaces.Actor(a) == Some(p) && !a.ActLoad? && !a.ActEnter? && !a.ActReload?
    ensures var was, now := PcOf(sys, p), PcOf(Next(cfg, sys, a), p); Early(now) ==> was == now
  {
  }

  lemma LateForward(s: Tables, t: Tables, q: Uuid, pc: Pc)
    requires Forward(s, t) && Late(s, q, pc)
    ensures Late(t, q, pc)
  {
    if q in s.questions && PastReview(s.questions[q].state) {
      assert FinalAt(s, q, s.questions[q].revision);
    }
  }

  lemma OtherWorker(cfg: Config, sys: System, a: Action, p: Proc)
    requires WorkflowRaces.Actor(a) != Some(p)
    requires Late(sys.tables, p.question, PcOf(sys, p)) && LoadedSound(PcOf(sys, p))
    ensures var next := Next(cfg, sys, a); Late(next.tables, p.question, PcOf(next, p)) && LoadedSound(PcOf(next, p))
  {
    WorkflowRaces.OthersUntouched(cfg, sys, a, p);
    NextForward(cfg, sys, a);
    LateForward(sys.tables, Next(cfg, sys, a).tables, p.question, PcOf(sys, p));
  }

  /** Nobody's position becomes unsound. */
  lemma AnyPosition(cfg: Config, sys: System, a: Action, p: Proc)
    requires Inv(cfg, sys) && Late(sys.tables, p.question, PcOf(sys, p)) && LoadedSound(PcOf(sys, p))
    ensures var next := Next(cfg, sys, a); Late(next.tables, p.question, PcOf(next, p)) && LoadedSound(PcOf(next, p))
  {
    if WorkflowRaces.Actor(a) == Some(p) {
      NewPosition(cfg, sys, a, p);
    } else {
      OtherWorker(cfg, sys, a, p);
    }
  }

  lemma NextKeepsPositions(cfg: Config, sys: System, a: Action, next: System)
    requires Inv(cfg, sys) && Counted(sys) && next == Next(cfg, sys, a)
    ensures forall p: Proc :: Late(next.tables, p.question, PcOf(next, p))
    ensures forall p: Proc :: LoadedSound(PcOf(next, p))
  {
    forall p: Proc ensures Late(next.tables, p.question, PcOf(next, p)) && LoadedSound(PcOf(next, p)) {
      assert Late(sys.tables, p.question, PcOf(sys, p)) && LoadedSound(PcOf(sys, p));
      AnyPosition(cfg, sys, a, p);
    }
  }

  // ---------- the holder ----------

  /** Who becomes a holder: only a worker whose transition moved the question out of PENDING. */
  lemma NewHolder(cfg: Config, sys: System, a: Action, p: Proc)
    requires LoadedSound(PcOf(sys, p)) && Holder(Next(cfg, sys, a), p) && !Holder(sys, p)
    ensures a.ActEnter? && a.p == p && !Started(sys.tables, p.question) && Started(Next(cfg, sys, a).tables, p.question)
  {
    if WorkflowRaces.Actor(a) != Some(p) {
      WorkflowRaces.OthersUntouched(cfg, sys, a, p);
    } else if !a.ActLoad? && !a.ActEnter? && !a.ActReload? {
      OtherPosition(cfg, sys, a, p);
    } else if a.ActEnter? {
      HolderEntered(cfg, sys, p, a.now);
    }
  }

  lemma HolderEntered(cfg: Config, sys: System, p: Proc, now: string)
    requires LoadedSound(PcOf(sys, p)) && Holder(Next(cfg, sys, ActEnter(p, now)), p) && !Holder(sys, p)
    ensures !Started(sys.tables, p.question) && Started(Next(cfg, sys, ActEnter(p, now)).tables, p.question)
  {
  }

  /** A step that creates no activity. */
  lemma NoNewActivity(cfg: Config, sys: System, a: Action)
    requires OneHolder(sys) && !a.ActStage? && (forall p :: LoadedSound(PcOf(sys, p)))
    ensures OneHolder(Next(cfg, sys, a))
  {
    NextForward(cfg, sys, a);
    NextKeepsKeys(cfg, sys, a);
    var next := Next(cfg, sys, a);
    forall p | Holder(next, p)
      ensures Holder(sys, p) || (a.ActEnter? && a.p == p && !Started(sys.tables, p.question) && Started(next.tables, p.question))
    {
      if !Holder(sys, p) { NewHolder(cfg, sys, a, p); }
    }
    forall id | Remodel(next.tables, id)
      ensures Remodel(sys.tables, id) && next.tables.activities[id].questionId == sys.tables.activities[id].questionId
    {
      assert id in sys.tables.activities;
    }
  }

  /** The row a stage step may add. */
  ghost predicate MayAdd(s: Tables, t: Tables, q: Uuid, stage: Stage, revision: int, id: Uuid) {
    && t.questions == s.questions
    && (t.activities == s.activities
        || (id !in s.activities && id in t.activities && t.activities == s.activities[id := t.activities[id]]
            && HasKey(t.activities[id], q, stage, revision)))
  }

  lemma CreateMayAdd(s: Tables, q: Uuid, projectId: Uuid, revision: int, stage: Stage, id: Uuid, now: string)
    ensures MayAdd(s, GetOrCreateActivity(s, q, projectId, revision, stage, id, now).tables, q, stage, revision, id)
  {
  }

  lemma StageShape(sys: System, p: Proc, q: Snapshot, stage: Stage, id: Uuid, now: string, next: System)
    requires next == DoStage(sys, p, q, stage, id, now)
    ensures MayAdd(sys.tables, next.tables, p.question, stage, q.revision, id)
    ensures next == sys || !Early(PcOf(next, p))
    ensures forall x | x != p :: PcOf(next, x) == PcOf(sys, x)
  {
    if p.question in sys.tables.questions {
      CreateMayAdd(sys.tables, p.question, sys.tables.questions[p.question].projectId, q.revision, stage, id, now);
    }
  }

  lemma StageKeepsHolder(sys: System, p: Proc, id: Uuid, now: string)
    requires OneHolder(sys) && PcOf(sys, p).Staged?
    ensures OneHolder(DoStage(sys, p, PcOf(sys, p).q, PcOf(sys, p).stage, id, now))
  {
    var next := DoStage(sys, p, PcOf(sys, p).q, PcOf(sys, p).stage, id, now);
    StageShape(sys, p, PcOf(sys, p).q, PcOf(sys, p).stage, id, now, next);
    forall x | Holder(next, x) ensures Holder(sys, x) && (next != sys ==> x != p) {
      if x != p { assert PcOf(next, x) == PcOf(sys, x); }
    }
    forall i | Remodel(next.tables, i) && !Remodel(sys.tables, i)
      ensures i == id && next.tables.activities[i].questionId == p.question && Holder(sys, p) && next != sys
    {
    }
  }

  lemma StageKeepsFinals(sys: System, p: Proc, id: Uuid, now: string)
    requires FinalsAtEnd(sys.tables) && PcOf(sys, p).Staged? && Late(sys.tables, p.question, PcOf(sys, p))
    ensures FinalsAtEnd(DoStage(sys, p, PcOf(sys, p).q, PcOf(sys, p).stage, id, now).tables)
  {
    StageShape(sys, p, PcOf(sys, p).q, PcOf(sys, p).stage, id, now, DoStage(sys, p, PcOf(sys, p).q, PcOf(sys, p).stage, id, now));
  }

  lemma OtherKeepsFinals(cfg: Config, sys: System, a: Action)
    requires FinalsAtEnd(sys.tables) && !a.ActStage?
    ensures FinalsAtEnd(Next(cfg, sys, a).tables)
  {
    NextForward(cfg, sys, a);
    NextKeepsKeys(cfg, sys, a);
    var t := Next(cfg, sys, a).tables;
    forall id | id in t.activities && t.activities[id].stage == FinalizeStage
      ensures FinalAt(t, t.activities[id].questionId, t.activities[id].revision)
    {
      assert id in sys.tables.activities;
      assert FinalAt(sys.tables, t.activities[id].questionId, t.activities[id].revision);
    }
  }

  lemma NextKeepsCounted(cfg: Config, sys: System, a: Action)
    requires Inv(cfg, sys) && Counted(sys)
    ensures Counted(Next(cfg, sys, a))
  {
    NextKeepsPositions(cfg, sys, a, Next(cfg, sys, a));
    if a.ActStage? {
      if PcOf(sys, a.p).Staged? {
        assert Late(sys.tables, a.p.question, PcOf(sys, a.p));
        StageKeepsHolder(sys, a.p, a.id, a.now);
        StageKeepsFinals(sys, a.p, a.id, a.now);
      }
    } else {
      NoNewActivity(cfg, sys, a);
      OtherKeepsFinals(cfg, sys, a);
    }
  }

  lemma {:induction false} EveryRunIsCounted(cfg: Config, actions: seq<Action>)
    ensures Counted(Workflow.After(cfg, actions))
    decreases |actions|
  {
    if actions != [] {
      EveryRunIsCounted(cfg, actions[..|actions| - 1]);
      EveryRunKeepsInv(cfg, actions[..|actions| - 1]);
      NextKeepsCounted(cfg, Workflow.After(cfg, actions[..|actions| - 1]), actions[|actions| - 1]);
    }
  }

  // ---------- the count ----------

  /** The place of an activity among 2R+4, the late modeling activity aside. */
  function Place(stage: Stage, revision: int): int {
    match stage
    case ModelingStage => 0
    case FinalizeStage => 1
    case CodingStage => 2 + 2 * revision
    case ReviewStage => 3 + 2 * revision
  }

  lemma OnePerPlace(cfg: Config, sys: System, q: Uuid, i: Uuid, j: Uuid)
    requires Inv(cfg, sys) && Counted(sys)
    requires i in ActivitiesOf(sys.tables, q) && j in ActivitiesOf(sys.tables, q)
    requires !Remodel(sys.tables, i) && !Remodel(sys.tables, j)
    requires var t := sys.tables;
      Place(t.activities[i].stage, t.activities[i].revision) == Place(t.activities[j].stage, t.activities[j].revision)
    ensures i == j
  {
    var t := sys.tables;
    assert InRange(cfg, t.activities[i].revision) && InRange(cfg, t.activities[j].revision);
    assert t.activities[i].stage == t.activities[j].stage;
    if t.activities[i].stage == FinalizeStage {
      assert FinalAt(t, q, t.activities[i].revision) && FinalAt(t, q, t.activities[j].revision);
    }
    KeysAreUnique(t);
    KeyIsUnique(t.activities, i, j, q, t.activities[i].stage, t.activities[i].revision);
  }

  /** Some activities of a question, the late modeling activity not among them. */
  ghost predicate Regular(t: Tables, q: Uuid, ids: set<Uuid>) {
    ids <= ActivitiesOf(t, q) && forall id | id in ids :: !Remodel(t, id)
  }

  lemma RegularAreFew(cfg: Config, sys: System, q: Uuid, ids: set<Uuid>)
    requires Inv(cfg, sys) && Counted(sys) && Regular(sys.tables, q, ids)
    ensures |ids| <= 2 * cfg.maxRevisions + 4
  {
    var t := sys.tables;
    var place := map id | id in t.activities :: Place(t.activities[id].stage, t.activities[id].revision);
    forall i, j | i in ids && j in ids && place[i] == place[j] ensures i == j {
      OnePerPlace(cfg, sys, q, i, j);
    }
    forall i | i in ids ensures 0 <= place[i] < 2 * cfg.maxRevisions + 4 {
      assert InRange(cfg, t.activities[i].revision);
    }
    InjectionBound(ids, place, 2 * cfg.maxRevisions + 4);
  }

  /** One more if there are revisions at all. */
  function Extra(cfg: Config): nat {
    if cfg.maxRevisions >= 1 then 1 else 0
  }

  /** The activities of a question are regular ones, and at most one late modeling activity, if revisions are allowed. */
  lemma AllButOne(cfg: Config, sys: System, q: Uuid) returns (late: set<Uuid>)
    requires Inv(cfg, sys) && Counted(sys)
    ensures late <= ActivitiesOf(sys.tables, q) && Regular(sys.tables, q, ActivitiesOf(sys.tables, q) - late)
    ensures |late| <= Extra(cfg) && forall id | id in late :: Remodel(sys.tables, id)
  {
    var ids := ActivitiesOf(sys.tables, q);
    late := {};
    if j :| j in ids && Remodel(sys.tables, j) {
      late := {j};
      assert InRange(cfg, sys.tables.activities[j].revision);
    }
  }

  /** Over every interleaving a question has at most 2R+5 activities, and 2R+4 if no revisions are allowed, each
      attempted at most `maxAttempts` times. */
  lemma ActivitiesAreBounded(cfg: Config, actions: seq<Action>, q: Uuid)
    ensures var t := Workflow.After(cfg, actions).tables;
      && |ActivitiesOf(t, q)| <= 2 * cfg.maxRevisions + 4 + Extra(cfg)
      && forall id | id in ActivitiesOf(t, q) :: t.activities[id].attempts <= cfg.maxAttempts
  {
    EveryRunKeepsInv(cfg, actions);
    EveryRunIsCounted(cfg, actions);
    var sys := Workflow.After(cfg, actions);
    var late := AllButOne(cfg, sys, q);
    var rest := ActivitiesOf(sys.tables, q) - late;
    RegularAreFew(cfg, sys, q, rest);
    assert ActivitiesOf(sys.tables, q) == rest + late;
  }
}
