/** The evidence gate when no revision is allowed. Then nobody needs to own anything: every row stays at revision 0, so
    evidence that a call has read is evidence for the question as long as it exists. One step is looked at from the one
    call that takes it; whatever other calls of its worker id do, they are other steps. */
module NoRevisions {
  import opened Wrappers
  import opened Contracts
  import opened Store
  import opened Workflow
  import opened WorkflowSafety
  import WorkflowRaces

  /** What the gate promises, with revision 0. */
  ghost predicate RowSound(cfg: Config, t: Tables, q: Uuid, row: Question) {
    && row.revision == 0
    && (BehindGate(row.state) ==> Evidence(t, q, 0))
    && (row.state == Completed ==> FinalEvidence(cfg, t, q, 0))
  }

  ghost predicate TablesSound(cfg: Config, t: Tables) {
    TablesInv(cfg, t) && forall q | q in t.questions :: RowSound(cfg, t, q, t.questions[q])
  }

  /** A call knows only what never ceases to hold. */
  ghost predicate PositionSound(cfg: Config, t: Tables, q: Uuid, pc: Pc) {
    Grounded(cfg, t, q, pc) && (!pc.Idle? ==> q in t.questions)
  }

  ghost predicate Sound(cfg: Config, s: System, p: Proc) {
    cfg.maxRevisions == 0 && TablesSound(cfg, s.tables) && PositionSound(cfg, s.tables, p.question, PcOf(s, p))
  }

  /** What a step leaves to the other calls. */
  ghost predicate Grows(s: Tables, t: Tables) {
    TablesGrow(s, t) && s.questions.Keys <= t.questions.Keys
  }

  ghost predicate KeepsSound(cfg: Config, s: System, next: System, p: Proc) {
    Sound(cfg, next, p) && Grows(s.tables, next.tables)
  }

  lemma PositionStays(cfg: Config, s: Tables, t: Tables, q: Uuid, pc: Pc)
    requires Grows(s, t) && PositionSound(cfg, s, q, pc)
    ensures PositionSound(cfg, t, q, pc)
  {
    GroundedStays(cfg, s, t, q, pc);
  }

  lemma RowStays(cfg: Config, s: Tables, t: Tables, q: Uuid, row: Question)
    requires TablesGrow(s, t) && RowSound(cfg, s, q, row)
    ensures RowSound(cfg, t, q, row)
  {
    if BehindGate(row.state) { EvidenceStays(s, t, q, 0); }
    if row.state == Completed { FinalEvidenceStays(cfg, s, t, q, 0); }
  }

  lemma QuietRowStays(cfg: Config, s: Tables, t: Tables, p: Proc, q: Uuid)
    requires TablesGrow(s, t) && QuietQuestions(s, t, p) && q in t.questions
    requires q in s.questions ==> RowSound(cfg, s, q, s.questions[q])
    ensures RowSound(cfg, t, q, t.questions[q])
  {
    if q in s.questions {
      RowStays(cfg, s, t, q, s.questions[q]);
      assert QuietRow(s.questions[q], t.questions[q], q == p.question, p.worker);
    }
  }

  /** A step that moves no question. */
  lemma QuietIsSound(cfg: Config, s: System, next: System, p: Proc)
    requires Sound(cfg, s, p) && TablesInv(cfg, next.tables) && TablesGrow(s.tables, next.tables)
    requires QuietQuestions(s.tables, next.tables, p)
    requires PositionSound(cfg, next.tables, p.question, PcOf(next, p))
    ensures KeepsSound(cfg, s, next, p)
  {
    forall q | q in next.tables.questions ensures RowSound(cfg, next.tables, q, next.tables.questions[q]) {
      QuietRowStays(cfg, s.tables, next.tables, p, q);
    }
  }

  /** A step that changes only the position. */
  lemma PcIsSound(cfg: Config, s: System, next: System, p: Proc)
    requires Sound(cfg, s, p) && next.tables == s.tables
    requires PositionSound(cfg, s.tables, p.question, PcOf(next, p))
    ensures KeepsSound(cfg, s, next, p)
  {
    TablesGrowReflexive(s.tables);
  }

  /** A step that changes activities only. */
  lemma ActivityIsSound(cfg: Config, s: System, p: Proc, t: Tables, pc: Pc)
    requires Sound(cfg, s, p) && TablesInv(cfg, t) && TablesGrow(s.tables, t) && t.questions == s.tables.questions
    requires PositionSound(cfg, t, p.question, pc)
    ensures KeepsSound(cfg, s, Move(s, p, t, pc), p)
  {
    SameQuestionsQuiet(s.tables, t, p);
    QuietIsSound(cfg, s, Move(s, p, t, pc), p);
  }

  /** A transition into a row that is sound for the tables. */
  lemma TransitIsSound(cfg: Config, s: System, p: Proc, now: string, expected: set<QuestionState>, target: QuestionState,
                       reason: Option<string>, next: Pc)
    requires Sound(cfg, s, p) && p.question in s.tables.questions && Grounded(cfg, s.tables, p.question, next)
    requires s.tables.questions[p.question].state in expected ==>
      RowSound(cfg, s.tables, p.question, MovedRow(s.tables.questions[p.question], target, None, reason))
    ensures KeepsSound(cfg, s, Transit(s, p, now, expected, target, None, reason, next), p)
  {
    var out := Transition(s.tables, p.question, p.worker, now, expected, target, None, reason);
    var moved := Transit(s, p, now, expected, target, None, reason, next);
    TransitionRow(s.tables, p, now, expected, target, None, reason);
    if out.result.Err? {
      PcIsSound(cfg, s, moved, p);
    } else {
      QuestionCallKeepsTables(cfg, s.tables, CallTransition(p.question, p.worker, now, expected, target, None, reason));
      MovedIsSound(cfg, s, moved, p, next);
    }
  }

  lemma MovedIsSound(cfg: Config, s: System, moved: System, p: Proc, next: Pc)
    requires Sound(cfg, s, p) && p.question in s.tables.questions && Grounded(cfg, s.tables, p.question, next)
    requires TablesInv(cfg, moved.tables) && TablesGrow(s.tables, moved.tables) && PcOf(moved, p) == next
    requires s.tables.questions.Keys == moved.tables.questions.Keys
    requires forall q | q in s.tables.questions && q != p.question :: moved.tables.questions[q] == s.tables.questions[q]
    requires RowSound(cfg, s.tables, p.question, moved.tables.questions[p.question])
    ensures KeepsSound(cfg, s, moved, p)
  {
    forall q | q in moved.tables.questions ensures RowSound(cfg, moved.tables, q, moved.tables.questions[q]) {
      RowStays(cfg, s.tables, moved.tables, q, moved.tables.questions[q]);
    }
    GroundedStays(cfg, s.tables, moved.tables, p.question, next);
  }

  // ---------- the steps up to the claim ----------

  lemma AcquireSound(cfg: Config, s: System, p: Proc, now: string, expires: string)
    requires Sound(cfg, s, p)
    ensures KeepsSound(cfg, s, Next(cfg, s, ActAcquire(p, now, expires)), p)
  {
    var out := AcquireQuestionLease(s.tables, p.question, p.worker, now, expires);
    if PcOf(s, p).Idle? && out.result.Ok? {
      QuestionCallKeepsTables(cfg, s.tables, CallAcquire(p.question, p.worker, now, expires));
      LeaseQuiet(s.tables, p, now, expires);
      QuietIsSound(cfg, s, DoAcquire(s, p, now, expires), p);
    } else {
      PcIsSound(cfg, s, Next(cfg, s, ActAcquire(p, now, expires)), p);
    }
  }

  lemma ReadSound(cfg: Config, s: System, a: Action, p: Proc)
    requires Sound(cfg, s, p) && (a == ActLoad(p) || a == ActReload(p))
    ensures KeepsSound(cfg, s, Next(cfg, s, a), p)
  {
    if Read(s, p).Some? {
      assert RowSound(cfg, s.tables, p.question, s.tables.questions[p.question]);
    }
    PcIsSound(cfg, s, Next(cfg, s, a), p);
  }

  lemma EnterSound(cfg: Config, s: System, p: Proc, now: string)
    requires Sound(cfg, s, p) && PcOf(s, p).Loaded?
    ensures KeepsSound(cfg, s, DoEnter(s, p, PcOf(s, p).q, now), p)
  {
    var q := PcOf(s, p).q;
    assert RowSound(cfg, s.tables, p.question, s.tables.questions[p.question]);
    match EntryOf(q.state) {
      case None => PcIsSound(cfg, s, DoEnter(s, p, q, now), p);
      case Some(entry) =>
        if q.state == entry.target {
          PcIsSound(cfg, s, DoEnter(s, p, q, now), p);
        } else {
          TransitIsSound(cfg, s, p, now, {q.state}, entry.target, None, Entered(entry.stage));
        }
    }
  }

  lemma StagePosition(cfg: Config, s: System, p: Proc, q: Snapshot, stage: Stage, id: Uuid, now: string)
    requires Sound(cfg, s, p) && PcOf(s, p) == Staged(q, stage)
    requires var out := GetOrCreateActivity(s.tables, p.question, s.tables.questions[p.question].projectId, q.revision, stage, id, now);
      && CommittedAcceptable(cfg, out.tables) && out.tables.questions == s.tables.questions
      && (out.result.Ok? ==> IsActivity(out.tables, out.result.value, p.question, stage, q.revision))
    ensures var next := DoStage(s, p, q, stage, id, now); PositionSound(cfg, next.tables, p.question, PcOf(next, p))
  {
  }

  lemma StageSound(cfg: Config, s: System, p: Proc, id: Uuid, now: string)
    requires Sound(cfg, s, p) && PcOf(s, p).Staged?
    ensures KeepsSound(cfg, s, DoStage(s, p, PcOf(s, p).q, PcOf(s, p).stage, id, now), p)
  {
    var q, stage := PcOf(s, p).q, PcOf(s, p).stage;
    var project := s.tables.questions[p.question].projectId;
    var next := DoStage(s, p, q, stage, id, now);
    CreateTables(cfg, s.tables, p.question, project, q.revision, stage, id, now);
    StagePosition(cfg, s, p, q, stage, id, now);
    SameQuestionsQuiet(s.tables, next.tables, p);
    QuietIsSound(cfg, s, next, p);
  }

  lemma ClaimGrounds(cfg: Config, s: System, p: Proc, now: string, expires: string, request: string)
    requires Sound(cfg, s, p) && PcOf(s, p).Claiming?
    ensures var pc := PcOf(s, p);
      var t := ClaimActivity(s.tables, pc.activity, p.worker, now, expires, cfg.maxAttempts, request).tables;
      && PositionSound(cfg, t, p.question, pc)
      && TablesInv(cfg, t) && TablesGrow(s.tables, t) && t.questions == s.tables.questions
  {
    var pc := PcOf(s, p);
    ClaimTables(cfg, s.tables, pc.activity, p.worker, now, expires, request);
    GroundedStays(cfg, s.tables, ClaimActivity(s.tables, pc.activity, p.worker, now, expires, cfg.maxAttempts, request).tables,
                  p.question, pc);
  }

  lemma ClaimPosition(cfg: Config, s: System, p: Proc, pc: Pc, now: string, expires: string, request: string)
    requires pc.Claiming?
    requires PositionSound(cfg, ClaimActivity(s.tables, pc.activity, p.worker, now, expires, cfg.maxAttempts, request).tables,
                           p.question, pc)
    ensures var next := DoClaim(cfg, s, p, pc.q, pc.stage, pc.activity, now, expires, request);
      && PositionSound(cfg, next.tables, p.question, PcOf(next, p)) && next == Move(s, p, next.tables, PcOf(next, p))
      && next.tables == ClaimActivity(s.tables, pc.activity, p.worker, now, expires, cfg.maxAttempts, request).tables
  {
  }

  lemma ClaimSound(cfg: Config, s: System, p: Proc, now: string, expires: string, request: string)
    requires Sound(cfg, s, p) && PcOf(s, p).Claiming?
    ensures var pc := PcOf(s, p); KeepsSound(cfg, s, DoClaim(cfg, s, p, pc.q, pc.stage, pc.activity, now, expires, request), p)
  {
    var pc := PcOf(s, p);
    var next := DoClaim(cfg, s, p, pc.q, pc.stage, pc.activity, now, expires, request);
    ClaimGrounds(cfg, s, p, now, expires, request);
    ClaimPosition(cfg, s, p, pc, now, expires, request);
    ActivityIsSound(cfg, s, p, next.tables, PcOf(next, p));
  }

  lemma FailedSound(cfg: Config, s: System, p: Proc, now: string, expected: set<QuestionState>, reason: string, next: Pc)
    requires Sound(cfg, s, p) && !PcOf(s, p).Idle? && (next == Moved || next == Releasing(Returned(true)))
    ensures KeepsSound(cfg, s, Transit(s, p, now, expected, Failed, None, Some(reason), next), p)
  {
    assert RowSound(cfg, s.tables, p.question, s.tables.questions[p.question]);
    TransitIsSound(cfg, s, p, now, expected, Failed, Some(reason), next);
  }

  lemma FrontSound(cfg: Config, s: System, a: Action, p: Proc)
    requires Sound(cfg, s, p) && IsFront(a) && WorkflowRaces.Actor(a) == Some(p)
    ensures KeepsSound(cfg, s, Next(cfg, s, a), p)
  {
    var pc := PcOf(s, p);
    TablesGrowReflexive(s.tables);
    match a {
      case ActAcquire(_, now, expires) => AcquireSound(cfg, s, p, now, expires);
      case ActEnter(_, now) => if pc.Loaded? { EnterSound(cfg, s, p, now); }
      case ActStage(_, id, now) => if pc.Staged? { StageSound(cfg, s, p, id, now); }
      case ActClaim(_, now, expires, request) => if pc.Claiming? { ClaimSound(cfg, s, p, now, expires, request); }
      case ActGiveUp(_, now, reason) =>
        if pc.GivingUp? { FailedSound(cfg, s, p, now, {pc.q.state}, reason, Releasing(Returned(true))); }
      case _ => ReadSound(cfg, s, a, p);
    }
  }

  // ---------- the steps from the execution on ----------

  lemma OwnSound(cfg: Config, s: System, a: Action, p: Proc)
    requires Sound(cfg, s, p) && (a == ActRaise(p) || a == ActCrash(p) || a == ActReadBack(p) || (a.ActExecute? && a.p == p))
    ensures KeepsSound(cfg, s, Next(cfg, s, a), p)
  {
    PcIsSound(cfg, s, Next(cfg, s, a), p);
  }

  lemma CompleteSound(cfg: Config, s: System, p: Proc, now: string, artifacts: seq<Artifact>)
    requires Sound(cfg, s, p) && PcOf(s, p).Committing?
    ensures KeepsSound(cfg, s, DoComplete(s, p, PcOf(s, p), now, artifacts), p)
  {
    var pc := PcOf(s, p);
    var next := DoComplete(s, p, pc, now, artifacts);
    CompleteTables(cfg, s.tables, pc.activity, p.worker, now, pc.response, artifacts, pc.attempt);
    GroundedStays(cfg, s.tables, next.tables, p.question, pc);
    ActivityIsSound(cfg, s, p, next.tables, PcOf(next, p));
  }

  lemma FailSound(cfg: Config, s: System, p: Proc, now: string, error: string)
    requires Sound(cfg, s, p) && PcOf(s, p).Failing?
    ensures var pc := PcOf(s, p);
      var t := FailActivity(s.tables, pc.activity, p.worker, now, error, Some(pc.attempt)).tables;
      KeepsSound(cfg, s, Move(s, p, t, Releasing(Raised)), p)
  {
    var pc := PcOf(s, p);
    var out := FailActivity(s.tables, pc.activity, p.worker, now, error, Some(pc.attempt));
    FailTables(cfg, s.tables, pc.activity, p.worker, now, error, pc.attempt);
    ActivityIsSound(cfg, s, p, out.tables, Releasing(Raised));
  }

  lemma StageEndSound(cfg: Config, s: System, p: Proc, now: string)
    requires Sound(cfg, s, p) && PcOf(s, p).Deciding?
    ensures KeepsSound(cfg, s, Transit(s, p, now, {Modeling}, ReadyForCoding, None, None, Moved), p)
    ensures KeepsSound(cfg, s, Transit(s, p, now, {Coding}, ReadyForReview, None, None, Moved), p)
  {
    assert RowSound(cfg, s.tables, p.question, s.tables.questions[p.question]);
    TransitIsSound(cfg, s, p, now, {Modeling}, ReadyForCoding, None, Moved);
    TransitIsSound(cfg, s, p, now, {Coding}, ReadyForReview, None, Moved);
  }

  lemma FinalSound(cfg: Config, s: System, p: Proc, now: string)
    requires Sound(cfg, s, p) && PcOf(s, p).Deciding? && PcOf(s, p).response.output.FinalizeOutput?
    ensures KeepsSound(cfg, s, Transit(s, p, now, {Finalizing}, Completed, None, None, Moved), p)
  {
    assert RowSound(cfg, s.tables, p.question, s.tables.questions[p.question]);
    CommittedFinal(cfg, s.tables, p.question, 0, PcOf(s, p).activity);
    TransitIsSound(cfg, s, p, now, {Finalizing}, Completed, None, Moved);
  }

  lemma RejectIs(cfg: Config, s: System, p: Proc, pc: Pc, now: string, m: Option<Uuid>, c: Option<Uuid>)
    requires pc.Deciding? && pc.response.output.ReviewOutput? && !pc.response.output.approve
    requires pc.q.revision + 1 > cfg.maxRevisions
    ensures DoDecide(cfg, s, p, pc, now, m, c) ==
            Transit(s, p, now, {Reviewing}, QuestionState.Failed, None, Some(cfg.exhausted), Moved)
  {
  }

  /** A rejection exhausts the revisions at once. */
  lemma RejectSound(cfg: Config, s: System, p: Proc, now: string, m: Option<Uuid>, c: Option<Uuid>)
    requires Sound(cfg, s, p) && PcOf(s, p).Deciding? && PcOf(s, p).response.output.ReviewOutput?
    requires !PcOf(s, p).response.output.approve
    ensures KeepsSound(cfg, s, DoDecide(cfg, s, p, PcOf(s, p), now, m, c), p)
  {
    FailedSound(cfg, s, p, now, {Reviewing}, cfg.exhausted, Moved);
    RejectIs(cfg, s, p, PcOf(s, p), now, m, c);
  }

  lemma VerdictPosition(cfg: Config, s: System, p: Proc, m: Option<Uuid>, c: Option<Uuid>)
    requires Sound(cfg, s, p) && PcOf(s, p).Deciding?
    requires ReadsModeling(s.tables, p.question, m) && ReadsCoding(s.tables, p.question, PcOf(s, p).q.revision, c)
    ensures GatePasses(s.tables, p.question, m, c) ==> PositionSound(cfg, s.tables, p.question, Approving(PcOf(s, p).q))
    ensures PositionSound(cfg, s.tables, p.question, Rejecting(PcOf(s, p).q))
  {
    if GatePasses(s.tables, p.question, m, c) {
      GateGivesEvidence(s.tables, p.question, PcOf(s, p).q.revision, m, c);
    }
  }

  lemma VerdictSound(cfg: Config, s: System, p: Proc, now: string, m: Option<Uuid>, c: Option<Uuid>)
    requires Sound(cfg, s, p) && PcOf(s, p).Deciding? && PcOf(s, p).response.output.ReviewOutput?
    requires PcOf(s, p).response.output.approve
    ensures KeepsSound(cfg, s, DoDecide(cfg, s, p, PcOf(s, p), now, m, c), p)
  {
    var pc := PcOf(s, p);
    if ReadsModeling(s.tables, p.question, m) && ReadsCoding(s.tables, p.question, pc.q.revision, c) {
      VerdictPosition(cfg, s, p, m, c);
      var next := if GatePasses(s.tables, p.question, m, c) then Approving(pc.q) else Rejecting(pc.q);
      PcIsSound(cfg, s, Move(s, p, s.tables, next), p);
    } else {
      PcIsSound(cfg, s, s, p);
    }
  }

  lemma DecideSound(cfg: Config, s: System, p: Proc, now: string, m: Option<Uuid>, c: Option<Uuid>)
    requires Sound(cfg, s, p) && PcOf(s, p).Deciding?
    ensures KeepsSound(cfg, s, DoDecide(cfg, s, p, PcOf(s, p), now, m, c), p)
  {
    match PcOf(s, p).response.output {
      case FinalizeOutput => FinalSound(cfg, s, p, now);
      case ReviewOutput(approve) =>
        if approve { VerdictSound(cfg, s, p, now, m, c); } else { RejectSound(cfg, s, p, now, m, c); }
      case _ => StageEndSound(cfg, s, p, now);
    }
  }

  lemma ConcludeSound(cfg: Config, s: System, p: Proc, now: string, reason: string)
    requires Sound(cfg, s, p)
    ensures KeepsSound(cfg, s, Next(cfg, s, ActConclude(p, now, reason)), p)
  {
    if PcOf(s, p).Approving? {
      assert RowSound(cfg, s.tables, p.question, s.tables.questions[p.question]);
      TransitIsSound(cfg, s, p, now, {Reviewing}, Approved, None, Moved);
    } else if PcOf(s, p).Rejecting? {
      FailedSound(cfg, s, p, now, {Reviewing}, reason, Moved);
    } else {
      PcIsSound(cfg, s, s, p);
    }
  }

  lemma ReleasedIsSound(cfg: Config, s: System, p: Proc, end: StepEnd)
    requires Sound(cfg, s, p)
    ensures KeepsSound(cfg, s, DoRelease(s, p, end), p)
  {
    ReleaseTables(cfg, s.tables, p);
    QuietIsSound(cfg, s, DoRelease(s, p, end), p);
  }

  lemma ReleaseSound(cfg: Config, s: System, p: Proc)
    requires Sound(cfg, s, p)
    ensures KeepsSound(cfg, s, Next(cfg, s, ActRelease(p)), p)
  {
    if PcOf(s, p).Releasing? {
      ReleasedIsSound(cfg, s, p, PcOf(s, p).end);
    } else {
      PcIsSound(cfg, s, s, p);
    }
  }

  lemma BackSound(cfg: Config, s: System, a: Action, p: Proc)
    requires Sound(cfg, s, p) && IsBack(a) && WorkflowRaces.Actor(a) == Some(p)
    ensures KeepsSound(cfg, s, Next(cfg, s, a), p)
  {
    var pc := PcOf(s, p);
    TablesGrowReflexive(s.tables);
    match a {
      case ActComplete(_, now, artifacts) => if pc.Committing? { CompleteSound(cfg, s, p, now, artifacts); }
      case ActFail(_, now, error) => if pc.Failing? { FailSound(cfg, s, p, now, error); }
      case ActDecide(_, now, m, c) => if pc.Deciding? { DecideSound(cfg, s, p, now, m, c); }
      case ActConclude(_, now, reason) => ConcludeSound(cfg, s, p, now, reason);
      case ActRelease(_) => ReleaseSound(cfg, s, p);
      case _ => OwnSound(cfg, s, a, p);
    }
  }

  // ---------- heartbeats and the environment ----------

  lemma OutsideTables(cfg: Config, s: System, a: Action, p: Proc)
    requires Sound(cfg, s, p) && !IsFront(a) && !IsBack(a)
    requires WorkflowRaces.Actor(a).Some? ==> WorkflowRaces.Actor(a) == Some(p)
    ensures var t := Next(cfg, s, a).tables; TablesInv(cfg, t) && TablesGrow(s.tables, t) && QuietQuestions(s.tables, t, p)
  {
    match a {
      case ActRenewQuestion(_, now, expires) =>
        QuestionCallKeepsTables(cfg, s.tables, CallRenew(p.question, p.worker, now, expires));
        LeaseQuiet(s.tables, p, now, expires);
      case ActRenewActivity(_, id, now, expires, attempt) =>
        var t := RenewActivityLease(s.tables, id, p.worker, now, expires, attempt).tables;
        ActivityCallKeepsTables(cfg, s.tables, t, CallRenewActivity(id, p.worker, now, expires, attempt));
        SameQuestionsQuiet(s.tables, t, p);
      case ActCreateProject(id, name) => CreatedTables(cfg, s.tables, CallCreateProject(id, name), p);
      case ActCreateQuestion(projectId, key, title, problem, id) =>
        CreatedTables(cfg, s.tables, CallCreateQuestion(projectId, key, title, problem, id), p);
      case ActRegisterArtifact(artifact) => CreatedTables(cfg, s.tables, CallRegisterArtifact(artifact), p);
    }
  }

  lemma CreatedTables(cfg: Config, s: Tables, c: Call, p: Proc)
    requires TablesInv(cfg, s) && (c.CallCreateProject? || c.CallCreateQuestion? || c.CallRegisterArtifact?)
    ensures var t := Store.After(s, c); TablesInv(cfg, t) && TablesGrow(s, t) && QuietQuestions(s, t, p)
  {
    QuestionCallKeepsTables(cfg, s, c);
  }

  lemma OutsideSound(cfg: Config, s: System, a: Action, p: Proc)
    requires Sound(cfg, s, p) && !IsFront(a) && !IsBack(a)
    requires WorkflowRaces.Actor(a).Some? ==> WorkflowRaces.Actor(a) == Some(p)
    ensures KeepsSound(cfg, s, Next(cfg, s, a), p)
  {
    OutsideTables(cfg, s, a, p);
    GroundedStays(cfg, s.tables, Next(cfg, s, a).tables, p.question, PcOf(s, p));
    QuietIsSound(cfg, s, Next(cfg, s, a), p);
  }

  /** Any step, from the call that takes it: the tables stay sound, and so does its position. */
  lemma StepIsSound(cfg: Config, s: System, a: Action, p: Proc)
    requires Sound(cfg, s, p) && (WorkflowRaces.Actor(a).Some? ==> WorkflowRaces.Actor(a) == Some(p))
    ensures KeepsSound(cfg, s, Next(cfg, s, a), p)
  {
    if IsFront(a) {
      FrontSound(cfg, s, a, p);
    } else if IsBack(a) {
      BackSound(cfg, s, a, p);
    } else {
      OutsideSound(cfg, s, a, p);
    }
  }
}
