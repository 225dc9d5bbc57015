/** Safety of the question workflow over every interleaving of workers, crashes and lease expiries. The key is
    ownership, not time: only the lease owner can move a question, and while a worker still owns the lease
    nobody else has moved the question since the worker read it. */
module WorkflowSafety {
  import opened Wrappers
  import opened Contracts
  import opened Store
  import opened StoreRuns
  import opened Publication
  import opened Workflow
  import Fencing

  // ---------- what the gate promises ----------

  /** The code ran, every validation that the model asks for is recorded as true, and it ran neither on a remote
      interpreter nor, for Qwen, anywhere but in the local sandbox. */
  ghost predicate Supports(modeling: Response, coding: Response) {
    && modeling.output.ModelingOutput? && coding.output.CodingOutput?
    && coding.output.executionSucceeded
    && (forall name | name in modeling.output.requiredValidations ::
          name in coding.output.validations && coding.output.validations[name])
    && coding.backend != Some("remote-code-interpreter")
    && (coding.provider == Some("qwen") ==> coding.backend == Some("local-sandbox"))
  }

  /** A committed modeling result of the question, and a committed coding result of the revision that supports it. */
  ghost predicate Evidence(t: Tables, q: Uuid, revision: int) {
    exists m, c :: IsCommitted(t, m, q, ModelingStage) && IsCommitted(t, c, q, CodingStage)
      && t.activities[c].revision == revision
      && Supports(t.activities[m].result.value, t.activities[c].result.value)
  }

  /** The checks in order find nothing if and only if the code supports the model. */
  lemma GateErrorIff(modeling: Response, coding: Response)
    ensures EvidenceError(modeling, coding).None? <==> Supports(modeling, coding)
  {
    if modeling.output.ModelingOutput? && coding.output.CodingOutput? {
      FailedAreUnmet(modeling.output.requiredValidations, coding.output.validations);
      var failed := FailedValidations(modeling.output.requiredValidations, coding.output.validations);
      assert failed != [] ==> failed[0] in failed;
    }
  }

  /** The reported names are exactly the required ones that are missing or not true. */
  lemma {:induction false} FailedAreUnmet(required: seq<string>, validations: map<string, bool>)
    ensures forall name :: name in FailedValidations(required, validations) <==>
      name in required && !(name in validations && validations[name])
    decreases |required|
  {
    if required != [] {
      FailedAreUnmet(required[..|required| - 1], validations);
      assert required == required[..|required| - 1] + [required[|required| - 1]];
    }
  }

  /** A committed final result; with the publication gate on, exactly one of its artifacts is a paper, and valid. */
  ghost predicate FinalEvidence(cfg: Config, t: Tables, q: Uuid, revision: int) {
    exists f :: IsCommitted(t, f, q, FinalizeStage) && t.activities[f].revision == revision
      && t.activities[f].result.value.output.FinalizeOutput?
      && (cfg.requireLatex ==> exists i: nat :: OnlyPaper(cfg.sourceIsValid, t.activities[f].result.value.produced, i))
  }

  // ---------- the invariant ----------

  /** How far a question has come; every transition increases it. */
  function Rank(cfg: Config, state: QuestionState, revision: int): int {
    match state
    case Pending => 0
    case Modeling => 1
    case ReadyForCoding => 2 + 4 * revision
    case RevisionRequired => 2 + 4 * revision
    case Coding => 3 + 4 * revision
    case ReadyForReview => 4 + 4 * revision
    case Reviewing => 5 + 4 * revision
    case Approved => 6 + 4 * cfg.maxRevisions
    case Finalizing => 7 + 4 * cfg.maxRevisions
    case Completed => 8 + 4 * cfg.maxRevisions
    case Failed => 8 + 4 * cfg.maxRevisions
  }

  predicate InRange(cfg: Config, revision: int) {
    0 <= revision <= cfg.maxRevisions
  }

  predicate BeforeCoding(state: QuestionState) {
    state == Pending || state == Modeling
  }

  predicate BehindGate(state: QuestionState) {
    state == Approved || state == Finalizing || state == Completed
  }

  ghost predicate QuestionInv(cfg: Config, t: Tables, q: Uuid)
    requires q in t.questions
  {
    var row := t.questions[q];
    && InRange(cfg, row.revision)
    && (BeforeCoding(row.state) ==> row.revision == 0)
    && 1 <= row.version <= 1 + Rank(cfg, row.state, row.revision)
    && (BehindGate(row.state) ==> Evidence(t, q, row.revision))
    && (row.state == Completed ==> FinalEvidence(cfg, t, q, row.revision))
  }

  /** Every committed response belongs to its stage, and a final one passed the publication gate. */
  ghost predicate CommittedAcceptable(cfg: Config, t: Tables) {
    forall id | id in t.activities && t.activities[id].result.Some? ::
      Acceptable(cfg, t.activities[id].stage, t.activities[id].result.value)
  }

  /** What a worker may rely on while it owns the lease. */
  predicate Matches(row: Question, pc: Pc) {
    match pc
    case Idle => true
    case Leased => true
    case Moved => true
    case Releasing(_) => true
    case Loaded(q) => row.state == q.state && row.revision == q.revision
    case Entered(stage) => row.state == ExecState(stage)
    case Staged(q, stage) => row.state == q.state == ExecState(stage) && row.revision == q.revision
    case Claiming(q, stage, _) => row.state == q.state == ExecState(stage) && row.revision == q.revision
    case GivingUp(q, stage) => row.state == q.state == ExecState(stage) && row.revision == q.revision
    case Executing(q, stage, _, _) => row.state == q.state == ExecState(stage) && row.revision == q.revision
    case Committing(q, stage, _, _, _) => row.state == q.state == ExecState(stage) && row.revision == q.revision
    case Failing(q, stage, _, _) => row.state == q.state == ExecState(stage) && row.revision == q.revision
    case Deciding(q, stage, _, _) => row.state == q.state == ExecState(stage) && row.revision == q.revision
    case Approving(q) => row.state == Reviewing && row.revision == q.revision
    case Rejecting(q) => row.state == Reviewing && row.revision == q.revision
  }

  predicate IsActivity(t: Tables, id: Uuid, q: Uuid, stage: Stage, revision: int) {
    id in t.activities && HasKey(t.activities[id], q, stage, revision)
  }

  /** What holds of a position whoever owns the lease. */
  ghost predicate Grounded(cfg: Config, t: Tables, q: Uuid, pc: Pc) {
    match pc
    case Idle => true
    case Leased => true
    case Moved => true
    case Releasing(_) => true
    case Entered(_) => true
    case Loaded(s) => InRange(cfg, s.revision)
    case Staged(s, _) => InRange(cfg, s.revision)
    case GivingUp(s, _) => InRange(cfg, s.revision)
    case Claiming(s, stage, a) => InRange(cfg, s.revision) && IsActivity(t, a, q, stage, s.revision)
    case Executing(s, stage, a, _) => InRange(cfg, s.revision) && IsActivity(t, a, q, stage, s.revision)
    case Failing(s, stage, a, _) => InRange(cfg, s.revision) && IsActivity(t, a, q, stage, s.revision)
    case Committing(s, stage, a, _, r) =>
      InRange(cfg, s.revision) && IsActivity(t, a, q, stage, s.revision) && Acceptable(cfg, stage, r)
    case Deciding(s, stage, a, r) =>
      InRange(cfg, s.revision) && IsActivity(t, a, q, stage, s.revision) && r.output.Stage() == stage
      && t.activities[a].status == Succeeded
    case Approving(s) => InRange(cfg, s.revision) && Evidence(t, q, s.revision)
    case Rejecting(s) => InRange(cfg, s.revision)
  }

  /** A worker past its first read works on a question that exists. */
  ghost predicate ProcInv(cfg: Config, t: Tables, p: Proc, pc: Pc) {
    && Grounded(cfg, t, p.question, pc)
    && (!pc.Idle? ==> p.question in t.questions)
    && (Owns(t, p) ==> Matches(t.questions[p.question], pc))
  }

  ghost predicate ActivitiesInRange(cfg: Config, t: Tables) {
    forall id | id in t.activities :: InRange(cfg, t.activities[id].revision) && t.activities[id].attempts <= cfg.maxAttempts
  }

  /** What the workflow needs of the activity table. */
  ghost predicate TablesInv(cfg: Config, t: Tables) {
    RowsHold(t) && CommittedAcceptable(cfg, t) && ActivitiesInRange(cfg, t)
  }

  ghost predicate Inv(cfg: Config, sys: System) {
    && TablesInv(cfg, sys.tables)
    && (forall q | q in sys.tables.questions :: QuestionInv(cfg, sys.tables, q))
    && (forall p | p in sys.procs :: ProcInv(cfg, sys.tables, p, sys.procs[p]))
  }

  // ---------- how a transaction changes the tables ----------

  /** Rows are never removed, keys never change, and a committed row never changes. */
  ghost predicate TablesGrow(s: Tables, t: Tables) {
    forall id | id in s.activities ::
      && id in t.activities
      && HasKey(t.activities[id], s.activities[id].questionId, s.activities[id].stage, s.activities[id].revision)
      && (s.activities[id].status == Succeeded ==> t.activities[id] == s.activities[id])
  }

  lemma EvidenceStays(s: Tables, t: Tables, q: Uuid, revision: int)
    requires TablesGrow(s, t) && Evidence(s, q, revision)
    ensures Evidence(t, q, revision)
  {
    var m, c :| IsCommitted(s, m, q, ModelingStage) && IsCommitted(s, c, q, CodingStage)
      && s.activities[c].revision == revision
      && Supports(s.activities[m].result.value, s.activities[c].result.value);
    assert t.activities[m] == s.activities[m] && t.activities[c] == s.activities[c];
    assert IsCommitted(t, m, q, ModelingStage) && IsCommitted(t, c, q, CodingStage);
  }

  lemma FinalEvidenceStays(cfg: Config, s: Tables, t: Tables, q: Uuid, revision: int)
    requires TablesGrow(s, t) && FinalEvidence(cfg, s, q, revision)
    ensures FinalEvidence(cfg, t, q, revision)
  {
    var f :| IsCommitted(s, f, q, FinalizeStage) && s.activities[f].revision == revision
      && s.activities[f].result.value.output.FinalizeOutput?
      && (cfg.requireLatex ==> exists i: nat :: OnlyPaper(cfg.sourceIsValid, s.activities[f].result.value.produced, i));
    assert t.activities[f] == s.activities[f];
    assert IsCommitted(t, f, q, FinalizeStage);
  }

  lemma GroundedStays(cfg: Config, s: Tables, t: Tables, q: Uuid, pc: Pc)
    requires TablesGrow(s, t) && Grounded(cfg, s, q, pc)
    ensures Grounded(cfg, t, q, pc)
  {
    if pc.Approving? {
      EvidenceStays(s, t, q, pc.q.revision);
    }
  }

  /** The columns that matter stay, and the lease is at most handed to `p` or given up. */
  ghost predicate QuietRow(s: Question, t: Question, mine: bool, worker: string) {
    && t.state == s.state && t.revision == s.revision && t.version == s.version
    && (t.leaseOwner == s.leaseOwner || t.leaseOwner == None || (mine && t.leaseOwner == Some(worker)))
  }

  ghost predicate QuietQuestions(s: Tables, t: Tables, p: Proc) {
    && (forall q | q in s.questions :: q in t.questions && QuietRow(s.questions[q], t.questions[q], q == p.question, p.worker))
    && (forall q | q in t.questions && q !in s.questions ::
          t.questions[q].state == Pending && t.questions[q].revision == 0 && t.questions[q].version == 1
          && t.questions[q].leaseOwner == None)
  }

  lemma QuietQuestionInv(cfg: Config, s: Tables, t: Tables, p: Proc, q: Uuid)
    requires TablesGrow(s, t) && QuietQuestions(s, t, p) && q in t.questions
    requires q in s.questions ==> QuestionInv(cfg, s, q)
    ensures QuestionInv(cfg, t, q)
  {
    if q in s.questions {
      if BehindGate(s.questions[q].state) {
        EvidenceStays(s, t, q, s.questions[q].revision);
      }
      if s.questions[q].state == Completed {
        FinalEvidenceStays(cfg, s, t, q, s.questions[q].revision);
      }
    }
  }

  lemma QuietProcInv(cfg: Config, s: Tables, t: Tables, p: Proc, other: Proc, pc: Pc)
    requires TablesGrow(s, t) && QuietQuestions(s, t, p) && ProcInv(cfg, s, other, pc) && other != p
    ensures ProcInv(cfg, t, other, pc)
  {
    GroundedStays(cfg, s, t, other.question, pc);
    if Owns(t, other) {
      if other.question in s.questions {
        assert QuietRow(s.questions[other.question], t.questions[other.question], other.question == p.question, p.worker);
        assert Owns(s, other);
      }
    }
  }

  /** A step that moves no question: every other worker keeps what it relies on. */
  lemma QuietStep(cfg: Config, sys: System, next: System, p: Proc)
    requires Inv(cfg, sys)
    requires TablesInv(cfg, next.tables) && TablesGrow(sys.tables, next.tables) && QuietQuestions(sys.tables, next.tables, p)
    requires forall x | x in next.procs && x != p :: x in sys.procs && next.procs[x] == sys.procs[x]
    requires p in next.procs ==> ProcInv(cfg, next.tables, p, next.procs[p])
    ensures Inv(cfg, next)
  {
    forall q | q in next.tables.questions ensures QuestionInv(cfg, next.tables, q) {
      QuietQuestionInv(cfg, sys.tables, next.tables, p, q);
    }
    forall x | x in next.procs ensures ProcInv(cfg, next.tables, x, next.procs[x]) {
      if x != p {
        QuietProcInv(cfg, sys.tables, next.tables, p, x, next.procs[x]);
      }
    }
  }

  lemma TablesGrowReflexive(t: Tables)
    ensures TablesGrow(t, t)
  {
  }

  /** A step that changes only the worker's own position. */
  lemma PcStep(cfg: Config, sys: System, next: System, p: Proc)
    requires Inv(cfg, sys) && next.tables == sys.tables
    requires forall x | x in next.procs && x != p :: x in sys.procs && next.procs[x] == sys.procs[x]
    requires p in next.procs ==> ProcInv(cfg, sys.tables, p, next.procs[p])
    ensures Inv(cfg, next)
  {
    TablesGrowReflexive(sys.tables);
    QuietStep(cfg, sys, next, p);
  }

  lemma PcInv(cfg: Config, sys: System, p: Proc)
    requires Inv(cfg, sys)
    ensures ProcInv(cfg, sys.tables, p, PcOf(sys, p))
  {
  }

  /** Store calls keep the activity table sound: keys and committed rows stay. */
  lemma CallGrows(s: Tables, c: Call)
    requires RowsHold(s)
    ensures RowsHold(Store.After(s, c))
    ensures TablesGrow(s, Store.After(s, c))
  {
    CallKeepsHold(s, c);
    forall id | id in s.activities
      ensures id in Store.After(s, c).activities
      ensures HasKey(Store.After(s, c).activities[id], s.activities[id].questionId, s.activities[id].stage, s.activities[id].revision)
      ensures s.activities[id].status == Succeeded ==> Store.After(s, c).activities[id] == s.activities[id]
    {
      KeyStays(s, c, id);
      if s.activities[id].status == Succeeded {
        Fencing.SucceededStays(s, c, id);
      }
    }
  }

  lemma KeyStays(s: Tables, c: Call, id: Uuid)
    requires id in s.activities
    ensures id in Store.After(s, c).activities
    ensures HasKey(Store.After(s, c).activities[id], s.activities[id].questionId, s.activities[id].stage, s.activities[id].revision)
  {
    if !Fencing.ActivityCall(c) {
      Fencing.OtherCallShape(s, c);
    } else if c.CallComplete? && c.id in s.activities && s.activities[c.id].status != Succeeded
      && CompleteActivity(s, c.id, c.worker, c.now, c.result, c.artifacts, c.attempt).result.Ok? {
      Fencing.CompleteShape(s, c.id, c.worker, c.now, c.result, c.artifacts, c.attempt);
    }
  }

  // ---------- question transactions ----------

  predicate QuestionCall(c: Call) {
    c.CallAcquire? || c.CallRenew? || c.CallRelease? || c.CallTransition? || c.CallCreateProject?
      || c.CallCreateQuestion? || c.CallRegisterArtifact?
  }

  lemma QuestionCallKeepsTables(cfg: Config, s: Tables, c: Call)
    requires TablesInv(cfg, s) && QuestionCall(c)
    ensures TablesInv(cfg, Store.After(s, c)) && TablesGrow(s, Store.After(s, c))
  {
    CallGrows(s, c);
    Fencing.OtherCallShape(s, c);
  }

  lemma LeaseQuiet(s: Tables, p: Proc, now: string, expires: string)
    ensures QuietQuestions(s, AcquireQuestionLease(s, p.question, p.worker, now, expires).tables, p)
    ensures QuietQuestions(s, RenewQuestionLease(s, p.question, p.worker, now, expires).tables, p)
    ensures QuietQuestions(s, ReleaseQuestionLease(s, p.question, p.worker).tables, p)
  {
  }

  /** What a transition does to the row, and that only the owner gets this far. */
  lemma TransitionRow(s: Tables, p: Proc, now: string, expected: set<QuestionState>, target: QuestionState,
                      revision: Option<int>, reason: Option<string>)
    ensures var out := Transition(s, p.question, p.worker, now, expected, target, revision, reason);
      && (out.result.Err? ==> out.tables == s)
      && (out.result.Ok? ==> Owns(s, p) && s.questions[p.question].state in expected)
      && (out.result.Ok? ==> out.tables.questions == s.questions[p.question := MovedRow(s.questions[p.question], target, revision, reason)])
  {
  }

  /** A committed transition: the moved row must be sound again, and no other worker owned the lease. */
  lemma TransitStep(cfg: Config, sys: System, p: Proc, now: string, expected: set<QuestionState>, target: QuestionState,
                    revision: Option<int>, reason: Option<string>, next: Pc)
    requires Inv(cfg, sys) && p.question in sys.tables.questions
    requires Grounded(cfg, sys.tables, p.question, next) && !next.Leased?
    requires Owns(sys.tables, p) && sys.tables.questions[p.question].state in expected ==>
      var after := MovedRow(sys.tables.questions[p.question], target, revision, reason);
      MovedRowSound(cfg, sys.tables, p.question, after) && Matches(after, next)
    ensures Inv(cfg, Transit(sys, p, now, expected, target, revision, reason, next))
  {
    var out := Transition(sys.tables, p.question, p.worker, now, expected, target, revision, reason);
    var sys' := Transit(sys, p, now, expected, target, revision, reason, next);
    TransitionRow(sys.tables, p, now, expected, target, revision, reason);
    if out.result.Err? {
      PcStep(cfg, sys, sys', p);
    } else {
      var t := out.tables;
      QuestionCallKeepsTables(cfg, sys.tables, CallTransition(p.question, p.worker, now, expected, target, revision, reason));
      forall q | q in t.questions ensures QuestionInv(cfg, t, q) {
        MovedQuestionInv(cfg, sys.tables, t, p.question, q);
      }
      GroundedStays(cfg, sys.tables, t, p.question, next);
      forall x | x in sys'.procs ensures ProcInv(cfg, t, x, sys'.procs[x]) {
        if x != p {
          MovedProcInv(cfg, sys.tables, t, p, MovedRow(sys.tables.questions[p.question], target, revision, reason), x, sys.procs[x]);
        }
      }
    }
  }

  /** A transition leaves the other workers' knowledge alone: none of them owns the question it moves. */
  lemma MovedProcInv(cfg: Config, s: Tables, t: Tables, p: Proc, row: Question, x: Proc, pc: Pc)
    requires TablesGrow(s, t) && Owns(s, p) && ProcInv(cfg, s, x, pc) && x != p
    requires t.questions == s.questions[p.question := row] && row.leaseOwner == s.questions[p.question].leaseOwner
    ensures ProcInv(cfg, t, x, pc)
  {
    GroundedStays(cfg, s, t, x.question, pc);
  }

  /** The row invariant for a row that a transition is about to write. */
  ghost predicate MovedRowSound(cfg: Config, t: Tables, q: Uuid, row: Question) {
    && InRange(cfg, row.revision)
    && (BeforeCoding(row.state) ==> row.revision == 0)
    && 1 <= row.version <= 1 + Rank(cfg, row.state, row.revision)
    && (BehindGate(row.state) ==> Evidence(t, q, row.revision))
    && (row.state == Completed ==> FinalEvidence(cfg, t, q, row.revision))
  }

  lemma MovedQuestionInv(cfg: Config, s: Tables, t: Tables, moved: Uuid, q: Uuid)
    requires TablesGrow(s, t) && q in t.questions && s.questions.Keys == t.questions.Keys
    requires QuestionInv(cfg, s, q)
    requires q != moved ==> t.questions[q] == s.questions[q]
    requires q == moved ==> MovedRowSound(cfg, s, q, t.questions[q])
    ensures QuestionInv(cfg, t, q)
  {
    var row := t.questions[q];
    if BehindGate(row.state) {
      EvidenceStays(s, t, q, row.revision);
    }
    if row.state == Completed {
      FinalEvidenceStays(cfg, s, t, q, row.revision);
    }
  }

  // ---------- the steps ----------

  lemma AcquireKeeps(cfg: Config, sys: System, p: Proc, now: string, expires: string)
    requires Inv(cfg, sys)
    ensures Inv(cfg, DoAcquire(sys, p, now, expires))
  {
    var out := AcquireQuestionLease(sys.tables, p.question, p.worker, now, expires);
    if out.result.Err? {
      PcStep(cfg, sys, DoAcquire(sys, p, now, expires), p);
    } else {
      QuestionCallKeepsTables(cfg, sys.tables, CallAcquire(p.question, p.worker, now, expires));
      LeaseQuiet(sys.tables, p, now, expires);
      QuietStep(cfg, sys, DoAcquire(sys, p, now, expires), p);
    }
  }

  lemma ReadKeeps(cfg: Config, sys: System, p: Proc)
    requires Inv(cfg, sys) && Read(sys, p).Some?
    ensures PcOf(sys, p).Leased? ==> Inv(cfg, Move(sys, p, sys.tables, Loaded(Read(sys, p).value)))
    ensures PcOf(sys, p).Entered? ==> Inv(cfg, Move(sys, p, sys.tables, Staged(Read(sys, p).value, PcOf(sys, p).stage)))
  {
    PcInv(cfg, sys, p);
    assert QuestionInv(cfg, sys.tables, p.question);
    if PcOf(sys, p).Leased? {
      PcStep(cfg, sys, Move(sys, p, sys.tables, Loaded(Read(sys, p).value)), p);
    }
    if PcOf(sys, p).Entered? {
      PcStep(cfg, sys, Move(sys, p, sys.tables, Staged(Read(sys, p).value, PcOf(sys, p).stage)), p);
    }
  }

  /** Entering a stage keeps the row sound. */
  lemma EnterMoves(cfg: Config, t: Tables, q: Uuid, entry: Entry)
    requires q in t.questions && QuestionInv(cfg, t, q) && EntryOf(t.questions[q].state) == Some(entry)
    requires t.questions[q].state != entry.target
    ensures var after := MovedRow(t.questions[q], entry.target, None, None);
      MovedRowSound(cfg, t, q, after) && Matches(after, Entered(entry.stage))
  {
  }

  /** Failing a question that is in some stage keeps the row sound. */
  lemma FailureMoves(cfg: Config, t: Tables, q: Uuid, reason: Option<string>)
    requires q in t.questions && QuestionInv(cfg, t, q) && t.questions[q].state != Completed && t.questions[q].state != Failed
    ensures MovedRowSound(cfg, t, q, MovedRow(t.questions[q], Failed, None, reason))
  {
  }

  lemma EnterKeeps(cfg: Config, sys: System, p: Proc, now: string)
    requires Inv(cfg, sys) && PcOf(sys, p).Loaded?
    ensures Inv(cfg, DoEnter(sys, p, PcOf(sys, p).q, now))
  {
    PcInv(cfg, sys, p);
    var q := PcOf(sys, p).q;
    match EntryOf(q.state) {
      case None => PcStep(cfg, sys, DoEnter(sys, p, q, now), p);
      case Some(entry) =>
        if q.state == entry.target {
          PcStep(cfg, sys, DoEnter(sys, p, q, now), p);
        } else {
          assert QuestionInv(cfg, sys.tables, p.question);
          if Owns(sys.tables, p) {
            EnterMoves(cfg, sys.tables, p.question, entry);
          }
          TransitStep(cfg, sys, p, now, {q.state}, entry.target, None, None, Entered(entry.stage));
        }
    }
  }

  lemma ActivityCallKeepsTables(cfg: Config, s: Tables, t: Tables, c: Call)
    requires TablesInv(cfg, s) && t == Store.After(s, c)
    requires forall id | id in t.activities && (id !in s.activities || t.activities[id] != s.activities[id]) ::
      && InRange(cfg, t.activities[id].revision) && t.activities[id].attempts <= cfg.maxAttempts
      && (t.activities[id].result.Some? ==> Acceptable(cfg, t.activities[id].stage, t.activities[id].result.value))
    ensures TablesInv(cfg, t) && TablesGrow(s, t)
  {
    CallGrows(s, c);
  }

  lemma SameQuestionsQuiet(s: Tables, t: Tables, p: Proc)
    requires t.questions == s.questions
    ensures QuietQuestions(s, t, p)
  {
  }

  /** What `get_or_create_activity` keeps of the tables. */
  lemma CreateTables(cfg: Config, t: Tables, q: Uuid, project: Uuid, revision: int, stage: Stage, id: Uuid, now: string)
    requires TablesInv(cfg, t) && InRange(cfg, revision)
    ensures var out := GetOrCreateActivity(t, q, project, revision, stage, id, now);
      && TablesInv(cfg, out.tables) && TablesGrow(t, out.tables) && out.tables.questions == t.questions
      && (out.result.Ok? ==> IsActivity(out.tables, out.result.value, q, stage, revision))
  {
    var out := GetOrCreateActivity(t, q, project, revision, stage, id, now);
    ActivityCallKeepsTables(cfg, t, out.tables, CallGetOrCreate(q, project, revision, stage, id, now));
  }

  /** The position after looking up or creating the activity. */
  lemma StagedPosition(cfg: Config, s: Tables, t: Tables, p: Proc, q: Snapshot, stage: Stage, next: Pc)
    requires ProcInv(cfg, s, p, Staged(q, stage)) && t.questions == s.questions && CommittedAcceptable(cfg, t)
    requires next == Releasing(Raised)
      || (next.Claiming? && next == Claiming(q, stage, next.activity) && IsActivity(t, next.activity, p.question, stage, q.revision))
      || (next.Deciding? && next == Deciding(q, stage, next.activity, next.response)
          && IsActivity(t, next.activity, p.question, stage, q.revision)
          && t.activities[next.activity].status == Succeeded && t.activities[next.activity].result == Some(next.response))
    ensures ProcInv(cfg, t, p, next)
  {
  }

  lemma StageKeeps(cfg: Config, sys: System, p: Proc, id: Uuid, now: string)
    requires Inv(cfg, sys) && PcOf(sys, p).Staged?
    ensures Inv(cfg, DoStage(sys, p, PcOf(sys, p).q, PcOf(sys, p).stage, id, now))
  {
    PcInv(cfg, sys, p);
    var q, stage := PcOf(sys, p).q, PcOf(sys, p).stage;
    var project := sys.tables.questions[p.question].projectId;
    var out := GetOrCreateActivity(sys.tables, p.question, project, q.revision, stage, id, now);
    var next := DoStage(sys, p, q, stage, id, now);
    CreateTables(cfg, sys.tables, p.question, project, q.revision, stage, id, now);
    SameQuestionsQuiet(sys.tables, out.tables, p);
    StagedPosition(cfg, sys.tables, out.tables, p, q, stage, PcOf(next, p));
    QuietStep(cfg, sys, next, p);
  }

  /** A step that changes activities only and leaves the worker at the same snapshot. */
  lemma ActivityStepKeeps(cfg: Config, sys: System, p: Proc, t: Tables, next: Pc)
    requires Inv(cfg, sys) && TablesInv(cfg, t) && TablesGrow(sys.tables, t) && t.questions == sys.tables.questions
    requires p.question in t.questions && Grounded(cfg, t, p.question, next)
    requires Owns(t, p) ==> Matches(t.questions[p.question], next)
    ensures Inv(cfg, Move(sys, p, t, next))
  {
    SameQuestionsQuiet(sys.tables, t, p);
    QuietStep(cfg, sys, Move(sys, p, t, next), p);
  }

  lemma ClaimTables(cfg: Config, t: Tables, a: Uuid, w: string, now: string, expires: string, request: string)
    requires TablesInv(cfg, t) && a in t.activities
    ensures var out := ClaimActivity(t, a, w, now, expires, cfg.maxAttempts, request);
      TablesInv(cfg, out.tables) && TablesGrow(t, out.tables) && out.tables.questions == t.questions
  {
    RowHolds(t, a);
    ActivityCallKeepsTables(cfg, t, ClaimActivity(t, a, w, now, expires, cfg.maxAttempts, request).tables,
                            CallClaim(a, w, now, expires, cfg.maxAttempts, request));
  }

  lemma ClaimedPosition(cfg: Config, s: Tables, t: Tables, p: Proc, pc: Pc, attempt: nat, next: Pc)
    requires ProcInv(cfg, s, p, pc) && pc.Claiming? && TablesGrow(s, t) && t.questions == s.questions
    requires next == Executing(pc.q, pc.stage, pc.activity, attempt) || next == GivingUp(pc.q, pc.stage)
          || next == Releasing(Raised)
    ensures ProcInv(cfg, t, p, next)
  {
    GroundedStays(cfg, s, t, p.question, pc);
  }

  lemma ClaimKeeps(cfg: Config, sys: System, p: Proc, now: string, expires: string, request: string)
    requires Inv(cfg, sys) && PcOf(sys, p).Claiming?
    ensures var pc := PcOf(sys, p); Inv(cfg, DoClaim(cfg, sys, p, pc.q, pc.stage, pc.activity, now, expires, request))
  {
    PcInv(cfg, sys, p);
    var pc := PcOf(sys, p);
    var out := ClaimActivity(sys.tables, pc.activity, p.worker, now, expires, cfg.maxAttempts, request);
    ClaimTables(cfg, sys.tables, pc.activity, p.worker, now, expires, request);
    var next := PcOf(DoClaim(cfg, sys, p, pc.q, pc.stage, pc.activity, now, expires, request), p);
    ClaimedPosition(cfg, sys.tables, out.tables, p, pc, if out.result.Ok? then out.result.value.attempts else 0, next);
    ActivityStepKeeps(cfg, sys, p, out.tables, next);
  }

  lemma GiveUpKeeps(cfg: Config, sys: System, p: Proc, now: string, reason: string)
    requires Inv(cfg, sys) && PcOf(sys, p).GivingUp?
    ensures Inv(cfg, Transit(sys, p, now, {PcOf(sys, p).q.state}, Failed, None, Some(reason), Releasing(Returned(true))))
  {
    PcInv(cfg, sys, p);
    assert QuestionInv(cfg, sys.tables, p.question);
    if Owns(sys.tables, p) {
      FailureMoves(cfg, sys.tables, p.question, Some(reason));
    }
    TransitStep(cfg, sys, p, now, {PcOf(sys, p).q.state}, Failed, None, Some(reason), Releasing(Returned(true)));
  }

  /** Where an exception leads is as sound as where it was raised. */
  lemma RaisedPosition(cfg: Config, sys: System, p: Proc)
    requires ProcInv(cfg, sys.tables, p, PcOf(sys, p))
    ensures ProcInv(cfg, sys.tables, p, PcOf(DoRaise(sys, p), p))
  {
  }

  lemma RaiseKeeps(cfg: Config, sys: System, p: Proc)
    requires Inv(cfg, sys)
    ensures Inv(cfg, DoRaise(sys, p))
  {
    if !PcOf(sys, p).Idle? {
      PcInv(cfg, sys, p);
      RaisedPosition(cfg, sys, p);
      PcStep(cfg, sys, DoRaise(sys, p), p);
    }
  }

  lemma CompleteTables(cfg: Config, t: Tables, a: Uuid, w: string, now: string, r: Response, artifacts: seq<Artifact>,
                       attempt: nat)
    requires TablesInv(cfg, t) && a in t.activities && Acceptable(cfg, t.activities[a].stage, r)
    ensures var out := CompleteActivity(t, a, w, now, r, artifacts, Some(attempt));
      && TablesInv(cfg, out.tables) && TablesGrow(t, out.tables) && out.tables.questions == t.questions
      && (out.result.Ok? ==> a in out.tables.activities && out.tables.activities[a].status == Succeeded)
  {
    var out := CompleteActivity(t, a, w, now, r, artifacts, Some(attempt));
    if out.result.Ok? && t.activities[a].status != Succeeded {
      Fencing.CompleteShape(t, a, w, now, r, artifacts, Some(attempt));
    }
    ActivityCallKeepsTables(cfg, t, out.tables, CallComplete(a, w, now, r, artifacts, Some(attempt)));
  }

  lemma CommitKeeps(cfg: Config, sys: System, p: Proc, now: string, artifacts: seq<Artifact>)
    requires Inv(cfg, sys) && PcOf(sys, p).Committing?
    ensures Inv(cfg, DoComplete(sys, p, PcOf(sys, p), now, artifacts))
  {
    PcInv(cfg, sys, p);
    var pc := PcOf(sys, p);
    var out := CompleteActivity(sys.tables, pc.activity, p.worker, now, pc.response, artifacts, Some(pc.attempt));
    CompleteTables(cfg, sys.tables, pc.activity, p.worker, now, pc.response, artifacts, pc.attempt);
    SameQuestionsQuiet(sys.tables, out.tables, p);
    QuietStep(cfg, sys, DoComplete(sys, p, pc, now, artifacts), p);
  }

  lemma CompleteKeeps(cfg: Config, sys: System, p: Proc, now: string, artifacts: seq<Artifact>)
    requires Inv(cfg, sys) && PcOf(sys, p).Committing?
    ensures Inv(cfg, Next(cfg, sys, ActComplete(p, now, artifacts)))
  {
    CommitKeeps(cfg, sys, p, now, artifacts);
  }

  lemma FailTables(cfg: Config, t: Tables, a: Uuid, w: string, now: string, error: string, attempt: nat)
    requires TablesInv(cfg, t) && a in t.activities
    ensures var out := FailActivity(t, a, w, now, error, Some(attempt));
      TablesInv(cfg, out.tables) && TablesGrow(t, out.tables) && out.tables.questions == t.questions
  {
    RowHolds(t, a);
    ActivityCallKeepsTables(cfg, t, FailActivity(t, a, w, now, error, Some(attempt)).tables,
                            CallFail(a, w, now, error, Some(attempt)));
  }

  lemma FailKeeps(cfg: Config, sys: System, p: Proc, now: string, error: string)
    requires Inv(cfg, sys) && PcOf(sys, p).Failing?
    ensures Inv(cfg, Next(cfg, sys, ActFail(p, now, error)))
  {
    PcInv(cfg, sys, p);
    var pc := PcOf(sys, p);
    var out := FailActivity(sys.tables, pc.activity, p.worker, now, error, Some(pc.attempt));
    FailTables(cfg, sys.tables, pc.activity, p.worker, now, error, pc.attempt);
    SameQuestionsQuiet(sys.tables, out.tables, p);
    QuietStep(cfg, sys, Move(sys, p, out.tables, Releasing(Raised)), p);
  }

  /** The committed final activity of the worker's revision is the evidence that COMPLETED needs. */
  lemma CommittedFinal(cfg: Config, t: Tables, q: Uuid, revision: int, a: Uuid)
    requires TablesInv(cfg, t) && IsActivity(t, a, q, FinalizeStage, revision) && t.activities[a].status == Succeeded
    ensures FinalEvidence(cfg, t, q, revision)
  {
    RowHolds(t, a);
    var r := t.activities[a].result.value;
    assert Acceptable(cfg, FinalizeStage, r);
    assert r.output.FinalizeOutput?;
    PublicationIsOnePaper(cfg.sourceIsValid, r.produced);
    assert IsCommitted(t, a, q, FinalizeStage);
  }

  /** Passing the gate on rows read earlier is evidence now. */
  lemma GateGivesEvidence(t: Tables, q: Uuid, revision: int, m: Option<Uuid>, c: Option<Uuid>)
    requires ReadsModeling(t, q, m) && ReadsCoding(t, q, revision, c) && GatePasses(t, q, m, c)
    ensures Evidence(t, q, revision)
  {
    GateErrorIff(t.activities[m.value].result.value, t.activities[c.value].result.value);
  }

  lemma VerdictPosition(cfg: Config, t: Tables, p: Proc, pc: Pc)
    requires ProcInv(cfg, t, p, pc) && pc.Deciding? && pc.response.output.ReviewOutput?
    ensures ProcInv(cfg, t, p, Rejecting(pc.q))
    ensures Evidence(t, p.question, pc.q.revision) ==> ProcInv(cfg, t, p, Approving(pc.q))
  {
  }

  lemma DecideApprove(cfg: Config, sys: System, p: Proc, m: Option<Uuid>, c: Option<Uuid>)
    requires Inv(cfg, sys) && PcOf(sys, p).Deciding? && PcOf(sys, p).response.output.ReviewOutput?
    requires ReadsModeling(sys.tables, p.question, m) && ReadsCoding(sys.tables, p.question, PcOf(sys, p).q.revision, c)
    ensures Inv(cfg, Move(sys, p, sys.tables,
              if GatePasses(sys.tables, p.question, m, c) then Approving(PcOf(sys, p).q) else Rejecting(PcOf(sys, p).q)))
  {
    PcInv(cfg, sys, p);
    VerdictPosition(cfg, sys.tables, p, PcOf(sys, p));
    if GatePasses(sys.tables, p.question, m, c) {
      GateGivesEvidence(sys.tables, p.question, PcOf(sys, p).q.revision, m, c);
    }
    var next := if GatePasses(sys.tables, p.question, m, c) then Approving(PcOf(sys, p).q) else Rejecting(PcOf(sys, p).q);
    PcStep(cfg, sys, Move(sys, p, sys.tables, next), p);
  }

  lemma DecideExhausted(cfg: Config, sys: System, p: Proc, now: string)
    requires Inv(cfg, sys) && PcOf(sys, p).Deciding?
    ensures Inv(cfg, Transit(sys, p, now, {Reviewing}, Failed, None, Some(cfg.exhausted), Moved))
  {
    PcInv(cfg, sys, p);
    assert QuestionInv(cfg, sys.tables, p.question);
    TransitStep(cfg, sys, p, now, {Reviewing}, Failed, None, Some(cfg.exhausted), Moved);
  }

  lemma DecideRevise(cfg: Config, sys: System, p: Proc, now: string)
    requires Inv(cfg, sys) && PcOf(sys, p).Deciding? && PcOf(sys, p).q.revision + 1 <= cfg.maxRevisions
    ensures Inv(cfg, Transit(sys, p, now, {Reviewing}, RevisionRequired, Some(PcOf(sys, p).q.revision + 1), None, Moved))
  {
    PcInv(cfg, sys, p);
    assert QuestionInv(cfg, sys.tables, p.question);
    TransitStep(cfg, sys, p, now, {Reviewing}, RevisionRequired, Some(PcOf(sys, p).q.revision + 1), None, Moved);
  }

  lemma DecideReview(cfg: Config, sys: System, p: Proc, now: string, m: Option<Uuid>, c: Option<Uuid>)
    requires Inv(cfg, sys) && PcOf(sys, p).Deciding? && PcOf(sys, p).response.output.ReviewOutput?
    ensures Inv(cfg, DoDecide(cfg, sys, p, PcOf(sys, p), now, m, c))
  {
    var pc := PcOf(sys, p);
    if pc.response.output.approve {
      if ReadsModeling(sys.tables, p.question, m) && ReadsCoding(sys.tables, p.question, pc.q.revision, c) {
        DecideApprove(cfg, sys, p, m, c);
      }
    } else if pc.q.revision + 1 > cfg.maxRevisions {
      DecideExhausted(cfg, sys, p, now);
    } else {
      DecideRevise(cfg, sys, p, now);
    }
  }

  lemma StageEndKeeps(cfg: Config, sys: System, p: Proc, now: string)
    requires Inv(cfg, sys) && PcOf(sys, p).Deciding?
    ensures Inv(cfg, Transit(sys, p, now, {Modeling}, ReadyForCoding, None, None, Moved))
    ensures Inv(cfg, Transit(sys, p, now, {Coding}, ReadyForReview, None, None, Moved))
  {
    PcInv(cfg, sys, p);
    assert QuestionInv(cfg, sys.tables, p.question);
    TransitStep(cfg, sys, p, now, {Modeling}, ReadyForCoding, None, None, Moved);
    TransitStep(cfg, sys, p, now, {Coding}, ReadyForReview, None, None, Moved);
  }

  lemma DecideStage(cfg: Config, sys: System, p: Proc, now: string, m: Option<Uuid>, c: Option<Uuid>)
    requires Inv(cfg, sys) && PcOf(sys, p).Deciding?
    requires PcOf(sys, p).response.output.ModelingOutput? || PcOf(sys, p).response.output.CodingOutput?
    ensures Inv(cfg, DoDecide(cfg, sys, p, PcOf(sys, p), now, m, c))
  {
    StageEndKeeps(cfg, sys, p, now);
  }

  lemma FinalKeeps(cfg: Config, sys: System, p: Proc, now: string)
    requires Inv(cfg, sys) && PcOf(sys, p).Deciding? && PcOf(sys, p).response.output.FinalizeOutput?
    ensures Inv(cfg, Transit(sys, p, now, {Finalizing}, Completed, None, None, Moved))
  {
    PcInv(cfg, sys, p);
    var pc := PcOf(sys, p);
    assert QuestionInv(cfg, sys.tables, p.question);
    CommittedFinal(cfg, sys.tables, p.question, pc.q.revision, pc.activity);
    TransitStep(cfg, sys, p, now, {Finalizing}, Completed, None, None, Moved);
  }

  lemma DecideFinal(cfg: Config, sys: System, p: Proc, now: string, m: Option<Uuid>, c: Option<Uuid>)
    requires Inv(cfg, sys) && PcOf(sys, p).Deciding? && PcOf(sys, p).response.output.FinalizeOutput?
    ensures Inv(cfg, DoDecide(cfg, sys, p, PcOf(sys, p), now, m, c))
  {
    FinalKeeps(cfg, sys, p, now);
  }

  lemma DecideIs(cfg: Config, sys: System, p: Proc, now: string, m: Option<Uuid>, c: Option<Uuid>)
    requires PcOf(sys, p).Deciding?
    ensures Next(cfg, sys, ActDecide(p, now, m, c)) == DoDecide(cfg, sys, p, PcOf(sys, p), now, m, c)
  {
  }

  lemma DecideKeeps(cfg: Config, sys: System, p: Proc, now: string, m: Option<Uuid>, c: Option<Uuid>)
    requires Inv(cfg, sys) && PcOf(sys, p).Deciding?
    ensures Inv(cfg, Next(cfg, sys, ActDecide(p, now, m, c)))
  {
    DecideIs(cfg, sys, p, now, m, c);
    match PcOf(sys, p).response.output {
      case FinalizeOutput => DecideFinal(cfg, sys, p, now, m, c);
      case ReviewOutput(_) => DecideReview(cfg, sys, p, now, m, c);
      case _ => DecideStage(cfg, sys, p, now, m, c);
    }
  }

  lemma ApproveKeeps(cfg: Config, sys: System, p: Proc, now: string)
    requires Inv(cfg, sys) && PcOf(sys, p).Approving?
    ensures Inv(cfg, Transit(sys, p, now, {Reviewing}, Approved, None, None, Moved))
  {
    PcInv(cfg, sys, p);
    assert QuestionInv(cfg, sys.tables, p.question);
    TransitStep(cfg, sys, p, now, {Reviewing}, Approved, None, None, Moved);
  }

  lemma RejectKeeps(cfg: Config, sys: System, p: Proc, now: string, reason: string)
    requires Inv(cfg, sys) && PcOf(sys, p).Rejecting?
    ensures Inv(cfg, Transit(sys, p, now, {Reviewing}, Failed, None, Some(reason), Moved))
  {
    PcInv(cfg, sys, p);
    assert QuestionInv(cfg, sys.tables, p.question);
    TransitStep(cfg, sys, p, now, {Reviewing}, Failed, None, Some(reason), Moved);
  }

  lemma ConcludeKeeps(cfg: Config, sys: System, p: Proc, now: string, reason: string)
    requires Inv(cfg, sys)
    ensures Inv(cfg, Next(cfg, sys, ActConclude(p, now, reason)))
  {
    if PcOf(sys, p).Approving? {
      ApproveKeeps(cfg, sys, p, now);
    } else if PcOf(sys, p).Rejecting? {
      RejectKeeps(cfg, sys, p, now, reason);
    } else {
      assert Next(cfg, sys, ActConclude(p, now, reason)) == sys;
    }
  }

  lemma ReleaseTables(cfg: Config, t: Tables, p: Proc)
    requires TablesInv(cfg, t)
    ensures var out := ReleaseQuestionLease(t, p.question, p.worker).tables;
      TablesInv(cfg, out) && TablesGrow(t, out) && QuietQuestions(t, out, p)
  {
    QuestionCallKeepsTables(cfg, t, CallRelease(p.question, p.worker));
    LeaseQuiet(t, p, "", "");
  }

  lemma ReleasedKeeps(cfg: Config, sys: System, p: Proc, end: StepEnd)
    requires Inv(cfg, sys)
    ensures Inv(cfg, DoRelease(sys, p, end))
  {
    ReleaseTables(cfg, sys.tables, p);
    QuietStep(cfg, sys, DoRelease(sys, p, end), p);
  }

  lemma ReleaseIs(cfg: Config, sys: System, p: Proc)
    requires PcOf(sys, p).Releasing?
    ensures Next(cfg, sys, ActRelease(p)) == DoRelease(sys, p, PcOf(sys, p).end)
  {
  }

  lemma ReleaseKeeps(cfg: Config, sys: System, p: Proc)
    requires Inv(cfg, sys) && PcOf(sys, p).Releasing?
    ensures Inv(cfg, Next(cfg, sys, ActRelease(p)))
  {
    ReleaseIs(cfg, sys, p);
    ReleasedKeeps(cfg, sys, p, PcOf(sys, p).end);
  }

  lemma ReadBackKeeps(cfg: Config, sys: System, p: Proc)
    requires Inv(cfg, sys)
    ensures Inv(cfg, Next(cfg, sys, ActReadBack(p)))
  {
    PcInv(cfg, sys, p);
    PcStep(cfg, sys, Next(cfg, sys, ActReadBack(p)), p);
  }

  lemma RenewKeeps(cfg: Config, sys: System, p: Proc, now: string, expires: string)
    requires Inv(cfg, sys)
    ensures Inv(cfg, sys.(tables := RenewQuestionLease(sys.tables, p.question, p.worker, now, expires).tables))
  {
    var next := sys.(tables := RenewQuestionLease(sys.tables, p.question, p.worker, now, expires).tables);
    QuestionCallKeepsTables(cfg, sys.tables, CallRenew(p.question, p.worker, now, expires));
    LeaseQuiet(sys.tables, p, now, expires);
    if p in sys.procs {
      PcInv(cfg, sys, p);
      GroundedStays(cfg, sys.tables, next.tables, p.question, sys.procs[p]);
    }
    QuietStep(cfg, sys, next, p);
  }

  lemma RenewActivityKeeps(cfg: Config, sys: System, p: Proc, a: Uuid, now: string, expires: string, attempt: Option<nat>)
    requires Inv(cfg, sys)
    ensures Inv(cfg, sys.(tables := RenewActivityLease(sys.tables, a, p.worker, now, expires, attempt).tables))
  {
    var out := RenewActivityLease(sys.tables, a, p.worker, now, expires, attempt);
    var next := sys.(tables := out.tables);
    ActivityCallKeepsTables(cfg, sys.tables, out.tables, CallRenewActivity(a, p.worker, now, expires, attempt));
    SameQuestionsQuiet(sys.tables, out.tables, p);
    if p in sys.procs {
      PcInv(cfg, sys, p);
      GroundedStays(cfg, sys.tables, next.tables, p.question, sys.procs[p]);
    }
    QuietStep(cfg, sys, next, p);
  }

  lemma EnvironmentIsQuiet(s: Tables, c: Call, p: Proc)
    requires c.CallCreateProject? || c.CallCreateQuestion? || c.CallRegisterArtifact?
    ensures QuietQuestions(s, Store.After(s, c), p)
    ensures p.question in s.questions ==> Store.After(s, c).questions[p.question] == s.questions[p.question]
  {
  }

  lemma SharedTablesChange(cfg: Config, sys: System, t: Tables, p: Proc)
    requires Inv(cfg, sys) && TablesInv(cfg, t) && TablesGrow(sys.tables, t) && QuietQuestions(sys.tables, t, p)
    requires p.question in sys.tables.questions ==> t.questions[p.question] == sys.tables.questions[p.question]
    ensures Inv(cfg, sys.(tables := t))
  {
    if p in sys.procs {
      PcInv(cfg, sys, p);
      GroundedStays(cfg, sys.tables, t, p.question, sys.procs[p]);
    }
    QuietStep(cfg, sys, sys.(tables := t), p);
  }

  /** Projects, questions and inputs created from outside. */
  lemma EnvironmentKeeps(cfg: Config, sys: System, c: Call)
    requires Inv(cfg, sys) && (c.CallCreateProject? || c.CallCreateQuestion? || c.CallRegisterArtifact?)
    ensures Inv(cfg, sys.(tables := Store.After(sys.tables, c)))
  {
    var p := Proc("", "");
    QuestionCallKeepsTables(cfg, sys.tables, c);
    EnvironmentIsQuiet(sys.tables, c, p);
    SharedTablesChange(cfg, sys, Store.After(sys.tables, c), p);
  }

  /** Steps up to the claim. */
  predicate IsFront(a: Action) {
    a.ActAcquire? || a.ActLoad? || a.ActEnter? || a.ActReload? || a.ActStage? || a.ActClaim? || a.ActGiveUp?
  }

  /** Steps from the execution on. */
  predicate IsBack(a: Action) {
    a.ActExecute? || a.ActRaise? || a.ActComplete? || a.ActFail? || a.ActDecide? || a.ActConclude? || a.ActReadBack?
      || a.ActRelease? || a.ActCrash?
  }

  lemma FrontKeepsInv(cfg: Config, sys: System, a: Action)
    requires Inv(cfg, sys) && IsFront(a)
    ensures Inv(cfg, Next(cfg, sys, a))
  {
    match a {
      case ActAcquire(p, now, expires) => AcquireKeeps(cfg, sys, p, now, expires);
      case ActLoad(p) => if Read(sys, p).Some? { ReadKeeps(cfg, sys, p); }
      case ActEnter(p, now) => if PcOf(sys, p).Loaded? { EnterKeeps(cfg, sys, p, now); }
      case ActReload(p) => if Read(sys, p).Some? { ReadKeeps(cfg, sys, p); }
      case ActStage(p, id, now) => if PcOf(sys, p).Staged? { StageKeeps(cfg, sys, p, id, now); }
      case ActClaim(p, now, expires, request) => if PcOf(sys, p).Claiming? { ClaimKeeps(cfg, sys, p, now, expires, request); }
      case ActGiveUp(p, now, reason) => if PcOf(sys, p).GivingUp? { GiveUpKeeps(cfg, sys, p, now, reason); }
    }
  }

  lemma BackKeepsInv(cfg: Config, sys: System, a: Action)
    requires Inv(cfg, sys) && IsBack(a)
    ensures Inv(cfg, Next(cfg, sys, a))
  {
    match a {
      case ActComplete(p, now, artifacts) => if PcOf(sys, p).Committing? { CompleteKeeps(cfg, sys, p, now, artifacts); }
      case ActFail(p, now, error) => if PcOf(sys, p).Failing? { FailKeeps(cfg, sys, p, now, error); }
      case ActDecide(p, now, m, c) => if PcOf(sys, p).Deciding? { DecideKeeps(cfg, sys, p, now, m, c); }
      case ActConclude(p, now, reason) => ConcludeKeeps(cfg, sys, p, now, reason);
      case ActRelease(p) => if PcOf(sys, p).Releasing? { ReleaseKeeps(cfg, sys, p); }
      case _ => PositionKeepsInv(cfg, sys, a);
    }
  }

  /** Steps of a worker's own position. */
  lemma PositionKeepsInv(cfg: Config, sys: System, a: Action)
    requires Inv(cfg, sys) && (a.ActExecute? || a.ActRaise? || a.ActReadBack? || a.ActCrash?)
    ensures Inv(cfg, Next(cfg, sys, a))
  {
    match a {
      case ActExecute(p, response) => ExecuteKeeps(cfg, sys, p, response);
      case ActRaise(p) => RaiseKeeps(cfg, sys, p);
      case ActReadBack(p) => ReadBackKeeps(cfg, sys, p);
      case ActCrash(p) => PcStep(cfg, sys, Next(cfg, sys, a), p);
    }
  }

  lemma ExecuteKeeps(cfg: Config, sys: System, p: Proc, response: Response)
    requires Inv(cfg, sys)
    ensures Inv(cfg, Next(cfg, sys, ActExecute(p, response)))
  {
    PcInv(cfg, sys, p);
    PcStep(cfg, sys, Next(cfg, sys, ActExecute(p, response)), p);
  }

  lemma NextKeepsInv(cfg: Config, sys: System, a: Action)
    requires Inv(cfg, sys)
    ensures Inv(cfg, Next(cfg, sys, a))
  {
    if IsFront(a) {
      FrontKeepsInv(cfg, sys, a);
    } else if IsBack(a) {
      BackKeepsInv(cfg, sys, a);
    } else {
      OutsideKeepsInv(cfg, sys, a);
    }
  }

  /** Heartbeats and the environment. */
  lemma OutsideKeepsInv(cfg: Config, sys: System, a: Action)
    requires Inv(cfg, sys) && !IsFront(a) && !IsBack(a)
    ensures Inv(cfg, Next(cfg, sys, a))
  {
    match a {
      case ActRenewQuestion(p, now, expires) => RenewKeeps(cfg, sys, p, now, expires);
      case ActRenewActivity(p, activity, now, expires, attempt) => RenewActivityKeeps(cfg, sys, p, activity, now, expires, attempt);
      case ActCreateProject(id, name) => EnvironmentKeeps(cfg, sys, CallCreateProject(id, name));
      case ActCreateQuestion(projectId, key, title, problem, id) =>
        EnvironmentKeeps(cfg, sys, CallCreateQuestion(projectId, key, title, problem, id));
      case ActRegisterArtifact(artifact) => EnvironmentKeeps(cfg, sys, CallRegisterArtifact(artifact));
    }
  }

  lemma {:induction false} EveryRunKeepsInv(cfg: Config, actions: seq<Action>)
    ensures Inv(cfg, Workflow.After(cfg, actions))
    decreases |actions|
  {
    if actions == [] {
      CoverRows(EMPTY);
    } else {
      EveryRunKeepsInv(cfg, actions[..|actions| - 1]);
      NextKeepsInv(cfg, Workflow.After(cfg, actions[..|actions| - 1]), actions[|actions| - 1]);
    }
  }

  // ---------- main result ----------

  /** The evidence gate: after any interleaving, a question that is approved, finalizing or completed has a
      committed modeling result and a committed coding result of its current revision that the gate admits,
      and a completed one has a committed final result with exactly one valid paper when that gate is on. One call at
      a time per worker id and question: see `WorkflowCalls` for that condition and for what two calls can do. */
  lemma EvidenceGate(cfg: Config, actions: seq<Action>, q: Uuid)
    ensures var t := Workflow.After(cfg, actions).tables;
      q in t.questions ==>
        && (t.questions[q].state in {Approved, Finalizing, Completed} ==> Evidence(t, q, t.questions[q].revision))
        && (t.questions[q].state == Completed ==> FinalEvidence(cfg, t, q, t.questions[q].revision))
  {
    EveryRunKeepsInv(cfg, actions);
    var t := Workflow.After(cfg, actions).tables;
    if q in t.questions {
      assert QuestionInv(cfg, t, q);
    }
  }
}
