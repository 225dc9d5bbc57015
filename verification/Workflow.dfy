/** `SingleQuestionWorkflow.run_step` of src/m2harness/workflow.py as a state machine. One step is one store
    transaction, one separate read, or one call of the executor; between any two steps any other worker may
    move, a lease may run out, and a worker may crash. Every step carries its own clock readings. */
module Workflow {
  import opened Wrappers
  import opened Strings
  import opened Contracts
  import opened Store
  import opened Publication

  /** The settings, what makes a source valid, and the failure reason for an exhausted revision limit. */
  datatype Config = Config(
    maxAttempts: nat, maxRevisions: nat, requireLatex: bool, sourceIsValid: string -> bool, exhausted: string)

  /** One worker id working on one question, with at most one call of `run_step` in flight; `WorkflowCalls` says what
      happens with more. */
  datatype Proc = Proc(worker: string, question: Uuid)

  /** The columns of the in-memory question record that `run_step` uses. */
  datatype Snapshot = Snapshot(state: QuestionState, revision: int)

  /** Where a `run_step` stands. */
  datatype Pc =
    | Idle
    | Leased
    | Loaded(q: Snapshot)
    | Entered(stage: Stage)
    | Staged(q: Snapshot, stage: Stage)
    | Claiming(q: Snapshot, stage: Stage, activity: Uuid)
    | GivingUp(q: Snapshot, stage: Stage)
    | Executing(q: Snapshot, stage: Stage, activity: Uuid, attempt: nat)
    | Committing(q: Snapshot, stage: Stage, activity: Uuid, attempt: nat, response: Response)
    | Failing(q: Snapshot, stage: Stage, activity: Uuid, attempt: nat)
    | Deciding(q: Snapshot, stage: Stage, activity: Uuid, response: Response)
    | Approving(q: Snapshot)
    | Rejecting(q: Snapshot)
    | Moved
    | Releasing(end: StepEnd)

  /** How a `run_step` ends for its caller: a result, which says whether the question has ended, or an exception. */
  datatype StepEnd = Returned(terminal: bool) | Raised

  /** The shared tables, every worker's position, and two history variables: how each worker's calls of `run_step`
      ended so far, and whether an activity was ever created without the lease. */
  datatype System = System(tables: Tables, procs: map<Proc, Pc>, ends: map<Proc, seq<StepEnd>>, stale: bool)

  const START := System(EMPTY, map[], map[], false)

  function PcOf(sys: System, p: Proc): Pc {
    if p in sys.procs then sys.procs[p] else Idle
  }

  function EndsOf(sys: System, p: Proc): seq<StepEnd> {
    if p in sys.ends then sys.ends[p] else []
  }

  function End(sys: System, p: Proc, end: StepEnd): System {
    sys.(ends := sys.ends[p := EndsOf(sys, p) + [end]])
  }

  function Move(sys: System, p: Proc, t: Tables, pc: Pc): System {
    sys.(tables := t, procs := sys.procs[p := pc])
  }

  // ---------- entering the stage ----------

  datatype Entry = Entry(stage: Stage, target: QuestionState)

  /** `_enter_stage`: the stage of a state, and the executing state it runs in. */
  function EntryOf(state: QuestionState): Option<Entry> {
    match state
    case Pending => Some(Entry(ModelingStage, Modeling))
    case Modeling => Some(Entry(ModelingStage, Modeling))
    case ReadyForCoding => Some(Entry(CodingStage, Coding))
    case RevisionRequired => Some(Entry(CodingStage, Coding))
    case Coding => Some(Entry(CodingStage, Coding))
    case ReadyForReview => Some(Entry(ReviewStage, Reviewing))
    case Reviewing => Some(Entry(ReviewStage, Reviewing))
    case Approved => Some(Entry(FinalizeStage, Finalizing))
    case Finalizing => Some(Entry(FinalizeStage, Finalizing))
    case Completed => None
    case Failed => None
  }

  function ExecState(stage: Stage): QuestionState {
    match stage
    case ModelingStage => Modeling
    case CodingStage => Coding
    case ReviewStage => Reviewing
    case FinalizeStage => Finalizing
  }

  // ---------- the evidence gate ----------

  predicate IsCommitted(t: Tables, id: Uuid, q: Uuid, stage: Stage) {
    id in t.activities && t.activities[id].questionId == q && t.activities[id].stage == stage
      && t.activities[id].status == Succeeded && t.activities[id].result.Some?
  }

  /** The first committed modeling activity in creation order, if any. */
  ghost predicate ReadsModeling(t: Tables, q: Uuid, m: Option<Uuid>) {
    match m
    case None => forall id | id in t.activities :: !IsCommitted(t, id, q, ModelingStage)
    case Some(i) =>
      && IsCommitted(t, i, q, ModelingStage)
      && forall id | id in t.activities && IsCommitted(t, id, q, ModelingStage) ::
           !Less(t.activities[id].createdAt, t.activities[i].createdAt)
  }

  /** The committed coding activity of the revision, if any. */
  ghost predicate ReadsCoding(t: Tables, q: Uuid, revision: int, c: Option<Uuid>) {
    match c
    case None => forall id | id in t.activities :: !(IsCommitted(t, id, q, CodingStage) && t.activities[id].revision == revision)
    case Some(i) => IsCommitted(t, i, q, CodingStage) && t.activities[i].revision == revision
  }

  /** What `_approval_evidence_error` reports. */
  datatype GateError =
    | NotCommitted | OtherStages | QwenOutsideSandbox | RemoteInterpreter | ExecutionFailed | Unmet(names: seq<string>)

  /** The required validations that are missing or failed. */
  function FailedValidations(required: seq<string>, validations: map<string, bool>): seq<string>
    decreases |required|
  {
    if required == [] then []
    else
      var before, name := FailedValidations(required[..|required| - 1], validations), required[|required| - 1];
      if name in validations && validations[name] then before else before + [name]
  }

  /** The checks of `_approval_evidence_error` on the two committed responses, in order. */
  function EvidenceError(modeling: Response, coding: Response): Option<GateError> {
    if !modeling.output.ModelingOutput? || !coding.output.CodingOutput? then Some(OtherStages)
    else if coding.provider == Some("qwen") && coding.backend != Some("local-sandbox") then Some(QwenOutsideSandbox)
    else if coding.backend == Some("remote-code-interpreter") then Some(RemoteInterpreter)
    else if !coding.output.executionSucceeded then Some(ExecutionFailed)
    else
      var failed := FailedValidations(modeling.output.requiredValidations, coding.output.validations);
      if failed != [] then Some(Unmet(failed)) else None
  }

  /** `_approval_evidence_error` on the rows that were read. */
  function GateErrorOf(t: Tables, q: Uuid, m: Option<Uuid>, c: Option<Uuid>): Option<GateError>
    requires m.Some? ==> IsCommitted(t, m.value, q, ModelingStage)
    requires c.Some? ==> IsCommitted(t, c.value, q, CodingStage)
  {
    if m.None? || c.None? then Some(NotCommitted)
    else EvidenceError(t.activities[m.value].result.value, t.activities[c.value].result.value)
  }

  predicate GatePasses(t: Tables, q: Uuid, m: Option<Uuid>, c: Option<Uuid>)
    requires m.Some? ==> IsCommitted(t, m.value, q, ModelingStage)
    requires c.Some? ==> IsCommitted(t, c.value, q, CodingStage)
  {
    GateErrorOf(t, q, m, c).None?
  }

  // ---------- the steps of run_step ----------

  /** Every step of a worker `p` on its question, and the steps of the environment. */
  datatype Action =
    | ActAcquire(p: Proc, now: string, expires: string)
    | ActLoad(p: Proc)
    | ActEnter(p: Proc, now: string)
    | ActReload(p: Proc)
    | ActStage(p: Proc, id: Uuid, now: string)
    | ActClaim(p: Proc, now: string, expires: string, request: string)
    | ActGiveUp(p: Proc, now: string, reason: string)
    | ActExecute(p: Proc, response: Response)
    | ActRaise(p: Proc)
    | ActComplete(p: Proc, now: string, artifacts: seq<Artifact>)
    | ActFail(p: Proc, now: string, error: string)
    | ActDecide(p: Proc, now: string, m: Option<Uuid>, c: Option<Uuid>)
    | ActConclude(p: Proc, now: string, reason: string)
    | ActReadBack(p: Proc)
    | ActRelease(p: Proc)
    | ActCrash(p: Proc)
    | ActRenewQuestion(p: Proc, now: string, expires: string)
    | ActRenewActivity(p: Proc, activity: Uuid, now: string, expires: string, attempt: Option<nat>)
    | ActCreateProject(id: Uuid, name: string)
    | ActCreateQuestion(projectId: Uuid, key: string, title: string, problem: Artifact, id: Uuid)
    | ActRegisterArtifact(artifact: Artifact)

  /** A transition by the worker; a raised error leads to the `finally` block. */
  function Transit(sys: System, p: Proc, now: string, expected: set<QuestionState>, target: QuestionState,
                   revision: Option<int>, reason: Option<string>, next: Pc): System
  {
    var out := Transition(sys.tables, p.question, p.worker, now, expected, target, revision, reason);
    Move(sys, p, out.tables, if out.result.Ok? then next else Releasing(Raised))
  }

  function DoAcquire(sys: System, p: Proc, now: string, expires: string): System {
    var out := AcquireQuestionLease(sys.tables, p.question, p.worker, now, expires);
    if out.result.Ok? then Move(sys, p, out.tables, Leased) else End(sys, p, Raised)
  }

  function Read(sys: System, p: Proc): Option<Snapshot> {
    if p.question in sys.tables.questions then
      Some(Snapshot(sys.tables.questions[p.question].state, sys.tables.questions[p.question].revision))
    else None
  }

  function DoEnter(sys: System, p: Proc, q: Snapshot, now: string): System {
    match EntryOf(q.state)
    case None => Move(sys, p, sys.tables, Releasing(Returned(true)))
    case Some(entry) =>
      if q.state == entry.target then Move(sys, p, sys.tables, Staged(q, entry.stage))
      else Transit(sys, p, now, {q.state}, entry.target, None, None, Entered(entry.stage))
  }

  predicate Owns(t: Tables, p: Proc) {
    p.question in t.questions && t.questions[p.question].leaseOwner == Some(p.worker)
  }

  ghost function DoStage(sys: System, p: Proc, q: Snapshot, stage: Stage, id: Uuid, now: string): System {
    if p.question !in sys.tables.questions then sys
    else
      var out := GetOrCreateActivity(sys.tables, p.question, sys.tables.questions[p.question].projectId, q.revision,
                                     stage, id, now);
      match out.result
      case Err(_) => Move(sys, p, out.tables, Releasing(Raised))
      case Ok(a) =>
        var next :=
          if a in out.tables.activities && out.tables.activities[a].status == Succeeded
            && out.tables.activities[a].result.Some?
          then Deciding(q, stage, a, out.tables.activities[a].result.value)
          else Claiming(q, stage, a);
        Move(sys, p, out.tables, next).(stale := sys.stale || (out.tables != sys.tables && !Owns(sys.tables, p)))
  }

  /** `claim_activity` hands back an already committed row without an error; the step still executes. */
  function DoClaim(cfg: Config, sys: System, p: Proc, q: Snapshot, stage: Stage, a: Uuid, now: string, expires: string,
                   request: string): System
  {
    var out := ClaimActivity(sys.tables, a, p.worker, now, expires, cfg.maxAttempts, request);
    match out.result
    case Ok(row) => Move(sys, p, out.tables, Executing(q, stage, a, row.attempts))
    case Err(e) => Move(sys, p, out.tables, if e == AttemptsExhausted then GivingUp(q, stage) else Releasing(Raised))
  }

  /** The executor rejects a response of another stage, and materialising rejects a bad publication. */
  predicate Acceptable(cfg: Config, stage: Stage, r: Response) {
    && r.output.Stage() == stage
    && (r.output.FinalizeOutput? && cfg.requireLatex ==> ValidatePublication(cfg.sourceIsValid, r.produced).Ok?)
  }

  function DoComplete(sys: System, p: Proc, pc: Pc, now: string, artifacts: seq<Artifact>): System
    requires pc.Committing?
  {
    var out := CompleteActivity(sys.tables, pc.activity, p.worker, now, pc.response, artifacts, Some(pc.attempt));
    Move(sys, p, out.tables,
         if out.result.Ok? then Deciding(pc.q, pc.stage, pc.activity, pc.response)
         else Failing(pc.q, pc.stage, pc.activity, pc.attempt))
  }

  /** `_complete_stage`. The evidence gate is a read of its own; its verdict is acted on in the next step. */
  ghost function DoDecide(cfg: Config, sys: System, p: Proc, pc: Pc, now: string, m: Option<Uuid>, c: Option<Uuid>): System
    requires pc.Deciding?
  {
    match pc.response.output
    case ModelingOutput(_) => Transit(sys, p, now, {Modeling}, ReadyForCoding, None, None, Moved)
    case CodingOutput(_, _) => Transit(sys, p, now, {Coding}, ReadyForReview, None, None, Moved)
    case FinalizeOutput => Transit(sys, p, now, {Finalizing}, Completed, None, None, Moved)
    case ReviewOutput(approve) =>
      if approve then
        if !ReadsModeling(sys.tables, p.question, m) || !ReadsCoding(sys.tables, p.question, pc.q.revision, c) then sys
        else Move(sys, p, sys.tables, if GatePasses(sys.tables, p.question, m, c) then Approving(pc.q) else Rejecting(pc.q))
      else if pc.q.revision + 1 > cfg.maxRevisions then
        Transit(sys, p, now, {Reviewing}, Failed, None, Some(cfg.exhausted), Moved)
      else
        Transit(sys, p, now, {Reviewing}, RevisionRequired, Some(pc.q.revision + 1), None, Moved)
  }

  predicate Ended(state: QuestionState) {
    state == Completed || state == Failed
  }

  /** The question as read after the transition committed decides whether the step was the last. */
  function DoReadBack(sys: System, p: Proc): System {
    match Read(sys, p)
    case None => sys
    case Some(q) => Move(sys, p, sys.tables, Releasing(Returned(Ended(q.state))))
  }

  function DoRelease(sys: System, p: Proc, end: StepEnd): System {
    End(Move(sys, p, ReleaseQuestionLease(sys.tables, p.question, p.worker).tables, Idle), p, end)
  }

  /** An exception: inside the execution block it leads to `fail_activity`, elsewhere to the `finally` block. */
  function DoRaise(sys: System, p: Proc): System {
    match PcOf(sys, p)
    case Idle => sys
    case Executing(q, stage, a, attempt) => Move(sys, p, sys.tables, Failing(q, stage, a, attempt))
    case Committing(q, stage, a, attempt, _) => Move(sys, p, sys.tables, Failing(q, stage, a, attempt))
    case _ => Move(sys, p, sys.tables, Releasing(Raised))
  }

  /** The system after an action; an action that its worker cannot take changes nothing. */
  ghost function Next(cfg: Config, sys: System, a: Action): System {
    match a
    case ActAcquire(p, now, expires) => if PcOf(sys, p).Idle? then DoAcquire(sys, p, now, expires) else sys
    case ActLoad(p) =>
      if PcOf(sys, p).Leased? && Read(sys, p).Some? then Move(sys, p, sys.tables, Loaded(Read(sys, p).value)) else sys
    case ActEnter(p, now) => if PcOf(sys, p).Loaded? then DoEnter(sys, p, PcOf(sys, p).q, now) else sys
    case ActReload(p) =>
      if PcOf(sys, p).Entered? && Read(sys, p).Some?
      then Move(sys, p, sys.tables, Staged(Read(sys, p).value, PcOf(sys, p).stage)) else sys
    case ActStage(p, id, now) =>
      if PcOf(sys, p).Staged? then DoStage(sys, p, PcOf(sys, p).q, PcOf(sys, p).stage, id, now) else sys
    case ActClaim(p, now, expires, request) =>
      if PcOf(sys, p).Claiming?
      then DoClaim(cfg, sys, p, PcOf(sys, p).q, PcOf(sys, p).stage, PcOf(sys, p).activity, now, expires, request) else sys
    case ActGiveUp(p, now, reason) =>
      if PcOf(sys, p).GivingUp?
      then Transit(sys, p, now, {PcOf(sys, p).q.state}, Failed, None, Some(reason), Releasing(Returned(true))) else sys
    case ActExecute(p, response) =>
      (match PcOf(sys, p)
       case Executing(q, stage, a, attempt) =>
         Move(sys, p, sys.tables,
              if Acceptable(cfg, stage, response) then Committing(q, stage, a, attempt, response) else Failing(q, stage, a, attempt))
       case _ => sys)
    case ActRaise(p) => DoRaise(sys, p)
    case ActComplete(p, now, artifacts) =>
      if PcOf(sys, p).Committing? then DoComplete(sys, p, PcOf(sys, p), now, artifacts) else sys
    case ActFail(p, now, error) =>
      (match PcOf(sys, p)
       case Failing(_, _, a, attempt) =>
         Move(sys, p, FailActivity(sys.tables, a, p.worker, now, error, Some(attempt)).tables, Releasing(Raised))
       case _ => sys)
    case ActDecide(p, now, m, c) => if PcOf(sys, p).Deciding? then DoDecide(cfg, sys, p, PcOf(sys, p), now, m, c) else sys
    case ActConclude(p, now, reason) =>
      if PcOf(sys, p).Approving? then Transit(sys, p, now, {Reviewing}, Approved, None, None, Moved)
      else if PcOf(sys, p).Rejecting? then Transit(sys, p, now, {Reviewing}, Failed, None, Some(reason), Moved)
      else sys
    case ActReadBack(p) => if PcOf(sys, p).Moved? then DoReadBack(sys, p) else sys
    case ActRelease(p) => if PcOf(sys, p).Releasing? then DoRelease(sys, p, PcOf(sys, p).end) else sys
    case ActCrash(p) => sys.(procs := sys.procs[p := Idle])
    case ActRenewQuestion(p, now, expires) =>
      sys.(tables := RenewQuestionLease(sys.tables, p.question, p.worker, now, expires).tables)
    case ActRenewActivity(p, a, now, expires, attempt) =>
      sys.(tables := RenewActivityLease(sys.tables, a, p.worker, now, expires, attempt).tables)
    case ActCreateProject(id, name) => sys.(tables := CreateProject(sys.tables, id, name).tables)
    case ActCreateQuestion(projectId, key, title, problem, id) =>
      sys.(tables := CreateQuestion(sys.tables, projectId, key, title, problem, id).tables)
    case ActRegisterArtifact(artifact) => sys.(tables := RegisterArtifact(sys.tables, artifact).tables)
  }

  /** The system after any interleaving of actions. */
  ghost function After(cfg: Config, actions: seq<Action>): System
    decreases |actions|
  {
    if actions == [] then START
    else Next(cfg, After(cfg, actions[..|actions| - 1]), actions[|actions| - 1])
  }
}
