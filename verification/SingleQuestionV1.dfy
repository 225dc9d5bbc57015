/** The workflow definition of src/m2harness/workflows/single_question_v1.py: initial state, reducer, and the
    events the engine feeds it. */
module SingleQuestionV1 {
  import opened Wrappers
  import opened Json

  datatype FlowStage = Ingest | ModelingFlow | CodingFlow | Validation | Review | Revision | Finalize

  datatype FlowState = FlowState(
    workflowId: string, questionId: string, stage: FlowStage, revision: nat, paused: bool, cancelled: bool,
    terminal: bool, terminalReason: Option<string>, version: nat, facts: map<string, Json>)

  datatype EventType = Started | ActivityCompleted | Paused | Resumed | Cancelled

  datatype DomainEvent = DomainEvent(eventType: EventType, payload: map<string, Json>, actorType: string, actorId: string)

  function StageText(stage: FlowStage): string {
    match stage
    case Ingest => "ingest"
    case ModelingFlow => "modeling"
    case CodingFlow => "coding"
    case Validation => "validation"
    case Review => "review"
    case Revision => "revision"
    case Finalize => "finalize"
  }

  function Initial(workflowId: string, questionId: string, facts: map<string, Json>): FlowState {
    FlowState(workflowId, questionId, Ingest, 0, false, false, false, None, 1, facts)
  }

  /** The payload of the started event. */
  function StartEvent(s: FlowState): DomainEvent {
    DomainEvent(Started, map["question_id" := Str(s.questionId), "definition" := Str("single-question-report"),
                             "definition_version" := Str("1.0.0"), "facts" := Obj(s.facts)], "system", "workflow")
  }

  function Bump(s: FlowState): FlowState {
    s.(version := s.version + 1)
  }

  predicate AsksForRevision(payload: map<string, Json>) {
    "verdict" in payload && payload["verdict"] == Str("revision_required")
  }

  function CompleteStage(s: FlowState, payload: map<string, Json>): FlowState {
    match s.stage
    case Ingest => Bump(s).(stage := ModelingFlow)
    case ModelingFlow => Bump(s).(stage := CodingFlow)
    case CodingFlow => Bump(s).(stage := Validation)
    case Validation => Bump(s).(stage := Review)
    case Review =>
      if AsksForRevision(payload) then Bump(s).(stage := Revision, revision := s.revision + 1)
      else Bump(s).(stage := Finalize)
    case Revision => Bump(s).(stage := CodingFlow)
    case Finalize => Bump(s).(terminal := true, terminalReason := Some("final report published"))
  }

  function Reduce(s: FlowState, e: DomainEvent): FlowState {
    match e.eventType
    case Paused => Bump(s).(paused := true)
    case Resumed => Bump(s).(paused := false)
    case Cancelled => Bump(s).(cancelled := true, terminal := true, terminalReason := Some("cancelled"))
    case Started => s
    case ActivityCompleted =>
      if "stage" in e.payload && e.payload["stage"] == Str(StageText(s.stage)) then CompleteStage(s, e.payload) else s
  }

  lemma CompleteKeepsId(s: FlowState, payload: map<string, Json>)
    ensures CompleteStage(s, payload).workflowId == s.workflowId
  {
    assert Bump(s).workflowId == s.workflowId;
  }

  lemma ReduceKeepsId(s: FlowState, e: DomainEvent)
    ensures Reduce(s, e).workflowId == s.workflowId
  {
    if e.eventType == ActivityCompleted {
      CompleteKeepsId(s, e.payload);
    }
  }

  // ---------- the engine's requests ----------

  datatype Request =
    | ApplyResult(stage: string, payload: map<string, Json>, actorId: string)
    | Pause(actorId: string)
    | Resume(actorId: string)
    | Cancel(actorId: string)

  /** The event of a request. The caller's payload is merged over the stage, so it may replace it. */
  function EventOf(r: Request): DomainEvent {
    match r
    case ApplyResult(stage, payload, actor) => DomainEvent(ActivityCompleted, map["stage" := Str(stage)] + payload, "worker", actor)
    case Pause(actor) => DomainEvent(Paused, map[], "operator", actor)
    case Resume(actor) => DomainEvent(Resumed, map[], "operator", actor)
    case Cancel(actor) => DomainEvent(Cancelled, map[], "operator", actor)
  }

  /** What the engine checks on the state it read before it reduces; a terminal workflow is returned as it is. */
  predicate Admits(s: FlowState, r: Request) {
    !s.terminal && (r.ApplyResult? ==> StageText(s.stage) == r.stage)
  }

  /** The caller's payload names another stage than the one it reports. */
  predicate Contradicts(r: Request) {
    r.ApplyResult? && "stage" in r.payload && r.payload["stage"] != Str(r.stage)
  }

  /** An admitted request moves the workflow by one version, unless its payload contradicts its stage; then the
      reducer ignores the event and the save will be refused. */
  lemma AdmittedMovesOneVersion(s: FlowState, r: Request)
    requires Admits(s, r)
    ensures Reduce(s, EventOf(r)).version == s.version + 1 <==> !Contradicts(r)
    ensures Contradicts(r) ==> Reduce(s, EventOf(r)) == s
  {
    if r.ApplyResult? {
      var merged := map["stage" := Str(r.stage)] + r.payload;
      assert EventOf(r).payload == merged && "stage" in merged;
      assert merged["stage"] == if "stage" in r.payload then r.payload["stage"] else Str(r.stage);
    }
  }

  /** The state that a log of events stands for. */
  function Fold(initial: FlowState, log: seq<DomainEvent>): FlowState
    decreases |log|
  {
    if log == [] then initial else Reduce(Fold(initial, log[..|log| - 1]), log[|log| - 1])
  }

  lemma FoldAppend(initial: FlowState, log: seq<DomainEvent>, e: DomainEvent)
    ensures Fold(initial, log + [e]) == Reduce(Fold(initial, log), e)
  {
    assert (log + [e])[..|log|] == log;
  }
}
