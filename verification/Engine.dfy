/** `WorkflowRepositoryMemory` and `WorkflowEngine` of src/m2harness/application/workflow_engine.py as objects, on
    top of the domain event store. One engine that is never interrupted keeps, for every workflow, a log whose
    replay is the stored state. */
module Engine {
  import opened Wrappers
  import opened Json
  import opened AggregateLog
  import opened SingleQuestionV1
  import opened FlowLog
  import HashChain
  import JsonRoundTrip

  class WorkflowRepository {
    var states: map<string, FlowState>

    constructor ()
      ensures states == map[]
    {
      states := map[];
    }

    method Create(state: FlowState) returns (r: Result<FlowState>)
      modifies this
      ensures state.workflowId in old(states) ==> r == Err(Conflict) && states == old(states)
      ensures state.workflowId !in old(states) ==> r == Ok(state) && states == old(states)[state.workflowId := state]
    {
      if state.workflowId in states {
        return Err(Conflict);
      }
      states := states[state.workflowId := state];
      return Ok(state);
    }

    /** Compare-and-swap: the stored version must be the expected one and the new one its successor. */
    method Save(state: FlowState, expectedVersion: nat) returns (r: Result<FlowState>)
      modifies this
      ensures r.Ok? <==> state.workflowId in old(states) && old(states)[state.workflowId].version == expectedVersion
                         && state.version == expectedVersion + 1
      ensures r.Ok? ==> r.value == state && states == old(states)[state.workflowId := state]
      ensures r.Err? ==> states == old(states) && r.error == if state.workflowId in states then Conflict else NotFound
    {
      if state.workflowId !in states {
        return Err(NotFound);
      }
      if states[state.workflowId].version != expectedVersion || state.version != expectedVersion + 1 {
        return Err(Conflict);
      }
      states := states[state.workflowId := state];
      return Ok(state);
    }
  }

  function TypeText(t: EventType): string {
    match t
    case Started => "workflow.started.v1"
    case ActivityCompleted => "activity.completed.v1"
    case Paused => "workflow.paused.v1"
    case Resumed => "workflow.resumed.v1"
    case Cancelled => "workflow.cancelled.v1"
  }

  /** What `append` draws from uuid4 and the clock. */
  datatype Stamp = Stamp(eventId: string, occurredAt: string)

  function Envelope(id: string, e: DomainEvent, stamp: Stamp): NewEvent {
    NewEvent(stamp.eventId, TypeText(e.eventType), "workflow", id, None, e.actorType, e.actorId, stamp.occurredAt,
             Obj(e.payload), "m2harness/domain-event/v1")
  }

  /** The row holds this event. */
  predicate Records(row: Row, e: DomainEvent) {
    && row.eventType == TypeText(e.eventType) && row.actorType == e.actorType && row.actorId == e.actorId
    && Loads(row.payload) == Some(Obj(e.payload))
  }

  ghost predicate AllRecord(chain: seq<Row>, log: seq<DomainEvent>) {
    |chain| == |log| && forall i | 0 <= i < |chain| :: Records(chain[i], log[i])
  }

  /** A row holds at most one event, so the chain determines the log. */
  lemma RecordsOne(row: Row, e: DomainEvent, f: DomainEvent)
    requires Records(row, e) && Records(row, f)
    ensures e == f
  {
  }

  lemma ChainDeterminesLog(chain: seq<Row>, log: seq<DomainEvent>, other: seq<DomainEvent>)
    requires AllRecord(chain, log) && AllRecord(chain, other)
    ensures log == other
  {
    forall i | 0 <= i < |log| ensures log[i] == other[i] {
      RecordsOne(chain[i], log[i], other[i]);
    }
  }

  lemma RowRecords(H: HashChain.Digest, chain: seq<Row>, id: string, e: DomainEvent, stamp: Stamp)
    ensures Records(ChainRow(H, chain, id, Envelope(id, e, stamp)), e)
  {
    JsonRoundTrip.LoadsPrint(Obj(e.payload));
  }

  /** The chain of workflow `id` holds `log`, which replays to `state` and is as long as its version. */
  ghost predicate InStep(chain: seq<Row>, id: string, initial: FlowState, log: seq<DomainEvent>, state: FlowState) {
    && AllRecord(chain, log)
    && state.workflowId == id
    && |log| == state.version && Fold(initial, log) == state && IsHistory(initial, log)
  }

  /** So the workflow is what its log says. */
  lemma InStepReads(chain: seq<Row>, id: string, initial: FlowState, log: seq<DomainEvent>, state: FlowState)
    requires InStep(chain, id, initial, log, state)
    ensures StageIs(Results(log), state) && FlagsAre(log, state) && RestIs(initial, log, state)
  {
    HistoryReads(initial, log);
  }

  /** The rows of each aggregate. */
  type Chains = string -> seq<Row>

  function ChainsOf(rows: seq<Row>): Chains {
    id => Project(rows, id)
  }

  ghost predicate OneInStep(chains: Chains, states: map<string, FlowState>, initials: map<string, FlowState>,
                            logs: map<string, seq<DomainEvent>>, id: string)
    requires initials.Keys == logs.Keys == states.Keys
  {
    if id in states then InStep(chains(id), id, initials[id], logs[id], states[id]) else chains(id) == []
  }

  /** Every workflow is in step with its chain, and there are no other chains. */
  ghost predicate AllInStep(chains: Chains, states: map<string, FlowState>, initials: map<string, FlowState>,
                            logs: map<string, seq<DomainEvent>>) {
    && initials.Keys == logs.Keys == states.Keys
    && (forall id :: OneInStep(chains, states, initials, logs, id))
  }

  /** One more row and one more event, on the chain of `id` alone. */
  ghost predicate OneMore(before: Chains, after: Chains, id: string, e: DomainEvent) {
    && (exists row :: Records(row, e) && after(id) == before(id) + [row])
    && (forall other | other != id :: after(other) == before(other))
  }

  lemma Extends(chain: seq<Row>, id: string, initial: FlowState, log: seq<DomainEvent>, state: FlowState,
                row: Row, e: DomainEvent, next: FlowState)
    requires InStep(chain, id, initial, log, state) && Records(row, e)
    requires next == Reduce(state, e) && next.version == state.version + 1 && Accepts(state, e)
    ensures InStep(chain + [row], id, initial, log + [e], next)
  {
    FoldAppend(initial, log, e);
    HistoryGrows(initial, log, e);
    ReduceKeepsId(state, e);
    assert AllRecord(chain + [row], log + [e]);
  }

  /** A change to one workflow and its chain alone. */
  lemma OneWorkflow(before: Chains, after: Chains, states: map<string, FlowState>, initials: map<string, FlowState>,
                    logs: map<string, seq<DomainEvent>>, id: string, initial: FlowState, log: seq<DomainEvent>, next: FlowState)
    requires AllInStep(before, states, initials, logs) && InStep(after(id), id, initial, log, next)
    requires forall other | other != id :: after(other) == before(other)
    ensures AllInStep(after, states[id := next], initials[id := initial], logs[id := log])
  {
    var states', initials', logs' := states[id := next], initials[id := initial], logs[id := log];
    assert states'.Keys == states.Keys + {id} && initials'.Keys == states'.Keys && logs'.Keys == states'.Keys;
    forall other ensures OneInStep(after, states', initials', logs', other) {
      assert OneInStep(before, states, initials, logs, other);
    }
  }

  lemma ChainIsAsLong(chains: Chains, states: map<string, FlowState>, initials: map<string, FlowState>,
                      logs: map<string, seq<DomainEvent>>, id: string)
    requires AllInStep(chains, states, initials, logs) && id in states
    ensures |chains(id)| == states[id].version && states[id].workflowId == id
  {
    assert OneInStep(chains, states, initials, logs, id);
  }

  lemma StepKeepsAll(before: Chains, after: Chains, states: map<string, FlowState>, initials: map<string, FlowState>,
                     logs: map<string, seq<DomainEvent>>, id: string, e: DomainEvent, next: FlowState)
    requires AllInStep(before, states, initials, logs) && id in states && OneMore(before, after, id, e)
    requires next == Reduce(states[id], e) && next.version == states[id].version + 1
    requires !states[id].terminal && e.eventType != Started
    ensures AllInStep(after, states[id := next], initials, logs[id := logs[id] + [e]])
  {
    var row :| Records(row, e) && after(id) == before(id) + [row];
    assert OneInStep(before, states, initials, logs, id);
    MovedIsAccepted(states[id], e);
    Extends(before(id), id, initials[id], logs[id], states[id], row, e, next);
    OneWorkflow(before, after, states, initials, logs, id, initials[id], logs[id] + [e], next);
    assert initials[id := initials[id]] == initials;
  }

  lemma StartKeepsAll(before: Chains, after: Chains, states: map<string, FlowState>, initials: map<string, FlowState>,
                      logs: map<string, seq<DomainEvent>>, state: FlowState)
    requires AllInStep(before, states, initials, logs) && state.workflowId !in states && IsFresh(state)
    requires OneMore(before, after, state.workflowId, StartEvent(state))
    ensures var id := state.workflowId;
      AllInStep(after, states[id := state], initials[id := state], logs[id := [StartEvent(state)]])
  {
    var id, e := state.workflowId, StartEvent(state);
    var row :| Records(row, e) && after(id) == before(id) + [row];
    assert OneInStep(before, states, initials, logs, id);
    FirstInStep(after(id), state, row);
    OneWorkflow(before, after, states, initials, logs, id, state, [e], state);
  }

  lemma FirstInStep(chain: seq<Row>, state: FlowState, row: Row)
    requires chain == [row] && Records(row, StartEvent(state)) && IsFresh(state)
    ensures InStep(chain, state.workflowId, state, [StartEvent(state)], state)
  {
    FirstEvent(state);
    FirstHistory(state);
  }

  lemma FirstEvent(state: FlowState)
    ensures Fold(state, [StartEvent(state)]) == state
  {
    FoldAppend(state, [], StartEvent(state));
    assert [] + [StartEvent(state)] == [StartEvent(state)];
  }

  class WorkflowEngine {
    const repository: WorkflowRepository
    const events: EventStore
    ghost var initials: map<string, FlowState>
    ghost var logs: map<string, seq<DomainEvent>>

    ghost predicate Valid()
      reads this, repository, events
    {
      && events.Valid()
      && AllInStep(ChainsOf(events.rows), repository.states, initials, logs)
    }

    constructor (repository: WorkflowRepository, events: EventStore)
      requires events.Valid() && events.rows == [] && repository.states == map[]
      ensures Valid() && this.repository == repository && this.events == events
    {
      this.repository, this.events, initials, logs := repository, events, map[], map[];
    }

    /** `events.append` with the fresh event id that uuid4 draws. */
    method Append(id: string, expected: nat, e: DomainEvent, stamp: Stamp) returns (r: Result<Row>)
      requires events.Valid() && !KnownEvent(events.rows, stamp.eventId)
      modifies events
      ensures events.Valid()
      ensures r.Ok? <==> |Project(old(events.rows), id)| == expected
      ensures r.Err? ==> events.rows == old(events.rows)
      ensures r.Ok? ==> OneMore(ChainsOf(old(events.rows)), ChainsOf(events.rows), id, e)
    {
      ghost var rows := events.rows;
      ghost var row := ChainRow(events.H, Project(rows, id), id, Envelope(id, e, stamp));
      r := events.AppendDomain(id, expected, Envelope(id, e, stamp));
      if r.Ok? {
        RowRecords(events.H, Project(rows, id), id, e, stamp);
        forall other ensures Project(rows + [row], other) == Project(rows, other) + (if other == id then [row] else []) {
          ProjectAppend(rows, row, other);
        }
      }
    }

    /** `start`: stores the initial state, then appends the started event to the empty log. */
    method Start(workflowId: string, questionId: string, facts: map<string, Json>, stamp: Stamp) returns (r: Result<FlowState>)
      requires Valid() && !KnownEvent(events.rows, stamp.eventId)
      modifies this, repository, events
      ensures Valid()
      ensures workflowId in old(repository.states) ==> r == Err(Conflict) && repository.states == old(repository.states)
      ensures workflowId !in old(repository.states) ==>
        && r == Ok(Initial(workflowId, questionId, facts))
        && repository.states == old(repository.states)[workflowId := r.value]
        && logs == old(logs)[workflowId := [StartEvent(r.value)]]
    {
      var state := Initial(workflowId, questionId, facts);
      ghost var before, states := events.rows, repository.states;
      r := repository.Create(state);
      if r.Ok? {
        assert OneInStep(ChainsOf(before), states, initials, logs, workflowId);
        var appended := Append(workflowId, 0, StartEvent(state), stamp);
        assert appended.Ok?;
        StartKeepsAll(ChainsOf(before), ChainsOf(events.rows), states, initials, logs, state);
        initials := initials[workflowId := state];
        logs := logs[workflowId := [StartEvent(state)]];
      }
    }

    /** Save the reduced state, then append its event. */
    method Commit(id: string, event: DomainEvent, next: FlowState, stamp: Stamp) returns (r: Result<FlowState>)
      requires Valid() && !KnownEvent(events.rows, stamp.eventId)
      requires id in repository.states && next == Reduce(repository.states[id], event)
      requires !repository.states[id].terminal && event.eventType != Started
      modifies this, repository, events
      ensures Valid()
      ensures r == if next.version == old(repository.states)[id].version + 1 then Ok(next) else Err(Conflict)
      ensures r.Ok? ==> repository.states == old(repository.states)[id := next] && logs == old(logs)[id := old(logs)[id] + [event]]
      ensures r.Err? ==> repository.states == old(repository.states) && events.rows == old(events.rows) && logs == old(logs)
    {
      var version := repository.states[id].version;
      ghost var before, states := events.rows, repository.states;
      ChainIsAsLong(ChainsOf(before), states, initials, logs, id);
      ReduceKeepsId(states[id], event);
      r := repository.Save(next, version);
      if r.Ok? {
        var appended := Append(id, version, event, stamp);
        StepKeepsAll(ChainsOf(before), ChainsOf(events.rows), states, initials, logs, id, event, next);
        logs := logs[id := logs[id] + [event]];
      }
    }

    /** `apply_activity_result`, `pause`, `resume` and `cancel`: read, reduce, save, append. */
    method Handle(id: string, request: Request, stamp: Stamp) returns (r: Result<FlowState>)
      requires Valid() && !KnownEvent(events.rows, stamp.eventId)
      modifies this, repository, events
      ensures Valid()
      ensures r == Answer(old(repository.states), id, request)
      ensures if Commits(old(repository.states), id, request)
              then r.Ok? && repository.states == old(repository.states)[id := r.value]
                   && logs == old(logs)[id := old(logs)[id] + [EventOf(request)]]
              else repository.states == old(repository.states) && events.rows == old(events.rows) && logs == old(logs)
    {
      if id !in repository.states {
        return Err(NotFound);
      }
      var current := repository.states[id];
      if current.terminal {
        return Ok(current);
      }
      if request.ApplyResult? && StageText(current.stage) != request.stage {
        return Err(Conflict);
      }
      AdmittedMovesOneVersion(current, request);
      r := Commit(id, EventOf(request), Reduce(current, EventOf(request)), stamp);
    }
  }

  /** A request moves its workflow if that exists, admits the request, and the payload does not contradict it. */
  predicate Commits(states: map<string, FlowState>, id: string, request: Request) {
    id in states && Admits(states[id], request) && !Contradicts(request)
  }

  /** Pausing, resuming and cancelling set their own flag and nothing else. */
  lemma OperatorAnswers(states: map<string, FlowState>, id: string, actor: string)
    requires id in states && !states[id].terminal
    ensures var s := states[id];
      && Answer(states, id, Pause(actor)) == Ok(s.(paused := true, version := s.version + 1))
      && Answer(states, id, Resume(actor)) == Ok(s.(paused := false, version := s.version + 1))
      && Answer(states, id, Cancel(actor))
         == Ok(s.(cancelled := true, terminal := true, terminalReason := Some("cancelled"), version := s.version + 1))
  {
  }

  function Answer(states: map<string, FlowState>, id: string, request: Request): Result<FlowState> {
    if id !in states then Err(NotFound)
    else if states[id].terminal then Ok(states[id])
    else if Commits(states, id, request) then Ok(Reduce(states[id], EventOf(request)))
    else Err(Conflict)
  }
}
