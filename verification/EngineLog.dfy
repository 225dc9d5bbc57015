/** Several engines of src/m2harness/application/workflow_engine.py on one workflow. Every operation reads the
    state, saves the reduced state by compare-and-swap on the version, and appends its event in a second, separate
    write; other engines and crashes come between any two of these. */
module EngineLog {
  import opened Wrappers
  import opened SingleQuestionV1
  import opened FlowLog

  /** Where an engine's operation stands. */
  datatype Op =
    | OpIdle
    | OpRead(state: FlowState, event: DomainEvent)
    | OpSaved(expected: nat, event: DomainEvent)

  /** The stored state, the event log, the engines, and two history variables: every event whose save was
      committed, and every state that was ever stored, in order. */
  datatype System = System(
    stored: Option<FlowState>, log: seq<DomainEvent>, ops: map<string, Op>,
    committed: seq<DomainEvent>, states: seq<FlowState>)

  const NOTHING := System(None, [], map[], [], [])

  function OpOf(sys: System, e: string): Op {
    if e in sys.ops then sys.ops[e] else OpIdle
  }

  function SetOp(sys: System, e: string, op: Op): System {
    sys.(ops := sys.ops[e := op])
  }

  datatype Action =
    | ActStart(e: string)
    | ActRead(e: string, r: Request)
    | ActSave(e: string)
    | ActAppend(e: string)
    | ActCrash(e: string)

  /** `start`: `create` refuses a workflow that exists. */
  function DoStart(initial: FlowState, sys: System, e: string): System {
    if sys.stored.Some? then sys
    else
      var event := StartEvent(initial);
      SetOp(sys, e, OpSaved(0, event)).(stored := Some(initial), committed := sys.committed + [event], states := sys.states + [initial])
  }

  function DoRead(sys: System, e: string, r: Request): System {
    if sys.stored.Some? && Admits(sys.stored.value, r) then SetOp(sys, e, OpRead(sys.stored.value, EventOf(r))) else sys
  }

  /** `save`: the version must advance by exactly one, from the version that was read. */
  function DoSave(sys: System, e: string, op: Op): System
    requires op.OpRead?
  {
    var next := Reduce(op.state, op.event);
    if next.version != op.state.version + 1 || sys.stored.None? || sys.stored.value.version != op.state.version
    then SetOp(sys, e, OpIdle)
    else
      SetOp(sys, e, OpSaved(op.state.version, op.event)).(
        stored := Some(next), committed := sys.committed + [op.event], states := sys.states + [next])
  }

  /** `append`: the log must be exactly as long as the expected version; otherwise a conflict is raised. */
  function DoAppend(sys: System, e: string, op: Op): System
    requires op.OpSaved?
  {
    if |sys.log| == op.expected then SetOp(sys, e, OpIdle).(log := sys.log + [op.event]) else SetOp(sys, e, OpIdle)
  }

  function Next(initial: FlowState, sys: System, a: Action): System {
    match a
    case ActStart(e) => if OpOf(sys, e).OpIdle? then DoStart(initial, sys, e) else sys
    case ActRead(e, r) => if OpOf(sys, e).OpIdle? then DoRead(sys, e, r) else sys
    case ActSave(e) => if OpOf(sys, e).OpRead? then DoSave(sys, e, OpOf(sys, e)) else sys
    case ActAppend(e) => if OpOf(sys, e).OpSaved? then DoAppend(sys, e, OpOf(sys, e)) else sys
    case ActCrash(e) => SetOp(sys, e, OpIdle)
  }

  function RunFrom(initial: FlowState, sys: System, actions: seq<Action>): System
    decreases |actions|
  {
    if actions == [] then sys
    else Next(initial, RunFrom(initial, sys, actions[..|actions| - 1]), actions[|actions| - 1])
  }

  // ---------- the invariant ----------

  /** The stored states are the successive reductions of the committed events, each accepted where it was saved. */
  ghost predicate ChainOf(initial: FlowState, stored: Option<FlowState>, committed: seq<DomainEvent>, states: seq<FlowState>) {
    && |states| == |committed|
    && (stored.None? <==> states == [])
    && (states != [] ==> states[0] == initial && committed[0] == StartEvent(initial) && stored == Some(states[|states| - 1]))
    && (forall k | 0 < k < |states| :: states[k] == Reduce(states[k - 1], committed[k]) && Accepts(states[k - 1], committed[k]))
    && (forall k | 0 <= k < |states| :: states[k].version == k + 1)
  }

  ghost predicate Chain(initial: FlowState, sys: System) {
    ChainOf(initial, sys.stored, sys.committed, sys.states)
  }

  ghost predicate OpSound(sys: System, op: Op) {
    match op
    case OpIdle => true
    case OpRead(s, event) =>
      1 <= s.version <= |sys.states| && s == sys.states[s.version - 1] && !s.terminal && event.eventType != Started
    case OpSaved(v, event) => |sys.log| <= v < |sys.committed| && sys.committed[v] == event
  }

  ghost predicate Inv(initial: FlowState, sys: System) {
    && Chain(initial, sys)
    && sys.log <= sys.committed
    && OpsSound(sys)
  }

  ghost predicate OpsSound(sys: System) {
    && (forall e | e in sys.ops :: OpSound(sys, sys.ops[e]))
    && (forall e, f | e in sys.ops && f in sys.ops && e != f && sys.ops[e].OpSaved? && sys.ops[f].OpSaved? ::
          sys.ops[e].expected != sys.ops[f].expected)
  }

  lemma SaveKeepsInv(initial: FlowState, sys: System, e: string, op: Op)
    requires Inv(initial, sys) && op.OpRead? && OpSound(sys, op)
    ensures Inv(initial, DoSave(sys, e, op))
  {
    var next := DoSave(sys, e, op);
    SaveKeepsChain(initial, sys, e, op);
    SaveKeepsOps(initial, sys, e, op);
  }

  lemma SaveKeepsChain(initial: FlowState, sys: System, e: string, op: Op)
    requires Chain(initial, sys) && op.OpRead? && OpSound(sys, op)
    ensures Chain(initial, DoSave(sys, e, op))
  {
    var next := Reduce(op.state, op.event);
    if sys.stored.Some? && sys.stored.value.version == op.state.version && next.version == op.state.version + 1 {
      MovedIsAccepted(op.state, op.event);
      ChainGrows(initial, sys.stored, sys.committed, sys.states, op.event, next);
    }
  }

  lemma ChainGrows(initial: FlowState, stored: Option<FlowState>, committed: seq<DomainEvent>, states: seq<FlowState>,
                   event: DomainEvent, next: FlowState)
    requires ChainOf(initial, stored, committed, states) && stored.Some? && Accepts(stored.value, event)
    requires next == Reduce(stored.value, event) && next.version == stored.value.version + 1
    ensures ChainOf(initial, Some(next), committed + [event], states + [next])
  {
    var states', committed' := states + [next], committed + [event];
    forall k | 0 < k < |states'|
      ensures states'[k] == Reduce(states'[k - 1], committed'[k]) && Accepts(states'[k - 1], committed'[k])
    {
      if k < |states| {
        assert states'[k] == states[k] && states'[k - 1] == states[k - 1] && committed'[k] == committed[k];
      }
    }
  }

  lemma OpStaysSound(sys: System, next: System, op: Op)
    requires OpSound(sys, op) && sys.states <= next.states && sys.committed <= next.committed && next.log == sys.log
    ensures OpSound(next, op)
  {
  }

  lemma SaveKeepsOps(initial: FlowState, sys: System, e: string, op: Op)
    requires Chain(initial, sys) && sys.log <= sys.committed && OpsSound(sys) && op.OpRead? && OpSound(sys, op)
    ensures OpsSound(DoSave(sys, e, op))
  {
    var next := DoSave(sys, e, op);
    forall f | f in next.ops ensures OpSound(next, next.ops[f]) {
      if f != e {
        assert OpSound(sys, sys.ops[f]);
        OpStaysSound(sys, next, sys.ops[f]);
      }
    }
  }

  lemma AppendKeepsInv(initial: FlowState, sys: System, e: string)
    requires Inv(initial, sys) && OpOf(sys, e).OpSaved?
    ensures Inv(initial, DoAppend(sys, e, OpOf(sys, e)))
  {
    var next := DoAppend(sys, e, OpOf(sys, e));
    if next.log != sys.log {
      assert next.log == sys.committed[..|next.log|];
    }
    forall f | f in next.ops ensures OpSound(next, next.ops[f]) {
      if f != e { assert OpSound(sys, sys.ops[f]); }
    }
  }

  lemma ReadKeepsInv(initial: FlowState, sys: System, e: string, r: Request)
    requires Inv(initial, sys)
    ensures Inv(initial, DoRead(sys, e, r))
  {
    var next := DoRead(sys, e, r);
    forall f | f in next.ops ensures OpSound(next, next.ops[f]) {
      if f in sys.ops { assert OpSound(sys, sys.ops[f]); }
    }
  }

  lemma StartKeepsInv(initial: FlowState, sys: System, e: string)
    requires initial.version == 1 && Inv(initial, sys)
    ensures Inv(initial, DoStart(initial, sys, e))
  {
    var next := DoStart(initial, sys, e);
    if sys.stored.None? {
      forall f | f in next.ops ensures OpSound(next, next.ops[f]) {
        if f in sys.ops { assert OpSound(sys, sys.ops[f]); }
      }
      forall f | f in sys.ops ensures !sys.ops[f].OpSaved? {
        assert OpSound(sys, sys.ops[f]);
      }
    }
  }

  lemma IdleKeepsInv(initial: FlowState, sys: System, e: string)
    requires Inv(initial, sys)
    ensures Inv(initial, SetOp(sys, e, OpIdle))
  {
    var next := SetOp(sys, e, OpIdle);
    forall f | f in next.ops ensures OpSound(next, next.ops[f]) {
      if f != e { assert OpSound(sys, sys.ops[f]); }
    }
  }

  lemma NextKeepsInv(initial: FlowState, sys: System, a: Action)
    requires initial.version == 1 && Inv(initial, sys)
    ensures Inv(initial, Next(initial, sys, a))
  {
    match a {
      case ActStart(e) => if OpOf(sys, e).OpIdle? { StartKeepsInv(initial, sys, e); }
      case ActRead(e, r) => if OpOf(sys, e).OpIdle? { ReadKeepsInv(initial, sys, e, r); }
      case ActSave(e) => if OpOf(sys, e).OpRead? { SaveKeepsInv(initial, sys, e, OpOf(sys, e)); }
      case ActAppend(e) => if OpOf(sys, e).OpSaved? { AppendKeepsInv(initial, sys, e); }
      case ActCrash(e) => IdleKeepsInv(initial, sys, e);
    }
  }

  lemma {:induction false} EveryRunKeepsInv(initial: FlowState, actions: seq<Action>)
    requires initial.version == 1
    ensures Inv(initial, RunFrom(initial, NOTHING, actions))
    decreases |actions|
  {
    if actions != [] {
      EveryRunKeepsInv(initial, actions[..|actions| - 1]);
      NextKeepsInv(initial, RunFrom(initial, NOTHING, actions[..|actions| - 1]), actions[|actions| - 1]);
    }
  }

  /** Folding the first `k` committed events gives the state that was stored at version `k`. */
  lemma {:induction false} FoldGivesState(initial: FlowState, sys: System, k: nat)
    requires Chain(initial, sys) && k <= |sys.committed|
    ensures Fold(initial, sys.committed[..k]) == if k == 0 then initial else sys.states[k - 1]
  {
    if k > 0 {
      FoldGivesState(initial, sys, k - 1);
      assert sys.committed[..k] == sys.committed[..k - 1] + [sys.committed[k - 1]];
      FoldAppend(initial, sys.committed[..k - 1], sys.committed[k - 1]);
    }
  }

  // ---------- main results ----------

  /** Under any interleaving of engines and any crash the log is a prefix of the committed transitions, and the
      fold over it is the state the workflow had at that version. */
  lemma LogIsPrefixOfHistory(initial: FlowState, actions: seq<Action>)
    requires initial.version == 1
    ensures var sys := RunFrom(initial, NOTHING, actions);
      && sys.log <= sys.committed && |sys.states| == |sys.committed|
      && (sys.log != [] ==> Fold(initial, sys.log) == sys.states[|sys.log| - 1] && Fold(initial, sys.log).version == |sys.log|)
      && (sys.stored.Some? ==> sys.stored.value.version == |sys.committed| && Fold(initial, sys.committed) == sys.stored.value)
  {
    EveryRunKeepsInv(initial, actions);
    PrefixFolds(initial, RunFrom(initial, NOTHING, actions));
  }

  lemma PrefixFolds(initial: FlowState, sys: System)
    requires Inv(initial, sys)
    ensures |sys.states| == |sys.committed|
    ensures sys.log != [] ==> Fold(initial, sys.log) == sys.states[|sys.log| - 1] && Fold(initial, sys.log).version == |sys.log|
    ensures sys.stored.Some? ==> sys.stored.value.version == |sys.committed| && Fold(initial, sys.committed) == sys.stored.value
  {
    if sys.log != [] {
      PartFolds(initial, sys, sys.log);
    }
    if sys.committed != [] {
      PartFolds(initial, sys, sys.committed);
    }
  }

  lemma PartFolds(initial: FlowState, sys: System, part: seq<DomainEvent>)
    requires Chain(initial, sys) && part <= sys.committed && part != []
    ensures Fold(initial, part) == sys.states[|part| - 1] && Fold(initial, part).version == |part|
  {
    var n := |part|;
    assert part == sys.committed[..n];
    FoldGivesState(initial, sys, n);
  }

  lemma {:induction false} ChainIsHistory(initial: FlowState, sys: System, n: nat)
    requires IsFresh(initial) && Chain(initial, sys) && 1 <= n <= |sys.committed|
    ensures IsHistory(initial, sys.committed[..n])
  {
    var log := sys.committed[..n];
    if n == 1 {
      assert log == [sys.committed[0]];
    } else {
      var k := n - 1;
      ChainIsHistory(initial, sys, k);
      FoldGivesState(initial, sys, k);
      assert log == sys.committed[..k] + [sys.committed[k]];
      HistoryGrows(initial, sys.committed[..k], sys.committed[k]);
    }
  }

  /** Whatever several engines and crashes do, the log and the stored state say of the workflow what its results,
      pauses and cancellations say. */
  lemma EnginesFollowThePlan(initial: FlowState, actions: seq<Action>)
    requires IsFresh(initial)
    ensures var sys := RunFrom(initial, NOTHING, actions);
      && (sys.log != [] ==> IsHistory(initial, sys.log))
      && (sys.stored.Some? ==>
            && IsHistory(initial, sys.committed)
            && StageIs(Results(sys.committed), sys.stored.value) && FlagsAre(sys.committed, sys.stored.value)
            && RestIs(initial, sys.committed, sys.stored.value))
  {
    EveryRunKeepsInv(initial, actions);
    var sys := RunFrom(initial, NOTHING, actions);
    PrefixFolds(initial, sys);
    if sys.log != [] {
      ChainIsHistory(initial, sys, |sys.log|);
      assert sys.log == sys.committed[..|sys.log|];
    }
    if sys.stored.Some? {
      ChainIsHistory(initial, sys, |sys.committed|);
      assert sys.committed == sys.committed[..|sys.committed|];
      HistoryReads(initial, sys.committed);
    }
  }

  /** The log equals the history exactly when it is as long as the stored version. */
  predicate Complete(sys: System) {
    sys.stored.Some? && |sys.log| == sys.stored.value.version
  }

  /** Replaying the log gives the stored state if and only if no append is missing. */
  lemma FoldIsStoredIffComplete(initial: FlowState, actions: seq<Action>)
    requires initial.version == 1 && RunFrom(initial, NOTHING, actions).stored.Some?
    requires RunFrom(initial, NOTHING, actions).log != []
    ensures var sys := RunFrom(initial, NOTHING, actions);
      Fold(initial, sys.log) == sys.stored.value <==> Complete(sys)
  {
    LogIsPrefixOfHistory(initial, actions);
    EveryRunKeepsInv(initial, actions);
    var sys := RunFrom(initial, NOTHING, actions);
    if Complete(sys) {
      assert sys.log == sys.committed;
    }
  }

  /** The event of version `v` was committed, is not in the log, and no engine is about to append it. */
  ghost predicate Lost(sys: System, v: nat) {
    |sys.log| <= v < |sys.committed| && forall e | e in sys.ops :: sys.ops[e].OpSaved? ==> sys.ops[e].expected != v
  }

  lemma NextKeepsLost(initial: FlowState, sys: System, a: Action, v: nat)
    requires Inv(initial, sys) && Lost(sys, v)
    ensures Lost(Next(initial, sys, a), v)
  {
  }

  /** A lost event is never appended: the log stops before it for good, whatever happens later. */
  lemma {:induction false} LostCapsTheLog(initial: FlowState, actions: seq<Action>, more: seq<Action>, v: nat)
    requires initial.version == 1 && Lost(RunFrom(initial, NOTHING, actions), v)
    ensures Lost(RunFrom(initial, RunFrom(initial, NOTHING, actions), more), v)
    ensures Inv(initial, RunFrom(initial, RunFrom(initial, NOTHING, actions), more))
    decreases |more|
  {
    EveryRunKeepsInv(initial, actions);
    if more != [] {
      var sys := RunFrom(initial, RunFrom(initial, NOTHING, actions), more[..|more| - 1]);
      LostCapsTheLog(initial, actions, more[..|more| - 1], v);
      NextKeepsInv(initial, sys, more[|more| - 1]);
      NextKeepsLost(initial, sys, more[|more| - 1], v);
    }
  }

  /** An engine's append succeeds if and only if every earlier event is in the log already. If it fails, its event
      is lost. */
  lemma AppendSucceedsIffInOrder(initial: FlowState, actions: seq<Action>, e: string)
    requires initial.version == 1 && OpOf(RunFrom(initial, NOTHING, actions), e).OpSaved?
    ensures var sys := RunFrom(initial, NOTHING, actions);
      var op, next := OpOf(sys, e), DoAppend(sys, e, OpOf(sys, e));
      && op.expected < |sys.committed|
      && (next.log == sys.committed[..op.expected + 1] <==> |sys.log| == op.expected)
      && (|sys.log| != op.expected ==> next.log == sys.log && Lost(next, op.expected))
  {
    EveryRunKeepsInv(initial, actions);
    AppendOutcome(RunFrom(initial, NOTHING, actions), e);
  }

  lemma AppendOutcome(sys: System, e: string)
    requires OpsSound(sys) && sys.log <= sys.committed && OpOf(sys, e).OpSaved?
    ensures var op, next := OpOf(sys, e), DoAppend(sys, e, OpOf(sys, e));
      && op.expected < |sys.committed|
      && (next.log == sys.committed[..op.expected + 1] <==> |sys.log| == op.expected)
      && (|sys.log| != op.expected ==> next.log == sys.log && Lost(next, op.expected))
  {
    assert OpSound(sys, sys.ops[e]);
  }

  /** Once nothing is in flight, a log that is behind stays as it is for good. */
  lemma BehindAtRestIsForever(initial: FlowState, actions: seq<Action>, more: seq<Action>)
    requires initial.version == 1
    requires var sys := RunFrom(initial, NOTHING, actions);
      sys.stored.Some? && !Complete(sys) && forall e | e in sys.ops :: sys.ops[e].OpIdle?
    ensures RunFrom(initial, RunFrom(initial, NOTHING, actions), more).log == RunFrom(initial, NOTHING, actions).log
  {
    EveryRunKeepsInv(initial, actions);
    var sys := RunFrom(initial, NOTHING, actions);
    LostCapsTheLog(initial, actions, more, |sys.log|);
    LogOnlyGrows(initial, sys, more);
  }

  lemma {:induction false} LogOnlyGrows(initial: FlowState, sys: System, more: seq<Action>)
    ensures sys.log <= RunFrom(initial, sys, more).log
    decreases |more|
  {
    if more != [] {
      LogOnlyGrows(initial, sys, more[..|more| - 1]);
    }
  }

  // ---------- without overlap or crash ----------

  /** One whole operation of one engine. */
  function Perform(initial: FlowState, sys: System, e: string, r: Request): System {
    RunFrom(initial, sys, [ActRead(e, r), ActSave(e), ActAppend(e)])
  }

  /** Nothing in flight and nothing missing. */
  ghost predicate AtRest(initial: FlowState, sys: System) {
    Inv(initial, sys) && Complete(sys) && forall e | e in sys.ops :: sys.ops[e].OpIdle?
  }

  lemma ThreeSteps(initial: FlowState, sys: System, a: Action, b: Action, c: Action)
    ensures RunFrom(initial, sys, [a, b, c]) == Next(initial, Next(initial, Next(initial, sys, a), b), c)
  {
    assert [a, b, c][..2] == [a, b] && [a, b][..1] == [a] && [a][..0] == [];
    assert RunFrom(initial, sys, [a]) == Next(initial, sys, a);
    assert RunFrom(initial, sys, [a, b]) == Next(initial, Next(initial, sys, a), b);
  }

  /** The three writes of an admitted request, on a log that is complete. */
  lemma AdmittedOperation(initial: FlowState, sys: System, e: string, r: Request)
    requires AtRest(initial, sys) && Admits(sys.stored.value, r)
    ensures var next := Next(initial, Next(initial, Next(initial, sys, ActRead(e, r)), ActSave(e)), ActAppend(e));
      && Complete(next) && (forall f | f in next.ops :: next.ops[f].OpIdle?)
      && next.log == sys.log + (if !Contradicts(r) then [EventOf(r)] else [])
  {
    AdmittedMovesOneVersion(sys.stored.value, r);
    var s1 := DoRead(sys, e, r);
    var s2 := DoSave(s1, e, OpRead(sys.stored.value, EventOf(r)));
    assert Next(initial, sys, ActRead(e, r)) == s1 && Next(initial, s1, ActSave(e)) == s2;
  }

  /** With whole operations only, by any engines in any order, the log stays complete, so that replaying it gives
      the stored state. An admitted request is committed and logged unless its payload contradicts its stage. */
  lemma WholeOperationsKeepLogComplete(initial: FlowState, sys: System, e: string, r: Request)
    requires initial.version == 1 && AtRest(initial, sys)
    ensures var next := Perform(initial, sys, e, r);
      && AtRest(initial, next)
      && Fold(initial, next.log) == next.stored.value
      && next.log == sys.log + (if Admits(sys.stored.value, r) && !Contradicts(r) then [EventOf(r)] else [])
  {
    ThreeSteps(initial, sys, ActRead(e, r), ActSave(e), ActAppend(e));
    var next := Perform(initial, sys, e, r);
    assert Inv(initial, next) by {
      NextKeepsInv(initial, sys, ActRead(e, r));
      NextKeepsInv(initial, Next(initial, sys, ActRead(e, r)), ActSave(e));
      NextKeepsInv(initial, Next(initial, Next(initial, sys, ActRead(e, r)), ActSave(e)), ActAppend(e));
    }
    if Admits(sys.stored.value, r) {
      AdmittedOperation(initial, sys, e, r);
    } else {
      assert Next(initial, sys, ActRead(e, r)) == sys && next == sys;
    }
    PrefixFolds(initial, next);
    assert next.log == next.committed;
  }

  lemma StartComesToRest(initial: FlowState, e: string)
    requires initial.version == 1
    ensures AtRest(initial, RunFrom(initial, NOTHING, [ActStart(e), ActAppend(e)]))
  {
    var actions := [ActStart(e), ActAppend(e)];
    assert actions[..1] == [ActStart(e)] && [ActStart(e)][..0] == [];
    assert RunFrom(initial, NOTHING, [ActStart(e)]) == Next(initial, NOTHING, ActStart(e));
    EveryRunKeepsInv(initial, actions);
  }

  /** Overlap alone, without any crash, loses an event: two engines save in one order and append in the other. */
  lemma OverlapLosesAnEvent(initial: FlowState, sys: System, a: string, b: string)
    requires initial.version == 1 && AtRest(initial, sys) && !sys.stored.value.terminal && a != b
    ensures var actions := [ActRead(a, Pause("operator")), ActSave(a), ActRead(b, Resume("operator")), ActSave(b), ActAppend(b), ActAppend(a)];
      var next := RunFrom(initial, sys, actions);
      && |next.log| == |sys.log| + 1 && next.stored.Some? && next.stored.value.version == sys.stored.value.version + 2
      && Lost(next, |next.log|) && forall e | e in next.ops :: next.ops[e].OpIdle?
  {
    var front := [ActRead(a, Pause("operator")), ActSave(a), ActRead(b, Resume("operator"))];
    var back := [ActSave(b), ActAppend(b), ActAppend(a)];
    var actions := [ActRead(a, Pause("operator")), ActSave(a), ActRead(b, Resume("operator")), ActSave(b), ActAppend(b), ActAppend(a)];
    assert actions == front + back;
    RunConcat(initial, sys, front, back);
    ThreeSteps(initial, sys, front[0], front[1], front[2]);
    SaveThenRead(initial, sys, a, b);
    ThreeSteps(initial, RunFrom(initial, sys, front), back[0], back[1], back[2]);
    AppendInWrongOrder(initial, RunFrom(initial, sys, front), a, b, |sys.log|);
  }

  /** `a` saved version `v` and did not append yet; `b` has read the state `a` left. */
  ghost predicate Overlapped(sys: System, a: string, b: string, v: nat) {
    && |sys.log| == v && |sys.committed| == v + 1
    && sys.stored.Some? && sys.stored.value.version == v + 1
    && (exists event :: OpOf(sys, a) == OpSaved(v, event))
    && OpOf(sys, b) == OpRead(sys.stored.value, EventOf(Resume("operator")))
    && (forall e | e in sys.ops && e != a && e != b :: sys.ops[e].OpIdle?)
  }

  lemma SaveThenRead(initial: FlowState, sys: System, a: string, b: string)
    requires AtRest(initial, sys) && !sys.stored.value.terminal && a != b
    ensures var next := Next(initial, Next(initial, Next(initial, sys, ActRead(a, Pause("operator"))), ActSave(a)), ActRead(b, Resume("operator")));
      Overlapped(next, a, b, |sys.log|) && next.stored.value.version == sys.stored.value.version + 1
  {
    var event := EventOf(Pause("operator"));
    var s1 := DoRead(sys, a, Pause("operator"));
    var s2 := DoSave(s1, a, OpRead(sys.stored.value, event));
    assert Next(initial, sys, ActRead(a, Pause("operator"))) == s1 && Next(initial, s1, ActSave(a)) == s2;
    var s3 := DoRead(s2, b, Resume("operator"));
    assert OpOf(s3, a) == OpSaved(|sys.log|, event);
  }

  lemma AppendInWrongOrder(initial: FlowState, sys: System, a: string, b: string, v: nat)
    requires Overlapped(sys, a, b, v) && a != b
    ensures var next := Next(initial, Next(initial, Next(initial, sys, ActSave(b)), ActAppend(b)), ActAppend(a));
      && |next.log| == v + 1 && next.stored.Some? && next.stored.value.version == v + 2
      && Lost(next, v + 1) && forall e | e in next.ops :: next.ops[e].OpIdle?
  {
    var s1 := DoSave(sys, b, OpOf(sys, b));
    var s2 := DoAppend(s1, b, OpOf(s1, b));
    assert Next(initial, sys, ActSave(b)) == s1 && Next(initial, s1, ActAppend(b)) == s2;
    assert s2.log == sys.log;
  }

  lemma {:induction false} RunConcat(initial: FlowState, sys: System, a: seq<Action>, b: seq<Action>)
    ensures RunFrom(initial, sys, a + b) == RunFrom(initial, RunFrom(initial, sys, a), b)
    decreases |b|
  {
    if b == [] {
      assert a + b == a;
    } else {
      assert (a + b)[..|a + b| - 1] == a + b[..|b| - 1];
      RunConcat(initial, sys, a, b[..|b| - 1]);
    }
  }
}
