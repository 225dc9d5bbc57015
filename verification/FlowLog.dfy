/** What the log of a workflow says about its state, read off the texts of the events alone. */
module FlowLog {
  import opened Wrappers
  import opened Json
  import opened SingleQuestionV1

  // ---------- the logs of an engine ----------

  /** A workflow as `initial` makes it. */
  predicate IsFresh(s: FlowState) {
    s == Initial(s.workflowId, s.questionId, s.facts)
  }

  /** An event that an engine saves on this state: the workflow goes on, and a result names its stage. */
  predicate Accepts(s: FlowState, e: DomainEvent) {
    && !s.terminal && e.eventType != Started
    && (e.eventType == ActivityCompleted ==> "stage" in e.payload && e.payload["stage"] == Str(StageText(s.stage)))
  }

  /** A started workflow, and then events that were accepted one after the other. */
  predicate IsHistory(initial: FlowState, log: seq<DomainEvent>)
    decreases |log|
  {
    if |log| <= 1 then IsFresh(initial) && log == [StartEvent(initial)]
    else
      var before := log[..|log| - 1];
      IsHistory(initial, before) && Accepts(Fold(initial, before), log[|log| - 1])
  }

  /** What a save moves by one version was accepted. */
  lemma MovedIsAccepted(s: FlowState, e: DomainEvent)
    requires !s.terminal && e.eventType != Started && Reduce(s, e).version == s.version + 1
    ensures Accepts(s, e)
  {
  }

  lemma HistoryGrows(initial: FlowState, log: seq<DomainEvent>, e: DomainEvent)
    requires IsHistory(initial, log) && Accepts(Fold(initial, log), e)
    ensures IsHistory(initial, log + [e])
  {
    assert (log + [e])[..|log|] == log;
  }

  lemma FirstHistory(initial: FlowState)
    requires IsFresh(initial)
    ensures IsHistory(initial, [StartEvent(initial)])
  {
  }

  // ---------- the reading of a log ----------

  /** The reported results, in order. */
  function Results(log: seq<DomainEvent>): seq<DomainEvent>
    decreases |log|
  {
    if log == [] then []
    else
      var before, last := Results(log[..|log| - 1]), log[|log| - 1];
      if last.eventType == ActivityCompleted then before + [last] else before
  }

  predicate WantsRevision(e: DomainEvent) {
    "verdict" in e.payload && e.payload["verdict"] == Str("revision_required")
  }

  /** The stage of the i-th result: ingest, modeling, then rounds of coding, validation and review, each followed by a
      revision if that review wants one and by the final stage otherwise. */
  function PlanText(results: seq<DomainEvent>, i: nat): string
    requires i <= |results|
  {
    if i == 0 then "ingest"
    else if i == 1 then "modeling"
    else if i % 4 == 2 then "coding"
    else if i % 4 == 3 then "validation"
    else if i % 4 == 0 then "review"
    else if WantsRevision(results[i - 1]) then "revision"
    else "finalize"
  }

  /** The reviews, every fourth result from the fourth on, that want a revision. */
  function Revisions(results: seq<DomainEvent>): nat
    decreases |results|
  {
    if results == [] then 0
    else
      var i := |results| - 1;
      Revisions(results[..i]) + if i >= 4 && i % 4 == 0 && WantsRevision(results[i]) then 1 else 0
  }

  predicate Reports(e: DomainEvent, stage: string) {
    "stage" in e.payload && e.payload["stage"] == Str(stage)
  }

  predicate IsPlanned(results: seq<DomainEvent>, i: nat)
    requires i < |results|
  {
    && Reports(results[i], PlanText(results, i))
    && (i + 1 < |results| ==> PlanText(results, i) != "finalize")
  }

  predicate Published(results: seq<DomainEvent>) {
    results != [] && PlanText(results, |results| - 1) == "finalize"
  }

  /** The last of the pauses and resumptions. */
  function LastPause(log: seq<DomainEvent>): Option<EventType>
    decreases |log|
  {
    if log == [] then None
    else if log[|log| - 1].eventType == Paused || log[|log| - 1].eventType == Resumed then Some(log[|log| - 1].eventType)
    else LastPause(log[..|log| - 1])
  }

  predicate WasCancelled(log: seq<DomainEvent>) {
    exists e | e in log :: e.eventType == Cancelled
  }

  /** The results follow the plan, and the stage is where they lead. */
  predicate StageIs(results: seq<DomainEvent>, s: FlowState) {
    && (forall i: nat | i < |results| :: IsPlanned(results, i))
    && StageText(s.stage) == (if Published(results) then "finalize" else PlanText(results, |results|))
    && s.revision == Revisions(results)
  }

  predicate FlagsAre(log: seq<DomainEvent>, s: FlowState) {
    && s.cancelled == WasCancelled(log)
    && s.paused == (LastPause(log) == Some(Paused))
    && s.terminal == (WasCancelled(log) || Published(Results(log)))
    && s.terminalReason == (if WasCancelled(log) then Some("cancelled")
                            else if Published(Results(log)) then Some("final report published") else None)
  }

  predicate RestIs(initial: FlowState, log: seq<DomainEvent>, s: FlowState) {
    s.version == |log| && s.workflowId == initial.workflowId && s.questionId == initial.questionId && s.facts == initial.facts
  }

  // ---------- the proof ----------

  /** The stage that PlanText names. */
  function PlanStage(results: seq<DomainEvent>, i: nat): FlowStage
    requires i <= |results|
  {
    if i == 0 then Ingest
    else if i == 1 then ModelingFlow
    else if i % 4 == 2 then CodingFlow
    else if i % 4 == 3 then Validation
    else if i % 4 == 0 then Review
    else if WantsRevision(results[i - 1]) then SingleQuestionV1.Revision
    else Finalize
  }

  lemma TextOfPlan(results: seq<DomainEvent>, i: nat)
    requires i <= |results|
    ensures StageText(PlanStage(results, i)) == PlanText(results, i)
    ensures PlanText(results, i) == "finalize" <==> PlanStage(results, i) == Finalize
  {
  }

  lemma TextsDiffer(a: FlowStage, b: FlowStage)
    ensures StageText(a) == StageText(b) ==> a == b
  {
  }

  lemma ResultsAppend(log: seq<DomainEvent>, e: DomainEvent)
    ensures Results(log + [e]) == if e.eventType == ActivityCompleted then Results(log) + [e] else Results(log)
    ensures LastPause(log + [e]) == if e.eventType == Paused || e.eventType == Resumed then Some(e.eventType) else LastPause(log)
    ensures WasCancelled(log + [e]) <==> WasCancelled(log) || e.eventType == Cancelled
  {
    var longer := log + [e];
    assert longer[..|log|] == log && longer[|log|] == e;
    if WasCancelled(log) {
      var x :| x in log && x.eventType == Cancelled;
      assert x in longer;
    }
    assert e in longer;
  }

  lemma PlanIsLocal(results: seq<DomainEvent>, e: DomainEvent, i: nat)
    requires i <= |results|
    ensures PlanText(results + [e], i) == PlanText(results, i) && PlanStage(results + [e], i) == PlanStage(results, i)
  {
  }

  /** A result that names the planned stage moves the workflow to the next planned stage. */
  lemma ResultMoves(s: FlowState, results: seq<DomainEvent>, e: DomainEvent)
    requires e.eventType == ActivityCompleted && Accepts(s, e) && s.stage == PlanStage(results, |results|)
    requires s.revision == Revisions(results)
    ensures var next, more := Reduce(s, e), results + [e];
      && next.stage == (if s.stage == Finalize then Finalize else PlanStage(more, |more|))
      && next.revision == Revisions(more) && next.terminal == (s.stage == Finalize)
      && next.terminalReason == (if s.stage == Finalize then Some("final report published") else s.terminalReason)
      && next == s.(stage := next.stage, revision := next.revision, terminal := next.terminal,
                    terminalReason := next.terminalReason, version := s.version + 1)
  {
    var more := results + [e];
    assert more[..|results|] == results && more[|results|] == e;
  }

  lemma ResultKeepsStage(s: FlowState, results: seq<DomainEvent>, e: DomainEvent)
    requires e.eventType == ActivityCompleted && Accepts(s, e) && StageIs(results, s) && !Published(results)
    ensures StageIs(results + [e], Reduce(s, e)) && Reduce(s, e).terminal == Published(results + [e])
    ensures s.stage == PlanStage(results, |results|)
  {
    var n, more := |results|, results + [e];
    TextOfPlan(results, n);
    TextsDiffer(s.stage, PlanStage(results, n));
    ResultMoves(s, results, e);
    PlanIsLocal(results, e, n);
    TextOfPlan(more, n + 1);
    forall i: nat | i < |more| ensures IsPlanned(more, i) {
      PlanIsLocal(results, e, i);
      if i < n { assert IsPlanned(results, i); }
    }
  }

  /** One accepted event. */
  lemma EventKeepsReading(initial: FlowState, log: seq<DomainEvent>, s: FlowState, e: DomainEvent)
    requires Accepts(s, e) && StageIs(Results(log), s) && FlagsAre(log, s) && RestIs(initial, log, s)
    ensures var more, next := log + [e], Reduce(s, e);
      StageIs(Results(more), next) && FlagsAre(more, next) && RestIs(initial, more, next)
  {
    ResultsAppend(log, e);
    if e.eventType == ActivityCompleted {
      ResultKeepsStage(s, Results(log), e);
      ResultMoves(s, Results(log), e);
    }
  }

  lemma FirstReading(initial: FlowState)
    requires IsFresh(initial)
    ensures var log := [StartEvent(initial)];
      Fold(initial, log) == initial && StageIs(Results(log), initial) && FlagsAre(log, initial) && RestIs(initial, log, initial)
  {
    var e := StartEvent(initial);
    ResultsAppend([], e);
    FoldAppend(initial, [], e);
    assert [] + [e] == [e];
  }

  /** Main result: what the texts of a history say about the state it folds to. Its results report ingest, modeling, and
      rounds of coding, validation and review, each followed by a revision exactly if that review wanted one, and by the
      final stage, the last, otherwise; the revision counts the reviews that wanted one; each flag is set by its own
      events alone. */
  lemma {:induction false} HistoryReads(initial: FlowState, log: seq<DomainEvent>)
    requires IsHistory(initial, log)
    ensures var s := Fold(initial, log); StageIs(Results(log), s) && FlagsAre(log, s) && RestIs(initial, log, s)
    decreases |log|
  {
    if |log| == 1 {
      FirstReading(initial);
      assert log == [StartEvent(initial)];
    } else {
      var k := |log| - 1;
      HistoryReads(initial, log[..k]);
      assert log == log[..k] + [log[k]];
      FoldAppend(initial, log[..k], log[k]);
      EventKeepsReading(initial, log[..k], Fold(initial, log[..k]), log[k]);
    }
  }

  // ---------- what that means ----------

  /** The place of the last review before the final stage. */
  function LastReview(results: seq<DomainEvent>): int {
    |results| - if Published(results) then 2 else 1
  }

  lemma PlannedReview(results: seq<DomainEvent>, n: nat)
    requires n <= |results| && PlanText(results, n) == "finalize" && forall i: nat | i < |results| :: IsPlanned(results, i)
    ensures n >= 5 && Reports(results[n - 1], "review") && !WantsRevision(results[n - 1])
  {
    TextOfPlan(results, n);
    assert IsPlanned(results, n - 1);
  }

  /** The final stage is entered only from a review that did not want a revision. */
  lemma FinalAfterReview(initial: FlowState, log: seq<DomainEvent>)
    requires IsHistory(initial, log)
    requires Fold(initial, log).stage == Finalize || Fold(initial, log).terminalReason == Some("final report published")
    ensures var results := Results(log);
      var last := LastReview(results);
      0 <= last < |results| && Reports(results[last], "review") && !WantsRevision(results[last])
  {
    HistoryReads(initial, log);
    TextsDiffer(Fold(initial, log).stage, Finalize);
    PlannedReview(Results(log), LastReview(Results(log)) + 1);
  }

  const STRAIGHT := ["ingest", "modeling", "coding", "validation", "review", "finalize"]

  lemma StraightPlan(results: seq<DomainEvent>, i: nat)
    requires i < |results| && (forall e | e in results :: !WantsRevision(e))
    requires forall j: nat | j < |results| :: IsPlanned(results, j)
    ensures i < 6 && PlanText(results, i) == STRAIGHT[i]
  {
    if i >= 5 {
      assert results[4] in results;
      assert IsPlanned(results, 5) && PlanText(results, 5) == "finalize";
    }
  }

  /** A workflow whose reviews want no revision reports the six stages in order, and is published with the sixth. */
  lemma StraightRun(initial: FlowState, log: seq<DomainEvent>)
    requires IsHistory(initial, log) && forall e | e in Results(log) :: !WantsRevision(e)
    ensures var results := Results(log);
      && |results| <= 6 && (forall i | 0 <= i < |results| :: Reports(results[i], STRAIGHT[i]))
      && Fold(initial, log).revision == 0
      && (|results| == 6 && !WasCancelled(log) <==> Fold(initial, log).terminalReason == Some("final report published"))
  {
    HistoryReads(initial, log);
    var results := Results(log);
    forall i: nat | i < |results| ensures i < 6 && Reports(results[i], STRAIGHT[i]) {
      StraightPlan(results, i);
      assert IsPlanned(results, i);
    }
    NoRevisions(results);
    if results != [] {
      StraightPlan(results, |results| - 1);
      StraightTexts(|results| - 1);
    }
  }

  lemma StraightTexts(i: nat)
    requires i < 6
    ensures STRAIGHT[i] == "finalize" <==> i == 5
  {
  }

  lemma {:induction false} NoRevisions(results: seq<DomainEvent>)
    requires forall e | e in results :: !WantsRevision(e)
    ensures Revisions(results) == 0
    decreases |results|
  {
    if results != [] {
      var i := |results| - 1;
      assert results[i] in results;
      NoRevisions(results[..i]);
    }
  }

  /** While a workflow goes on, exactly a result of the planned stage is admitted. */
  lemma PlannedIsAdmitted(initial: FlowState, log: seq<DomainEvent>, stage: string, payload: map<string, Json>, actor: string)
    requires IsHistory(initial, log) && !Fold(initial, log).terminal
    ensures Admits(Fold(initial, log), ApplyResult(stage, payload, actor)) <==> stage == PlanText(Results(log), |Results(log)|)
  {
    HistoryReads(initial, log);
  }
}
