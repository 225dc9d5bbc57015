/** `run_until_terminal` of src/m2harness/workflow.py: `run_step` until one says that the question has ended. */
module WorkflowLoop {
  import opened Wrappers
  import opened Contracts
  import opened Store
  import opened Workflow
  import opened WorkflowSafety
  import opened WorkflowBounds
  import WorkflowRaces

  /** How the loop ends: with the result of step `last`, with the exception of step `last`, or with the error that
      the steps ran out. */
  datatype LoopEnd = Finished(last: nat) | StepRaised(last: nat) | OutOfSteps

  /** The first `n` steps all returned with the question still open. */
  ghost predicate AllOpen(steps: nat -> StepEnd, n: nat) {
    forall i | 0 <= i < n :: steps(i) == Returned(false)
  }

  /** The loop, for steps that end as `steps` says. */
  method RunUntilTerminal(steps: nat -> StepEnd, maxSteps: nat) returns (r: LoopEnd)
    ensures r.OutOfSteps? <==> AllOpen(steps, maxSteps)
    ensures !r.OutOfSteps? ==> r.last < maxSteps && AllOpen(steps, r.last)
    ensures !r.OutOfSteps? ==> steps(r.last) == if r.Finished? then Returned(true) else Raised
  {
    for i := 0 to maxSteps
      invariant AllOpen(steps, i)
    {
      var end := steps(i);
      if end.Raised? {
        return StepRaised(i);
      }
      if end.terminal {
        return Finished(i);
      }
    }
    return OutOfSteps;
  }

  // ---------- a step that leaves the question open has moved it ----------

  /** How many transitions the question has made. */
  function Moves(t: Tables, q: Uuid): int {
    if q in t.questions then t.questions[q].version - 1 else 0
  }

  lemma TransitMoves(sys: System, p: Proc, now: string, expected: set<QuestionState>, target: QuestionState,
                     revision: Option<int>, reason: Option<string>)
    ensures var next := Transit(sys, p, now, expected, target, revision, reason, Moved);
      PcOf(next, p).Moved? ==> Moves(next.tables, p.question) == Moves(sys.tables, p.question) + 1
  {
  }

  lemma DecideMoves(cfg: Config, sys: System, p: Proc, pc: Pc, now: string, m: Option<Uuid>, c: Option<Uuid>)
    requires pc.Deciding? && pc == PcOf(sys, p)
    ensures var next := DoDecide(cfg, sys, p, pc, now, m, c);
      PcOf(next, p).Moved? ==> Moves(next.tables, p.question) == Moves(sys.tables, p.question) + 1
  {
    TransitMoves(sys, p, now, {Modeling}, ReadyForCoding, None, None);
    TransitMoves(sys, p, now, {Coding}, ReadyForReview, None, None);
    TransitMoves(sys, p, now, {Finalizing}, Completed, None, None);
    TransitMoves(sys, p, now, {Reviewing}, Failed, None, Some(cfg.exhausted));
    TransitMoves(sys, p, now, {Reviewing}, RevisionRequired, Some(pc.q.revision + 1), None);
  }

  lemma ConcludeMoves(cfg: Config, sys: System, p: Proc, now: string, reason: string)
    ensures var next := Next(cfg, sys, ActConclude(p, now, reason));
      PcOf(next, p).Moved? && !PcOf(sys, p).Moved? ==> Moves(next.tables, p.question) == Moves(sys.tables, p.question) + 1
  {
    TransitMoves(sys, p, now, {Reviewing}, Approved, None, None);
    TransitMoves(sys, p, now, {Reviewing}, Failed, None, Some(reason));
  }

  lemma OthersDoNotMove(cfg: Config, sys: System, a: Action, p: Proc)
    requires !a.ActDecide? && !a.ActConclude?
    ensures PcOf(Next(cfg, sys, a), p).Moved? ==> PcOf(sys, p).Moved?
  {
  }

  /** A worker gets to the look back only by a committed transition of its own. */
  lemma MovedByTransition(cfg: Config, sys: System, a: Action, p: Proc)
    requires PcOf(Next(cfg, sys, a), p).Moved? && !PcOf(sys, p).Moved?
    ensures Moves(Next(cfg, sys, a).tables, p.question) == Moves(sys.tables, p.question) + 1
  {
    if WorkflowRaces.Actor(a) != Some(p) {
      WorkflowRaces.OthersUntouched(cfg, sys, a, p);
    } else if a.ActDecide? {
      if PcOf(sys, p).Deciding? { DecideMoves(cfg, sys, p, PcOf(sys, p), a.now, a.m, a.c); }
    } else if a.ActConclude? {
      ConcludeMoves(cfg, sys, p, a.now, a.reason);
    } else {
      OthersDoNotMove(cfg, sys, a, p);
    }
  }

  ghost predicate ReturnsOpen(cfg: Config, sys: System, a: Action, p: Proc) {
    PcOf(Next(cfg, sys, a), p) == Releasing(Returned(false)) && PcOf(sys, p) != Releasing(Returned(false))
  }

  lemma FrontDoesNotReturn(cfg: Config, sys: System, a: Action, p: Proc)
    requires !IsBack(a)
    ensures !ReturnsOpen(cfg, sys, a, p)
  {
  }

  lemma DecideDoesNotReturn(cfg: Config, sys: System, a: Action, p: Proc)
    requires a.ActDecide?
    ensures !ReturnsOpen(cfg, sys, a, p)
  {
  }

  /** A step returns with the question open only from the look back after its own transition, which saw the question
      open. A question found ended, an exhausted activity and an exception never lead there. */
  lemma OpenReturnHasMoved(cfg: Config, sys: System, a: Action, p: Proc)
    requires ReturnsOpen(cfg, sys, a, p)
    ensures a == ActReadBack(p) && PcOf(sys, p).Moved?
    ensures p.question in sys.tables.questions && !Ended(sys.tables.questions[p.question].state)
  {
    if !IsBack(a) {
      FrontDoesNotReturn(cfg, sys, a, p);
    } else if a.ActDecide? {
      DecideDoesNotReturn(cfg, sys, a, p);
    }
  }

  // ---------- the loop's bound ----------

  /** The loop runs out of steps: `n` consecutive calls of one worker all returned with the question still open. */
  ghost predicate RunsOut(ends: seq<StepEnd>, from: nat, n: nat) {
    from + n <= |ends| && forall i | from <= i < from + n :: ends[i] == Returned(false)
  }

  /** That is when the loop gives up on these calls. */
  lemma RunsOutIsAllOpen(ends: seq<StepEnd>, from: nat, n: nat, steps: nat -> StepEnd)
    requires from + n <= |ends| && forall i | 0 <= i < n :: steps(i) == ends[from + i]
    ensures AllOpen(steps, n) <==> RunsOut(ends, from, n)
  {
    if AllOpen(steps, n) {
      forall i | from <= i < from + n ensures ends[i] == Returned(false) {
        assert steps(i - from) == ends[from + (i - from)];
      }
    }
  }

  lemma {:induction false} OpensOfWindow(ends: seq<StepEnd>, from: nat, n: nat)
    requires RunsOut(ends, from, n)
    ensures Opens(ends) >= n
    decreases |ends|
  {
    if n > 0 {
      var k := |ends| - 1;
      OpensOfWindow(ends[..k], from, if from + n <= k then n else n - 1);
    }
  }

  /** With more than 2R+3 steps the loop never runs out of them, whatever the other workers do: one of its steps
      ended the question, found it ended, or raised. */
  lemma StepsNeverRunOut(cfg: Config, actions: seq<Action>, p: Proc, from: nat, maxSteps: nat)
    requires maxSteps > 2 * cfg.maxRevisions + 3
    ensures !RunsOut(EndsOf(Workflow.After(cfg, actions), p), from, maxSteps)
  {
    WorkflowIsBounded(cfg, actions, p);
    if RunsOut(EndsOf(Workflow.After(cfg, actions), p), from, maxSteps) {
      OpensOfWindow(EndsOf(Workflow.After(cfg, actions), p), from, maxSteps);
      assert false;
    }
  }
}
