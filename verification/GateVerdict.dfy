/** What an approving review leads to, from the rows that it reads. */
module GateVerdict {
  import opened Wrappers
  import opened Strings
  import opened Contracts
  import opened Store
  import opened Workflow
  import opened WorkflowSafety

  /** The committed modeling row of the question that was created first. */
  ghost predicate FirstModel(t: Tables, q: Uuid, m: Uuid) {
    && m in t.activities && t.activities[m].questionId == q && t.activities[m].stage == ModelingStage
    && t.activities[m].status == Succeeded && t.activities[m].result.Some?
    && forall id | id in t.activities && t.activities[id].questionId == q && t.activities[id].stage == ModelingStage
                   && t.activities[id].status == Succeeded && t.activities[id].result.Some? ::
         !Less(t.activities[id].createdAt, t.activities[m].createdAt)
  }

  /** The committed coding row of the question's revision. */
  ghost predicate CodeOf(t: Tables, q: Uuid, revision: int, c: Uuid) {
    && c in t.activities && t.activities[c].questionId == q && t.activities[c].stage == CodingStage
    && t.activities[c].revision == revision && t.activities[c].status == Succeeded && t.activities[c].result.Some?
  }

  /** Approving leads on to APPROVED if the code that was read supports the model that was read, and to FAILED
      otherwise; nothing else is read. */
  lemma ReviewVerdict(cfg: Config, sys: System, p: Proc, now: string, m: Uuid, c: Uuid)
    requires PcOf(sys, p).Deciding? && PcOf(sys, p).response.output == ReviewOutput(true)
    ensures var pc := PcOf(sys, p);
      var next := Next(cfg, sys, ActDecide(p, now, Some(m), Some(c)));
      next == if !FirstModel(sys.tables, p.question, m) || !CodeOf(sys.tables, p.question, pc.q.revision, c) then sys
              else if Supports(sys.tables.activities[m].result.value, sys.tables.activities[c].result.value)
              then sys.(procs := sys.procs[p := Approving(pc.q)])
              else sys.(procs := sys.procs[p := Rejecting(pc.q)])
  {
    if FirstModel(sys.tables, p.question, m) && CodeOf(sys.tables, p.question, PcOf(sys, p).q.revision, c) {
      GateErrorIff(sys.tables.activities[m].result.value, sys.tables.activities[c].result.value);
    }
  }

  /** Without a committed model, or without committed code of the revision, approving leads to FAILED. */
  lemma NoRowsNoApproval(cfg: Config, sys: System, p: Proc, now: string, m: Option<Uuid>, c: Option<Uuid>)
    requires PcOf(sys, p).Deciding? && PcOf(sys, p).response.output == ReviewOutput(true)
    requires (forall id :: !FirstModel(sys.tables, p.question, id))
          || (forall id :: !CodeOf(sys.tables, p.question, PcOf(sys, p).q.revision, id))
    ensures var next := Next(cfg, sys, ActDecide(p, now, m, c));
      next == sys || next == sys.(procs := sys.procs[p := Rejecting(PcOf(sys, p).q)])
  {
    if m.Some? && c.Some? {
      assert !FirstModel(sys.tables, p.question, m.value) || !CodeOf(sys.tables, p.question, PcOf(sys, p).q.revision, c.value);
    }
  }

  /** The transition that follows: to APPROVED or to FAILED, with the reason. */
  lemma VerdictMoves(cfg: Config, sys: System, p: Proc, now: string, reason: string)
    requires PcOf(sys, p).Approving? || PcOf(sys, p).Rejecting?
    ensures var next := Next(cfg, sys, ActConclude(p, now, reason));
      PcOf(next, p).Moved? ==>
        && p.question in sys.tables.questions && sys.tables.questions[p.question].state == Reviewing
        && p.question in next.tables.questions
        && next.tables.questions[p.question].state == (if PcOf(sys, p).Approving? then Approved else QuestionState.Failed)
        && next.tables.questions[p.question].failureReason == (if PcOf(sys, p).Approving? then None else Some(reason))
  {
  }
}
