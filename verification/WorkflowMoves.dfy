/** The states that a question goes through: every step of every run either leaves it where it is, or follows one edge
    of the workflow. */
module WorkflowMoves {
  import opened Wrappers
  import opened Contracts
  import opened Store
  import opened StoreRuns
  import opened Workflow
  import opened WorkflowSafety
  import WorkflowCounts
  import WorkflowRaces

  /** One transition of a question. Only a review that asks for revision changes the revision. */
  predicate Edge(cfg: Config, before: Question, after: Question) {
    if after.state == RevisionRequired then
      before.state == Reviewing && after.revision == before.revision + 1 <= cfg.maxRevisions
    else
      && after.revision == before.revision
      && match before.state
         case Pending => after.state == Modeling
         case Modeling => after.state == ReadyForCoding || after.state == QuestionState.Failed
         case ReadyForCoding => after.state == Coding
         case RevisionRequired => after.state == Coding
         case Coding => after.state == ReadyForReview || after.state == QuestionState.Failed
         case ReadyForReview => after.state == Reviewing
         case Reviewing => after.state == Approved || after.state == QuestionState.Failed
         case Approved => after.state == Finalizing
         case Finalizing => after.state == Completed || after.state == QuestionState.Failed
         case Completed => false
         case Failed => false
  }

  /** A question that existed stays as it is, or moves by one version along one edge. */
  ghost predicate StaysOrMoves(cfg: Config, s: Tables, t: Tables, q: Uuid) {
    q in s.questions ==>
      q in t.questions &&
      var before, after := s.questions[q], t.questions[q];
      || (after.state == before.state && after.revision == before.revision && after.version == before.version)
      || (Edge(cfg, before, after) && after.version == before.version + 1)
  }

  lemma Stays(cfg: Config, t: Tables, q: Uuid)
    ensures StaysOrMoves(cfg, t, t, q)
  {
  }

  lemma TransitMoves(cfg: Config, sys: System, p: Proc, now: string, expected: set<QuestionState>, target: QuestionState,
                     revision: Option<int>, reason: Option<string>, next: Pc, q: Uuid)
    requires Owns(sys.tables, p) && sys.tables.questions[p.question].state in expected ==>
      Edge(cfg, sys.tables.questions[p.question], MovedRow(sys.tables.questions[p.question], target, revision, reason))
    ensures StaysOrMoves(cfg, sys.tables, Transit(sys, p, now, expected, target, revision, reason, next).tables, q)
  {
    TransitionRow(sys.tables, p, now, expected, target, revision, reason);
  }

  /** A worker that owns the lease of its question knows its state and revision. */
  predicate Knows(t: Tables, p: Proc, pc: Pc) {
    Owns(t, p) ==>
      && (pc.GivingUp? ==> t.questions[p.question].state == pc.q.state == ExecState(pc.stage))
      && (pc.Deciding? ==> t.questions[p.question].revision == pc.q.revision)
  }

  lemma OwnerKnows(cfg: Config, sys: System, p: Proc)
    requires Inv(cfg, sys)
    ensures Knows(sys.tables, p, PcOf(sys, p))
  {
    PcInv(cfg, sys, p);
  }

  lemma EnterMovesOn(cfg: Config, sys: System, p: Proc, now: string, q: Uuid)
    ensures StaysOrMoves(cfg, sys.tables, Next(cfg, sys, ActEnter(p, now)).tables, q)
  {
    var pc := PcOf(sys, p);
    if pc.Loaded? && EntryOf(pc.q.state).Some? && pc.q.state != EntryOf(pc.q.state).value.target {
      var entry := EntryOf(pc.q.state).value;
      TransitMoves(cfg, sys, p, now, {pc.q.state}, entry.target, None, None, Entered(entry.stage), q);
    } else {
      Stays(cfg, sys.tables, q);
    }
  }

  lemma GiveUpMoves(cfg: Config, sys: System, p: Proc, now: string, reason: string, q: Uuid)
    requires Knows(sys.tables, p, PcOf(sys, p))
    ensures StaysOrMoves(cfg, sys.tables, Next(cfg, sys, ActGiveUp(p, now, reason)).tables, q)
  {
    var pc := PcOf(sys, p);
    if pc.GivingUp? {
      TransitMoves(cfg, sys, p, now, {pc.q.state}, QuestionState.Failed, None, Some(reason), Releasing(Returned(true)), q);
    } else {
      Stays(cfg, sys.tables, q);
    }
  }

  lemma ReviseMoves(cfg: Config, sys: System, p: Proc, now: string, revision: int, q: Uuid)
    requires revision + 1 <= cfg.maxRevisions
    requires Owns(sys.tables, p) ==> sys.tables.questions[p.question].revision == revision
    ensures StaysOrMoves(cfg, sys.tables,
      Transit(sys, p, now, {Reviewing}, RevisionRequired, Some(revision + 1), None, Moved).tables, q)
  {
    TransitMoves(cfg, sys, p, now, {Reviewing}, RevisionRequired, Some(revision + 1), None, Moved, q);
  }

  lemma VerdictMovesOn(cfg: Config, sys: System, p: Proc, pc: Pc, now: string, m: Option<Uuid>, c: Option<Uuid>, q: Uuid)
    requires pc.Deciding? && pc.response.output.ReviewOutput? && Knows(sys.tables, p, pc)
    ensures StaysOrMoves(cfg, sys.tables, DoDecide(cfg, sys, p, pc, now, m, c).tables, q)
  {
    if pc.response.output.approve {
      Stays(cfg, sys.tables, q);
    } else if pc.q.revision + 1 > cfg.maxRevisions {
      TransitMoves(cfg, sys, p, now, {Reviewing}, QuestionState.Failed, None, Some(cfg.exhausted), Moved, q);
    } else {
      ReviseMoves(cfg, sys, p, now, pc.q.revision, q);
    }
  }

  lemma DecideMovesOn(cfg: Config, sys: System, p: Proc, now: string, m: Option<Uuid>, c: Option<Uuid>, q: Uuid)
    requires Knows(sys.tables, p, PcOf(sys, p))
    ensures StaysOrMoves(cfg, sys.tables, Next(cfg, sys, ActDecide(p, now, m, c)).tables, q)
  {
    var pc := PcOf(sys, p);
    if pc.Deciding? {
      match pc.response.output {
        case ModelingOutput(_) => TransitMoves(cfg, sys, p, now, {Modeling}, ReadyForCoding, None, None, Moved, q);
        case CodingOutput(_, _) => TransitMoves(cfg, sys, p, now, {Coding}, ReadyForReview, None, None, Moved, q);
        case FinalizeOutput => TransitMoves(cfg, sys, p, now, {Finalizing}, Completed, None, None, Moved, q);
        case ReviewOutput(_) => VerdictMovesOn(cfg, sys, p, pc, now, m, c, q);
      }
    } else {
      Stays(cfg, sys.tables, q);
    }
  }

  lemma ConcludeMovesOn(cfg: Config, sys: System, p: Proc, now: string, reason: string, q: Uuid)
    ensures StaysOrMoves(cfg, sys.tables, Next(cfg, sys, ActConclude(p, now, reason)).tables, q)
  {
    if PcOf(sys, p).Approving? {
      TransitMoves(cfg, sys, p, now, {Reviewing}, Approved, None, None, Moved, q);
    } else if PcOf(sys, p).Rejecting? {
      TransitMoves(cfg, sys, p, now, {Reviewing}, QuestionState.Failed, None, Some(reason), Moved, q);
    } else {
      Stays(cfg, sys.tables, q);
    }
  }

  lemma TransitingMoves(cfg: Config, sys: System, a: Action, q: Uuid)
    requires Inv(cfg, sys) && WorkflowRaces.Transiting(a)
    ensures StaysOrMoves(cfg, sys.tables, Next(cfg, sys, a).tables, q)
  {
    OwnerKnows(cfg, sys, a.p);
    match a {
      case ActEnter(p, now) => EnterMovesOn(cfg, sys, p, now, q);
      case ActGiveUp(p, now, reason) => GiveUpMoves(cfg, sys, p, now, reason, q);
      case ActDecide(p, now, m, c) => DecideMovesOn(cfg, sys, p, now, m, c, q);
      case ActConclude(p, now, reason) => ConcludeMovesOn(cfg, sys, p, now, reason, q);
    }
  }

  lemma CallStays(cfg: Config, s: Tables, c: Call, q: Uuid)
    requires !c.CallTransition?
    ensures StaysOrMoves(cfg, s, Store.After(s, c), q)
  {
    if c.CallComplete? {
      WorkflowCounts.CompleteKeepsQuestions(s, c);
    }
  }

  lemma NextMoves(cfg: Config, sys: System, a: Action, q: Uuid)
    requires Inv(cfg, sys)
    ensures StaysOrMoves(cfg, sys.tables, Next(cfg, sys, a).tables, q)
  {
    if WorkflowRaces.Transiting(a) {
      TransitingMoves(cfg, sys, a, q);
    } else {
      WorkflowRaces.NextIsCall(cfg, sys, a);
      if Next(cfg, sys, a).tables != sys.tables {
        CallStays(cfg, sys.tables, WorkflowRaces.CallOf(cfg, sys, a).value, q);
      }
    }
  }

  /** Whatever the workers did before, the next step leaves a question in place or moves it along one edge. */
  lemma RunFollowsEdges(cfg: Config, actions: seq<Action>, a: Action, q: Uuid)
    ensures StaysOrMoves(cfg, Workflow.After(cfg, actions).tables, Workflow.After(cfg, actions + [a]).tables, q)
  {
    EveryRunKeepsInv(cfg, actions);
    assert (actions + [a])[..|actions|] == actions;
    NextMoves(cfg, Workflow.After(cfg, actions), a, q);
  }

  /** The store call that a step makes, if any. */
  ghost predicate IsCallOf(s: Tables, t: Tables, c: Option<Call>) {
    t == if c.Some? then Store.After(s, c.value) else s
  }

  lemma DecideIsCall(cfg: Config, sys: System, p: Proc, now: string, m: Option<Uuid>, c: Option<Uuid>)
    returns (call: Option<Call>)
    ensures IsCallOf(sys.tables, Next(cfg, sys, ActDecide(p, now, m, c)).tables, call)
  {
    var pc := PcOf(sys, p);
    call := None;
    if pc.Deciding? {
      match pc.response.output {
        case ModelingOutput(_) =>
          call := Some(CallTransition(p.question, p.worker, now, {Modeling}, ReadyForCoding, None, None));
        case CodingOutput(_, _) =>
          call := Some(CallTransition(p.question, p.worker, now, {Coding}, ReadyForReview, None, None));
        case FinalizeOutput => call := Some(CallTransition(p.question, p.worker, now, {Finalizing}, Completed, None, None));
        case ReviewOutput(approve) =>
          if !approve && pc.q.revision + 1 > cfg.maxRevisions {
            call := Some(CallTransition(p.question, p.worker, now, {Reviewing}, QuestionState.Failed, None, Some(cfg.exhausted)));
          } else if !approve {
            call := Some(CallTransition(p.question, p.worker, now, {Reviewing}, RevisionRequired, Some(pc.q.revision + 1), None));
          }
      }
    }
  }

  lemma TransitingIsCall(cfg: Config, sys: System, a: Action) returns (call: Option<Call>)
    requires WorkflowRaces.Transiting(a)
    ensures IsCallOf(sys.tables, Next(cfg, sys, a).tables, call)
  {
    var p, pc := a.p, PcOf(sys, a.p);
    call := None;
    match a {
      case ActEnter(_, now) =>
        if pc.Loaded? && EntryOf(pc.q.state).Some? && pc.q.state != EntryOf(pc.q.state).value.target {
          call := Some(CallTransition(p.question, p.worker, now, {pc.q.state}, EntryOf(pc.q.state).value.target, None, None));
        }
      case ActGiveUp(_, now, reason) =>
        if pc.GivingUp? {
          call := Some(CallTransition(p.question, p.worker, now, {pc.q.state}, QuestionState.Failed, None, Some(reason)));
        }
      case ActDecide(_, now, m, c) => call := DecideIsCall(cfg, sys, p, now, m, c);
      case ActConclude(_, now, reason) =>
        if pc.Approving? {
          call := Some(CallTransition(p.question, p.worker, now, {Reviewing}, Approved, None, None));
        } else if pc.Rejecting? {
          call := Some(CallTransition(p.question, p.worker, now, {Reviewing}, QuestionState.Failed, None, Some(reason)));
        }
    }
  }

  lemma NextIsReachable(cfg: Config, sys: System, a: Action)
    requires Reachable(sys.tables)
    ensures Reachable(Next(cfg, sys, a).tables)
  {
    if WorkflowRaces.Transiting(a) {
      var call := TransitingIsCall(cfg, sys, a);
      if call.Some? { ReachStep(sys.tables, call.value); }
    } else {
      WorkflowRaces.NextIsCall(cfg, sys, a);
      if Next(cfg, sys, a).tables != sys.tables {
        ReachStep(sys.tables, WorkflowRaces.CallOf(cfg, sys, a).value);
      }
    }
  }

  /** The workers change the tables by store calls alone, so what holds of every sequence of those holds of every run. */
  lemma {:induction false} RunIsStoreRun(cfg: Config, actions: seq<Action>)
    ensures Reachable(Workflow.After(cfg, actions).tables)
    decreases |actions|
  {
    if actions == [] {
      assert Run(EMPTY, []) == EMPTY;
    } else {
      RunIsStoreRun(cfg, actions[..|actions| - 1]);
      NextIsReachable(cfg, Workflow.After(cfg, actions[..|actions| - 1]), actions[|actions| - 1]);
    }
  }

  /** The question exists, and is in this state after the run. */
  ghost predicate IsIn(cfg: Config, actions: seq<Action>, q: Uuid, state: QuestionState) {
    var t := Workflow.After(cfg, actions).tables;
    q in t.questions && t.questions[q].state == state
  }

  lemma FinalStays(cfg: Config, actions: seq<Action>, a: Action, q: Uuid, state: QuestionState)
    requires IsIn(cfg, actions, q, state) && Ended(state)
    ensures IsIn(cfg, actions + [a], q, state)
  {
    RunFollowsEdges(cfg, actions, a, q);
  }

  /** COMPLETED and FAILED are final. */
  lemma {:induction false} EndsAreFinal(cfg: Config, actions: seq<Action>, later: seq<Action>, q: Uuid, state: QuestionState)
    requires IsIn(cfg, actions, q, state) && Ended(state)
    ensures IsIn(cfg, actions + later, q, state)
    decreases |later|
  {
    if later == [] {
      assert actions + later == actions;
    } else {
      var before, a := later[..|later| - 1], later[|later| - 1];
      EndsAreFinal(cfg, actions, before, q, state);
      assert actions + later == (actions + before) + [a];
      FinalStays(cfg, actions + before, a, q, state);
    }
  }
}
