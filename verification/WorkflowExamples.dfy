/** Concrete runs of the workflow that separate it from what one might expect of it, and that attain its bounds: two
    workers can act on different responses of one activity, a worker without the lease can add an activity of its
    own, and every stage may need all its attempts. */
module WorkflowExamples {
  import opened Wrappers
  import opened Strings
  import opened Contracts
  import opened Store
  import opened Workflow
  import opened WorkflowBounds
  import opened WorkflowCourses
  import opened WorkflowCounts
  import opened WorkflowAttempts
  import opened WorkflowLoop

  // ---------- two workers, two verdicts ----------

  const PROBLEM := Artifact("f", "p", None, None, "problem", "text/markdown", "", 0)
  const BOB := Proc("B", "q")

  /** A question in state Modeling that `BOB` entered with a lease that has run out since. */
  ghost predicate BobEntered(sys: System) {
    && sys.tables.projects == map["p" := "n"]
    && sys.tables.questions.Keys == {"q"}
    && (var row := sys.tables.questions["q"];
        && row.projectId == "p" && row.state == Modeling && row.revision == 0
        && row.leaseOwner == Some("B") && row.leaseExpires == Some("2"))
    && sys.tables.activities == map[]
    && sys.procs == map[BOB := Entered(ModelingStage)] && sys.ends == map[]
  }

  lemma OpenQuestion(co: Course) returns (sys: System)
    requires co.from == START
    ensures Reachable(co, sys) && sys.procs == map[] && sys.ends == map[]
    ensures sys.tables.projects == map["p" := "n"] && sys.tables.activities == map[]
    ensures sys.tables.questions == map["q" := Question("p", "k", "t", Pending, "f", 0, None, 1, None, None)]
  {
    StartIsReachable(co);
    var one := Go(co, START, ActCreateProject("p", "n"));
    sys := Go(co, one, ActCreateQuestion("p", "k", "t", PROBLEM, "q"));
  }

  lemma BobCanEnter(co: Course) returns (sys: System)
    requires co.from == START && !co.solo
    ensures Reachable(co, sys) && BobEntered(sys)
  {
    Later();
    var s0 := OpenQuestion(co);
    var s1 := Go(co, s0, ActAcquire(BOB, "1", "2"));
    var s2 := LoadRow(co, s1, BOB);
    sys := EnterFresh(co, s2, BOB, "1", "2");
  }

  /** Both workers are about to claim the same open activity. */
  ghost predicate BothClaiming(co: Course, sys: System) {
    && Claimable(co, sys, "a", 0)
    && PcOf(sys, BOB) == Claiming(Snapshot(Modeling, 0), ModelingStage, "a")
    && PcOf(sys, ALICE) == Claiming(Snapshot(Modeling, 0), ModelingStage, "a")
  }

  lemma BothCanClaim(co: Course) returns (sys: System)
    requires co.from == START && !co.solo && co.cfg.maxAttempts >= 1
    ensures Reachable(co, sys) && BothClaiming(co, sys)
  {
    var s0 := BobCanEnter(co);
    var s1 := ReadAgain(co, s0, BOB);
    var s2 := Create(co, s1, BOB, "a");
    sys := WorkflowCourses.Return(co, s2, ModelingStage, 0, "a");
  }

  /** With two workers the response acted on can be any other than the committed one: for every two modeling
      responses there is a run in which one is committed and the other is acted on. */
  lemma TwoWorkersCanDisagree(cfg: Config, r1: Response, r2: Response) returns (actions: seq<Action>)
    requires cfg.maxAttempts >= 1 && r1.output.ModelingOutput? && r2.output.ModelingOutput?
    ensures var sys := Workflow.After(cfg, actions);
      var pc := PcOf(sys, ALICE);
      && pc.Deciding? && pc.response == r2
      && pc.activity in sys.tables.activities && sys.tables.activities[pc.activity].result == Some(r1)
  {
    var co := Course(cfg, START, false, 0);
    var s0 := BothCanClaim(co);
    var s1 := Claim(co, s0, BOB, 0);
    var s2 := Execute(co, s1, BOB, r1);
    var s3 := Complete(co, s2, BOB);
    var s4 := LateWorker(co, s3, ALICE, r2);
    actions := ReachableIsRun(co, s4);
  }

  // ---------- a long run ----------

  const MODEL := Response(ModelingOutput([]), [], [], None, None)
  const CODE := Response(CodingOutput(true, map[]), [], [], None, None)

  function Verdict(approve: bool): Response {
    Response(ReviewOutput(approve), [], [], None, None)
  }

  /** What the activities of the question are so far: `rows` of them, `model` the one committed modeling row, coding
      and review rows of revisions before `revision`, each attempted `tries` times, and the `late` ones once. */
  datatype Past = Past(model: Uuid, revision: int, rows: int, late: set<Uuid>, tries: int)

  ghost predicate History(t: Tables, h: Past) {
    && |t.activities| == h.rows && h.late <= t.activities.Keys
    && IsCommitted(t, h.model, "q", ModelingStage) && t.activities[h.model].result == Some(MODEL)
    && (forall id | id in t.activities ::
          && t.activities[id].questionId == "q" && t.activities[id].stage != FinalizeStage
          && (t.activities[id].stage != ModelingStage ==> t.activities[id].revision < h.revision)
          && (IsCommitted(t, id, "q", ModelingStage) ==> id == h.model)
          && (t.activities[id].stage == ModelingStage && id !in h.late ==> t.activities[id].revision == 0)
          && t.activities[id].attempts == if id in h.late then 1 else h.tries)
  }

  predicate OpenEnds(ends: seq<StepEnd>, n: int) {
    |ends| == n && forall i | 0 <= i < n :: ends[i] == Returned(false)
  }

  /** If no attempt failed, Alice's calls all returned with the question open. */
  ghost predicate Opened(co: Course, sys: System, n: int) {
    co.fails == 0 ==> OpenEnds(EndsOf(sys, ALICE), n)
  }

  /** One more such return. */
  predicate OneOpenMore(co: Course, s: System, sys: System) {
    co.fails == 0 ==> EndsOf(sys, ALICE) == EndsOf(s, ALICE) + [Returned(false)]
  }

  lemma OneMoreOpened(co: Course, s: System, sys: System, n: nat)
    requires Opened(co, s, n) && OneOpenMore(co, s, sys)
    ensures Opened(co, sys, n + 1)
  {
  }

  lemma Fresh(ids: set<Uuid>) returns (id: Uuid)
    ensures id !in ids
  {
    id := Longer(ids);
  }

  /** A text longer than every text of a finite set. */
  lemma {:induction false} Longer(ids: set<Uuid>) returns (id: Uuid)
    ensures forall i | i in ids :: |i| < |id|
    decreases |ids|
  {
    id := "x";
    if ids != {} {
      var i :| i in ids;
      var rest := Longer(ids - {i});
      id := i + rest + "x";
      forall j | j in ids ensures |j| < |id| {
        if j != i { assert j in ids - {i}; }
      }
    }
  }

  predicate IsRound(stage: Stage) {
    stage == CodingStage || stage == ReviewStage
  }

  lemma RoundIsFree(s: System, h: Past, stage: Stage)
    requires History(s.tables, h) && IsRound(stage)
    ensures NoneYet(s, "q", stage, h.revision)
  {
  }

  /** A coding stage, committed and concluded. */
  lemma CodeHalf(co: Course, s: System, state: QuestionState, revision: int, c: Uuid, code: Response)
    returns (sys: System, row: Activity)
    requires Reachable(co, s) && co.fails < co.cfg.maxAttempts && (state == ReadyForCoding || state == RevisionRequired)
    requires Ready(s, state, revision) && c !in s.tables.activities && NoneYet(s, "q", CodingStage, revision)
    requires code.output.CodingOutput?
    ensures Reachable(co, sys) && Ready(sys, ReadyForReview, revision) && PcOf(sys, BOB) == PcOf(s, BOB)
    ensures sys.tables.activities == s.tables.activities[c := row]
    ensures row == DoneRow(row.projectId, CodingStage, revision, co.fails, code) && OneOpenMore(co, s, sys)
  {
    var s1 := RunStage(co, s, state, revision, c, code);
    row := DoneRow(ProjectOf(s), CodingStage, revision, co.fails, code);
    sys := ConcludeStage(co, s1, Coding, ReadyForReview, revision);
  }

  /** The coding half of a round; the review is still to come. */
  lemma CodeRound(co: Course, s: System, state: QuestionState, h: Past, n: nat)
    returns (sys: System, c: Uuid, row: Activity)
    requires Reachable(co, s) && co.fails < co.cfg.maxAttempts && (state == ReadyForCoding || state == RevisionRequired)
    requires Ready(s, state, h.revision) && History(s.tables, h) && Opened(co, s, n)
    ensures Reachable(co, sys) && Ready(sys, ReadyForReview, h.revision) && PcOf(sys, BOB) == PcOf(s, BOB)
    ensures c !in s.tables.activities && sys.tables.activities == s.tables.activities[c := row]
    ensures row == DoneRow(row.projectId, CodingStage, h.revision, co.fails, CODE) && Opened(co, sys, n + 1)
  {
    c := Fresh(s.tables.activities.Keys);
    RoundIsFree(s, h, CodingStage);
    sys, row := CodeHalf(co, s, state, h.revision, c, CODE);
    OneMoreOpened(co, s, sys, n);
  }

  /** A review stage up to the commit of its verdict. */
  lemma ReviewHalf(co: Course, s: System, revision: int, approve: bool) returns (sys: System, id: Uuid, row: Activity)
    requires Reachable(co, s) && co.fails < co.cfg.maxAttempts && Ready(s, ReadyForReview, revision)
    requires NoneYet(s, "q", ReviewStage, revision)
    ensures Reachable(co, sys) && Holding(sys, Reviewing, revision) && (co.fails == 0 ==> sys.ends == s.ends)
    ensures sys.procs == s.procs[ALICE := Deciding(Snapshot(Reviewing, revision), ReviewStage, id, Verdict(approve))]
    ensures id !in s.tables.activities && sys.tables.activities == s.tables.activities[id := row]
    ensures row == DoneRow(row.projectId, ReviewStage, revision, co.fails, Verdict(approve))
  {
    id := Fresh(s.tables.activities.Keys);
    sys := RunStage(co, s, ReadyForReview, revision, id, Verdict(approve));
    row := DoneRow(ProjectOf(s), ReviewStage, revision, co.fails, Verdict(approve));
  }

  lemma ReviewIsFree(s: System, next: System, revision: int, c: Uuid, row: Activity)
    requires NoneYet(s, "q", ReviewStage, revision) && row.stage == CodingStage
    requires next.tables.activities == s.tables.activities[c := row]
    ensures NoneYet(next, "q", ReviewStage, revision)
  {
  }

  /** The history after a whole round. */
  function Round(h: Past): Past {
    h.(revision := h.revision + 1, rows := h.rows + 2)
  }

  /** The committed coding row of a revision. */
  predicate IsCoded(t: Tables, c: Uuid, revision: int) {
    IsCommitted(t, c, "q", CodingStage) && t.activities[c].revision == revision && t.activities[c].result == Some(CODE)
  }

  /** Two rows of this revision. */
  lemma HistoryRound(s: Tables, t: Tables, u: Tables, h: Past, c: Uuid, code: Activity, id: Uuid, row: Activity)
    requires History(s, h)
    requires c !in s.activities && t.activities == s.activities[c := code]
    requires id !in t.activities && u.activities == t.activities[id := row]
    requires code.questionId == row.questionId == "q" && code.stage == CodingStage && row.stage == ReviewStage
    requires code.revision == row.revision == h.revision && code.attempts == row.attempts == h.tries
    requires code.status == Succeeded && code.result == Some(CODE)
    ensures History(u, Round(h))
    ensures IsCoded(u, c, h.revision)
  {
  }

  /** One round from coding to the review's answer. */
  lemma CodeAndReview(co: Course, s: System, state: QuestionState, h: Past, approve: bool, n: nat)
    returns (sys: System, c: Uuid, id: Uuid)
    requires Reachable(co, s) && co.fails < co.cfg.maxAttempts && (state == ReadyForCoding || state == RevisionRequired)
    requires Ready(s, state, h.revision) && History(s.tables, h) && Opened(co, s, n) && h.tries == co.fails + 1
    ensures Reachable(co, sys) && Holding(sys, Reviewing, h.revision) && History(sys.tables, Round(h))
    ensures IsCoded(sys.tables, c, h.revision)
    ensures PcOf(sys, ALICE) == Deciding(Snapshot(Reviewing, h.revision), ReviewStage, id, Verdict(approve))
    ensures PcOf(sys, BOB) == PcOf(s, BOB) && Opened(co, sys, n + 1)
  {
    var s1, code;
    s1, c, code := CodeRound(co, s, state, h, n);
    sys, id := ReviewRound(co, s, s1, h, c, code, approve, n);
  }

  /** The review half of a round. */
  lemma ReviewRound(co: Course, s: System, s1: System, h: Past, c: Uuid, code: Activity, approve: bool, n: nat)
    returns (sys: System, id: Uuid)
    requires Reachable(co, s1) && co.fails < co.cfg.maxAttempts && Ready(s1, ReadyForReview, h.revision)
    requires History(s.tables, h) && Opened(co, s1, n + 1) && h.tries == co.fails + 1
    requires c !in s.tables.activities && s1.tables.activities == s.tables.activities[c := code]
    requires code == DoneRow(code.projectId, CodingStage, h.revision, co.fails, CODE)
    ensures Reachable(co, sys) && Holding(sys, Reviewing, h.revision) && History(sys.tables, Round(h))
    ensures IsCoded(sys.tables, c, h.revision)
    ensures PcOf(sys, ALICE) == Deciding(Snapshot(Reviewing, h.revision), ReviewStage, id, Verdict(approve))
    ensures PcOf(sys, BOB) == PcOf(s1, BOB) && Opened(co, sys, n + 1)
  {
    RoundIsFree(s, h, ReviewStage);
    ReviewIsFree(s, s1, h.revision, c, code);
    var row: Activity;
    sys, id, row := ReviewHalf(co, s1, h.revision, approve);
    HistoryRound(s.tables, s1.tables, sys.tables, h, c, code, id, row);
  }

  lemma SameActivities(s: System, next: System, h: Past)
    requires next.tables.activities == s.tables.activities && History(s.tables, h)
    ensures History(next.tables, h)
  {
  }

  lemma RejectMove(co: Course, s: System, revision: int, id: Uuid) returns (sys: System)
    requires Reachable(co, s) && revision < co.cfg.maxRevisions && Holding(s, Reviewing, revision)
    requires PcOf(s, ALICE) == Deciding(Snapshot(Reviewing, revision), ReviewStage, id, Verdict(false))
    ensures Reachable(co, sys) && Holding(sys, RevisionRequired, revision + 1) && sys.ends == s.ends
    ensures sys.tables.activities == s.tables.activities && sys.procs == s.procs[ALICE := Moved]
  {
    sys := MoveOn(co, s, ActDecide(ALICE, "5", None, None), Reviewing, RevisionRequired, Some(revision + 1));
  }

  lemma Reject(co: Course, s: System, revision: int, id: Uuid) returns (sys: System)
    requires Reachable(co, s) && revision < co.cfg.maxRevisions && Holding(s, Reviewing, revision)
    requires PcOf(s, ALICE) == Deciding(Snapshot(Reviewing, revision), ReviewStage, id, Verdict(false))
    ensures Reachable(co, sys) && Ready(sys, RevisionRequired, revision + 1)
    ensures sys.tables.activities == s.tables.activities && sys.procs == s.procs[ALICE := Idle]
    ensures EndsOf(sys, ALICE) == EndsOf(s, ALICE) + [Returned(false)]
  {
    var s1 := RejectMove(co, s, revision, id);
    sys := LookAndLetGo(co, s1, RevisionRequired, revision + 1);
    assert s.procs[ALICE := Moved][ALICE := Idle] == s.procs[ALICE := Idle];
  }

  lemma Rejected(co: Course, s: System, h: Past, id: Uuid, n: nat) returns (sys: System)
    requires Reachable(co, s) && h.revision < co.cfg.maxRevisions && Holding(s, Reviewing, h.revision)
    requires PcOf(s, ALICE) == Deciding(Snapshot(Reviewing, h.revision), ReviewStage, id, Verdict(false))
    requires History(s.tables, Round(h)) && Opened(co, s, n + 1)
    ensures Reachable(co, sys) && Ready(sys, RevisionRequired, h.revision + 1) && History(sys.tables, Round(h))
    ensures PcOf(sys, BOB) == PcOf(s, BOB) && Opened(co, sys, n + 2)
  {
    sys := Reject(co, s, h.revision, id);
    SameActivities(s, sys, Round(h));
    OneMoreOpened(co, s, sys, n + 1);
  }

  /** A rejected round: two more activities, and the next revision. */
  lemma RejectedRound(co: Course, s: System, state: QuestionState, h: Past, n: nat) returns (sys: System)
    requires Reachable(co, s) && co.fails < co.cfg.maxAttempts && h.revision < co.cfg.maxRevisions
    requires (state == ReadyForCoding || state == RevisionRequired) && h.tries == co.fails + 1
    requires Ready(s, state, h.revision) && History(s.tables, h) && Opened(co, s, n)
    ensures Reachable(co, sys) && Ready(sys, RevisionRequired, h.revision + 1) && History(sys.tables, Round(h))
    ensures PcOf(sys, BOB) == PcOf(s, BOB) && Opened(co, sys, n + 2)
  {
    var s1, c, id := CodeAndReview(co, s, state, h, false, n);
    sys := Rejected(co, s1, h, id, n);
  }

  function Rounds(h: Past, n: int): Past {
    h.(revision := h.revision + n, rows := h.rows + 2 * n)
  }

  lemma {:induction false} RejectedRounds(co: Course, s: System, h: Past, n: nat, k: nat) returns (sys: System)
    requires Reachable(co, s) && co.fails < co.cfg.maxAttempts && h.revision + k == co.cfg.maxRevisions
    requires Ready(s, RevisionRequired, h.revision) && History(s.tables, h) && Opened(co, s, n) && h.tries == co.fails + 1
    ensures Reachable(co, sys) && Ready(sys, RevisionRequired, co.cfg.maxRevisions)
    ensures History(sys.tables, Rounds(h, k)) && Opened(co, sys, n + 2 * k)
    decreases k
  {
    if k == 0 {
      sys := s;
    } else {
      var s1 := RejectedRound(co, s, RevisionRequired, h, n);
      sys := RejectedRounds(co, s1, Round(h), n + 2, k - 1);
    }
  }

  predicate Answered(t: Tables, id: Uuid, response: Response) {
    id in t.activities && t.activities[id].result == Some(response)
  }

  /** The gate reads the committed rows and the question becomes APPROVED. */
  lemma Approve(co: Course, s: System, revision: int, id: Uuid, m: Uuid, c: Uuid) returns (sys: System)
    requires Reachable(co, s) && Holding(s, Reviewing, revision)
    requires PcOf(s, ALICE) == Deciding(Snapshot(Reviewing, revision), ReviewStage, id, Verdict(true))
    requires ReadsModeling(s.tables, "q", Some(m)) && ReadsCoding(s.tables, "q", revision, Some(c))
    requires Answered(s.tables, m, MODEL) && Answered(s.tables, c, CODE)
    ensures Reachable(co, sys) && Ready(sys, Approved, revision) && sys.tables.activities == s.tables.activities
    ensures EndsOf(sys, ALICE) == EndsOf(s, ALICE) + [Returned(false)]
  {
    var s1 := PassGate(co, s, revision, id, m, c);
    var s2 := ApproveMove(co, s1, revision);
    sys := LookAndLetGo(co, s2, Approved, revision);
  }

  lemma ApproveMove(co: Course, s: System, revision: int) returns (sys: System)
    requires Reachable(co, s) && Holding(s, Reviewing, revision) && PcOf(s, ALICE).Approving?
    ensures Reachable(co, sys) && Holding(sys, Approved, revision) && sys.ends == s.ends
    ensures sys.tables.activities == s.tables.activities && sys.procs == s.procs[ALICE := Moved]
  {
    sys := MoveOn(co, s, ActConclude(ALICE, "5", ""), Reviewing, Approved, None);
  }

  lemma PassGate(co: Course, s: System, revision: int, id: Uuid, m: Uuid, c: Uuid) returns (sys: System)
    requires Reachable(co, s) && PcOf(s, ALICE) == Deciding(Snapshot(Reviewing, revision), ReviewStage, id, Verdict(true))
    requires ReadsModeling(s.tables, "q", Some(m)) && ReadsCoding(s.tables, "q", revision, Some(c))
    requires Answered(s.tables, m, MODEL) && Answered(s.tables, c, CODE)
    ensures Reachable(co, sys) && sys.tables == s.tables && sys.ends == s.ends
    ensures sys.procs == s.procs[ALICE := Approving(Snapshot(Reviewing, revision))]
  {
    sys := Go(co, s, ActDecide(ALICE, "5", Some(m), Some(c)));
  }

  lemma OneModel(t: Tables, h: Past)
    requires History(t, h)
    ensures ReadsModeling(t, "q", Some(h.model))
  {
    Strings.LessIrreflexive(t.activities[h.model].createdAt);
  }

  lemma ApprovedRound(co: Course, s: System, state: QuestionState, h: Past, n: nat) returns (sys: System)
    requires Reachable(co, s) && co.fails < co.cfg.maxAttempts && (state == ReadyForCoding || state == RevisionRequired)
    requires Ready(s, state, h.revision) && History(s.tables, h) && Opened(co, s, n) && h.tries == co.fails + 1
    ensures Reachable(co, sys) && Ready(sys, Approved, h.revision) && History(sys.tables, Round(h)) && Opened(co, sys, n + 2)
  {
    var s1, c, id := CodeAndReview(co, s, state, h, true, n);
    OneModel(s1.tables, Round(h));
    sys := Approve(co, s1, h.revision, id, h.model, c);
    SameActivities(s1, sys, Round(h));
    OneMoreOpened(co, s1, sys, n + 1);
  }

  /** From a later revision to APPROVED at the last one. */
  lemma LastRounds(co: Course, s: System, h: Past, n: nat, k: nat) returns (sys: System)
    requires Reachable(co, s) && co.fails < co.cfg.maxAttempts && h.revision + k == co.cfg.maxRevisions
    requires Ready(s, RevisionRequired, h.revision) && History(s.tables, h) && Opened(co, s, n) && h.tries == co.fails + 1
    ensures Reachable(co, sys) && Ready(sys, Approved, co.cfg.maxRevisions)
    ensures History(sys.tables, Rounds(h, k + 1)) && Opened(co, sys, n + 2 * k + 2)
  {
    var s1 := RejectedRounds(co, s, h, n, k);
    RoundsAdd(h, k);
    sys := ApprovedRound(co, s1, RevisionRequired, Rounds(h, k), n + 2 * k);
  }

  lemma OneRow(t: Tables, m: Uuid, row: Activity, fails: nat)
    requires t.activities == map[m := row] && row == DoneRow(row.projectId, ModelingStage, 0, fails, MODEL)
    ensures History(t, Past(m, 0, 1, {}, fails + 1))
  {
  }

  /** A modeling stage, committed and concluded. */
  lemma ModelHalf(co: Course, s: System, state: QuestionState) returns (sys: System, row: Activity)
    requires Reachable(co, s) && co.fails < co.cfg.maxAttempts && Ready(s, state, 0) && (state == Pending || state == Modeling)
    requires s.tables.activities == map[] && EndsOf(s, ALICE) == []
    ensures Reachable(co, sys) && Ready(sys, ReadyForCoding, 0) && PcOf(sys, BOB) == PcOf(s, BOB)
    ensures sys.tables.activities == map["m" := row] && row == DoneRow(row.projectId, ModelingStage, 0, co.fails, MODEL)
    ensures co.fails == 0 ==> EndsOf(sys, ALICE) == [Returned(false)]
  {
    row := DoneRow(ProjectOf(s), ModelingStage, 0, co.fails, MODEL);
    var s1 := RunStage(co, s, state, 0, "m", MODEL);
    sys := ConcludeStage(co, s1, Modeling, ReadyForCoding, 0);
  }

  lemma FirstModel(co: Course, s: System, state: QuestionState) returns (sys: System)
    requires Reachable(co, s) && co.fails < co.cfg.maxAttempts && Ready(s, state, 0) && (state == Pending || state == Modeling)
    requires s.tables.activities == map[] && EndsOf(s, ALICE) == []
    ensures Reachable(co, sys) && Ready(sys, ReadyForCoding, 0) && PcOf(sys, BOB) == PcOf(s, BOB) && Opened(co, sys, 1)
    ensures History(sys.tables, Past("m", 0, 1, {}, co.fails + 1))
  {
    var row;
    sys, row := ModelHalf(co, s, state);
    OneRow(sys.tables, "m", row, co.fails);
  }

  lemma ApprovedLater(co: Course, s: System, h: Past) returns (sys: System)
    requires Reachable(co, s) && co.fails < co.cfg.maxAttempts && h.revision == 0 && h.tries == co.fails + 1
    requires Ready(s, ReadyForCoding, 0) && History(s.tables, h) && Opened(co, s, 1) && co.cfg.maxRevisions >= 1
    ensures Reachable(co, sys) && Ready(sys, Approved, co.cfg.maxRevisions)
    ensures History(sys.tables, Rounds(h, co.cfg.maxRevisions + 1)) && Opened(co, sys, 2 * co.cfg.maxRevisions + 3)
  {
    var k := co.cfg.maxRevisions - 1;
    var s1 := RejectedRound(co, s, ReadyForCoding, h, 1);
    sys := LastRounds(co, s1, Round(h), 3, k);
    RoundsAdd(h, k + 1);
  }

  /** From the first modeling on, without anybody else, to APPROVED at the last revision. */
  lemma ToApproved(co: Course, s: System, h: Past) returns (sys: System)
    requires Reachable(co, s) && co.fails < co.cfg.maxAttempts && h.revision == 0 && h.tries == co.fails + 1
    requires Ready(s, ReadyForCoding, 0) && History(s.tables, h) && Opened(co, s, 1)
    ensures Reachable(co, sys) && Ready(sys, Approved, co.cfg.maxRevisions)
    ensures History(sys.tables, Rounds(h, co.cfg.maxRevisions + 1)) && Opened(co, sys, 2 * co.cfg.maxRevisions + 3)
  {
    if co.cfg.maxRevisions == 0 {
      sys := ApprovedRound(co, s, ReadyForCoding, h, 1);
      assert Rounds(h, 1) == Round(h);
    } else {
      sys := ApprovedLater(co, s, h);
    }
  }

  lemma RoundsAdd(h: Past, n: nat)
    ensures Rounds(Round(h), n) == Rounds(h, n + 1) == Round(Rounds(h, n))
  {
  }

  // ---------- the late modeling activity ----------

  lemma CreateAndClaim(co: Course, s: System, id: Uuid) returns (sys: System)
    requires Reachable(co, s) && !co.solo && "q" in s.tables.questions && co.cfg.maxAttempts >= 1
    requires ProjectOf(s) in s.tables.projects
    requires PcOf(s, BOB).Staged? && PcOf(s, BOB).stage == ModelingStage
    requires id !in s.tables.activities && NoneYet(s, "q", ModelingStage, PcOf(s, BOB).q.revision)
    ensures Reachable(co, sys) && sys.tables.questions == s.tables.questions && sys.tables.projects == s.tables.projects
    ensures id in sys.tables.activities && sys.tables.activities == s.tables.activities[id := sys.tables.activities[id]]
    ensures var row := sys.tables.activities[id];
      row.questionId == "q" && row.stage == ModelingStage && row.status == Running && row.attempts == 1
    ensures PcOf(sys, ALICE) == PcOf(s, ALICE) && sys.ends == s.ends
  {
    var s1 := Create(co, s, BOB, id);
    sys := Claim(co, s1, BOB, 0);
  }

  /** Bob goes on without the lease: he reads revision 1, creates a modeling activity for it, and claims it. */
  lemma BobModelsAgain(co: Course, s: System, h: Past) returns (sys: System, id: Uuid)
    requires Reachable(co, s) && !co.solo && Ready(s, RevisionRequired, 1) && History(s.tables, h)
    requires PcOf(s, BOB) == Entered(ModelingStage) && h.late == {}
    requires h.revision == 1 && co.cfg.maxAttempts >= 1
    ensures Reachable(co, sys) && Ready(sys, RevisionRequired, 1)
    ensures History(sys.tables, h.(rows := h.rows + 1, late := {id})) && sys.ends == s.ends
  {
    NoLateRow(s, h);
    var s1 := ReadAgain(co, s, BOB);
    id := Fresh(s1.tables.activities.Keys);
    sys := CreateAndClaim(co, s1, id);
    LateRow(s.tables, sys.tables, h, id);
  }

  lemma NoLateRow(s: System, h: Past)
    requires History(s.tables, h) && h.late == {}
    ensures NoneYet(s, "q", ModelingStage, 1)
  {
  }

  lemma LateRow(s: Tables, t: Tables, h: Past, id: Uuid)
    requires History(s, h) && h.late == {} && id !in s.activities && id in t.activities
    requires t.activities == s.activities[id := t.activities[id]]
    requires t.activities[id].questionId == "q" && t.activities[id].stage == ModelingStage
    requires t.activities[id].status == Running && t.activities[id].attempts == 1
    ensures History(t, h.(rows := h.rows + 1, late := {id}))
  {
  }

  /** Alice's first revision, while Bob stays where he entered modeling. */
  lemma FirstRevision(co: Course) returns (sys: System)
    requires co.from == START && !co.solo && co.fails < co.cfg.maxAttempts && co.cfg.maxRevisions >= 1
    ensures Reachable(co, sys) && Ready(sys, RevisionRequired, 1) && PcOf(sys, BOB) == Entered(ModelingStage)
    ensures History(sys.tables, Past("m", 1, 3, {}, co.fails + 1)) && Opened(co, sys, 3)
  {
    var s0 := BobCanEnter(co);
    var s1 := FirstModel(co, s0, Modeling);
    sys := RejectedRound(co, s1, ReadyForCoding, Past("m", 0, 1, {}, co.fails + 1), 1);
  }

  /** With revisions allowed: Alice's stages, and Bob's modeling activity of revision 1 between them. */
  lemma ToApprovedWithBob(co: Course) returns (sys: System, id: Uuid)
    requires co.from == START && !co.solo && co.fails < co.cfg.maxAttempts && co.cfg.maxRevisions >= 1
    ensures Reachable(co, sys) && Ready(sys, Approved, co.cfg.maxRevisions)
    ensures var r := co.cfg.maxRevisions; History(sys.tables, Past("m", r + 1, 2 * r + 4, {id}, co.fails + 1))
  {
    var r := co.cfg.maxRevisions;
    var s1 := FirstRevision(co);
    var s2;
    s2, id := BobModelsAgain(co, s1, Past("m", 1, 3, {}, co.fails + 1));
    var late := Past("m", 1, 4, {id}, co.fails + 1);
    SameEnds(co, s1, s2, 3);
    sys := LastRounds(co, s2, late, 3, r - 1);
    assert Rounds(late, r) == Past("m", r + 1, 2 * r + 4, {id}, co.fails + 1);
  }

  lemma SameEnds(co: Course, s: System, sys: System, n: nat)
    requires Opened(co, s, n) && sys.ends == s.ends
    ensures Opened(co, sys, n)
  {
  }

  /** The run as long as the settings allow. */
  lemma LongRun(co: Course) returns (sys: System, late: set<Uuid>)
    requires co.from == START && !co.solo && co.fails < co.cfg.maxAttempts
    ensures Reachable(co, sys) && Ready(sys, Approved, co.cfg.maxRevisions) && |late| == Extra(co.cfg)
    ensures var r := co.cfg.maxRevisions; History(sys.tables, Past("m", r + 1, 2 * r + 3 + |late|, late, co.fails + 1))
  {
    if co.cfg.maxRevisions >= 1 {
      var id;
      sys, id := ToApprovedWithBob(co);
      late := {id};
    } else {
      late := {};
      sys := ToApprovedAlone(co);
    }
  }

  lemma FirstModelAlone(co: Course) returns (sys: System)
    requires co.from == START && co.fails < co.cfg.maxAttempts
    ensures Reachable(co, sys) && Ready(sys, ReadyForCoding, 0) && Opened(co, sys, 1)
    ensures History(sys.tables, Past("m", 0, 1, {}, co.fails + 1))
  {
    var s0 := OpenQuestion(co);
    sys := FirstModel(co, s0, Pending);
  }

  lemma ToApprovedAlone(co: Course) returns (sys: System)
    requires co.from == START && co.fails < co.cfg.maxAttempts
    ensures Reachable(co, sys) && Ready(sys, Approved, co.cfg.maxRevisions) && Opened(co, sys, 2 * co.cfg.maxRevisions + 3)
    ensures var r := co.cfg.maxRevisions; History(sys.tables, Past("m", r + 1, 2 * r + 3, {}, co.fails + 1))
  {
    var s1 := FirstModelAlone(co);
    sys := ToApproved(co, s1, Past("m", 0, 1, {}, co.fails + 1));
  }

  // ---------- the bounds are attained ----------

  /** One activity changed, and all its attempts are taken. */
  predicate UsedUp(co: Course, s: Tables, t: Tables, id: Uuid) {
    && id in t.activities && t.activities == s.activities[id := t.activities[id]]
    && t.activities[id].questionId == "q" && t.activities[id].attempts == co.fails + 1
  }

  /** Alice opens the final activity and uses up its attempts. */
  lemma FinalAttempts(co: Course, s: System, h: Past) returns (sys: System, id: Uuid)
    requires Reachable(co, s) && co.fails < co.cfg.maxAttempts
    requires Ready(s, Approved, co.cfg.maxRevisions) && History(s.tables, h)
    ensures Reachable(co, sys) && id !in s.tables.activities
    ensures UsedUp(co, s.tables, sys.tables, id)
  {
    var r := co.cfg.maxRevisions;
    id := Fresh(s.tables.activities.Keys);
    FinalIsFree(s, h, r);
    var s1 := OpenStage(co, s, Approved, r, id);
    sys := UseUp(co, s1, FinalizeStage, r, id);
  }

  lemma FinalIsFree(s: System, h: Past, revision: int)
    requires History(s.tables, h)
    ensures NoneYet(s, "q", FinalizeStage, revision)
  {
  }

  /** All attempts at an activity just created. */
  lemma UseUp(co: Course, s: System, stage: Stage, revision: int, id: Uuid) returns (sys: System)
    requires Reachable(co, s) && AboutTo(s, stage, revision, id) && Claimable(co, s, id, 0) && co.fails < co.cfg.maxAttempts
    ensures Reachable(co, sys)
    ensures UsedUp(co, s.tables, sys.tables, id)
  {
    var s1 := FailTimes(co, s, stage, revision, id, 0, co.fails);
    sys := Claim(co, s1, ALICE, co.fails);
  }

  /** All activities of the question, and how often each was attempted. */
  ghost predicate Used(t: Tables, rows: int, late: set<Uuid>, tries: int) {
    && ActivitiesOf(t, "q") == t.activities.Keys && |t.activities| == rows && late <= t.activities.Keys
    && forall id | id in t.activities :: t.activities[id].attempts == if id in late then 1 else tries
  }

  lemma OneMoreUsed(s: Tables, t: Tables, h: Past, id: Uuid)
    requires History(s, h) && id !in s.activities && id in t.activities
    requires t.activities == s.activities[id := t.activities[id]]
    requires t.activities[id].questionId == "q" && t.activities[id].attempts == h.tries
    ensures Used(t, h.rows + 1, h.late, h.tries)
  {
  }

  lemma FullRun(co: Course) returns (sys: System, late: set<Uuid>)
    requires co.from == START && !co.solo && co.fails < co.cfg.maxAttempts
    ensures Reachable(co, sys) && |late| == Extra(co.cfg)
    ensures Used(sys.tables, 2 * co.cfg.maxRevisions + 4 + |late|, late, co.fails + 1)
  {
    var r, s, id := co.cfg.maxRevisions, co.from, "";
    s, late := LongRun(co);
    var h := Past("m", r + 1, 2 * r + 3 + |late|, late, co.fails + 1);
    sys, id := FinalAttempts(co, s, h);
    OneMoreUsed(s.tables, sys.tables, h, id);
  }

  lemma {:induction false} TotalExact(counts: map<Uuid, nat>, ids: set<Uuid>, each: nat)
    requires ids <= counts.Keys && forall id | id in ids :: counts[id] == each
    ensures Total(counts, ids) == |ids| * each
    decreases |ids|
  {
    if ids != {} {
      var id := TotalPick(counts, ids);
      TotalExact(counts, ids - {id}, each);
      OneMore(|ids|, each);
    }
  }

  ghost function TotalAttempts(t: Tables, q: Uuid): nat {
    Total(Attempts(t), ActivitiesOf(t, q))
  }

  lemma UsedTotal(t: Tables, rows: nat, late: set<Uuid>, tries: nat)
    requires Used(t, rows + |late|, late, tries)
    ensures TotalAttempts(t, "q") == rows * tries + |late|
  {
    var ids := t.activities.Keys;
    TotalParts(Attempts(t), ids, late);
    TotalExact(Attempts(t), late, 1);
    TotalExact(Attempts(t), ids - late, tries);
    assert |ids - late| == rows;
  }

  /** Both bounds are attained, for all settings, in one run: every stage of every revision takes all its attempts, and
      if revisions are allowed there is the late modeling activity with its one attempt. */
  lemma BoundIsAttained(cfg: Config) returns (actions: seq<Action>)
    requires cfg.maxAttempts >= 1
    ensures var t := Workflow.After(cfg, actions).tables;
      && |ActivitiesOf(t, "q")| == 2 * cfg.maxRevisions + 4 + Extra(cfg)
      && TotalAttempts(t, "q") == (2 * cfg.maxRevisions + 4) * cfg.maxAttempts + Extra(cfg)
  {
    var co := Course(cfg, START, false, cfg.maxAttempts - 1);
    var sys, late := FullRun(co);
    UsedTotal(sys.tables, 2 * cfg.maxRevisions + 4, late, cfg.maxAttempts);
    actions := ReachableIsRun(co, sys);
  }

  /** Exactly how many activities a question can have, and exactly when 2R+4 is a bound: when no revision is allowed. */
  lemma ActivityBoundIff(cfg: Config, bound: nat)
    requires cfg.maxAttempts >= 1
    ensures (forall actions, q :: |ActivitiesOf(Workflow.After(cfg, actions).tables, q)| <= bound)
       <==> bound >= 2 * cfg.maxRevisions + 4 + Extra(cfg)
    ensures (forall actions, q :: |ActivitiesOf(Workflow.After(cfg, actions).tables, q)| <= 2 * cfg.maxRevisions + 4)
       <==> cfg.maxRevisions == 0
  {
    forall actions, q
      ensures |ActivitiesOf(Workflow.After(cfg, actions).tables, q)| <= 2 * cfg.maxRevisions + 4 + Extra(cfg)
    {
      ActivitiesAreBounded(cfg, actions, q);
    }
    var actions := BoundIsAttained(cfg);
    assert |ActivitiesOf(Workflow.After(cfg, actions).tables, "q")| == 2 * cfg.maxRevisions + 4 + Extra(cfg);
  }

  /** Exactly how many attempts a question can take. */
  lemma AttemptBoundIff(cfg: Config, bound: nat)
    requires cfg.maxAttempts >= 1
    ensures (forall actions, q :: TotalAttempts(Workflow.After(cfg, actions).tables, q) <= bound)
       <==> bound >= (2 * cfg.maxRevisions + 4) * cfg.maxAttempts + Extra(cfg)
  {
    var most := (2 * cfg.maxRevisions + 4) * cfg.maxAttempts + Extra(cfg);
    forall actions, q ensures TotalAttempts(Workflow.After(cfg, actions).tables, q) <= most {
      AttemptsAreBounded(cfg, actions, q);
    }
    var actions := BoundIsAttained(cfg);
    assert TotalAttempts(Workflow.After(cfg, actions).tables, "q") == most;
  }

  /** As many calls as possible return to one worker with the question open. */
  lemma OpenRun(cfg: Config) returns (actions: seq<Action>)
    requires cfg.maxAttempts >= 1
    ensures OpenEnds(EndsOf(Workflow.After(cfg, actions), ALICE), 2 * cfg.maxRevisions + 3)
  {
    var co := Course(cfg, START, true, 0);
    var sys := ToApprovedAlone(co);
    actions := ReachableIsRun(co, sys);
  }

  /** In this run these consecutive calls use up all the steps. */
  ghost predicate UsesAllSteps(cfg: Config, actions: seq<Action>, p: Proc, from: nat, maxSteps: nat) {
    RunsOut(EndsOf(Workflow.After(cfg, actions), p), from, maxSteps)
  }

  ghost predicate NeverRunsOut(cfg: Config, maxSteps: nat) {
    forall actions, p, from: nat :: !UsesAllSteps(cfg, actions, p, from, maxSteps)
  }

  lemma TooFewSteps(cfg: Config, maxSteps: nat)
    requires cfg.maxAttempts >= 1 && maxSteps < 2 * cfg.maxRevisions + 4
    ensures !NeverRunsOut(cfg, maxSteps)
  {
    var actions := OpenRun(cfg);
    assert UsesAllSteps(cfg, actions, ALICE, 0, maxSteps);
  }

  /** Exactly how many steps `run_until_terminal` needs so as never to run out of them: 2R+4. */
  lemma StepsSufficeIff(cfg: Config, maxSteps: nat)
    requires cfg.maxAttempts >= 1
    ensures NeverRunsOut(cfg, maxSteps) <==> maxSteps >= 2 * cfg.maxRevisions + 4
  {
    if maxSteps >= 2 * cfg.maxRevisions + 4 {
      forall actions, p, from: nat ensures !UsesAllSteps(cfg, actions, p, from, maxSteps) {
        StepsNeverRunOut(cfg, actions, p, from, maxSteps);
      }
    } else {
      TooFewSteps(cfg, maxSteps);
    }
  }
}
