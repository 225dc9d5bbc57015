/** The audit log refines the tables: replaying the events alone rebuilds every table column but the lease
    expiry times, the request texts and the committed results. */
module StoreAudit {
  import opened Wrappers
  import opened Strings
  import opened Contracts
  import opened Store

  datatype QuestionView = QuestionView(
    projectId: Uuid, key: string, title: string, problemArtifactId: Uuid, state: QuestionState,
    revision: int, failureReason: Option<string>, version: nat, owner: Option<string>)

  datatype ActivityView = ActivityView(
    projectId: Uuid, questionId: Uuid, stage: Stage, revision: int,
    status: Status, attempts: int, error: Option<string>, worker: Option<string>)

  datatype AuditView = AuditView(
    projects: map<Uuid, string>,
    questions: map<Uuid, QuestionView>,
    activities: map<Uuid, ActivityView>,
    artifacts: set<Uuid>)

  function ViewQuestion(q: Question): QuestionView {
    QuestionView(q.projectId, q.key, q.title, q.problemArtifactId, q.state, q.revision, q.failureReason,
                 q.version, q.leaseOwner)
  }

  function ViewActivity(a: Activity): ActivityView {
    ActivityView(a.projectId, a.questionId, a.stage, a.revision, a.status, a.attempts, a.error, a.worker)
  }

  /** What the tables say. */
  function View(s: Tables): AuditView {
    AuditView(
      s.projects,
      map q | q in s.questions :: ViewQuestion(s.questions[q]),
      map a | a in s.activities :: ViewActivity(s.activities[a]),
      s.artifacts.Keys)
  }

  /** What one event says happened. */
  function Step(v: AuditView, e: Event): AuditView {
    match e.body
    case ProjectCreated(name) => v.(projects := v.projects[e.projectId := name])
    case ArtifactRegistered(id, _, _, _, _) => v.(artifacts := v.artifacts + {id})
    case _ =>
      if e.activityId.Some? then StepActivity(v, e, e.activityId.value)
      else if e.questionId.Some? then StepQuestion(v, e, e.questionId.value)
      else v
  }

  function StepQuestion(v: AuditView, e: Event, id: Uuid): AuditView {
    if e.body.QuestionCreated? then
      var row := QuestionView(e.projectId, e.body.key, e.body.title, e.body.problemArtifactId, Pending, 0, None, 1, None);
      v.(questions := v.questions[id := row], artifacts := v.artifacts + {e.body.problemArtifactId})
    else if id !in v.questions then v
    else
      var row := v.questions[id];
      var next :=
        match e.body
        case LeaseAcquired(worker, _) => row.(owner := Some(worker))
        case LeaseReleased(_) => row.(owner := None)
        case Transitioned(_, to, revision, reason) =>
          row.(state := to, revision := revision, failureReason := reason, version := row.version + 1)
        case _ => row;
      v.(questions := v.questions[id := next])
  }

  function StepActivity(v: AuditView, e: Event, id: Uuid): AuditView {
    if e.body.ActivityCreated? && e.questionId.Some? then
      var row := ActivityView(e.projectId, e.questionId.value, e.body.stage, e.body.revision, StatusPending, 0, None, None);
      v.(activities := v.activities[id := row])
    else if id !in v.activities then v
    else
      var row := v.activities[id];
      match e.body
      case ActivityClaimed(worker, attempt, _) =>
        v.(activities := v.activities[id := row.(status := Running, attempts := attempt, error := None, worker := Some(worker))])
      case ActivitySucceeded(ids) =>
        v.(activities := v.activities[id := row.(status := Succeeded, worker := None)],
           artifacts := v.artifacts + Elements(ids))
      case ActivityFailed(error) =>
        v.(activities := v.activities[id := row.(status := StatusFailed, error := Some(error), worker := None)])
      case _ => v
  }

  /** What the log says, from the empty store on. */
  function Replay(events: seq<Event>): AuditView
    decreases |events|
  {
    if events == [] then View(EMPTY)
    else Step(Replay(events[..|events| - 1]), events[|events| - 1])
  }

  ghost predicate Refines(s: Tables) {
    Replay(s.events) == View(s)
  }

  lemma ReplayAppend(events: seq<Event>, e: Event)
    ensures Replay(events + [e]) == Step(Replay(events), e)
  {
    assert (events + [e])[..|events|] == events;
  }

  lemma ViewUpdateQuestion(s: Tables, id: Uuid, row: Question)
    ensures View(UpdateQuestion(s, id, row)) == View(s).(questions := View(s).questions[id := ViewQuestion(row)])
  {
  }

  lemma ViewUpdateActivity(s: Tables, id: Uuid, row: Activity)
    ensures View(UpdateActivity(s, id, row)) == View(s).(activities := View(s).activities[id := ViewActivity(row)])
  {
  }

  /** Changing a row in columns the view omits leaves the view alone. */
  lemma HiddenColumns(s: Tables, id: Uuid, row: Question)
    requires id in s.questions && ViewQuestion(row) == ViewQuestion(s.questions[id])
    ensures View(UpdateQuestion(s, id, row)) == View(s)
  {
    assert View(UpdateQuestion(s, id, row)).questions == View(s).questions;
  }

  lemma HiddenActivityColumns(s: Tables, id: Uuid, row: Activity)
    requires id in s.activities && ViewActivity(row) == ViewActivity(s.activities[id])
    ensures View(UpdateActivity(s, id, row)) == View(s)
  {
    assert View(UpdateActivity(s, id, row)).activities == View(s).activities;
  }

  lemma ProjectStep(s: Tables, id: Uuid, name: string)
    requires Refines(s)
    ensures Refines(CreateProject(s, id, name).tables)
  {
    ReplayAppend(s.events, Event(id, None, None, ProjectCreated(name)));
  }

  lemma InsertQuestionView(s: Tables, a: Artifact, id: Uuid, row: Question, e: Event)
    requires Refines(s)
    requires e.questionId == Some(id) && e.projectId == row.projectId && e.activityId.None?
    requires e.body == QuestionCreated(row.key, row.title, a.id)
    requires row == Question(row.projectId, row.key, row.title, Pending, a.id, 0, None, 1, None, None)
    ensures Refines(s.(artifacts := s.artifacts[a.id := a], questions := s.questions[id := row], events := s.events + [e]))
  {
    var t := s.(artifacts := s.artifacts[a.id := a], questions := s.questions[id := row], events := s.events + [e]);
    ReplayAppend(s.events, e);
    assert View(t).questions == View(s).questions[id := ViewQuestion(row)];
    assert View(t).artifacts == View(s).artifacts + {a.id};
  }

  lemma QuestionStep(s: Tables, p: Uuid, key: string, title: string, problem: Artifact, id: Uuid)
    requires Refines(s)
    ensures Refines(CreateQuestion(s, p, key, title, problem, id).tables)
  {
    var out := CreateQuestion(s, p, key, title, problem, id);
    if out.result.Ok? {
      InsertQuestionView(s, problem.(questionId := Some(id)), id, out.result.value,
                         Event(p, Some(id), None, QuestionCreated(key, title, problem.id)));
    }
  }

  lemma RegisterStep(s: Tables, a: Artifact)
    requires Refines(s)
    ensures Refines(RegisterArtifact(s, a).tables)
  {
    var out := RegisterArtifact(s, a);
    if out.result.Ok? {
      ReplayAppend(s.events, out.tables.events[|s.events|]);
      assert View(out.tables).artifacts == View(s).artifacts + {a.id};
    }
  }

  /** A question transaction: one row changes and one event says how. */
  lemma QuestionRowStep(s: Tables, id: Uuid, row: Question, e: Event)
    requires Refines(s) && id in s.questions
    requires e.activityId.None? && e.questionId == Some(id)
    requires e.body.LeaseAcquired? || e.body.LeaseReleased? || e.body.Transitioned?
    requires Step(View(s), e).questions[id] == ViewQuestion(row)
    ensures Refines(Append(UpdateQuestion(s, id, row), e))
  {
    ReplayAppend(s.events, e);
    ViewUpdateQuestion(s, id, row);
    var t := Append(UpdateQuestion(s, id, row), e);
    assert View(t) == View(UpdateQuestion(s, id, row));
  }

  lemma LeaseStep(s: Tables, id: Uuid, worker: string, now: string, expires: string)
    requires Refines(s)
    ensures Refines(AcquireQuestionLease(s, id, worker, now, expires).tables)
    ensures Refines(RenewQuestionLease(s, id, worker, now, expires).tables)
    ensures Refines(ReleaseQuestionLease(s, id, worker).tables)
  {
    if id in s.questions {
      var row := s.questions[id];
      HiddenColumns(s, id, row.(leaseExpires := Some(expires)));
      QuestionRowStep(s, id, row.(leaseOwner := Some(worker), leaseExpires := Some(expires)),
                      Event(row.projectId, Some(id), None, LeaseAcquired(worker, expires)));
      QuestionRowStep(s, id, row.(leaseOwner := None, leaseExpires := None),
                      Event(row.projectId, Some(id), None, LeaseReleased(worker)));
    }
  }

  lemma TransitionStep(s: Tables, id: Uuid, worker: string, now: string, expected: set<QuestionState>,
                       target: QuestionState, revision: Option<int>, reason: Option<string>)
    requires Refines(s)
    ensures Refines(Transition(s, id, worker, now, expected, target, revision, reason).tables)
  {
    if id in s.questions {
      var row := s.questions[id];
      var next := if revision.Some? then revision.value else row.revision;
      QuestionRowStep(s, id, row.(state := target, revision := next, failureReason := reason, version := row.version + 1),
                      Event(row.projectId, Some(id), None, Transitioned(row.state, target, next, reason)));
    }
  }

  lemma CreateActivityStep(s: Tables, q: Uuid, p: Uuid, revision: int, stage: Stage, id: Uuid, now: string)
    requires Refines(s)
    ensures Refines(GetOrCreateActivity(s, q, p, revision, stage, id, now).tables)
  {
    var out := GetOrCreateActivity(s, q, p, revision, stage, id, now);
    if out.tables != s {
      ReplayAppend(s.events, out.tables.events[|s.events|]);
      var row := out.tables.activities[id];
      ViewUpdateActivity(s, id, row);
      assert View(out.tables) == View(UpdateActivity(s, id, row));
    }
  }

  /** An activity transaction that changes one row and no artifact. */
  lemma ActivityRowStep(s: Tables, id: Uuid, row: Activity, e: Event)
    requires Refines(s) && id in s.activities
    requires e.activityId == Some(id)
    requires e.body.ActivityClaimed? || e.body.ActivityFailed?
    requires Step(View(s), e).activities[id] == ViewActivity(row)
    ensures Refines(Append(UpdateActivity(s, id, row), e))
  {
    ReplayAppend(s.events, e);
    ViewUpdateActivity(s, id, row);
    var t := Append(UpdateActivity(s, id, row), e);
    assert View(t) == View(UpdateActivity(s, id, row));
  }

  lemma ClaimStep(s: Tables, id: Uuid, worker: string, now: string, expires: string, max: nat, request: string)
    requires Refines(s)
    ensures Refines(ClaimActivity(s, id, worker, now, expires, max, request).tables)
  {
    var out := ClaimActivity(s, id, worker, now, expires, max, request);
    if out.tables != s {
      var row := s.activities[id];
      ActivityRowStep(s, id, out.result.value,
                      Event(row.projectId, Some(row.questionId), Some(id), ActivityClaimed(worker, row.attempts + 1, expires)));
    }
  }

  lemma FailStep(s: Tables, id: Uuid, worker: string, now: string, error: string, attempt: Option<nat>)
    requires Refines(s)
    ensures Refines(FailActivity(s, id, worker, now, error, attempt).tables)
  {
    var out := FailActivity(s, id, worker, now, error, attempt);
    if out.tables != s {
      var row := s.activities[id];
      ActivityRowStep(s, id, out.result.value,
                      Event(row.projectId, Some(row.questionId), Some(id), ActivityFailed(Truncate(error))));
    }
  }

  lemma RenewStep(s: Tables, id: Uuid, worker: string, now: string, expires: string, attempt: Option<nat>)
    requires Refines(s)
    ensures Refines(RenewActivityLease(s, id, worker, now, expires, attempt).tables)
  {
    if id in s.activities {
      HiddenActivityColumns(s, id, s.activities[id].(leaseExpires := Some(expires)));
    }
  }

  /** The artifact loop adds exactly the produced rows and touches nothing else. */
  lemma {:induction false} InsertProducedAdds(s: Tables, id: Uuid, q: Uuid, artifacts: seq<Artifact>)
    requires InsertProduced(s, id, q, artifacts).Ok?
    ensures var t := InsertProduced(s, id, q, artifacts).value;
      && t == s.(artifacts := t.artifacts)
      && t.artifacts.Keys == s.artifacts.Keys + Elements(Ids(artifacts))
      && (forall a | a in s.artifacts :: t.artifacts[a] == s.artifacts[a])
      && (forall i | 0 <= i < |artifacts| ::
            && artifacts[i].id !in s.artifacts && artifacts[i].id in t.artifacts
            && t.artifacts[artifacts[i].id] == artifacts[i]
            && artifacts[i].activityId == Some(id) && artifacts[i].questionId == Some(q))
    decreases |artifacts|
  {
    if artifacts != [] {
      var s1 := InsertArtifact(s, artifacts[0]).value;
      InsertProducedAdds(s1, id, q, artifacts[1..]);
      assert Ids(artifacts) == [artifacts[0].id] + Ids(artifacts[1..]);
      forall i | 0 <= i < |artifacts|
        ensures artifacts[i].id !in s.artifacts
        ensures i > 0 ==> artifacts[i] == artifacts[1..][i - 1]
      {
        if i > 0 { assert artifacts[i] == artifacts[1..][i - 1]; }
      }
    }
  }

  lemma CompleteStep(s: Tables, id: Uuid, worker: string, now: string, result: Response, artifacts: seq<Artifact>,
                     attempt: Option<nat>)
    requires Refines(s)
    ensures Refines(CompleteActivity(s, id, worker, now, result, artifacts, attempt).tables)
  {
    var out := CompleteActivity(s, id, worker, now, result, artifacts, attempt);
    if out.result.Ok? && id in s.activities && s.activities[id].status != Succeeded {
      var row := s.activities[id];
      InsertProducedAdds(s, id, row.questionId, artifacts);
      ReplayAppend(s.events, Event(row.projectId, Some(row.questionId), Some(id), ActivitySucceeded(Ids(artifacts))));
      assert out.tables.activities == s.activities[id := out.result.value];
      assert View(out.tables).activities == View(s).activities[id := ViewActivity(out.result.value)];
      assert View(out.tables).artifacts == View(s).artifacts + Elements(Ids(artifacts));
      assert View(out.tables).questions == View(s).questions;
    }
  }

  lemma CallKeepsRefinement(s: Tables, c: Call)
    requires Refines(s)
    ensures Refines(After(s, c))
  {
    match c {
      case CallCreateProject(id, name) => ProjectStep(s, id, name);
      case CallCreateQuestion(p, key, title, problem, id) => QuestionStep(s, p, key, title, problem, id);
      case CallRegisterArtifact(a) => RegisterStep(s, a);
      case CallAcquire(id, w, now, expires) => LeaseStep(s, id, w, now, expires);
      case CallRenew(id, w, now, expires) => LeaseStep(s, id, w, now, expires);
      case CallRelease(id, w) => LeaseStep(s, id, w, "", "");
      case CallTransition(id, w, now, expected, target, revision, reason) =>
        TransitionStep(s, id, w, now, expected, target, revision, reason);
      case CallGetOrCreate(q, p, revision, stage, id, now) => CreateActivityStep(s, q, p, revision, stage, id, now);
      case CallClaim(id, w, now, expires, max, request) => ClaimStep(s, id, w, now, expires, max, request);
      case CallRenewActivity(id, w, now, expires, attempt) => RenewStep(s, id, w, now, expires, attempt);
      case CallComplete(id, w, now, result, artifacts, attempt) => CompleteStep(s, id, w, now, result, artifacts, attempt);
      case CallFail(id, w, now, error, attempt) => FailStep(s, id, w, now, error, attempt);
    }
  }

  /** Main result: in every reachable store, the log alone rebuilds the view. */
  lemma {:induction false} LogRebuildsTables(calls: seq<Call>)
    ensures Replay(Run(EMPTY, calls).events) == View(Run(EMPTY, calls))
    decreases |calls|
  {
    if calls != [] {
      LogRebuildsTables(calls[..|calls| - 1]);
      CallKeepsRefinement(Run(EMPTY, calls[..|calls| - 1]), calls[|calls| - 1]);
    }
  }
}
