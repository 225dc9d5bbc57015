/** The tables of src/m2harness/store.py and its transactions. Each transaction is one function from the
    tables before to an outcome: the tables after, and what the call returns or raises. A raising
    transaction rolls back. Times are the ISO texts the program compares; `now` and `expires` are read
    before the transaction starts, so nothing relates them to the other arguments. */
module Store {
  import opened Wrappers
  import opened Strings
  import opened Contracts
  import Json

  datatype Tables = Tables(
    projects: map<Uuid, string>,
    questions: map<Uuid, Question>,
    activities: map<Uuid, Activity>,
    artifacts: map<Uuid, Artifact>,
    claims: seq<ClaimEvidence>,
    events: seq<Event>)

  datatype Outcome<+T> = Outcome(tables: Tables, result: Result<T>)

  const EMPTY := Tables(map[], map[], map[], map[], [], [])

  function Raise<T>(s: Tables, e: Error): Outcome<T> {
    Outcome(s, Err(e))
  }

  function Append(s: Tables, e: Event): Tables {
    s.(events := s.events + [e])
  }

  /** A column that Python finds truthy: neither NULL nor the empty text. */
  predicate Truthy(column: Option<string>) {
    column.Some? && column.value != ""
  }

  // ---------- projects, questions, artifacts ----------

  function CreateProject(s: Tables, id: Uuid, name: string): Outcome<Uuid> {
    if id in s.projects then Raise(s, IntegrityError)
    else
      var s1 := s.(projects := s.projects[id := name]);
      Outcome(Append(s1, Event(id, None, None, ProjectCreated(name))), Ok(id))
  }

  /** `_insert_artifact`: the primary key and the project foreign key. */
  function InsertArtifact(s: Tables, a: Artifact): Result<Tables> {
    if a.id in s.artifacts || a.projectId !in s.projects then Err(IntegrityError)
    else Ok(s.(artifacts := s.artifacts[a.id := a]))
  }

  /** UNIQUE(project_id, key). */
  predicate KeyTaken(s: Tables, projectId: Uuid, key: string) {
    exists q | q in s.questions :: s.questions[q].projectId == projectId && s.questions[q].key == key
  }

  function CreateQuestion(s: Tables, projectId: Uuid, key: string, title: string, problem: Artifact, id: Uuid)
    : Outcome<Question>
  {
    if problem.projectId != projectId || problem.kind != "problem" then Raise(s, ValueError)
    else
      match InsertArtifact(s, problem.(questionId := Some(id)))
      case Err(e) => Raise(s, e)
      case Ok(s1) =>
        if id in s.questions || KeyTaken(s, projectId, key) then Raise(s, IntegrityError)
        else
          var row := Question(projectId, key, title, Pending, problem.id, 0, None, 1, None, None);
          var s2 := s1.(questions := s1.questions[id := row]);
          Outcome(Append(s2, Event(projectId, Some(id), None, QuestionCreated(key, title, problem.id))), Ok(row))
  }

  function RegisterArtifact(s: Tables, a: Artifact): Outcome<Artifact> {
    if a.questionId.None? then Raise(s, ValueError)
    else if a.questionId.value !in s.questions then Raise(s, NotFound)
    else if s.questions[a.questionId.value].projectId != a.projectId then Raise(s, ValueError)
    else
      match InsertArtifact(s, a)
      case Err(e) => Raise(s, e)
      case Ok(s1) =>
        var body := ArtifactRegistered(a.id, a.kind, a.mediaType, a.sha256, a.sizeBytes);
        Outcome(Append(s1, Event(a.projectId, a.questionId, a.activityId, body)), Ok(a))
  }

  // ---------- question lease and state ----------

  function UpdateQuestion(s: Tables, id: Uuid, row: Question): Tables {
    s.(questions := s.questions[id := row])
  }

  function AcquireQuestionLease(s: Tables, id: Uuid, worker: string, now: string, expires: string): Outcome<()> {
    if id !in s.questions then Raise(s, NotFound)
    else
      var row := s.questions[id];
      if row.leaseOwner.Some? && row.leaseOwner.value != worker
        && Truthy(row.leaseExpires) && Less(now, row.leaseExpires.value)
      then Raise(s, LeasedByOther)
      else
        var s1 := UpdateQuestion(s, id, row.(leaseOwner := Some(worker), leaseExpires := Some(expires)));
        Outcome(Append(s1, Event(row.projectId, Some(id), None, LeaseAcquired(worker, expires))), Ok(()))
  }

  function RenewQuestionLease(s: Tables, id: Uuid, worker: string, now: string, expires: string): Outcome<()> {
    if id in s.questions && s.questions[id].leaseOwner == Some(worker)
      && s.questions[id].leaseExpires.Some? && Leq(now, s.questions[id].leaseExpires.value)
    then Outcome(UpdateQuestion(s, id, s.questions[id].(leaseExpires := Some(expires))), Ok(()))
    else Raise(s, LeaseLost)
  }

  function ReleaseQuestionLease(s: Tables, id: Uuid, worker: string): Outcome<()> {
    if id in s.questions && s.questions[id].leaseOwner == Some(worker) then
      var row := s.questions[id];
      var s1 := UpdateQuestion(s, id, row.(leaseOwner := None, leaseExpires := None));
      Outcome(Append(s1, Event(row.projectId, Some(id), None, LeaseReleased(worker))), Ok(()))
    else Outcome(s, Ok(()))
  }

  function MovedRow(row: Question, target: QuestionState, revision: Option<int>, reason: Option<string>): Question {
    row.(state := target, revision := if revision.Some? then revision.value else row.revision,
         failureReason := reason, version := row.version + 1)
  }

  /** `transition`; the returned row is read back in a later, separate statement. */
  function Transition(s: Tables, id: Uuid, worker: string, now: string, expected: set<QuestionState>,
                      target: QuestionState, revision: Option<int>, failureReason: Option<string>): Outcome<()>
  {
    if id !in s.questions then Raise(s, NotFound)
    else
      var row := s.questions[id];
      if row.leaseOwner != Some(worker) || !Truthy(row.leaseExpires) || Less(row.leaseExpires.value, now)
      then Raise(s, LeaseLost)
      else if row.state !in expected then Raise(s, InvalidTransition)
      else
        var moved := MovedRow(row, target, revision, failureReason);
        Outcome(Append(UpdateQuestion(s, id, moved),
                       Event(row.projectId, Some(id), None, Transitioned(row.state, target, moved.revision, failureReason))),
                Ok(()))
  }

  // ---------- activities ----------

  function StageText(stage: Stage): string {
    match stage
    case ModelingStage => "modeling"
    case CodingStage => "coding"
    case ReviewStage => "review"
    case FinalizeStage => "finalize"
  }

  function IdempotencyKey(questionId: Uuid, stage: Stage, revision: int): string {
    "m2h:" + questionId + ":" + StageText(stage) + ":r" + Json.IntText(revision)
  }

  predicate HasKey(a: Activity, questionId: Uuid, stage: Stage, revision: int) {
    a.questionId == questionId && a.stage == stage && a.revision == revision
  }

  /** Two rows of one question, stage and revision cannot both be inserted. */
  predicate UniqueKeys(activities: map<Uuid, Activity>) {
    forall i, j | i in activities && j in activities && i != j ::
      !HasKey(activities[i], activities[j].questionId, activities[j].stage, activities[j].revision)
  }

  lemma KeyIsUnique(activities: map<Uuid, Activity>, i: Uuid, j: Uuid, q: Uuid, stage: Stage, revision: int)
    requires UniqueKeys(activities)
    requires i in activities && HasKey(activities[i], q, stage, revision)
    requires j in activities && HasKey(activities[j], q, stage, revision)
    ensures i == j
  {
  }

  /** The id of the row with this key, if there is one. */
  ghost function FindActivity(s: Tables, q: Uuid, stage: Stage, revision: int): (r: Option<Uuid>)
    ensures r.Some? ==> r.value in s.activities && HasKey(s.activities[r.value], q, stage, revision)
    ensures r.None? ==> forall i | i in s.activities :: !HasKey(s.activities[i], q, stage, revision)
  {
    if exists i :: i in s.activities && HasKey(s.activities[i], q, stage, revision)
    then
      var i :| i in s.activities && HasKey(s.activities[i], q, stage, revision);
      Some(i)
    else None
  }

  /** `get_or_create_activity` with the caller's question record; `id` is the fresh row id. */
  ghost function GetOrCreateActivity(s: Tables, q: Uuid, projectId: Uuid, revision: int, stage: Stage, id: Uuid,
                                     now: string): Outcome<Uuid>
  {
    match FindActivity(s, q, stage, revision)
    case Some(i) => Outcome(s, Ok(i))
    case None =>
      if id in s.activities || projectId !in s.projects || q !in s.questions then Raise(s, IntegrityError)
      else
        var row := Activity(projectId, q, stage, revision, StatusPending, 0, None, None, None, None, None, now);
        var s1 := s.(activities := s.activities[id := row]);
        var body := ActivityCreated(stage, revision, IdempotencyKey(q, stage, revision));
        Outcome(Append(s1, Event(projectId, Some(q), Some(id), body)), Ok(id))
  }

  function UpdateActivity(s: Tables, id: Uuid, row: Activity): Tables {
    s.(activities := s.activities[id := row])
  }

  /** A claim is still held: RUNNING with a lease that has not expired at `now`. */
  predicate Live(row: Activity, now: string) {
    row.status == Running && Truthy(row.leaseExpires) && Leq(now, row.leaseExpires.value)
  }

  function ClaimActivity(s: Tables, id: Uuid, worker: string, now: string, expires: string, maxAttempts: nat,
                         request: string): Outcome<Activity>
  {
    if id !in s.activities then Raise(s, NotFound)
    else
      var row := s.activities[id];
      if row.status == Succeeded then Outcome(s, Ok(row))
      else if Live(row, now) then Raise(s, LeasedByOther)
      else if row.attempts >= maxAttempts then Raise(s, AttemptsExhausted)
      else
        var claimed := row.(status := Running, attempts := row.attempts + 1, request := Some(request),
                            error := None, worker := Some(worker), leaseExpires := Some(expires));
        var body := ActivityClaimed(worker, row.attempts + 1, expires);
        Outcome(Append(UpdateActivity(s, id, claimed), Event(row.projectId, Some(row.questionId), Some(id), body)),
                Ok(claimed))
  }

  function RenewActivityLease(s: Tables, id: Uuid, worker: string, now: string, expires: string,
                              attempt: Option<nat>): Outcome<()>
  {
    if id in s.activities && s.activities[id].worker == Some(worker) && s.activities[id].status == Running
      && (attempt.Some? ==> s.activities[id].attempts == attempt.value)
      && s.activities[id].leaseExpires.Some? && Leq(now, s.activities[id].leaseExpires.value)
    then Outcome(UpdateActivity(s, id, s.activities[id].(leaseExpires := Some(expires))), Ok(()))
    else Raise(s, LeaseLost)
  }

  /** The guard shared by `complete_activity` and `fail_activity`. */
  predicate HoldsClaim(row: Activity, worker: string, now: string, attempt: Option<nat>) {
    && row.worker == Some(worker)
    && (attempt.Some? ==> row.attempts == attempt.value)
    && row.status == Running
    && Truthy(row.leaseExpires)
    && !Less(row.leaseExpires.value, now)
  }

  /** The loop over the produced artifacts: provenance check, then insert. */
  function InsertProduced(s: Tables, id: Uuid, q: Uuid, artifacts: seq<Artifact>): Result<Tables>
    decreases |artifacts|
  {
    if artifacts == [] then Ok(s)
    else if artifacts[0].activityId != Some(id) || artifacts[0].questionId != Some(q) then Err(ValueError)
    else
      match InsertArtifact(s, artifacts[0])
      case Err(e) => Err(e)
      case Ok(s1) => InsertProduced(s1, id, q, artifacts[1..])
  }

  /** `str.strip()` on ASCII white space. */
  function Strip(s: string): string {
    if s != [] && Json.IsSpace(s[0]) then Strip(s[1..])
    else if s != [] && Json.IsSpace(s[|s| - 1]) then Strip(s[..|s| - 1])
    else s
  }

  function QuestionArtifacts(s: Tables, q: Uuid): set<Uuid> {
    set a | a in s.artifacts && s.artifacts[a].questionId == Some(q)
  }

  predicate HasClaim(claims: seq<ClaimEvidence>, id: Uuid, index: nat) {
    exists c | c in claims :: c.activityId == id && c.index == index
  }

  /** The claim loop from position `index` on: blank claims are skipped, an existing (activity, index) is ignored. */
  function InsertClaims(table: seq<ClaimEvidence>, row: Activity, id: Uuid, claims: seq<string>, index: nat,
                        evidence: set<Uuid>): seq<ClaimEvidence>
    requires index <= |claims|
    decreases |claims| - index
  {
    if index == |claims| then table
    else
      var text := Strip(claims[index]);
      var next :=
        if text == "" || HasClaim(table, id, index) then table
        else table + [ClaimEvidence(row.projectId, row.questionId, id, row.revision, index, text, evidence)];
      InsertClaims(next, row, id, claims, index + 1, evidence)
  }

  function Ids(artifacts: seq<Artifact>): seq<Uuid> {
    seq(|artifacts|, i requires 0 <= i < |artifacts| => artifacts[i].id)
  }

  function CompleteActivity(s: Tables, id: Uuid, worker: string, now: string, result: Response,
                            artifacts: seq<Artifact>, attempt: Option<nat>): Outcome<Activity>
  {
    if id !in s.activities then Raise(s, NotFound)
    else
      var row := s.activities[id];
      if row.status == Succeeded then Outcome(s, Ok(row))
      else if !HoldsClaim(row, worker, now, attempt) then Raise(s, LeaseLost)
      else
        match InsertProduced(s, id, row.questionId, artifacts)
        case Err(e) => Raise(s, e)
        case Ok(s1) =>
          var evidence := QuestionArtifacts(s1, row.questionId) + Elements(Ids(artifacts));
          var s2 := s1.(claims := InsertClaims(s1.claims, row, id, result.claims, 0, evidence));
          var done := row.(status := Succeeded, result := Some(result), worker := None, leaseExpires := None);
          var body := ActivitySucceeded(Ids(artifacts));
          Outcome(Append(UpdateActivity(s2, id, done), Event(row.projectId, Some(row.questionId), Some(id), body)),
                  Ok(done))
  }

  function Truncate(text: string): string {
    if |text| <= 4000 then text else text[..4000]
  }

  function FailActivity(s: Tables, id: Uuid, worker: string, now: string, error: string, attempt: Option<nat>)
    : Outcome<Activity>
  {
    if id !in s.activities then Raise(s, NotFound)
    else
      var row := s.activities[id];
      if !HoldsClaim(row, worker, now, attempt) then Raise(s, LeaseLost)
      else
        var text := Truncate(error);
        var failed := row.(status := StatusFailed, error := Some(text), worker := None, leaseExpires := None);
        Outcome(Append(UpdateActivity(s, id, failed),
                       Event(row.projectId, Some(row.questionId), Some(id), ActivityFailed(text))), Ok(failed))
  }

  // ---------- runs ----------

  /** One call of the store's interface, with every value the source draws from the clock or uuid4. */
  datatype Call =
    | CallCreateProject(id: Uuid, name: string)
    | CallCreateQuestion(projectId: Uuid, key: string, title: string, problem: Artifact, id: Uuid)
    | CallRegisterArtifact(artifact: Artifact)
    | CallAcquire(id: Uuid, worker: string, now: string, expires: string)
    | CallRenew(id: Uuid, worker: string, now: string, expires: string)
    | CallRelease(id: Uuid, worker: string)
    | CallTransition(id: Uuid, worker: string, now: string, expected: set<QuestionState>, target: QuestionState,
                     revision: Option<int>, failureReason: Option<string>)
    | CallGetOrCreate(question: Uuid, projectId: Uuid, atRevision: int, stage: Stage, id: Uuid, now: string)
    | CallClaim(id: Uuid, worker: string, now: string, expires: string, maxAttempts: nat, request: string)
    | CallRenewActivity(id: Uuid, worker: string, now: string, expires: string, attempt: Option<nat>)
    | CallComplete(id: Uuid, worker: string, now: string, result: Response, artifacts: seq<Artifact>,
                   attempt: Option<nat>)
    | CallFail(id: Uuid, worker: string, now: string, error: string, attempt: Option<nat>)

  ghost function After(s: Tables, c: Call): Tables {
    match c
    case CallCreateProject(id, name) => CreateProject(s, id, name).tables
    case CallCreateQuestion(p, key, title, problem, id) => CreateQuestion(s, p, key, title, problem, id).tables
    case CallRegisterArtifact(a) => RegisterArtifact(s, a).tables
    case CallAcquire(id, w, now, expires) => AcquireQuestionLease(s, id, w, now, expires).tables
    case CallRenew(id, w, now, expires) => RenewQuestionLease(s, id, w, now, expires).tables
    case CallRelease(id, w) => ReleaseQuestionLease(s, id, w).tables
    case CallTransition(id, w, now, expected, target, revision, reason) =>
      Transition(s, id, w, now, expected, target, revision, reason).tables
    case CallGetOrCreate(q, p, revision, stage, id, now) =>
      GetOrCreateActivity(s, q, p, revision, stage, id, now).tables
    case CallClaim(id, w, now, expires, max, request) => ClaimActivity(s, id, w, now, expires, max, request).tables
    case CallRenewActivity(id, w, now, expires, attempt) =>
      RenewActivityLease(s, id, w, now, expires, attempt).tables
    case CallComplete(id, w, now, result, artifacts, attempt) =>
      CompleteActivity(s, id, w, now, result, artifacts, attempt).tables
    case CallFail(id, w, now, error, attempt) => FailActivity(s, id, w, now, error, attempt).tables
  }

  /** The tables after any sequence of calls, by any callers in any order. */
  ghost function Run(s: Tables, calls: seq<Call>): Tables
    decreases |calls|
  {
    if calls == [] then s else After(Run(s, calls[..|calls| - 1]), calls[|calls| - 1])
  }
}
