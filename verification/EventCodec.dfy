/** How the store writes its typed audit events into the text columns of the `events` table, and how they are
    read back. */
module EventCodec {
  import opened Wrappers
  import opened Json
  import opened Contracts
  import opened HashChain
  import Store
  import JsonRoundTrip

  function StateText(state: QuestionState): string {
    match state
    case Pending => "pending"
    case Modeling => "modeling"
    case ReadyForCoding => "ready_for_coding"
    case Coding => "coding"
    case ReadyForReview => "ready_for_review"
    case Reviewing => "reviewing"
    case RevisionRequired => "revision_required"
    case Approved => "approved"
    case Finalizing => "finalizing"
    case Completed => "completed"
    case Failed => "failed"
  }

  function ParseState(text: string): Option<QuestionState> {
    match text
    case "pending" => Some(Pending)
    case "modeling" => Some(Modeling)
    case "ready_for_coding" => Some(ReadyForCoding)
    case "coding" => Some(Coding)
    case "ready_for_review" => Some(ReadyForReview)
    case "reviewing" => Some(Reviewing)
    case "revision_required" => Some(RevisionRequired)
    case "approved" => Some(Approved)
    case "finalizing" => Some(Finalizing)
    case "completed" => Some(Completed)
    case "failed" => Some(Failed)
    case _ => None
  }

  function ParseStage(text: string): Option<Stage> {
    match text
    case "modeling" => Some(ModelingStage)
    case "coding" => Some(CodingStage)
    case "review" => Some(ReviewStage)
    case "finalize" => Some(FinalizeStage)
    case _ => None
  }

  /** The `event_type` column. */
  function EventType(body: EventBody): string {
    match body
    case ProjectCreated(_) => "project.created"
    case QuestionCreated(_, _, _) => "question.created"
    case ArtifactRegistered(_, _, _, _, _) => "artifact.registered"
    case LeaseAcquired(_, _) => "question.lease_acquired"
    case LeaseReleased(_) => "question.lease_released"
    case Transitioned(_, _, _, _) => "question.transitioned"
    case ActivityCreated(_, _, _) => "activity.created"
    case ActivityClaimed(_, _, _) => "activity.claimed"
    case ActivitySucceeded(_) => "activity.succeeded"
    case ActivityFailed(_) => "activity.failed"
  }

  function Strs(items: seq<string>): seq<Json> {
    seq(|items|, i requires 0 <= i < |items| => Str(items[i]))
  }

  /** The `payload` dictionary. */
  function Payload(body: EventBody): Json {
    match body
    case ProjectCreated(name) => Obj(map["name" := Str(name)])
    case QuestionCreated(key, title, problem) =>
      Obj(map["key" := Str(key), "title" := Str(title), "problem_artifact_id" := Str(problem)])
    case ArtifactRegistered(id, kind, mediaType, sha256, size) =>
      Obj(map["artifact_id" := Str(id), "kind" := Str(kind), "media_type" := Str(mediaType), "sha256" := Str(sha256),
              "size_bytes" := Num(size)])
    case LeaseAcquired(worker, expires) => Obj(map["worker_id" := Str(worker), "expires_at" := Str(expires)])
    case LeaseReleased(worker) => Obj(map["worker_id" := Str(worker)])
    case Transitioned(from, to, revision, reason) =>
      Obj(map["from" := Str(StateText(from)), "to" := Str(StateText(to)), "revision" := Num(revision),
              "failure_reason" := OrNull(reason)])
    case ActivityCreated(stage, revision, key) =>
      Obj(map["stage" := Str(Store.StageText(stage)), "revision" := Num(revision), "idempotency_key" := Str(key)])
    case ActivityClaimed(worker, attempt, expires) =>
      Obj(map["worker_id" := Str(worker), "attempt" := Num(attempt), "expires_at" := Str(expires)])
    case ActivitySucceeded(ids) => Obj(map["artifact_ids" := Arr(Strs(ids))])
    case ActivityFailed(error) => Obj(map["error" := Str(error)])
  }

  // ---------- reading back ----------

  function Field(j: Json, key: string): Option<Json> {
    if j.Obj? && key in j.fields then Some(j.fields[key]) else None
  }

  function TextField(j: Json, key: string): Option<string> {
    match Field(j, key)
    case Some(Str(s)) => Some(s)
    case _ => None
  }

  function NumField(j: Json, key: string): Option<int> {
    match Field(j, key)
    case Some(Num(n)) => Some(n)
    case _ => None
  }

  function NullableField(j: Json, key: string): Option<Option<string>> {
    match Field(j, key)
    case Some(Null) => Some(None)
    case Some(Str(s)) => Some(Some(s))
    case _ => None
  }

  function TextsField(j: Json, key: string): Option<seq<string>> {
    match Field(j, key)
    case Some(Arr(items)) => Texts(items)
    case _ => None
  }

  function Texts(items: seq<Json>): Option<seq<string>> {
    if items == [] then Some([])
    else if items[0].Str? then
      var rest :- Texts(items[1..]);
      Some([items[0].s] + rest)
    else None
  }

  function ParseTransition(j: Json): Option<EventBody> {
    var fromText :- TextField(j, "from");
    var toText :- TextField(j, "to");
    var from :- ParseState(fromText);
    var to :- ParseState(toText);
    var revision :- NumField(j, "revision");
    var reason :- NullableField(j, "failure_reason");
    Some(Transitioned(from, to, revision, reason))
  }

  function ParseArtifact(j: Json): Option<EventBody> {
    var id :- TextField(j, "artifact_id");
    var kind :- TextField(j, "kind");
    var mediaType :- TextField(j, "media_type");
    var sha256 :- TextField(j, "sha256");
    var size :- NumField(j, "size_bytes");
    Some(ArtifactRegistered(id, kind, mediaType, sha256, size))
  }

  function ParseQuestion(j: Json): Option<EventBody> {
    var key :- TextField(j, "key");
    var title :- TextField(j, "title");
    var problem :- TextField(j, "problem_artifact_id");
    Some(QuestionCreated(key, title, problem))
  }

  function ParseCreated(j: Json): Option<EventBody> {
    var stageText :- TextField(j, "stage");
    var stage :- ParseStage(stageText);
    var revision :- NumField(j, "revision");
    var key :- TextField(j, "idempotency_key");
    Some(ActivityCreated(stage, revision, key))
  }

  function ParseClaimed(j: Json): Option<EventBody> {
    var worker :- TextField(j, "worker_id");
    var attempt :- NumField(j, "attempt");
    var expires :- TextField(j, "expires_at");
    Some(ActivityClaimed(worker, attempt, expires))
  }

  function ParseAcquired(j: Json): Option<EventBody> {
    var worker :- TextField(j, "worker_id");
    var expires :- TextField(j, "expires_at");
    Some(LeaseAcquired(worker, expires))
  }

  function ParseBody(eventType: string, j: Json): Option<EventBody> {
    match eventType
    case "project.created" => var name :- TextField(j, "name"); Some(ProjectCreated(name))
    case "question.created" => ParseQuestion(j)
    case "artifact.registered" => ParseArtifact(j)
    case "question.lease_acquired" => ParseAcquired(j)
    case "question.lease_released" => var worker :- TextField(j, "worker_id"); Some(LeaseReleased(worker))
    case "question.transitioned" => ParseTransition(j)
    case "activity.created" => ParseCreated(j)
    case "activity.claimed" => ParseClaimed(j)
    case "activity.succeeded" => var ids :- TextsField(j, "artifact_ids"); Some(ActivitySucceeded(ids))
    case "activity.failed" => var error :- TextField(j, "error"); Some(ActivityFailed(error))
    case _ => None
  }

  lemma StateRoundTrip(state: QuestionState)
    ensures ParseState(StateText(state)) == Some(state)
  {
  }

  lemma StageRoundTrip(stage: Stage)
    ensures ParseStage(Store.StageText(stage)) == Some(stage)
  {
  }

  lemma {:induction false} TextsRoundTrip(items: seq<string>)
    ensures Texts(Strs(items)) == Some(items)
    decreases |items|
  {
    if items == [] {
    } else {
      assert Strs(items)[1..] == Strs(items[1..]);
      TextsRoundTrip(items[1..]);
      assert items == [items[0]] + items[1..];
    }
  }

  ghost predicate RoundTrips(body: EventBody) {
    ParseBody(EventType(body), Payload(body)) == Some(body)
  }

  lemma TransitionRoundTrip(body: EventBody)
    requires body.Transitioned?
    ensures RoundTrips(body)
  {
    StateRoundTrip(body.from);
    StateRoundTrip(body.to);
    assert ParseTransition(Payload(body)) == Some(body);
  }

  lemma ActivityEventRoundTrip(body: EventBody)
    requires body.ActivityCreated? || body.ActivityClaimed?
    ensures RoundTrips(body)
  {
    if body.ActivityCreated? {
      StageRoundTrip(body.stage);
      assert ParseCreated(Payload(body)) == Some(body);
    } else {
      assert ParseClaimed(Payload(body)) == Some(body);
    }
  }

  lemma ActivityEndRoundTrip(body: EventBody)
    requires body.ActivitySucceeded? || body.ActivityFailed?
    ensures RoundTrips(body)
  {
    if body.ActivitySucceeded? {
      TextsRoundTrip(body.artifactIds);
    }
  }

  lemma LeaseRoundTrip(body: EventBody)
    requires body.LeaseAcquired? || body.LeaseReleased?
    ensures RoundTrips(body)
  {
  }

  lemma CreationRoundTrip(body: EventBody)
    requires body.ProjectCreated? || body.QuestionCreated? || body.ArtifactRegistered?
    ensures RoundTrips(body)
  {
    if body.QuestionCreated? {
      assert ParseQuestion(Payload(body)) == Some(body);
    } else if body.ArtifactRegistered? {
      assert ParseArtifact(Payload(body)) == Some(body);
    }
  }

  lemma BodyRoundTrip(body: EventBody)
    ensures ParseBody(EventType(body), Payload(body)) == Some(body)
  {
    assert RoundTrips(body) by {
      match body {
        case Transitioned(_, _, _, _) => TransitionRoundTrip(body);
        case ActivityCreated(_, _, _) => ActivityEventRoundTrip(body);
        case ActivityClaimed(_, _, _) => ActivityEventRoundTrip(body);
        case ActivitySucceeded(_) => ActivityEndRoundTrip(body);
        case ActivityFailed(_) => ActivityEndRoundTrip(body);
        case LeaseAcquired(_, _) => LeaseRoundTrip(body);
        case LeaseReleased(_) => LeaseRoundTrip(body);
        case _ => CreationRoundTrip(body);
      }
    }
  }

  /** The typed event a table row stands for. */
  function Decode(row: EventRow): Option<Event> {
    var payload :- Loads(row.payload);
    var body :- ParseBody(row.eventType, payload);
    Some(Event(row.projectId, row.questionId, row.activityId, body))
  }

  /** The row `_append_event` writes for a typed event. */
  function Encode(H: Digest, rows: seq<EventRow>, eventId: string, occurredAt: string, e: Event): EventRow {
    NewRow(H, rows, eventId, e.projectId, e.questionId, e.activityId, EventType(e.body), Payload(e.body), occurredAt)
  }

  /** The text columns keep the whole event. */
  lemma DecodeEncode(H: Digest, rows: seq<EventRow>, eventId: string, occurredAt: string, e: Event)
    ensures Decode(Encode(H, rows, eventId, occurredAt, e)) == Some(e)
  {
    JsonRoundTrip.LoadsPrint(Payload(e.body));
    BodyRoundTrip(e.body);
  }

  ghost predicate AllDecode(rows: seq<EventRow>) {
    forall i | 0 <= i < |rows| :: Decode(rows[i]).Some?
  }

  /** The typed log behind the table. */
  function Events(rows: seq<EventRow>): seq<Event>
    requires AllDecode(rows)
  {
    seq(|rows|, i requires 0 <= i < |rows| => Decode(rows[i]).value)
  }

  lemma EventsAppend(H: Digest, rows: seq<EventRow>, eventId: string, occurredAt: string, e: Event)
    requires AllDecode(rows)
    ensures AllDecode(rows + [Encode(H, rows, eventId, occurredAt, e)])
    ensures Events(rows + [Encode(H, rows, eventId, occurredAt, e)]) == Events(rows) + [e]
  {
    DecodeEncode(H, rows, eventId, occurredAt, e);
  }
}
