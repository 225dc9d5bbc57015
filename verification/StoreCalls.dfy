/** What a call writes to the audit log, from its own arguments and the row it found. Together with the replay of the
    log this fixes what each call does to the tables. */
module StoreCalls {
  import opened Wrappers
  import opened Contracts
  import opened Store
  import Json

  /** The event says what was called. */
  ghost predicate Says(s: Tables, c: Call, e: Event) {
    match c
    case CallCreateProject(id, name) => e == Event(id, None, None, ProjectCreated(name))
    case CallCreateQuestion(project, key, title, problem, id) =>
      e == Event(project, Some(id), None, QuestionCreated(key, title, problem.id))
    case CallRegisterArtifact(a) =>
      e == Event(a.projectId, a.questionId, a.activityId, ArtifactRegistered(a.id, a.kind, a.mediaType, a.sha256, a.sizeBytes))
    case CallAcquire(id, worker, _, expires) => OfQuestion(s, id, e) && e.body == LeaseAcquired(worker, expires)
    case CallRenew(_, _, _, _) => false
    case CallRelease(id, worker) => OfQuestion(s, id, e) && e.body == LeaseReleased(worker)
    case CallTransition(id, _, _, expected, target, revision, reason) =>
      && OfQuestion(s, id, e) && e.body.Transitioned? && e.body.from == s.questions[id].state && e.body.from in expected
      && e.body.to == target && e.body.failureReason == reason
      && e.body.revision == (if revision.Some? then revision.value else s.questions[id].revision)
    case CallGetOrCreate(q, project, revision, stage, id, _) =>
      && e.projectId == project && e.questionId == Some(q) && e.activityId == Some(id)
      && e.body == ActivityCreated(stage, revision, "m2h:" + q + ":" + StageText(stage) + ":r" + Json.IntText(revision))
    case CallClaim(id, worker, _, expires, _, _) =>
      OfActivity(s, id, e) && e.body == ActivityClaimed(worker, s.activities[id].attempts + 1, expires)
    case CallRenewActivity(_, _, _, _, _) => false
    case CallComplete(id, _, _, _, artifacts, _) =>
      && OfActivity(s, id, e) && e.body.ActivitySucceeded? && |e.body.artifactIds| == |artifacts|
      && forall i | 0 <= i < |artifacts| :: e.body.artifactIds[i] == artifacts[i].id
    case CallFail(id, _, _, error, _) =>
      OfActivity(s, id, e) && e.body.ActivityFailed? && IsCut(e.body.error, error)
  }

  predicate OfQuestion(s: Tables, id: Uuid, e: Event) {
    id in s.questions && e.projectId == s.questions[id].projectId && e.questionId == Some(id) && e.activityId == None
  }

  predicate OfActivity(s: Tables, id: Uuid, e: Event) {
    && id in s.activities && e.projectId == s.activities[id].projectId
    && e.questionId == Some(s.activities[id].questionId) && e.activityId == Some(id)
  }

  /** The first 4000 characters. */
  predicate IsCut(text: string, whole: string) {
    text <= whole && |text| == if |whole| < 4000 then |whole| else 4000
  }

  /** Every call adds at most one event, and that one says what was called. */
  ghost predicate LogsCall(s: Tables, c: Call, t: Tables) {
    t.events == s.events || (exists e :: Says(s, c, e) && t.events == s.events + [e])
  }

  lemma QuestionCallIsLogged(s: Tables, c: Call)
    requires c.CallCreateProject? || c.CallCreateQuestion? || c.CallRegisterArtifact?
          || c.CallAcquire? || c.CallRenew? || c.CallRelease? || c.CallTransition?
    ensures LogsCall(s, c, After(s, c))
  {
    var t := After(s, c);
    if t.events != s.events {
      var e := t.events[|t.events| - 1];
      assert Says(s, c, e) && t.events == s.events + [e];
    }
  }

  lemma ActivityCallIsLogged(s: Tables, c: Call)
    requires c.CallGetOrCreate? || c.CallClaim? || c.CallRenewActivity? || c.CallComplete? || c.CallFail?
    ensures LogsCall(s, c, After(s, c))
  {
    var t := After(s, c);
    if c.CallComplete? && c.id in s.activities {
      ProducedKeepsLog(s, c.id, s.activities[c.id].questionId, c.artifacts);
    }
    if t.events != s.events {
      var e := t.events[|t.events| - 1];
      assert Says(s, c, e) && t.events == s.events + [e];
    }
  }

  lemma {:induction false} ProducedKeepsLog(s: Tables, id: Uuid, q: Uuid, artifacts: seq<Artifact>)
    ensures InsertProduced(s, id, q, artifacts).Ok? ==> InsertProduced(s, id, q, artifacts).value.events == s.events
    decreases |artifacts|
  {
    if artifacts != [] && InsertArtifact(s, artifacts[0]).Ok? {
      ProducedKeepsLog(InsertArtifact(s, artifacts[0]).value, id, q, artifacts[1..]);
    }
  }

  lemma CallIsLogged(s: Tables, c: Call)
    ensures LogsCall(s, c, After(s, c))
  {
    if c.CallGetOrCreate? || c.CallClaim? || c.CallRenewActivity? || c.CallComplete? || c.CallFail? {
      ActivityCallIsLogged(s, c);
    } else {
      QuestionCallIsLogged(s, c);
    }
  }

  /** The event says what one of the calls was, on the tables that this call found. */
  ghost predicate Written(calls: seq<Call>, e: Event) {
    exists k: nat :: k < |calls| && Says(Run(EMPTY, calls[..k]), calls[k], e)
  }

  /** Nothing is in the log but what some call said, and no call said more than one thing. */
  lemma {:induction false} EveryEventIsACall(calls: seq<Call>)
    ensures |Run(EMPTY, calls).events| <= |calls|
    ensures forall e | e in Run(EMPTY, calls).events :: Written(calls, e)
    decreases |calls|
  {
    if calls != [] {
      var n := |calls| - 1;
      var s, t := Run(EMPTY, calls[..n]), Run(EMPTY, calls);
      EveryEventIsACall(calls[..n]);
      CallIsLogged(s, calls[n]);
      forall e | e in t.events ensures Written(calls, e) {
        if e in s.events {
          StillWritten(calls, n, e);
        } else {
          assert Says(s, calls[n], e);
        }
      }
    }
  }

  lemma StillWritten(calls: seq<Call>, n: nat, e: Event)
    requires n <= |calls| && Written(calls[..n], e)
    ensures Written(calls, e)
  {
    var k: nat :| k < n && Says(Run(EMPTY, calls[..n][..k]), calls[..n][k], e);
    assert calls[..n][..k] == calls[..k];
    assert Says(Run(EMPTY, calls[..k]), calls[k], e);
  }

  /** What the log does not show: the request of a claim, and when an activity was created. */
  lemma UnloggedColumns(s: Tables, c: Call)
    ensures c.CallClaim? && After(s, c) != s ==> After(s, c).activities[c.id].request == Some(c.request)
    ensures c.CallGetOrCreate? && After(s, c) != s ==>
      c.id in After(s, c).activities && c.id !in s.activities && After(s, c).activities[c.id].createdAt == c.now
  {
  }
}
