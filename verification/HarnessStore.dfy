/** `HarnessStore` of src/m2harness/store.py as an object that updates its tables in place. Every method is one
    transaction and is proved against its function in module Store; the audit log is the table of hash-chained
    text rows itself, not the typed events. */
module HarnessStore {
  import opened Wrappers
  import opened Strings
  import opened Contracts
  import opened Store
  import opened StoreRuns
  import opened HashChain
  import opened EventCodec
  import StoreAudit

  /** What one transaction draws from uuid4 and the clock for its event row. */
  datatype Stamp = Stamp(eventId: string, occurredAt: string)

  // ---------- the loops ----------

  /** The loop over the produced artifacts, on a working copy of the table: a raise leaves the table as it was. */
  method InsertArtifacts(ghost s: Tables, projects: map<Uuid, string>, table: map<Uuid, Artifact>, id: Uuid, q: Uuid,
                         list: seq<Artifact>) returns (r: Result<map<Uuid, Artifact>>)
    requires s.projects == projects && s.artifacts == table
    ensures r.Ok? ==> InsertProduced(s, id, q, list) == Ok(s.(artifacts := r.value))
    ensures r.Err? ==> InsertProduced(s, id, q, list) == Err(r.error)
  {
    var work, i := table, 0;
    while i < |list|
      invariant 0 <= i <= |list|
      invariant InsertProduced(s.(artifacts := work), id, q, list[i..]) == InsertProduced(s, id, q, list)
    {
      var a := list[i];
      assert list[i..][1..] == list[i + 1..];
      if a.activityId != Some(id) || a.questionId != Some(q) {
        return Err(ValueError);
      }
      if a.id in work || a.projectId !in projects {
        return Err(IntegrityError);
      }
      work := work[a.id := a];
      i := i + 1;
    }
    return Ok(work);
  }

  /** The loop over the claims of a committed report. */
  method InsertClaimRows(table: seq<ClaimEvidence>, row: Activity, id: Uuid, list: seq<string>, evidence: set<Uuid>)
    returns (r: seq<ClaimEvidence>)
    ensures r == InsertClaims(table, row, id, list, 0, evidence)
  {
    r := table;
    var index := 0;
    while index < |list|
      invariant 0 <= index <= |list|
      invariant InsertClaims(r, row, id, list, index, evidence) == InsertClaims(table, row, id, list, 0, evidence)
    {
      var text := Strip(list[index]);
      if text != "" && !HasClaim(r, id, index) {
        r := r + [ClaimEvidence(row.projectId, row.questionId, id, row.revision, index, text, evidence)];
      }
      index := index + 1;
    }
  }

  /** `SELECT ... WHERE question_id=? AND stage=? AND revision=?`. */
  method Select(activities: map<Uuid, Activity>, q: Uuid, stage: Stage, revision: int) returns (r: Option<Uuid>)
    ensures r.Some? ==> r.value in activities && HasKey(activities[r.value], q, stage, revision)
    ensures r.None? ==> forall i | i in activities :: !HasKey(activities[i], q, stage, revision)
  {
    var rest := activities.Keys;
    while rest != {}
      invariant rest <= activities.Keys
      invariant forall i | i in activities && i !in rest :: !HasKey(activities[i], q, stage, revision)
      decreases |rest|
    {
      var i :| i in rest;
      if HasKey(activities[i], q, stage, revision) {
        return Some(i);
      }
      rest := rest - {i};
    }
    return None;
  }

  predicate PointsInside(artifacts: map<Uuid, Artifact>, q: Uuid, evidence: set<Uuid>) {
    forall a | a in evidence :: a in artifacts && artifacts[a].questionId == Some(q)
  }

  /** The rows of one question. */
  function ClaimsOf(claims: seq<ClaimEvidence>, q: Uuid): seq<ClaimEvidence>
    decreases |claims|
  {
    if claims == [] then []
    else
      var before, last := ClaimsOf(claims[..|claims| - 1], q), claims[|claims| - 1];
      if last.questionId == q then before + [last] else before
  }

  /** The inner loop of `verify_claim_evidence`: a missing artifact, or one of another question, raises. */
  method CheckEvidence(artifacts: map<Uuid, Artifact>, q: Uuid, evidence: set<Uuid>) returns (r: Result<()>)
    ensures r.Ok? <==> PointsInside(artifacts, q, evidence)
    ensures r == Err(NotFound) ==> exists a :: a in evidence && a !in artifacts
    ensures r == Err(Conflict) ==> exists a :: a in evidence && a in artifacts && artifacts[a].questionId != Some(q)
    ensures r.Err? ==> r.error == NotFound || r.error == Conflict
  {
    var rest := evidence;
    while rest != {}
      invariant rest <= evidence
      invariant forall a | a in evidence && a !in rest :: a in artifacts && artifacts[a].questionId == Some(q)
      decreases |rest|
    {
      var a :| a in rest;
      if a !in artifacts {
        return Err(NotFound);
      }
      if artifacts[a].questionId != Some(q) {
        return Err(Conflict);
      }
      rest := rest - {a};
    }
    return Ok(());
  }

  /** `verify_claim_evidence`: the number of the question's claims, or the first failure. */
  method CheckClaims(claims: seq<ClaimEvidence>, artifacts: map<Uuid, Artifact>, q: Uuid) returns (r: Result<nat>)
    ensures r.Ok? <==> forall c | c in claims && c.questionId == q :: PointsInside(artifacts, q, c.evidence)
    ensures r.Ok? ==> r.value == |ClaimsOf(claims, q)|
  {
    var count, i := 0, 0;
    while i < |claims|
      invariant 0 <= i <= |claims|
      invariant count == |ClaimsOf(claims[..i], q)|
      invariant forall j | 0 <= j < i && claims[j].questionId == q :: PointsInside(artifacts, q, claims[j].evidence)
    {
      assert claims[..i + 1][..i] == claims[..i];
      if claims[i].questionId == q {
        var checked := CheckEvidence(artifacts, q, claims[i].evidence);
        if checked.Err? {
          assert claims[i] in claims;
          return Err(checked.error);
        }
        count := count + 1;
      }
      i := i + 1;
    }
    assert claims[..i] == claims;
    return Ok(count);
  }

  // ---------- guards ----------

  /** The checks of `transition`, in order. */
  function TransitionError(questions: map<Uuid, Question>, id: Uuid, worker: string, now: string,
                           expected: set<QuestionState>): Option<Error>
  {
    if id !in questions then Some(NotFound)
    else
      var row := questions[id];
      if row.leaseOwner != Some(worker) || !Truthy(row.leaseExpires) || Less(row.leaseExpires.value, now) then Some(LeaseLost)
      else if row.state !in expected then Some(InvalidTransition)
      else None
  }

  lemma TransitionCases(s: Tables, id: Uuid, worker: string, now: string, expected: set<QuestionState>,
                        target: QuestionState, revision: Option<int>, failureReason: Option<string>)
    ensures var error := TransitionError(s.questions, id, worker, now, expected);
      Store.Transition(s, id, worker, now, expected, target, revision, failureReason) ==
        if error.Some? then Outcome(s, Err(error.value))
        else
          var row := s.questions[id];
          var next := MovedRow(row, target, revision, failureReason);
          Outcome(Append(UpdateQuestion(s, id, next),
                         Event(row.projectId, Some(id), None, Transitioned(row.state, target, next.revision, failureReason))),
                  Ok(()))
  {
  }

  /** The checks of `claim_activity` on a row that is not committed, in order. */
  function ClaimError(activities: map<Uuid, Activity>, id: Uuid, now: string, maxAttempts: nat): Option<Error> {
    if id !in activities then Some(NotFound)
    else if Live(activities[id], now) then Some(LeasedByOther)
    else if activities[id].attempts >= maxAttempts then Some(AttemptsExhausted)
    else None
  }

  function Claimed(row: Activity, worker: string, expires: string, request: string): Activity {
    row.(status := Running, attempts := row.attempts + 1, request := Some(request), error := None,
         worker := Some(worker), leaseExpires := Some(expires))
  }

  lemma ClaimCases(s: Tables, id: Uuid, worker: string, now: string, expires: string, maxAttempts: nat, request: string)
    ensures var error := ClaimError(s.activities, id, now, maxAttempts);
      Store.ClaimActivity(s, id, worker, now, expires, maxAttempts, request) ==
        if id in s.activities && s.activities[id].status == Succeeded then Outcome(s, Ok(s.activities[id]))
        else if error.Some? then Outcome(s, Err(error.value))
        else
          var row := s.activities[id];
          var claimed := Claimed(row, worker, expires, request);
          Outcome(Append(UpdateActivity(s, id, claimed),
                         Event(row.projectId, Some(row.questionId), Some(id), ActivityClaimed(worker, claimed.attempts, expires))),
                  Ok(claimed))
  {
  }

  // ---------- the object ----------

  class HarnessStore {
    const H: Digest
    var projects: map<Uuid, string>
    var questions: map<Uuid, Question>
    var activities: map<Uuid, Activity>
    var artifacts: map<Uuid, Artifact>
    var claims: seq<ClaimEvidence>
    var rows: seq<EventRow>
    /** The typed log that the rows hold. */
    ghost var events: seq<Event>

    /** The hash chain verifies, as it did at every earlier length, and its text decodes to the typed log. */
    ghost predicate LogSound()
      reads this
    {
      EveryPrefixVerifies(H, rows) && AllDecode(rows) && Events(rows) == events
    }

    ghost function State(): Tables
      reads this
    {
      Tables(projects, questions, activities, artifacts, claims, events)
    }

    /** The log is sound and the tables are what some sequence of calls makes of the empty store. */
    ghost predicate Valid()
      reads this
    {
      LogSound() && Reachable(State())
    }

    constructor (H: Digest)
      ensures Valid() && this.H == H && State() == EMPTY
    {
      this.H := H;
      projects, questions, activities, artifacts := map[], map[], map[], map[];
      claims, rows, events := [], [], [];
      assert EMPTY == Run(EMPTY, []);
    }

    /** `_append_event`, inside the caller's transaction. */
    method AppendEvent(stamp: Stamp, e: Event)
      requires LogSound()
      modifies `rows, `events
      ensures LogSound()
      ensures rows == old(rows) + [Encode(H, old(rows), stamp.eventId, stamp.occurredAt, e)]
      ensures State() == Append(old(State()), e)
    {
      PrefixesVerify(H, rows);
      AppendVerifies(H, rows, stamp.eventId, e.projectId, e.questionId, e.activityId, EventType(e.body), Payload(e.body),
                     stamp.occurredAt);
      EventsAppend(H, rows, stamp.eventId, stamp.occurredAt, e);
      var previous := if rows == [] then ZERO_HASH else rows[|rows| - 1].eventHash;
      var row := EventRow(stamp.eventId, e.projectId, e.questionId, e.activityId, EventType(e.body),
                          Json.Print(Payload(e.body)), stamp.occurredAt, previous, "");
      rows := rows + [row.(eventHash := H(Digested(previous, row, Payload(e.body))))];
      events := events + [e];
      PrefixesVerify(H, rows);
    }

    /** `UPDATE questions ... WHERE id=?` and its event. */
    method WriteQuestion(id: Uuid, row: Question, stamp: Stamp, e: Event)
      requires LogSound()
      modifies this
      ensures LogSound()
      ensures State() == Append(UpdateQuestion(old(State()), id, row), e)
    {
      questions := questions[id := row];
      AppendEvent(stamp, e);
    }

    /** `INSERT INTO activities` or `UPDATE activities ... WHERE id=?`, and its event. */
    method WriteActivity(id: Uuid, row: Activity, stamp: Stamp, e: Event)
      requires LogSound()
      modifies this
      ensures LogSound()
      ensures State() == Append(UpdateActivity(old(State()), id, row), e)
    {
      activities := activities[id := row];
      AppendEvent(stamp, e);
    }

    method CreateProject(id: Uuid, name: string, stamp: Stamp) returns (r: Result<Uuid>)
      requires Valid()
      modifies this
      ensures Valid()
      ensures Outcome(State(), r) == Store.CreateProject(old(State()), id, name)
    {
      ghost var s := State();
      if id in projects {
        r := Err(IntegrityError);
      } else {
        projects := projects[id := name];
        AppendEvent(stamp, Event(id, None, None, ProjectCreated(name)));
        r := Ok(id);
      }
      ReachStep(s, CallCreateProject(id, name));
    }

    method CreateQuestion(projectId: Uuid, key: string, title: string, problem: Artifact, id: Uuid, stamp: Stamp)
      returns (r: Result<Question>)
      requires Valid()
      modifies this
      ensures Valid()
      ensures Outcome(State(), r) == Store.CreateQuestion(old(State()), projectId, key, title, problem, id)
    {
      ghost var s := State();
      if problem.projectId != projectId || problem.kind != "problem" {
        r := Err(ValueError);
      } else if problem.id in artifacts || projectId !in projects || id in questions
        || exists q | q in questions :: questions[q].projectId == projectId && questions[q].key == key {
        r := Err(IntegrityError);
      } else {
        var row := Question(projectId, key, title, Pending, problem.id, 0, None, 1, None, None);
        artifacts := artifacts[problem.id := problem.(questionId := Some(id))];
        questions := questions[id := row];
        AppendEvent(stamp, Event(projectId, Some(id), None, QuestionCreated(key, title, problem.id)));
        r := Ok(row);
      }
      ReachStep(s, CallCreateQuestion(projectId, key, title, problem, id));
    }

    method RegisterArtifact(a: Artifact, stamp: Stamp) returns (r: Result<Artifact>)
      requires Valid()
      modifies this
      ensures Valid()
      ensures Outcome(State(), r) == Store.RegisterArtifact(old(State()), a)
    {
      ghost var s := State();
      if a.questionId.None? {
        r := Err(ValueError);
      } else if a.questionId.value !in questions {
        r := Err(NotFound);
      } else if questions[a.questionId.value].projectId != a.projectId {
        r := Err(ValueError);
      } else if a.id in artifacts || a.projectId !in projects {
        r := Err(IntegrityError);
      } else {
        artifacts := artifacts[a.id := a];
        AppendEvent(stamp, Event(a.projectId, a.questionId, a.activityId,
                                 ArtifactRegistered(a.id, a.kind, a.mediaType, a.sha256, a.sizeBytes)));
        r := Ok(a);
      }
      ReachStep(s, CallRegisterArtifact(a));
    }

    method AcquireQuestionLease(id: Uuid, worker: string, now: string, expires: string, stamp: Stamp) returns (r: Result<()>)
      requires Valid()
      modifies this
      ensures Valid()
      ensures Outcome(State(), r) == Store.AcquireQuestionLease(old(State()), id, worker, now, expires)
    {
      ghost var s := State();
      if id !in questions {
        r := Err(NotFound);
      } else {
        var row := questions[id];
        if row.leaseOwner.Some? && row.leaseOwner.value != worker && Truthy(row.leaseExpires)
          && Less(now, row.leaseExpires.value) {
          r := Err(LeasedByOther);
        } else {
          WriteQuestion(id, row.(leaseOwner := Some(worker), leaseExpires := Some(expires)), stamp,
                        Event(row.projectId, Some(id), None, LeaseAcquired(worker, expires)));
          r := Ok(());
        }
      }
      ReachStep(s, CallAcquire(id, worker, now, expires));
    }

    method RenewQuestionLease(id: Uuid, worker: string, now: string, expires: string) returns (r: Result<()>)
      requires Valid()
      modifies this
      ensures Valid() && rows == old(rows)
      ensures Outcome(State(), r) == Store.RenewQuestionLease(old(State()), id, worker, now, expires)
    {
      ghost var s := State();
      if id in questions && questions[id].leaseOwner == Some(worker) && questions[id].leaseExpires.Some?
        && Leq(now, questions[id].leaseExpires.value) {
        questions := questions[id := questions[id].(leaseExpires := Some(expires))];
        r := Ok(());
      } else {
        r := Err(LeaseLost);
      }
      ReachStep(s, CallRenew(id, worker, now, expires));
    }

    method ReleaseQuestionLease(id: Uuid, worker: string, stamp: Stamp)
      requires Valid()
      modifies this
      ensures Valid() && State() == Store.ReleaseQuestionLease(old(State()), id, worker).tables
    {
      ghost var s := State();
      if id in questions && questions[id].leaseOwner == Some(worker) {
        var row := questions[id];
        WriteQuestion(id, row.(leaseOwner := None, leaseExpires := None), stamp,
                      Event(row.projectId, Some(id), None, LeaseReleased(worker)));
      }
      ReachStep(s, CallRelease(id, worker));
    }

    method Transition(id: Uuid, worker: string, now: string, expected: set<QuestionState>, target: QuestionState,
                      revision: Option<int>, failureReason: Option<string>, stamp: Stamp) returns (r: Result<()>)
      requires Valid()
      modifies this
      ensures Valid()
      ensures Outcome(State(), r) == Store.Transition(old(State()), id, worker, now, expected, target, revision, failureReason)
    {
      ghost var s := State();
      var error := TransitionError(questions, id, worker, now, expected);
      TransitionCases(s, id, worker, now, expected, target, revision, failureReason);
      if error.Some? {
        r := Err(error.value);
      } else {
        var row := questions[id];
        var next := MovedRow(row, target, revision, failureReason);
        WriteQuestion(id, next, stamp,
                      Event(row.projectId, Some(id), None, Transitioned(row.state, target, next.revision, failureReason)));
        r := Ok(());
      }
      ReachStep(s, CallTransition(id, worker, now, expected, target, revision, failureReason));
    }

    /** With unique keys the row found is the row the specification means. */
    lemma SelectIsFind(r: Option<Uuid>, q: Uuid, stage: Stage, revision: int)
      requires Valid()
      requires r.Some? ==> r.value in activities && HasKey(activities[r.value], q, stage, revision)
      requires r.None? ==> forall i | i in activities :: !HasKey(activities[i], q, stage, revision)
      ensures r == FindActivity(State(), q, stage, revision)
    {
      ReachableInv(State());
      if r.Some? {
        KeyIsUnique(activities, r.value, FindActivity(State(), q, stage, revision).value, q, stage, revision);
      }
    }

    method GetOrCreateActivity(q: Uuid, projectId: Uuid, revision: int, stage: Stage, id: Uuid, now: string, stamp: Stamp)
      returns (r: Result<Uuid>)
      requires Valid()
      modifies this
      ensures Valid()
      ensures Outcome(State(), r) == Store.GetOrCreateActivity(old(State()), q, projectId, revision, stage, id, now)
    {
      ghost var s := State();
      var found := Select(activities, q, stage, revision);
      SelectIsFind(found, q, stage, revision);
      if found.Some? {
        r := Ok(found.value);
      } else if id in activities || projectId !in projects || q !in questions {
        r := Err(IntegrityError);
      } else {
        var row := Activity(projectId, q, stage, revision, StatusPending, 0, None, None, None, None, None, now);
        WriteActivity(id, row, stamp, Event(projectId, Some(q), Some(id),
                                            ActivityCreated(stage, revision, IdempotencyKey(q, stage, revision))));
        r := Ok(id);
      }
      ReachStep(s, CallGetOrCreate(q, projectId, revision, stage, id, now));
    }

    method ClaimActivity(id: Uuid, worker: string, now: string, expires: string, maxAttempts: nat, request: string,
                         stamp: Stamp) returns (r: Result<Activity>)
      requires Valid()
      modifies this
      ensures Valid()
      ensures Outcome(State(), r) == Store.ClaimActivity(old(State()), id, worker, now, expires, maxAttempts, request)
    {
      ghost var s := State();
      ClaimCases(s, id, worker, now, expires, maxAttempts, request);
      if id in activities && activities[id].status == Succeeded {
        r := Ok(activities[id]);
      } else {
        var error := ClaimError(activities, id, now, maxAttempts);
        if error.Some? {
          r := Err(error.value);
        } else {
          var row := activities[id];
          var claimed := Claimed(row, worker, expires, request);
          WriteActivity(id, claimed, stamp,
                        Event(row.projectId, Some(row.questionId), Some(id), ActivityClaimed(worker, claimed.attempts, expires)));
          r := Ok(claimed);
        }
      }
      ReachStep(s, CallClaim(id, worker, now, expires, maxAttempts, request));
    }

    method RenewActivityLease(id: Uuid, worker: string, now: string, expires: string, attempt: Option<nat>)
      returns (r: Result<()>)
      requires Valid()
      modifies this
      ensures Valid() && rows == old(rows)
      ensures Outcome(State(), r) == Store.RenewActivityLease(old(State()), id, worker, now, expires, attempt)
    {
      ghost var s := State();
      if id in activities && activities[id].worker == Some(worker) && activities[id].status == Running
        && (attempt.None? || activities[id].attempts == attempt.value)
        && activities[id].leaseExpires.Some? && Leq(now, activities[id].leaseExpires.value) {
        activities := activities[id := activities[id].(leaseExpires := Some(expires))];
        r := Ok(());
      } else {
        r := Err(LeaseLost);
      }
      ReachStep(s, CallRenewActivity(id, worker, now, expires, attempt));
    }

    /** The claim rows, the committed row and its event, once the produced artifacts are in. */
    method WriteCommit(id: Uuid, row: Activity, result: Response, produced: seq<Uuid>, stamp: Stamp) returns (done: Activity)
      requires LogSound()
      modifies this
      ensures LogSound()
      ensures done == row.(status := Succeeded, result := Some(result), worker := None, leaseExpires := None)
      ensures var s := old(State());
        var evidence := QuestionArtifacts(s, row.questionId) + Elements(produced);
        var s2 := s.(claims := InsertClaims(s.claims, row, id, result.claims, 0, evidence));
        State() == Append(UpdateActivity(s2, id, done),
                          Event(row.projectId, Some(row.questionId), Some(id), ActivitySucceeded(produced)))
    {
      var q := row.questionId;
      var evidence := (set a | a in artifacts && artifacts[a].questionId == Some(q)) + Elements(produced);
      assert evidence == QuestionArtifacts(State(), q) + Elements(produced);
      claims := InsertClaimRows(claims, row, id, result.claims, evidence);
      done := row.(status := Succeeded, result := Some(result), worker := None, leaseExpires := None);
      WriteActivity(id, done, stamp, Event(row.projectId, Some(q), Some(id), ActivitySucceeded(produced)));
    }

    /** The transaction of `complete_activity`. */
    method Complete(id: Uuid, worker: string, now: string, result: Response, produced: seq<Artifact>,
                    attempt: Option<nat>, stamp: Stamp) returns (r: Result<Activity>)
      requires LogSound()
      modifies this
      ensures LogSound()
      ensures Outcome(State(), r) == Store.CompleteActivity(old(State()), id, worker, now, result, produced, attempt)
    {
      if id !in activities {
        return Err(NotFound);
      }
      var row := activities[id];
      if row.status == Succeeded {
        return Ok(row);
      }
      if !HoldsClaim(row, worker, now, attempt) {
        return Err(LeaseLost);
      }
      var inserted := InsertArtifacts(State(), projects, artifacts, id, row.questionId, produced);
      if inserted.Err? {
        return Err(inserted.error);
      }
      artifacts := inserted.value;
      var done := WriteCommit(id, row, result, Ids(produced), stamp);
      return Ok(done);
    }

    method CompleteActivity(id: Uuid, worker: string, now: string, result: Response, produced: seq<Artifact>,
                            attempt: Option<nat>, stamp: Stamp) returns (r: Result<Activity>)
      requires Valid()
      modifies this
      ensures Valid()
      ensures Outcome(State(), r) == Store.CompleteActivity(old(State()), id, worker, now, result, produced, attempt)
    {
      ghost var s := State();
      r := Complete(id, worker, now, result, produced, attempt, stamp);
      ReachStep(s, CallComplete(id, worker, now, result, produced, attempt));
    }

    method FailActivity(id: Uuid, worker: string, now: string, error: string, attempt: Option<nat>, stamp: Stamp)
      returns (r: Result<Activity>)
      requires Valid()
      modifies this
      ensures Valid()
      ensures Outcome(State(), r) == Store.FailActivity(old(State()), id, worker, now, error, attempt)
    {
      ghost var s := State();
      if id !in activities {
        r := Err(NotFound);
      } else {
        var row := activities[id];
        if !HoldsClaim(row, worker, now, attempt) {
          r := Err(LeaseLost);
        } else {
          var text := if |error| <= 4000 then error else error[..4000];
          var failed := row.(status := StatusFailed, error := Some(text), worker := None, leaseExpires := None);
          WriteActivity(id, failed, stamp, Event(row.projectId, Some(row.questionId), Some(id), ActivityFailed(text)));
          r := Ok(failed);
        }
      }
      ReachStep(s, CallFail(id, worker, now, error, attempt));
    }

    // ---------- the checks an operator runs ----------

    /** A log that only `_append_event` wrote verifies with its full count. */
    method VerifyEventChain() returns (r: Result<nat>)
      requires Valid()
      ensures r == Ok(|rows|)
    {
      PrefixesVerify(H, rows);
      r := HashChain.VerifyEventChain(H, rows);
    }

    /** Over a store that only these methods changed, claim evidence never fails to verify. */
    method VerifyClaimEvidence(q: Uuid) returns (r: Result<nat>)
      requires Valid()
      ensures r == Ok(|ClaimsOf(claims, q)|)
    {
      forall c | c in claims && c.questionId == q ensures PointsInside(artifacts, q, c.evidence) {
        EvidencePointsInside(c);
      }
      r := CheckClaims(claims, artifacts, q);
    }

    lemma EvidencePointsInside(c: ClaimEvidence)
      requires Valid() && c in claims
      ensures PointsInside(artifacts, c.questionId, c.evidence)
    {
      ReachableInv(State());
      assert c.evidence <= QuestionArtifacts(State(), c.questionId);
    }

    /** End to end: whatever calls were made, the text of the log alone rebuilds the tables' view. */
    lemma LogTextRebuildsTables()
      requires Valid()
      ensures StoreAudit.Replay(Events(rows)) == StoreAudit.View(State())
    {
      var calls :| State() == Run(EMPTY, calls);
      StoreAudit.LogRebuildsTables(calls);
    }
  }
}
