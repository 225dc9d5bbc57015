/** Attempts, commits and claim evidence in every reachable store: attempts are handed out as 1, 2, 3, ...;
    only the newest live attempt commits; a committed activity never changes again; and its evidence stays
    inside its question. */
module Fencing {
  import opened Wrappers
  import opened Strings
  import opened Contracts
  import opened Store
  import StoreAudit

  // ---------- what the log says about one activity ----------

  /** The claims granted for activity `id`, in order: who claimed and which attempt number was handed out. */
  function Grants(events: seq<Event>, id: Uuid): seq<(string, int)>
    decreases |events|
  {
    if events == [] then []
    else
      var before, e := Grants(events[..|events| - 1], id), events[|events| - 1];
      if e.activityId == Some(id) && e.body.ActivityClaimed? then before + [(e.body.workerId, e.body.attempt)] else before
  }

  /** The commits of activity `id`: the artifact ids of each success event. */
  function Commits(events: seq<Event>, id: Uuid): seq<seq<Uuid>>
    decreases |events|
  {
    if events == [] then []
    else
      var before, e := Commits(events[..|events| - 1], id), events[|events| - 1];
      if e.activityId == Some(id) && e.body.ActivitySucceeded? then before + [e.body.artifactIds] else before
  }

  lemma LogAppend(events: seq<Event>, e: Event, id: Uuid)
    ensures Grants(events + [e], id) == Grants(events, id) +
      (if e.activityId == Some(id) && e.body.ActivityClaimed? then [(e.body.workerId, e.body.attempt)] else [])
    ensures Commits(events + [e], id) == Commits(events, id) +
      (if e.activityId == Some(id) && e.body.ActivitySucceeded? then [e.body.artifactIds] else [])
  {
    assert (events + [e])[..|events|] == events;
  }

  // ---------- claim evidence ----------

  /** The rows that the non-blank claims of a result give rise to, from position `index` on. */
  function ClaimRows(row: Activity, id: Uuid, claims: seq<string>, index: nat, evidence: set<Uuid>): seq<ClaimEvidence>
    requires index <= |claims|
    decreases |claims| - index
  {
    if index == |claims| then []
    else
      var rest := ClaimRows(row, id, claims, index + 1, evidence);
      var text := Strip(claims[index]);
      if text == "" then rest
      else [ClaimEvidence(row.projectId, row.questionId, id, row.revision, index, text, evidence)] + rest
  }

  function StoredClaims(claims: seq<ClaimEvidence>, id: Uuid): seq<ClaimEvidence>
    decreases |claims|
  {
    if claims == [] then []
    else if claims[0].activityId == id then [claims[0]] + StoredClaims(claims[1..], id)
    else StoredClaims(claims[1..], id)
  }

  lemma {:induction false} StoredClaimsConcat(a: seq<ClaimEvidence>, b: seq<ClaimEvidence>, id: Uuid)
    ensures StoredClaims(a + b, id) == StoredClaims(a, id) + StoredClaims(b, id)
    decreases |a|
  {
    if a == [] {
      assert a + b == b;
    } else {
      assert (a + b)[1..] == a[1..] + b;
      StoredClaimsConcat(a[1..], b, id);
    }
  }

  lemma {:induction false} ClaimRowsBelong(row: Activity, id: Uuid, claims: seq<string>, index: nat, evidence: set<Uuid>, other: Uuid)
    requires index <= |claims|
    ensures var rows := ClaimRows(row, id, claims, index, evidence);
      && StoredClaims(rows, other) == (if other == id then rows else [])
      && forall c | c in rows :: c.questionId == row.questionId && c.evidence == evidence && c.activityId == id
    decreases |claims| - index
  {
    if index < |claims| {
      ClaimRowsBelong(row, id, claims, index + 1, evidence, other);
    }
  }

  lemma {:induction false} NoStoredClaim(claims: seq<ClaimEvidence>, id: Uuid, index: nat)
    requires StoredClaims(claims, id) == []
    ensures !HasClaim(claims, id, index)
    decreases |claims|
  {
    if claims != [] {
      NoStoredClaim(claims[1..], id, index);
      assert forall c | c in claims :: c == claims[0] || c in claims[1..];
    }
  }

  /** On a first commit the INSERT OR IGNORE never ignores: the new rows are exactly the non-blank claims. */
  lemma {:induction false} InsertClaimsAppends(table: seq<ClaimEvidence>, row: Activity, id: Uuid, claims: seq<string>, index: nat,
                            evidence: set<Uuid>)
    requires index <= |claims|
    requires forall i | index <= i < |claims| :: !HasClaim(table, id, i)
    ensures InsertClaims(table, row, id, claims, index, evidence)
         == table + ClaimRows(row, id, claims, index, evidence)
    decreases |claims| - index
  {
    if index < |claims| {
      var text := Strip(claims[index]);
      if text == "" {
        InsertClaimsAppends(table, row, id, claims, index + 1, evidence);
      } else {
        var c := ClaimEvidence(row.projectId, row.questionId, id, row.revision, index, text, evidence);
        forall i | index + 1 <= i < |claims| ensures !HasClaim(table + [c], id, i) {
          assert forall x | x in table + [c] :: x in table || x == c;
          assert !HasClaim(table, id, i);
        }
        InsertClaimsAppends(table + [c], row, id, claims, index + 1, evidence);
      }
    }
  }

  // ---------- the invariant ----------

  ghost predicate StatusColumns(a: Activity) {
    && (a.status == Running <==> a.worker.Some?)
    && (a.status == Running <==> a.leaseExpires.Some?)
    && (a.status == Succeeded <==> a.result.Some?)
    && (a.status == StatusPending <==> a.attempts == 0)
  }

  /** Attempts 1, 2, ..., n were granted in this order, the last one to the current holder. */
  ghost predicate AttemptsLogged(events: seq<Event>, id: Uuid, a: Activity) {
    var grants := Grants(events, id);
    && |grants| == a.attempts
    && (forall i | 0 <= i < |grants| :: grants[i].1 == i + 1)
    && (a.status == Running ==> |grants| > 0 && a.worker == Some(grants[|grants| - 1].0))
  }

  ghost predicate CommitLogged(s: Tables, id: Uuid, a: Activity) {
    var commits := Commits(s.events, id);
    && |commits| == (if a.status == Succeeded then 1 else 0)
    && (a.status == Succeeded ==> forall x | x in commits[0] ::
          x in s.artifacts && s.artifacts[x].activityId == Some(id) && s.artifacts[x].questionId == Some(a.questionId))
  }

  ghost predicate ClaimsStored(s: Tables, id: Uuid, a: Activity) {
    if a.status == Succeeded && a.result.Some? then
      exists evidence :: evidence <= QuestionArtifacts(s, a.questionId)
                         && StoredClaims(s.claims, id) == ClaimRows(a, id, a.result.value.claims, 0, evidence)
    else StoredClaims(s.claims, id) == []
  }

  ghost predicate ActivityInv(s: Tables, id: Uuid)
    requires id in s.activities
  {
    var a := s.activities[id];
    && a.questionId in s.questions
    && StatusColumns(a)
    && AttemptsLogged(s.events, id, a)
    && CommitLogged(s, id, a)
    && ClaimsStored(s, id, a)
  }

  ghost predicate NoTrace(s: Tables, id: Uuid) {
    Grants(s.events, id) == [] && Commits(s.events, id) == [] && StoredClaims(s.claims, id) == []
  }

  ghost predicate EvidenceInside(s: Tables) {
    forall c | c in s.claims :: c.evidence <= QuestionArtifacts(s, c.questionId)
  }

  ghost predicate Inv(s: Tables) {
    && UniqueKeys(s.activities)
    && (forall id | id in s.activities :: ActivityInv(s, id))
    && (forall id | id !in s.activities :: NoTrace(s, id))
    && EvidenceInside(s)
  }

  /** `t` extends `s`: rows are only added to the artifact table, and every other question stays. */
  ghost predicate Grows(s: Tables, t: Tables) {
    && s.questions.Keys <= t.questions.Keys
    && s.artifacts.Keys <= t.artifacts.Keys
    && (forall x | x in s.artifacts :: t.artifacts[x] == s.artifacts[x])
  }

  lemma GrowsKeepsArtifacts(s: Tables, t: Tables, q: Uuid)
    requires Grows(s, t)
    ensures QuestionArtifacts(s, q) <= QuestionArtifacts(t, q)
  {
  }

  /** A call that leaves row `id` and its trace alone keeps its part of the invariant. */
  lemma ActivityFrame(s: Tables, t: Tables, id: Uuid)
    requires id in s.activities && id in t.activities && t.activities[id] == s.activities[id]
    requires ActivityInv(s, id)
    requires Grows(s, t) && StoredClaims(t.claims, id) == StoredClaims(s.claims, id)
    requires Grants(t.events, id) == Grants(s.events, id) && Commits(t.events, id) == Commits(s.events, id)
    ensures ActivityInv(t, id)
  {
    var a := s.activities[id];
    GrowsKeepsArtifacts(s, t, a.questionId);
    if a.status == Succeeded {
      var evidence :| evidence <= QuestionArtifacts(s, a.questionId)
                      && StoredClaims(s.claims, id) == ClaimRows(a, id, a.result.value.claims, 0, evidence);
      assert evidence <= QuestionArtifacts(t, a.questionId);
    }
  }

  /** Calls that touch neither the activity table nor the claim table. */
  lemma OtherTables(s: Tables, t: Tables)
    requires Inv(s)
    requires t.activities == s.activities && t.claims == s.claims && Grows(s, t)
    requires t.events == s.events
          || (|t.events| == |s.events| + 1 && t.events[..|s.events|] == s.events
              && !t.events[|s.events|].body.ActivityClaimed? && !t.events[|s.events|].body.ActivitySucceeded?)
    ensures Inv(t)
  {
    forall id ensures Grants(t.events, id) == Grants(s.events, id) && Commits(t.events, id) == Commits(s.events, id) {
      if t.events != s.events {
        LogAppend(s.events, t.events[|s.events|], id);
        assert t.events == s.events + [t.events[|s.events|]];
      }
    }
    forall id | id in t.activities ensures ActivityInv(t, id) {
      ActivityFrame(s, t, id);
    }
    forall c | c in t.claims ensures c.evidence <= QuestionArtifacts(t, c.questionId) {
      GrowsKeepsArtifacts(s, t, c.questionId);
    }
  }

  lemma ShortLog(events: seq<Event>, log: seq<Event>, id: Uuid, other: Uuid)
    requires |log| <= 1 && forall e | e in log :: e.activityId == Some(id) && !e.body.ActivitySucceeded?
    ensures other != id ==> Grants(events + log, other) == Grants(events, other)
    ensures Commits(events + log, other) == Commits(events, other)
  {
    if log == [] {
      assert events + log == events;
    } else {
      assert log[0] in log;
      LogAppend(events, log[0], other);
      assert events + log == events + [log[0]];
    }
  }

  lemma NothingStored(s: Tables, id: Uuid)
    requires Inv(s) && (id in s.activities ==> s.activities[id].status != Succeeded)
    ensures StoredClaims(s.claims, id) == [] && Commits(s.events, id) == []
  {
    if id in s.activities {
      assert ActivityInv(s, id);
    } else {
      assert NoTrace(s, id);
    }
  }

  /** Calls that change one activity row and append at most one event, about that row. */
  lemma OneRow(s: Tables, t: Tables, id: Uuid, log: seq<Event>)
    requires Inv(s)
    requires id in t.activities && t == s.(activities := s.activities[id := t.activities[id]], events := s.events + log)
    requires |log| <= 1 && forall e | e in log :: e.activityId == Some(id) && !e.body.ActivitySucceeded?
    requires UniqueKeys(t.activities)
    requires t.activities[id].questionId in s.questions && StatusColumns(t.activities[id])
    requires t.activities[id].status != Succeeded
    requires id in s.activities ==> s.activities[id].status != Succeeded
    requires AttemptsLogged(t.events, id, t.activities[id])
    ensures Inv(t)
  {
    forall other
      ensures other != id ==> Grants(t.events, other) == Grants(s.events, other)
      ensures Commits(t.events, other) == Commits(s.events, other)
    {
      ShortLog(s.events, log, id, other);
    }
    forall other | other in t.activities ensures ActivityInv(t, other) {
      if other != id {
        ActivityFrame(s, t, other);
      } else {
        NothingStored(s, id);
      }
    }
    forall c | c in t.claims ensures c.evidence <= QuestionArtifacts(t, c.questionId) {
      GrowsKeepsArtifacts(s, t, c.questionId);
    }
  }

  lemma SameKeysUnique(activities: map<Uuid, Activity>, id: Uuid, row: Activity)
    requires UniqueKeys(activities) && id in activities
    requires row.questionId == activities[id].questionId && row.stage == activities[id].stage
      && row.revision == activities[id].revision
    ensures UniqueKeys(activities[id := row])
  {
  }

  lemma CreateKeepsInv(s: Tables, q: Uuid, p: Uuid, revision: int, stage: Stage, id: Uuid, now: string)
    requires Inv(s)
    ensures Inv(GetOrCreateActivity(s, q, p, revision, stage, id, now).tables)
  {
    var t := GetOrCreateActivity(s, q, p, revision, stage, id, now).tables;
    if t != s {
      var e := t.events[|s.events|];
      LogAppend(s.events, e, id);
      assert NoTrace(s, id);
      OneRow(s, t, id, [e]);
    }
  }

  lemma ClaimKeepsInv(s: Tables, id: Uuid, w: string, now: string, expires: string, max: nat, request: string)
    requires Inv(s)
    ensures Inv(ClaimActivity(s, id, w, now, expires, max, request).tables)
  {
    var t := ClaimActivity(s, id, w, now, expires, max, request).tables;
    if t != s {
      var e := t.events[|s.events|];
      assert ActivityInv(s, id);
      LogAppend(s.events, e, id);
      SameKeysUnique(s.activities, id, t.activities[id]);
      OneRow(s, t, id, [e]);
    }
  }

  lemma RenewKeepsInv(s: Tables, id: Uuid, w: string, now: string, expires: string, attempt: Option<nat>)
    requires Inv(s)
    ensures Inv(RenewActivityLease(s, id, w, now, expires, attempt).tables)
  {
    var out := RenewActivityLease(s, id, w, now, expires, attempt);
    if out.result.Ok? {
      assert ActivityInv(s, id);
      SameKeysUnique(s.activities, id, out.tables.activities[id]);
      assert out.tables.events == s.events + [];
      OneRow(s, out.tables, id, []);
    }
  }

  lemma FailKeepsInv(s: Tables, id: Uuid, w: string, now: string, error: string, attempt: Option<nat>)
    requires Inv(s)
    ensures Inv(FailActivity(s, id, w, now, error, attempt).tables)
  {
    var t := FailActivity(s, id, w, now, error, attempt).tables;
    if t != s {
      var e := t.events[|s.events|];
      assert ActivityInv(s, id);
      LogAppend(s.events, e, id);
      SameKeysUnique(s.activities, id, t.activities[id]);
      OneRow(s, t, id, [e]);
    }
  }

  // ---------- committing ----------

  ghost predicate CommitShape(s: Tables, t: Tables, id: Uuid, result: Response, artifacts: seq<Artifact>)
    requires id in s.activities
  {
    var a := s.activities[id];
    && InsertProduced(s, id, a.questionId, artifacts).Ok?
    && var s1 := InsertProduced(s, id, a.questionId, artifacts).value;
    && var evidence := QuestionArtifacts(s1, a.questionId) + Elements(Ids(artifacts));
    && t == Tables(s.projects, s.questions,
                   s.activities[id := a.(status := Succeeded, result := Some(result), worker := None, leaseExpires := None)],
                   s1.artifacts,
                   InsertClaims(s.claims, a, id, result.claims, 0, evidence),
                   s.events + [Event(a.projectId, Some(a.questionId), Some(id), ActivitySucceeded(Ids(artifacts)))])
  }

  lemma CompleteShape(s: Tables, id: Uuid, w: string, now: string, result: Response, artifacts: seq<Artifact>,
                      attempt: Option<nat>)
    requires id in s.activities && s.activities[id].status != Succeeded
    requires CompleteActivity(s, id, w, now, result, artifacts, attempt).result.Ok?
    ensures CommitShape(s, CompleteActivity(s, id, w, now, result, artifacts, attempt).tables, id, result, artifacts)
    ensures HoldsClaim(s.activities[id], w, now, attempt)
  {
    StoreAudit.InsertProducedAdds(s, id, s.activities[id].questionId, artifacts);
  }

  lemma CommitClaims(s: Tables, t: Tables, id: Uuid, result: Response, artifacts: seq<Artifact>)
    requires id in s.activities && s.activities[id].status != Succeeded && Inv(s)
    requires CommitShape(s, t, id, result, artifacts)
    ensures Grows(s, t)
    ensures ClaimsStored(t, id, t.activities[id])
    ensures EvidenceInside(t)
    ensures forall other | other != id :: StoredClaims(t.claims, other) == StoredClaims(s.claims, other)
  {
    var a := s.activities[id];
    assert ActivityInv(s, id);
    StoreAudit.InsertProducedAdds(s, id, a.questionId, artifacts);
    var evidence := QuestionArtifacts(t, a.questionId) + Elements(Ids(artifacts));
    assert evidence <= QuestionArtifacts(t, a.questionId) by {
      forall x | x in Elements(Ids(artifacts)) ensures x in QuestionArtifacts(t, a.questionId) {
        var i :| 0 <= i < |artifacts| && Ids(artifacts)[i] == x;
        assert artifacts[i].id == x;
      }
    }
    forall i | 0 <= i < |result.claims| ensures !HasClaim(s.claims, id, i) {
      NoStoredClaim(s.claims, id, i);
    }
    InsertClaimsAppends(s.claims, a, id, result.claims, 0, evidence);
    var rows := ClaimRows(a, id, result.claims, 0, evidence);
    RowsIgnoreStatus(a, t.activities[id], id, result.claims, 0, evidence);
    forall other ensures StoredClaims(t.claims, other) == StoredClaims(s.claims, other) + (if other == id then rows else []) {
      StoredClaimsConcat(s.claims, rows, other);
      ClaimRowsBelong(a, id, result.claims, 0, evidence, other);
    }
    ClaimRowsBelong(a, id, result.claims, 0, evidence, id);
    forall c | c in t.claims ensures c.evidence <= QuestionArtifacts(t, c.questionId) {
      if c in s.claims { GrowsKeepsArtifacts(s, t, c.questionId); } else { assert c in rows; }
    }
  }

  lemma {:induction false} RowsIgnoreStatus(a: Activity, b: Activity, id: Uuid, claims: seq<string>, index: nat, evidence: set<Uuid>)
    requires index <= |claims|
    requires a.projectId == b.projectId && a.questionId == b.questionId && a.revision == b.revision
    ensures ClaimRows(a, id, claims, index, evidence) == ClaimRows(b, id, claims, index, evidence)
    decreases |claims| - index
  {
    if index < |claims| {
      RowsIgnoreStatus(a, b, id, claims, index + 1, evidence);
    }
  }

  lemma CommitRow(s: Tables, t: Tables, id: Uuid, result: Response, artifacts: seq<Artifact>)
    requires id in s.activities && s.activities[id].status == Running && Inv(s)
    requires CommitShape(s, t, id, result, artifacts)
    requires ClaimsStored(t, id, t.activities[id]) && Grows(s, t)
    ensures ActivityInv(t, id)
  {
    var a := s.activities[id];
    assert ActivityInv(s, id);
    StoreAudit.InsertProducedAdds(s, id, a.questionId, artifacts);
    LogAppend(s.events, t.events[|s.events|], id);
    assert Commits(s.events, id) == [];
    forall x | x in Commits(t.events, id)[0]
      ensures x in t.artifacts && t.artifacts[x].activityId == Some(id) && t.artifacts[x].questionId == Some(a.questionId)
    {
      var i :| 0 <= i < |artifacts| && Ids(artifacts)[i] == x;
      assert artifacts[i].id == x;
    }
  }

  lemma CompleteKeepsInv(s: Tables, id: Uuid, w: string, now: string, result: Response, artifacts: seq<Artifact>,
                         attempt: Option<nat>)
    requires Inv(s)
    ensures Inv(CompleteActivity(s, id, w, now, result, artifacts, attempt).tables)
  {
    var out := CompleteActivity(s, id, w, now, result, artifacts, attempt);
    if out.result.Ok? && id in s.activities && s.activities[id].status != Succeeded {
      var t := out.tables;
      CompleteShape(s, id, w, now, result, artifacts, attempt);
      CommitClaims(s, t, id, result, artifacts);
      CommitRow(s, t, id, result, artifacts);
      SameKeysUnique(s.activities, id, t.activities[id]);
      forall other | other != id
        ensures Grants(t.events, other) == Grants(s.events, other)
        ensures Commits(t.events, other) == Commits(s.events, other)
      {
        LogAppend(s.events, t.events[|s.events|], other);
      }
      forall other | other in t.activities ensures ActivityInv(t, other) {
        if other != id {
          ActivityFrame(s, t, other);
        }
      }
    }
  }

  /** The calls that write neither activities nor claims. */
  predicate ActivityCall(c: Call) {
    c.CallGetOrCreate? || c.CallClaim? || c.CallRenewActivity? || c.CallComplete? || c.CallFail?
  }

  /** No activity, claim or activity event is added, nothing is lost. */
  ghost predicate OtherShape(s: Tables, t: Tables) {
    && t.activities == s.activities && t.claims == s.claims && Grows(s, t)
    && (t.events == s.events
        || (|t.events| == |s.events| + 1 && t.events[..|s.events|] == s.events
            && !t.events[|s.events|].body.ActivityClaimed? && !t.events[|s.events|].body.ActivitySucceeded?))
  }

  lemma CreateShape(s: Tables, c: Call)
    requires c.CallCreateProject? || c.CallCreateQuestion? || c.CallRegisterArtifact?
    ensures OtherShape(s, After(s, c))
  {
  }

  lemma LeaseShape(s: Tables, c: Call)
    requires c.CallAcquire? || c.CallRenew? || c.CallRelease? || c.CallTransition?
    ensures OtherShape(s, After(s, c))
  {
  }

  lemma OtherCallShape(s: Tables, c: Call)
    requires !ActivityCall(c)
    ensures OtherShape(s, After(s, c))
  {
    if c.CallCreateProject? || c.CallCreateQuestion? || c.CallRegisterArtifact? {
      CreateShape(s, c);
    } else {
      LeaseShape(s, c);
    }
  }

  lemma CallKeepsInv(s: Tables, c: Call)
    requires Inv(s)
    ensures Inv(After(s, c))
  {
    match c {
      case CallGetOrCreate(q, p, revision, stage, id, now) => CreateKeepsInv(s, q, p, revision, stage, id, now);
      case CallClaim(id, w, now, expires, max, request) => ClaimKeepsInv(s, id, w, now, expires, max, request);
      case CallRenewActivity(id, w, now, expires, attempt) => RenewKeepsInv(s, id, w, now, expires, attempt);
      case CallComplete(id, w, now, result, artifacts, attempt) => CompleteKeepsInv(s, id, w, now, result, artifacts, attempt);
      case CallFail(id, w, now, error, attempt) => FailKeepsInv(s, id, w, now, error, attempt);
      case _ =>
        OtherCallShape(s, c);
        OtherTables(s, After(s, c));
    }
  }

  lemma {:induction false} ReachableInv(calls: seq<Call>)
    ensures Inv(Run(EMPTY, calls))
    decreases |calls|
  {
    if calls != [] {
      ReachableInv(calls[..|calls| - 1]);
      CallKeepsInv(Run(EMPTY, calls[..|calls| - 1]), calls[|calls| - 1]);
    }
  }

  // ---------- main results ----------

  /** Every reachable store granted attempts 1..n of each activity, once each, and committed it at most once. */
  lemma AttemptsAreConsecutive(calls: seq<Call>, id: Uuid)
    ensures var s := Run(EMPTY, calls);
      && (forall i | 0 <= i < |Grants(s.events, id)| :: Grants(s.events, id)[i].1 == i + 1)
      && |Grants(s.events, id)| == (if id in s.activities then s.activities[id].attempts else 0)
      && |Commits(s.events, id)| == (if id in s.activities && s.activities[id].status == Succeeded then 1 else 0)
  {
    ReachableInv(calls);
    var s := Run(EMPTY, calls);
    if id in s.activities {
      assert ActivityInv(s, id);
    } else {
      assert NoTrace(s, id);
    }
  }

  lemma OtherCallsDoNotCommit(s: Tables, c: Call, id: Uuid)
    requires id in s.activities && s.activities[id].status != Succeeded
    requires !(c.CallComplete? && c.id == id)
    ensures id in After(s, c).activities && After(s, c).activities[id].status != Succeeded
  {
    if !ActivityCall(c) {
      OtherCallShape(s, c);
    } else if c.CallComplete? && c.id in s.activities && s.activities[c.id].status != Succeeded
      && CompleteActivity(s, c.id, c.worker, c.now, c.result, c.artifacts, c.attempt).result.Ok? {
      CompleteShape(s, c.id, c.worker, c.now, c.result, c.artifacts, c.attempt);
    }
  }

  /** The only call that commits is a completion by the holder of the newest granted attempt, while it is live. */
  lemma OnlyNewestLiveAttemptCommits(s: Tables, c: Call, id: Uuid)
    requires Inv(s) && id in s.activities && s.activities[id].status != Succeeded
    requires id in After(s, c).activities && After(s, c).activities[id].status == Succeeded
    ensures c.CallComplete? && c.id == id && Live(s.activities[id], c.now)
    ensures var grants := Grants(s.events, id);
      && |grants| > 0 && grants[|grants| - 1].0 == c.worker
      && (c.attempt.Some? ==> c.attempt.value == grants[|grants| - 1].1)
    ensures After(s, c).activities[id].result == Some(c.result)
    ensures Commits(After(s, c).events, id) == [Ids(c.artifacts)]
  {
    assert ActivityInv(s, id);
    if !(c.CallComplete? && c.id == id) {
      OtherCallsDoNotCommit(s, c, id);
    }
    CompleteShape(s, id, c.worker, c.now, c.result, c.artifacts, c.attempt);
    LogAppend(s.events, After(s, c).events[|s.events|], id);
    assert Commits(s.events, id) == [];
    LessTotal(c.now, s.activities[id].leaseExpires.value);
  }

  lemma SucceededStays(s: Tables, c: Call, id: Uuid)
    requires id in s.activities && s.activities[id].status == Succeeded
    ensures id in After(s, c).activities && After(s, c).activities[id] == s.activities[id]
  {
    if c.CallComplete? && c.id in s.activities && s.activities[c.id].status != Succeeded
      && CompleteActivity(s, c.id, c.worker, c.now, c.result, c.artifacts, c.attempt).result.Ok? {
      CompleteShape(s, c.id, c.worker, c.now, c.result, c.artifacts, c.attempt);
    }
  }

  /** SUCCEEDED is absorbing: the row, and with it the committed result, never changes again. */
  lemma {:induction false} SucceededIsAbsorbing(s: Tables, calls: seq<Call>, id: Uuid)
    requires id in s.activities && s.activities[id].status == Succeeded
    ensures id in Run(s, calls).activities && Run(s, calls).activities[id] == s.activities[id]
    decreases |calls|
  {
    if calls != [] {
      SucceededIsAbsorbing(s, calls[..|calls| - 1], id);
      SucceededStays(Run(s, calls[..|calls| - 1]), calls[|calls| - 1], id);
    }
  }

  /** A superseded attempt number can neither commit nor fail the activity: both calls change nothing. */
  lemma StaleAttemptIsFenced(s: Tables, id: Uuid, w: string, now: string, result: Response, artifacts: seq<Artifact>,
                             error: string, attempt: nat)
    requires id in s.activities && s.activities[id].attempts != attempt
    ensures CompleteActivity(s, id, w, now, result, artifacts, Some(attempt)).tables == s
    ensures FailActivity(s, id, w, now, error, Some(attempt)) == Outcome(s, Err(LeaseLost))
    ensures s.activities[id].status != Succeeded ==>
      CompleteActivity(s, id, w, now, result, artifacts, Some(attempt)).result == Err(LeaseLost)
  {
  }

  ghost predicate ClaimsWithin(calls: seq<Call>, max: nat) {
    forall c | c in calls :: c.CallClaim? ==> c.maxAttempts <= max
  }

  /** No activity is ever granted more attempts than the configured maximum. */
  lemma {:induction false} AttemptsAreBounded(calls: seq<Call>, max: nat, id: Uuid)
    requires ClaimsWithin(calls, max)
    ensures var s := Run(EMPTY, calls); id in s.activities ==> s.activities[id].attempts <= max
    decreases |calls|
  {
    if calls != [] {
      var before, c := calls[..|calls| - 1], calls[|calls| - 1];
      AttemptsAreBounded(before, max, id);
      var s := Run(EMPTY, before);
      if c.CallComplete? && c.id in s.activities && s.activities[c.id].status != Succeeded
        && CompleteActivity(s, c.id, c.worker, c.now, c.result, c.artifacts, c.attempt).result.Ok? {
        CompleteShape(s, c.id, c.worker, c.now, c.result, c.artifacts, c.attempt);
      }
    }
  }

  /** Every stored evidence row of every question points only to artifacts of that question, and an activity has claim
      rows exactly for its result's non-blank claims. Which evidence they hold is `CommitHistory.CommitIsOneCall`. */
  lemma EvidenceIsExactAndInside(calls: seq<Call>, id: Uuid)
    ensures var s := Run(EMPTY, calls);
      && (forall c | c in s.claims :: c.evidence <= QuestionArtifacts(s, c.questionId))
      && (id in s.activities && s.activities[id].result.Some? ==>
            exists evidence :: StoredClaims(s.claims, id)
              == ClaimRows(s.activities[id], id, s.activities[id].result.value.claims, 0, evidence))
      && (id in s.activities && s.activities[id].result.None? ==> StoredClaims(s.claims, id) == [])
  {
    ReachableInv(calls);
    var s := Run(EMPTY, calls);
    if id in s.activities {
      assert ActivityInv(s, id);
    }
  }
}
