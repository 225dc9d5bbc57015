/** What a committed activity says about the past: one call committed it, and its result, its produced artifacts
    and its claim evidence are exactly that call's. */
module CommitHistory {
  import opened Wrappers
  import opened Strings
  import opened Contracts
  import opened Store
  import opened Fencing
  import StoreAudit

  /** A completion of an open activity by the holder of its live attempt. */
  ghost predicate Commit(s: Tables, c: Call, id: Uuid) {
    && c.CallComplete? && c.id == id && id in s.activities && s.activities[id].status != Succeeded
    && HoldsClaim(s.activities[id], c.worker, c.now, c.attempt)
  }

  /** In the tables `t`, everything stored about `id` is what the call `c` committed, which led to the tables `u`. */
  ghost predicate Stores(t: Tables, u: Tables, c: Call, id: Uuid) {
    && c.CallComplete? && id in t.activities
    && t.activities[id].status == Succeeded && t.activities[id].result == Some(c.result)
    && Commits(t.events, id) == [Ids(c.artifacts)]
    && (forall x | x in c.artifacts :: x.id in t.artifacts && t.artifacts[x.id] == x)
    && StoredClaims(t.claims, id)
         == ClaimRows(t.activities[id], id, c.result.claims, 0, QuestionArtifacts(u, t.activities[id].questionId))
  }

  /** The evidence of a commit is every artifact of the question, the produced ones included. */
  lemma CommitEvidence(s: Tables, t: Tables, id: Uuid, result: Response, artifacts: seq<Artifact>)
    requires id in s.activities && CommitShape(s, t, id, result, artifacts)
    ensures var q := s.activities[id].questionId;
      QuestionArtifacts(InsertProduced(s, id, q, artifacts).value, q) + Elements(Ids(artifacts)) == QuestionArtifacts(t, q)
  {
    var q := s.activities[id].questionId;
    StoreAudit.InsertProducedAdds(s, id, q, artifacts);
    forall x | x in Elements(Ids(artifacts)) ensures x in QuestionArtifacts(t, q) {
      var i :| 0 <= i < |artifacts| && Ids(artifacts)[i] == x;
      assert artifacts[i].id == x;
    }
  }

  lemma CommitStoresClaims(s: Tables, t: Tables, id: Uuid, result: Response, artifacts: seq<Artifact>)
    requires Inv(s) && id in s.activities && s.activities[id].status != Succeeded && CommitShape(s, t, id, result, artifacts)
    ensures StoredClaims(t.claims, id)
      == ClaimRows(t.activities[id], id, result.claims, 0, QuestionArtifacts(t, t.activities[id].questionId))
  {
    var a := s.activities[id];
    assert ActivityInv(s, id);
    var evidence := QuestionArtifacts(t, a.questionId);
    CommitEvidence(s, t, id, result, artifacts);
    forall i | 0 <= i < |result.claims| ensures !HasClaim(s.claims, id, i) {
      NoStoredClaim(s.claims, id, i);
    }
    InsertClaimsAppends(s.claims, a, id, result.claims, 0, evidence);
    RowsIgnoreStatus(a, t.activities[id], id, result.claims, 0, evidence);
    var rows := ClaimRows(a, id, result.claims, 0, evidence);
    StoredClaimsConcat(s.claims, rows, id);
    ClaimRowsBelong(a, id, result.claims, 0, evidence, id);
  }

  lemma CommitStores(s: Tables, c: Call, id: Uuid)
    requires Inv(s) && Commit(s, c, id) && CompleteActivity(s, id, c.worker, c.now, c.result, c.artifacts, c.attempt).result.Ok?
    ensures var t := Store.After(s, c); Stores(t, t, c, id)
  {
    var t := Store.After(s, c);
    CompleteShape(s, id, c.worker, c.now, c.result, c.artifacts, c.attempt);
    CommitStoresClaims(s, t, id, c.result, c.artifacts);
    assert ActivityInv(s, id);
    LogAppend(s.events, t.events[|s.events|], id);
    StoreAudit.InsertProducedAdds(s, id, s.activities[id].questionId, c.artifacts);
    forall x | x in c.artifacts ensures x.id in t.artifacts && t.artifacts[x.id] == x {
      var i :| 0 <= i < |c.artifacts| && c.artifacts[i] == x;
    }
  }

  // ---------- nothing changes afterwards ----------

  /** Everything stored about `id` is the same in both tables. */
  ghost predicate SameStored(s: Tables, t: Tables, id: Uuid) {
    && id in s.activities && id in t.activities && t.activities[id] == s.activities[id]
    && Commits(t.events, id) == Commits(s.events, id)
    && StoredClaims(t.claims, id) == StoredClaims(s.claims, id)
    && (forall x | x in s.artifacts :: x in t.artifacts && t.artifacts[x] == s.artifacts[x])
  }

  lemma OtherCommit(s: Tables, c: Call, id: Uuid)
    requires Inv(s) && c.CallComplete? && id in s.activities && s.activities[id].status == Succeeded
    ensures SameStored(s, Store.After(s, c), id)
  {
    if c.id in s.activities && s.activities[c.id].status != Succeeded
      && CompleteActivity(s, c.id, c.worker, c.now, c.result, c.artifacts, c.attempt).result.Ok? {
      var t := Store.After(s, c);
      CompleteShape(s, c.id, c.worker, c.now, c.result, c.artifacts, c.attempt);
      CommitClaims(s, t, c.id, c.result, c.artifacts);
      LogAppend(s.events, t.events[|s.events|], id);
    }
  }

  lemma QuietCall(s: Tables, c: Call, id: Uuid)
    requires !c.CallComplete? && id in s.activities && s.activities[id].status == Succeeded
    ensures SameStored(s, Store.After(s, c), id)
  {
    var t := Store.After(s, c);
    SucceededStays(s, c, id);
    QuietEvents(s, c, id);
  }

  /** No other call logs a commit, stores a claim or changes an artifact. */
  lemma QuietEvents(s: Tables, c: Call, id: Uuid)
    requires !c.CallComplete?
    ensures var t := Store.After(s, c);
      && Commits(t.events, id) == Commits(s.events, id) && t.claims == s.claims
      && (forall x | x in s.artifacts :: x in t.artifacts && t.artifacts[x] == s.artifacts[x])
  {
    QuietTables(s, c);
    if Store.After(s, c).events != s.events {
      var e := OneEvent(s, c);
      LogAppend(s.events, e, id);
    }
  }

  lemma QuietTables(s: Tables, c: Call)
    requires !c.CallComplete?
    ensures var t := Store.After(s, c);
      t.claims == s.claims && forall x | x in s.artifacts :: x in t.artifacts && t.artifacts[x] == s.artifacts[x]
  {
  }

  lemma OneEvent(s: Tables, c: Call) returns (e: Event)
    requires !c.CallComplete? && Store.After(s, c).events != s.events
    ensures Store.After(s, c).events == s.events + [e] && !e.body.ActivitySucceeded?
  {
    e := Store.After(s, c).events[|s.events|];
  }

  lemma CallKeepsStored(s: Tables, c: Call, id: Uuid)
    requires Inv(s) && id in s.activities && s.activities[id].status == Succeeded
    ensures SameStored(s, Store.After(s, c), id)
  {
    if c.CallComplete? {
      OtherCommit(s, c, id);
    } else {
      QuietCall(s, c, id);
    }
  }

  lemma StoredStays(t: Tables, next: Tables, u: Tables, c: Call, id: Uuid)
    requires Stores(t, u, c, id) && SameStored(t, next, id)
    ensures Stores(next, u, c, id)
  {
  }

  /** An activity that becomes committed was committed by this very call. */
  lemma BecomesCommitted(s: Tables, c: Call, id: Uuid)
    requires Inv(s) && (id in s.activities ==> s.activities[id].status != Succeeded)
    requires id in Store.After(s, c).activities && Store.After(s, c).activities[id].status == Succeeded
    ensures Commit(s, c, id) && Stores(Store.After(s, c), Store.After(s, c), c, id)
  {
    if id !in s.activities {
      NewRowIsOpen(s, c, id);
    }
    if !(c.CallComplete? && c.id == id) {
      OtherCallsDoNotCommit(s, c, id);
    }
    CompleteShape(s, id, c.worker, c.now, c.result, c.artifacts, c.attempt);
    CommitStores(s, c, id);
  }

  lemma NewRowIsOpen(s: Tables, c: Call, id: Uuid)
    requires id !in s.activities && id in Store.After(s, c).activities
    ensures Store.After(s, c).activities[id].status == StatusPending
  {
    if c.CallComplete? && CompleteActivity(s, c.id, c.worker, c.now, c.result, c.artifacts, c.attempt).result.Ok?
      && s.activities[c.id].status != Succeeded {
      CompleteShape(s, c.id, c.worker, c.now, c.result, c.artifacts, c.attempt);
    }
  }

  // ---------- main result ----------

  /** Call `k` committed activity `id`, and what is stored about it after all calls is exactly what it committed. */
  ghost predicate CommittedBy(calls: seq<Call>, k: nat, id: Uuid) {
    && k < |calls|
    && Commit(Run(EMPTY, calls[..k]), calls[k], id)
    && Stores(Run(EMPTY, calls), Run(EMPTY, calls[..k + 1]), calls[k], id)
  }

  /** In every reachable store a committed activity has one committing call, by the holder of its live attempt; the
      stored result is that call's result, the stored artifacts are its artifacts, the log has its one commit, and
      the claim evidence is its non-blank claims, each with every artifact the question had at that moment. */
  lemma {:induction false} CommitIsOneCall(calls: seq<Call>, id: Uuid) returns (k: nat)
    requires id in Run(EMPTY, calls).activities && Run(EMPTY, calls).activities[id].status == Succeeded
    ensures CommittedBy(calls, k, id)
    decreases |calls|
  {
    var n := |calls| - 1;
    var before, c := calls[..n], calls[n];
    var s := Run(EMPTY, before);
    ReachableInv(before);
    if id in s.activities && s.activities[id].status == Succeeded {
      k := CommitIsOneCall(before, id);
      assert before[..k] == calls[..k] && before[..k + 1] == calls[..k + 1] && before[k] == calls[k];
      CallKeepsStored(s, c, id);
      StoredStays(s, Run(EMPTY, calls), Run(EMPTY, calls[..k + 1]), calls[k], id);
    } else {
      k := n;
      BecomesCommitted(s, c, id);
      assert calls[..n + 1] == calls;
    }
  }
}
