/** What a granted lease is worth, on the calls that follow: until it runs out its holder succeeds and nobody else does. */
module LeaseGrants {
  import opened Wrappers
  import opened Strings
  import opened Contracts
  import opened Store
  import StoreAudit

  // ---------- question leases ----------

  /** The holder renews and moves the question up to this time, and nobody else acquires it before. */
  ghost predicate LeaseWorks(t: Tables, id: Uuid, worker: string, expires: string) {
    && id in t.questions
    && (forall later, next | Leq(later, expires) :: RenewQuestionLease(t, id, worker, later, next).result == Ok(()))
    && (forall later, expected, target, revision, reason
          | Leq(later, expires) && expires != "" && t.questions[id].state in expected ::
          Transition(t, id, worker, later, expected, target, revision, reason).result == Ok(()))
    && (forall other, later, next | other != worker && Less(later, expires) ::
          AcquireQuestionLease(t, id, other, later, next).result == Err(LeasedByOther))
  }

  ghost predicate Holds(t: Tables, id: Uuid, worker: string, expires: string) {
    id in t.questions && t.questions[id].leaseOwner == Some(worker) && t.questions[id].leaseExpires == Some(expires)
  }

  lemma NotLater(a: string, b: string)
    requires Leq(a, b)
    ensures !Less(b, a)
  {
    if a == b { LessIrreflexive(a); } else { LessAsymmetric(a, b); }
  }

  lemma HolderWorks(t: Tables, id: Uuid, worker: string, expires: string)
    requires Holds(t, id, worker, expires)
    ensures LeaseWorks(t, id, worker, expires)
  {
    forall later | Less(later, expires) ensures expires != "" {
    }
    forall later | Leq(later, expires) ensures !Less(expires, later) {
      NotLater(later, expires);
    }
  }

  /** A call that leaves somebody's lease alone: others acquire before it runs out, or do something else. */
  predicate Respects(c: Call, id: Uuid, worker: string, expires: string) {
    match c
    case CallAcquire(q, w, now, _) => q == id ==> w != worker && Less(now, expires)
    case CallRenew(q, w, _, _) => q == id ==> w != worker
    case CallRelease(q, w) => q == id ==> w != worker
    case _ => true
  }

  /** Storing the produced artifacts touches no other table. */
  lemma CompletionTables(s: Tables, id: Uuid, worker: string, now: string, result: Response, artifacts: seq<Artifact>,
                         tried: Option<nat>)
    ensures var t := CompleteActivity(s, id, worker, now, result, artifacts, tried).tables;
      && t.questions == s.questions && t.activities.Keys == s.activities.Keys
      && (forall x | x in s.activities && x != id :: t.activities[x] == s.activities[x])
      && (id in s.activities && !HoldsClaim(s.activities[id], worker, now, tried) ==> t == s)
  {
    if id in s.activities && InsertProduced(s, id, s.activities[id].questionId, artifacts).Ok? {
      StoreAudit.InsertProducedAdds(s, id, s.activities[id].questionId, artifacts);
    }
  }

  lemma RespectfulStep(s: Tables, c: Call, id: Uuid, worker: string, expires: string)
    requires Holds(s, id, worker, expires) && Respects(c, id, worker, expires)
    ensures Holds(After(s, c), id, worker, expires)
  {
    if c.CallComplete? {
      CompletionTables(s, c.id, c.worker, c.now, c.result, c.artifacts, c.attempt);
    }
  }

  lemma {:induction false} LeaseStands(s: Tables, more: seq<Call>, id: Uuid, worker: string, expires: string)
    requires Holds(s, id, worker, expires) && forall c | c in more :: Respects(c, id, worker, expires)
    ensures Holds(Run(s, more), id, worker, expires)
    decreases |more|
  {
    if more != [] {
      var n := |more| - 1;
      LeaseStands(s, more[..n], id, worker, expires);
      assert more[n] in more;
      RespectfulStep(Run(s, more[..n]), more[n], id, worker, expires);
    }
  }

  /** After a granted acquisition or renewal the lease works up to the new expiry, whatever others do meanwhile. */
  lemma GrantedLeaseWorks(s: Tables, id: Uuid, worker: string, now: string, expires: string, renewal: bool, more: seq<Call>)
    requires renewal ==> RenewQuestionLease(s, id, worker, now, expires).result.Ok?
    requires !renewal ==> AcquireQuestionLease(s, id, worker, now, expires).result.Ok?
    requires forall c | c in more :: Respects(c, id, worker, expires)
    ensures var t := if renewal then RenewQuestionLease(s, id, worker, now, expires).tables
                     else AcquireQuestionLease(s, id, worker, now, expires).tables;
      LeaseWorks(Run(t, more), id, worker, expires)
  {
    var t := if renewal then RenewQuestionLease(s, id, worker, now, expires).tables
             else AcquireQuestionLease(s, id, worker, now, expires).tables;
    LeaseStands(t, more, id, worker, expires);
    HolderWorks(Run(t, more), id, worker, expires);
  }

  /** A released lease is anybody's. */
  lemma ReleasedIsFree(s: Tables, id: Uuid, worker: string, other: string, now: string, expires: string)
    requires id in s.questions && s.questions[id].leaseOwner == Some(worker)
    ensures var t := ReleaseQuestionLease(s, id, worker).tables;
      && AcquireQuestionLease(t, id, other, now, expires).result == Ok(())
      && RenewQuestionLease(t, id, worker, now, expires).result == Err(LeaseLost)
  {
  }

  // ---------- activity claims ----------

  /** The holder of this attempt renews, fails and, if its artifacts can be stored, completes the activity up to this
      time; until then nobody else does, and nobody claims it. */
  ghost predicate ClaimWorks(t: Tables, id: Uuid, worker: string, attempt: nat, expires: string) {
    && (forall later, next | Leq(later, expires) :: RenewActivityLease(t, id, worker, later, next, Some(attempt)).result == Ok(()))
    && (forall later, error | Leq(later, expires) :: FailActivity(t, id, worker, later, error, Some(attempt)).result.Ok?)
    && (forall later, result, artifacts | Leq(later, expires) && id in t.activities ::
          CompleteActivity(t, id, worker, later, result, artifacts, Some(attempt)).result.Ok?
          == InsertProduced(t, id, t.activities[id].questionId, artifacts).Ok?)
    && (forall other, later, next, max, request | Leq(later, expires) ::
          ClaimActivity(t, id, other, later, next, max, request).result == Err(LeasedByOther))
    && (forall other, later, error, tried: Option<nat> | other != worker || (tried.Some? && tried.value != attempt) ::
          FailActivity(t, id, other, later, error, tried).result == Err(LeaseLost))
    && (forall other, later, result, artifacts, tried: Option<nat> | other != worker || (tried.Some? && tried.value != attempt) ::
          CompleteActivity(t, id, other, later, result, artifacts, tried).result == Err(LeaseLost))
  }

  ghost predicate HoldsAttempt(t: Tables, id: Uuid, worker: string, attempt: nat, expires: string) {
    && id in t.activities && t.activities[id].status == Running && t.activities[id].worker == Some(worker)
    && t.activities[id].attempts == attempt && t.activities[id].leaseExpires == Some(expires) && expires != ""
  }

  lemma ClaimantWorks(t: Tables, id: Uuid, worker: string, attempt: nat, expires: string)
    requires HoldsAttempt(t, id, worker, attempt, expires)
    ensures ClaimWorks(t, id, worker, attempt, expires)
  {
    forall later | Leq(later, expires) ensures !Less(expires, later) {
      NotLater(later, expires);
    }
  }

  predicate RespectsClaim(c: Call, id: Uuid, worker: string, attempt: nat, expires: string) {
    match c
    case CallClaim(a, _, now, _, _, _) => a == id ==> Leq(now, expires)
    case CallRenewActivity(a, w, _, _, tried) => a == id ==> w != worker || (tried.Some? && tried.value != attempt)
    case CallComplete(a, w, _, _, _, tried) => a == id ==> w != worker || (tried.Some? && tried.value != attempt)
    case CallFail(a, w, _, _, tried) => a == id ==> w != worker || (tried.Some? && tried.value != attempt)
    case _ => true
  }

  lemma RespectfulClaimStep(s: Tables, c: Call, id: Uuid, worker: string, attempt: nat, expires: string)
    requires HoldsAttempt(s, id, worker, attempt, expires) && RespectsClaim(c, id, worker, attempt, expires)
    ensures HoldsAttempt(After(s, c), id, worker, attempt, expires)
  {
    if c.CallComplete? {
      CompletionTables(s, c.id, c.worker, c.now, c.result, c.artifacts, c.attempt);
    }
  }

  lemma {:induction false} ClaimStands(s: Tables, more: seq<Call>, id: Uuid, worker: string, attempt: nat, expires: string)
    requires HoldsAttempt(s, id, worker, attempt, expires)
    requires forall c | c in more :: RespectsClaim(c, id, worker, attempt, expires)
    ensures HoldsAttempt(Run(s, more), id, worker, attempt, expires)
    decreases |more|
  {
    if more != [] {
      var n := |more| - 1;
      ClaimStands(s, more[..n], id, worker, attempt, expires);
      assert more[n] in more;
      RespectfulClaimStep(Run(s, more[..n]), more[n], id, worker, attempt, expires);
    }
  }

  /** A granted attempt, the next one, works up to its expiry, whatever others do meanwhile. */
  lemma GrantedClaimWorks(s: Tables, id: Uuid, worker: string, now: string, expires: string, max: nat, request: string,
                          more: seq<Call>)
    requires id in s.activities && s.activities[id].status != Succeeded && expires != ""
    requires ClaimActivity(s, id, worker, now, expires, max, request).result.Ok?
    requires forall c | c in more :: RespectsClaim(c, id, worker, s.activities[id].attempts + 1, expires)
    ensures var t := ClaimActivity(s, id, worker, now, expires, max, request).tables;
      ClaimWorks(Run(t, more), id, worker, s.activities[id].attempts + 1, expires)
  {
    var t := ClaimActivity(s, id, worker, now, expires, max, request).tables;
    ClaimStands(t, more, id, worker, s.activities[id].attempts + 1, expires);
    ClaimantWorks(Run(t, more), id, worker, s.activities[id].attempts + 1, expires);
  }

  /** And a renewed one up to its new expiry. */
  lemma RenewedClaimWorks(s: Tables, id: Uuid, worker: string, now: string, expires: string, tried: Option<nat>, more: seq<Call>)
    requires RenewActivityLease(s, id, worker, now, expires, tried).result.Ok? && expires != ""
    requires forall c | c in more :: RespectsClaim(c, id, worker, s.activities[id].attempts, expires)
    ensures var t := RenewActivityLease(s, id, worker, now, expires, tried).tables;
      ClaimWorks(Run(t, more), id, worker, s.activities[id].attempts, expires)
  {
    var t := RenewActivityLease(s, id, worker, now, expires, tried).tables;
    ClaimStands(t, more, id, worker, s.activities[id].attempts, expires);
    ClaimantWorks(Run(t, more), id, worker, s.activities[id].attempts, expires);
  }
}
