/** The store keeps lease expiries as ISO texts and compares them as texts. On the texts of valid UTC times each of
    its lease tests is the test on the instants, in microseconds. */
module LeaseClock {
  import opened Wrappers
  import opened Strings
  import opened Contracts
  import opened Store
  import opened Timestamps

  /** The column holds the text of this time. */
  predicate Holds(column: Option<string>, t: DateTime) {
    t.Valid() && column == Some(IsoFormat(t))
  }

  lemma TextsCompare(now: DateTime, expires: DateTime)
    requires now.Valid() && expires.Valid()
    ensures Less(IsoFormat(now), IsoFormat(expires)) <==> Instant(now) < Instant(expires)
    ensures Less(IsoFormat(expires), IsoFormat(now)) <==> Instant(expires) < Instant(now)
    ensures Leq(IsoFormat(now), IsoFormat(expires)) <==> Instant(now) <= Instant(expires)
    ensures Truthy(Some(IsoFormat(expires)))
  {
    TextOrderIsInstantOrder(now, expires);
    TextOrderIsInstantOrder(expires, now);
    LessTotal(IsoFormat(now), IsoFormat(expires));
    LessTotal(IsoFormat(expires), "");
    TextIsNotEmpty(expires);
  }

  lemma TextIsNotEmpty(t: DateTime)
    requires t.Valid()
    ensures IsoFormat(t) != ""
  {
  }

  /** A claim is live up to and including its expiry. */
  lemma LiveIsNumeric(row: Activity, now: DateTime, expires: DateTime)
    requires now.Valid() && Holds(row.leaseExpires, expires)
    ensures Live(row, IsoFormat(now)) <==> row.status == Running && Instant(now) <= Instant(expires)
  {
    TextsCompare(now, expires);
  }

  /** Completing and failing need the claim at a time not after its expiry. */
  lemma HoldsClaimIsNumeric(row: Activity, worker: string, now: DateTime, expires: DateTime, attempt: Option<nat>)
    requires now.Valid() && Holds(row.leaseExpires, expires)
    ensures HoldsClaim(row, worker, IsoFormat(now), attempt) <==>
      && row.worker == Some(worker) && (attempt.Some? ==> row.attempts == attempt.value)
      && row.status == Running && Instant(now) <= Instant(expires)
  {
    TextsCompare(now, expires);
  }

  /** Another worker gets the question's lease from the moment of its expiry on. */
  lemma AcquireIsNumeric(s: Tables, id: Uuid, worker: string, now: DateTime, expires: DateTime, next: string)
    requires now.Valid() && id in s.questions && Holds(s.questions[id].leaseExpires, expires)
    requires s.questions[id].leaseOwner.Some? && s.questions[id].leaseOwner.value != worker
    ensures AcquireQuestionLease(s, id, worker, IsoFormat(now), next).result.Ok? <==> Instant(expires) <= Instant(now)
  {
    TextsCompare(now, expires);
  }

  /** The owner renews, and moves the question, up to and including the expiry. */
  lemma OwnerIsNumeric(s: Tables, id: Uuid, worker: string, now: DateTime, expires: DateTime, next: string,
                       expected: set<QuestionState>, target: QuestionState)
    requires now.Valid() && id in s.questions && Holds(s.questions[id].leaseExpires, expires)
    requires s.questions[id].leaseOwner == Some(worker) && s.questions[id].state in expected
    ensures RenewQuestionLease(s, id, worker, IsoFormat(now), next).result.Ok? <==> Instant(now) <= Instant(expires)
    ensures Store.Transition(s, id, worker, IsoFormat(now), expected, target, None, None).result.Ok? <==> Instant(now) <= Instant(expires)
  {
    TextsCompare(now, expires);
  }

  /** At its expiry instant a lease is still its owner's and already anybody's: both may go on. */
  lemma ExpiryInstantIsShared(s: Tables, id: Uuid, owner: string, other: string, expires: DateTime, next: string)
    requires id in s.questions && Holds(s.questions[id].leaseExpires, expires)
    requires s.questions[id].leaseOwner == Some(owner) && other != owner
    ensures RenewQuestionLease(s, id, owner, IsoFormat(expires), next).result.Ok?
    ensures AcquireQuestionLease(s, id, other, IsoFormat(expires), next).result.Ok?
  {
    TextsCompare(expires, expires);
  }
}
