/** The leases of src/m2harness/infrastructure/db/tool_runs.py by the calendar: how long one lasts in seconds of the
    clock, and what that means for the results of a key. */
module ToolClock {
  import opened Wrappers
  import opened ToolStore
  import opened ToolRuntime
  import opened Timestamps

  /** The seconds of a lease: at least one. */
  function LeaseSeconds(seconds: int): nat {
    if seconds < 1 then 1 else seconds
  }

  /** When a reservation started at this time can be taken over: so many ticks of the clock later, and not before. */
  function LeaseEnd(started: DateTime, seconds: int): DateTime
    requires started.Proper()
  {
    Later(started, LeaseSeconds(seconds))
  }

  lemma ReservedByTheClock(started: DateTime, now: DateTime, seconds: int, held: string, token: string)
    requires started.Proper() && now.Proper()
    ensures Reserved(Some(Running(Instant(started), held)), Instant(now), seconds, token).Some?
       <==> FieldsBefore(LeaseEnd(started, seconds), now)
  {
    SecondsLater(started, LeaseSeconds(seconds));
    FieldOrderIsInstantOrder(LeaseEnd(started, seconds), now);
  }

  /** `reserve` at a time of the calendar: a running key is taken over if and only if its lease ended before. */
  method ReserveAt(store: ToolExecutionStore, key: string, seconds: int, token: string, started: DateTime, now: DateTime)
    returns (ok: bool)
    requires started.Proper() && now.Proper()
    requires key in store.rows && store.rows[key].Running? && store.rows[key].started == Instant(started)
    modifies store
    ensures ok <==> FieldsBefore(LeaseEnd(started, seconds), now)
    ensures store.rows == if ok then old(store.rows)[key := Running(Instant(now), token)] else old(store.rows)
  {
    ReservedByTheClock(started, now, seconds, store.rows[key].token, token);
    ok := store.Reserve(key, seconds, token, Instant(now));
  }

  /** All attempts to reserve lie within `n` seconds from this time on. */
  ghost predicate WithinSeconds(actions: seq<Action>, first: DateTime, n: nat)
    requires first.Proper()
  {
    forall a | a in actions && a.ActReserve? :: Instant(first) <= a.now <= Instant(Later(first, n))
  }

  lemma SomeTime() returns (t: DateTime)
    ensures t.Proper()
  {
    t := DateTime(1, 1, 1, 0, 0, 0, 0);
  }

  /** The lease decides: all results of a key agree in every run whose attempts to reserve lie within so many seconds, if
      and only if these are no more than the seconds of a lease. */
  lemma AgreementIff(seconds: int, n: nat)
    ensures (forall first: DateTime, actions: seq<Action> | first.Proper() && WithinSeconds(actions, first, n) ::
               Agree(RunAll(seconds, actions)))
       <==> n <= LeaseSeconds(seconds)
  {
    if n <= LeaseSeconds(seconds) {
      forall first: DateTime, actions: seq<Action> | first.Proper() && WithinSeconds(actions, first, n)
        ensures Agree(RunAll(seconds, actions))
      {
        SecondsLater(first, n);
        assert Within(actions, Instant(first), n * 1_000_000);
        SpanWithinLease(seconds, actions, Instant(first), n * 1_000_000);
        OneReservationAgrees(seconds, actions);
      }
    } else {
      var first := SomeTime();
      var actions := CanDisagree(seconds, first, n);
      assert WithinSeconds(actions, first, n) && !Agree(RunAll(seconds, actions));
    }
  }

  lemma CanDisagree(seconds: int, first: DateTime, n: nat) returns (actions: seq<Action>)
    requires first.Proper() && n > LeaseSeconds(seconds)
    ensures WithinSeconds(actions, first, n) && !Agree(RunAll(seconds, actions))
  {
    var sys := WindowCanDisagree(seconds, Instant(first), SUCCEEDED, FAILED);
    actions :| Within(actions, Instant(first), Lease(seconds) + 1) && sys == RunAll(seconds, actions);
    SecondsLater(first, n);
    TwoAnswers(sys);
  }

  lemma TwoAnswers(sys: System)
    requires sys.answers == [Answer(SUCCEEDED, FromCache), Answer(FAILED, Own)]
    ensures !Agree(sys)
  {
    assert sys.answers[0] in sys.answers && sys.answers[1] in sys.answers;
  }

  /** Every later reservation of a key comes more than a lease after the one before. */
  lemma ReservationsApart(seconds: int, actions: seq<Action>, i: nat, started: DateTime)
    requires started.Proper() && i + 1 < |RunAll(seconds, actions).grants|
    requires RunAll(seconds, actions).grants[i].started == Instant(started)
    ensures RunAll(seconds, actions).grants[i + 1].started > Instant(LeaseEnd(started, seconds))
  {
    EveryRunKeepsTokens(seconds, actions);
    SecondsLater(started, LeaseSeconds(seconds));
  }
}
