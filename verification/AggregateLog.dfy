/** The domain event store of src/m2harness/infrastructure/db/sqlite_events.py: one table interleaves the hash
    chains of many aggregates, and each event is inserted together with one outbox row. */
module AggregateLog {
  import opened Wrappers
  import opened Json
  import opened HashChain
  import JsonRoundTrip

  datatype Row = Row(
    eventId: string, eventType: string, aggregateType: string, aggregateId: string, version: int,
    correlationId: string, causationId: Option<string>, actorType: string, actorId: string,
    occurredAt: string, payload: string, payloadSchema: string, previousHash: string, eventHash: string)

  datatype OutboxRow = OutboxRow(eventId: string, topic: string, publishedAt: Option<string>)

  function RowEnvelope(row: Row, payload: Json): Json {
    Obj(map[
      "event_id" := Str(row.eventId), "event_type" := Str(row.eventType),
      "aggregate_type" := Str(row.aggregateType), "aggregate_id" := Str(row.aggregateId),
      "aggregate_version" := Num(row.version), "correlation_id" := Str(row.correlationId),
      "causation_id" := OrNull(row.causationId),
      "actor_type" := Str(row.actorType), "actor_id" := Str(row.actorId),
      "occurred_at" := Str(row.occurredAt), "payload" := payload,
      "payload_schema" := Str(row.payloadSchema), "previous_hash" := Str(row.previousHash)])
  }

  // ---------- what it means for the log to be sound ----------

  /** The rows of one aggregate, in table order. */
  function Project(rows: seq<Row>, aggregate: string): seq<Row>
    decreases |rows|
  {
    if rows == [] then []
    else
      var before, last := Project(rows[..|rows| - 1], aggregate), rows[|rows| - 1];
      if last.aggregateId == aggregate then before + [last] else before
  }

  function LastHash(rows: seq<Row>): string {
    if rows == [] then ZERO_HASH else rows[|rows| - 1].eventHash
  }

  /** A row that may follow `rows` in its aggregate's chain. */
  predicate Follows(H: Digest, rows: seq<Row>, row: Row) {
    var payload := Loads(row.payload);
    && payload.Some?
    && row.version == |rows| + 1
    && row.previousHash == LastHash(rows)
    && row.eventHash == H(LastHash(rows) + Print(RowEnvelope(row, payload.value)))
  }

  /** A hash chain with versions 1, 2, ..., n. */
  predicate IsChain(H: Digest, rows: seq<Row>)
    decreases |rows|
  {
    rows == [] || (var n := |rows| - 1; IsChain(H, rows[..n]) && Follows(H, rows[..n], rows[n]))
  }

  ghost predicate EveryAggregateIsAChain(H: Digest, rows: seq<Row>) {
    forall aggregate :: IsChain(H, Project(rows, aggregate))
  }

  lemma ProjectAppend(rows: seq<Row>, row: Row, aggregate: string)
    ensures Project(rows + [row], aggregate)
         == Project(rows, aggregate) + (if row.aggregateId == aggregate then [row] else [])
  {
    assert (rows + [row])[..|rows|] == rows;
  }

  lemma {:induction false} ProjectPrefix(rows: seq<Row>, n: nat, aggregate: string)
    requires n <= |rows|
    ensures Project(rows[..n], aggregate) <= Project(rows, aggregate)
    decreases |rows|
  {
    if n < |rows| {
      ProjectPrefix(rows[..|rows| - 1], n, aggregate);
      assert rows[..|rows| - 1][..n] == rows[..n];
    } else {
      assert rows[..n] == rows;
    }
  }

  lemma {:induction false} ChainPrefix(H: Digest, rows: seq<Row>, n: nat)
    requires n <= |rows| && IsChain(H, rows)
    ensures IsChain(H, rows[..n])
    decreases |rows|
  {
    if n < |rows| {
      ChainPrefix(H, rows[..|rows| - 1], n);
      assert rows[..|rows| - 1][..n] == rows[..n];
    } else {
      assert rows[..n] == rows;
    }
  }

  lemma ChainExtend(H: Digest, rows: seq<Row>, row: Row)
    requires IsChain(H, rows)
    ensures IsChain(H, rows + [row]) <==> Follows(H, rows, row)
  {
    assert (rows + [row])[..|rows|] == rows;
  }

  /** A row that breaks its aggregate's chain breaks the log, whatever follows it. */
  lemma BadRowIsFatal(H: Digest, rows: seq<Row>, n: nat)
    requires n < |rows|
    requires IsChain(H, Project(rows[..n], rows[n].aggregateId))
    requires !Follows(H, Project(rows[..n], rows[n].aggregateId), rows[n])
    ensures !EveryAggregateIsAChain(H, rows)
  {
    var aggregate := rows[n].aggregateId;
    var chain := Project(rows, aggregate);
    assert rows[..n + 1] == rows[..n] + [rows[n]];
    ProjectAppend(rows[..n], rows[n], aggregate);
    ChainExtend(H, Project(rows[..n], aggregate), rows[n]);
    ProjectPrefix(rows, n + 1, aggregate);
    var m := |Project(rows[..n + 1], aggregate)|;
    assert chain[..m] == Project(rows[..n + 1], aggregate);
    if IsChain(H, chain) {
      ChainPrefix(H, chain, m);
    }
  }

  function VersionOf(versionBy: map<string, int>, aggregate: string): int {
    if aggregate in versionBy then versionBy[aggregate] else 0
  }

  function PreviousOf(previousBy: map<string, string>, aggregate: string): string {
    if aggregate in previousBy then previousBy[aggregate] else ZERO_HASH
  }

  /** What the two dictionaries hold after a prefix of the table. */
  ghost predicate Tracks(rows: seq<Row>, previousBy: map<string, string>, versionBy: map<string, int>) {
    forall a :: VersionOf(versionBy, a) == |Project(rows, a)| && PreviousOf(previousBy, a) == LastHash(Project(rows, a))
  }

  lemma ExtendOneChain(H: Digest, before: seq<Row>, row: Row, a: string)
    requires IsChain(H, Project(before, a))
    requires row.aggregateId == a ==> Follows(H, Project(before, a), row)
    ensures IsChain(H, Project(before + [row], a))
  {
    ProjectAppend(before, row, a);
    if row.aggregateId == a {
      ChainExtend(H, Project(before, a), row);
    }
  }

  lemma TrackRow(before: seq<Row>, row: Row, previousBy: map<string, string>, versionBy: map<string, int>)
    requires Tracks(before, previousBy, versionBy) && row.version == |Project(before, row.aggregateId)| + 1
    ensures Tracks(before + [row], previousBy[row.aggregateId := row.eventHash], versionBy[row.aggregateId := row.version])
  {
    var p, v := previousBy[row.aggregateId := row.eventHash], versionBy[row.aggregateId := row.version];
    forall a
      ensures VersionOf(v, a) == |Project(before + [row], a)| && PreviousOf(p, a) == LastHash(Project(before + [row], a))
    {
      ProjectAppend(before, row, a);
      assert VersionOf(versionBy, a) == |Project(before, a)|;
    }
  }

  lemma ExtendChains(H: Digest, before: seq<Row>, row: Row)
    requires EveryAggregateIsAChain(H, before) && Follows(H, Project(before, row.aggregateId), row)
    ensures EveryAggregateIsAChain(H, before + [row])
  {
    forall a ensures IsChain(H, Project(before + [row], a)) {
      assert IsChain(H, Project(before, a));
      ExtendOneChain(H, before, row, a);
    }
  }

  lemma AcceptedRow(H: Digest, rows: seq<Row>, n: nat, previousBy: map<string, string>, versionBy: map<string, int>)
    requires n < |rows| && EveryAggregateIsAChain(H, rows[..n]) && Tracks(rows[..n], previousBy, versionBy)
    requires Follows(H, Project(rows[..n], rows[n].aggregateId), rows[n])
    ensures EveryAggregateIsAChain(H, rows[..n + 1])
    ensures Tracks(rows[..n + 1], previousBy[rows[n].aggregateId := rows[n].eventHash],
                   versionBy[rows[n].aggregateId := rows[n].version])
  {
    assert rows[..n + 1] == rows[..n] + [rows[n]];
    ExtendChains(H, rows[..n], rows[n]);
    TrackRow(rows[..n], rows[n], previousBy, versionBy);
  }

  /** `verify`: the single pass with two per-aggregate dictionaries accepts the interleaved log if and only if
      every aggregate's own rows form a hash chain with versions 1..n. */
  method Verify(H: Digest, rows: seq<Row>) returns (r: Result<nat>)
    ensures r.Ok? <==> EveryAggregateIsAChain(H, rows)
    ensures r.Ok? ==> r.value == |rows|
    ensures r.Err? ==> r.error == Conflict || r.error == DecodeError
  {
    var previousBy: map<string, string> := map[];
    var versionBy: map<string, int> := map[];
    var i := 0;
    while i < |rows|
      invariant 0 <= i <= |rows|
      invariant EveryAggregateIsAChain(H, rows[..i])
      invariant Tracks(rows[..i], previousBy, versionBy)
    {
      var row := rows[i];
      var payload := Loads(row.payload);
      var previous := PreviousOf(previousBy, row.aggregateId);
      var expected := VersionOf(versionBy, row.aggregateId) + 1;
      ghost var chain := Project(rows[..i], row.aggregateId);
      assert previous == LastHash(chain) && expected == |chain| + 1;
      assert IsChain(H, chain);
      if payload.None? {
        BadRowIsFatal(H, rows, i);
        return Err(DecodeError);
      }
      if row.version != expected
        || row.previousHash != previous
        || row.eventHash != H(previous + Print(RowEnvelope(row, payload.value))) {
        BadRowIsFatal(H, rows, i);
        return Err(Conflict);
      }
      AcceptedRow(H, rows, i, previousBy, versionBy);
      previousBy := previousBy[row.aggregateId := row.eventHash];
      versionBy := versionBy[row.aggregateId := row.version];
      i := i + 1;
    }
    assert rows[..i] == rows;
    return Ok(|rows|);
  }

  // ---------- appending ----------

  /** What a caller appends: the event and its envelope columns. */
  datatype NewEvent = NewEvent(
    eventId: string, eventType: string, aggregateType: string, correlationId: string,
    causationId: Option<string>, actorType: string, actorId: string, occurredAt: string,
    payload: Json, payloadSchema: string)

  function ChainRow(H: Digest, chain: seq<Row>, aggregate: string, e: NewEvent): Row {
    var row := Row(e.eventId, e.eventType, e.aggregateType, aggregate, |chain| + 1, e.correlationId, e.causationId,
                   e.actorType, e.actorId, e.occurredAt, Print(e.payload), e.payloadSchema, LastHash(chain), "");
    row.(eventHash := H(LastHash(chain) + Print(RowEnvelope(row, e.payload))))
  }

  predicate KnownEvent(rows: seq<Row>, eventId: string) {
    exists r | r in rows :: r.eventId == eventId
  }

  /** `append_domain` on the event table: compare-and-swap on the aggregate's version. */
  function AfterAppend(H: Digest, rows: seq<Row>, aggregate: string, expectedVersion: int, e: NewEvent): seq<Row> {
    var chain := Project(rows, aggregate);
    if |chain| != expectedVersion || KnownEvent(rows, e.eventId) then rows
    else rows + [ChainRow(H, chain, aggregate, e)]
  }

  lemma ChainRowFollows(H: Digest, chain: seq<Row>, aggregate: string, e: NewEvent)
    ensures Follows(H, chain, ChainRow(H, chain, aggregate, e))
  {
    JsonRoundTrip.LoadsPrint(e.payload);
  }

  lemma AppendKeepsChains(H: Digest, rows: seq<Row>, aggregate: string, expectedVersion: int, e: NewEvent)
    requires EveryAggregateIsAChain(H, rows)
    ensures EveryAggregateIsAChain(H, AfterAppend(H, rows, aggregate, expectedVersion, e))
  {
    var after := AfterAppend(H, rows, aggregate, expectedVersion, e);
    if after != rows {
      var chain := Project(rows, aggregate);
      ChainRowFollows(H, chain, aggregate, e);
      ExtendChains(H, rows, ChainRow(H, chain, aggregate, e));
    }
  }

  datatype Attempt = Attempt(aggregate: string, expectedVersion: int, event: NewEvent)

  function AfterAttempts(H: Digest, attempts: seq<Attempt>): seq<Row>
    decreases |attempts|
  {
    if attempts == [] then []
    else
      var a := attempts[|attempts| - 1];
      AfterAppend(H, AfterAttempts(H, attempts[..|attempts| - 1]), a.aggregate, a.expectedVersion, a.event)
  }

  /** Every interleaving of append attempts, to any aggregates with any expected versions, verifies. */
  lemma {:induction false} EveryInterleavingVerifies(H: Digest, attempts: seq<Attempt>)
    ensures EveryAggregateIsAChain(H, AfterAttempts(H, attempts))
    decreases |attempts|
  {
    if attempts != [] {
      var a := attempts[|attempts| - 1];
      var before := attempts[..|attempts| - 1];
      EveryInterleavingVerifies(H, before);
      AppendKeepsChains(H, AfterAttempts(H, before), a.aggregate, a.expectedVersion, a.event);
    }
  }

  /** The rows of one aggregate hold no rows of another. */
  lemma {:induction false} ProjectTwice(rows: seq<Row>, a: string, b: string)
    ensures Project(Project(rows, a), b) == if a == b then Project(rows, a) else []
    decreases |rows|
  {
    if rows != [] {
      var n := |rows| - 1;
      ProjectTwice(rows[..n], a, b);
      if rows[n].aggregateId == a {
        assert Project(rows, a)[..|Project(rows, a)| - 1] == Project(rows[..n], a);
      }
    }
  }

  /** Each aggregate's rows verify on their own. */
  ghost predicate EachAlone(H: Digest, rows: seq<Row>) {
    forall a :: EveryAggregateIsAChain(H, Project(rows, a))
  }

  /** What the pass accepts, it accepts aggregate by aggregate: a table verifies if and only if each aggregate's rows
      verify on their own. */
  lemma VerificationDecomposes(H: Digest, rows: seq<Row>)
    ensures EveryAggregateIsAChain(H, rows) <==> EachAlone(H, rows)
  {
    if EveryAggregateIsAChain(H, rows) {
      forall a ensures EveryAggregateIsAChain(H, Project(rows, a)) {
        assert IsChain(H, Project(rows, a));
        VerifiedAlone(H, rows, a);
      }
      assert EachAlone(H, rows);
    } else {
      var a :| !IsChain(H, Project(rows, a));
      VerifiedAlone(H, rows, a);
      assert !EveryAggregateIsAChain(H, Project(rows, a));
    }
  }

  lemma VerifiedAlone(H: Digest, rows: seq<Row>, a: string)
    ensures EveryAggregateIsAChain(H, Project(rows, a)) <==> IsChain(H, Project(rows, a))
  {
    forall b ensures Project(Project(rows, a), b) == if a == b then Project(rows, a) else [] {
      ProjectTwice(rows, a, b);
    }
    if EveryAggregateIsAChain(H, Project(rows, a)) {
      assert IsChain(H, Project(Project(rows, a), a));
    }
  }

  lemma {:induction false} VersionsCount(H: Digest, rows: seq<Row>, i: nat)
    requires IsChain(H, rows) && i < |rows|
    ensures rows[i].version == i + 1
    decreases |rows|
  {
    if i < |rows| - 1 {
      VersionsCount(H, rows[..|rows| - 1], i);
    }
  }

  /** In a sound log a row's version is its position among its aggregate's rows. */
  lemma VersionIsPosition(H: Digest, rows: seq<Row>, n: nat)
    requires n < |rows| && EveryAggregateIsAChain(H, rows)
    ensures rows[n].version == |Project(rows[..n], rows[n].aggregateId)| + 1
    ensures Project(rows[..n + 1], rows[n].aggregateId) == Project(rows[..n], rows[n].aggregateId) + [rows[n]]
  {
    var a := rows[n].aggregateId;
    assert rows[..n + 1] == rows[..n] + [rows[n]];
    ProjectAppend(rows[..n], rows[n], a);
    ProjectPrefix(rows, n + 1, a);
    assert IsChain(H, Project(rows, a));
    VersionsCount(H, Project(rows, a), |Project(rows[..n], a)|);
  }

  lemma NewEventId(rows: seq<Row>, row: Row)
    requires forall i, j | 0 <= i < j < |rows| :: rows[i].eventId != rows[j].eventId
    requires !KnownEvent(rows, row.eventId)
    ensures var more := rows + [row]; forall i, j | 0 <= i < j < |more| :: more[i].eventId != more[j].eventId
  {
    forall i | 0 <= i < |rows| ensures rows[i].eventId != row.eventId {
      assert rows[i] in rows;
    }
  }

  function Marked(row: OutboxRow, eventId: string, now: string): OutboxRow {
    if row.eventId == eventId then row.(publishedAt := Some(now)) else row
  }

  /** The event and outbox tables. */
  class EventStore {
    const H: Digest
    var rows: seq<Row>
    var outbox: seq<OutboxRow>

    /** Chains are sound, event ids are distinct, and outbox row i belongs to event i. */
    ghost predicate Valid()
      reads this
    {
      && EveryAggregateIsAChain(H, rows)
      && (forall i, j | 0 <= i < j < |rows| :: rows[i].eventId != rows[j].eventId)
      && |outbox| == |rows|
      && (forall i | 0 <= i < |rows| :: outbox[i].eventId == rows[i].eventId && outbox[i].topic == rows[i].eventType)
    }

    constructor (H: Digest)
      ensures Valid() && this.H == H && rows == [] && outbox == []
    {
      this.H, rows, outbox := H, [], [];
    }

    /** `_last`: the row of the aggregate with the greatest version. */
    method Last(aggregate: string) returns (r: Option<Row>)
      requires Valid()
      ensures var chain := Project(rows, aggregate);
        r == if chain == [] then None else Some(chain[|chain| - 1])
    {
      r := None;
      var i := 0;
      while i < |rows|
        invariant 0 <= i <= |rows|
        invariant var chain := Project(rows[..i], aggregate);
          r == if chain == [] then None else Some(chain[|chain| - 1])
        invariant r.Some? ==> r.value.version == |Project(rows[..i], aggregate)|
      {
        assert rows[..i + 1] == rows[..i] + [rows[i]];
        ProjectAppend(rows[..i], rows[i], aggregate);
        if rows[i].aggregateId == aggregate {
          VersionIsPosition(H, rows, i);
          if r.None? || r.value.version < rows[i].version {
            r := Some(rows[i]);
          }
        }
        i := i + 1;
      }
      assert rows[..i] == rows;
    }

    /** `append_domain`: the event row and its outbox row are inserted in one transaction, or neither is. */
    method AppendDomain(aggregate: string, expectedVersion: int, e: NewEvent) returns (r: Result<Row>)
      requires Valid()
      modifies this
      ensures Valid()
      ensures rows == AfterAppend(H, old(rows), aggregate, expectedVersion, e)
      ensures r.Ok? <==> expectedVersion == |Project(old(rows), aggregate)| && !KnownEvent(old(rows), e.eventId)
      ensures r.Ok? ==> rows == old(rows) + [r.value] && r.value.version == expectedVersion + 1
      ensures outbox == old(outbox) + (if r.Ok? then [OutboxRow(e.eventId, e.eventType, None)] else [])
    {
      var last := Last(aggregate);
      ghost var chain := Project(rows, aggregate);
      if chain != [] {
        VersionsCount(H, chain, |chain| - 1);
      }
      var actual := if last.Some? then last.value.version else 0;
      assert actual == |chain|;
      if actual != expectedVersion {
        return Err(Conflict);
      }
      if KnownEvent(rows, e.eventId) {
        return Err(IntegrityError);
      }
      var previous := if last.Some? then last.value.eventHash else ZERO_HASH;
      var row := Row(e.eventId, e.eventType, e.aggregateType, aggregate, actual + 1, e.correlationId, e.causationId,
                     e.actorType, e.actorId, e.occurredAt, Print(e.payload), e.payloadSchema, previous, "");
      row := row.(eventHash := H(previous + Print(RowEnvelope(row, e.payload))));
      ChainRowFollows(H, chain, aggregate, e);
      assert row == ChainRow(H, chain, aggregate, e);
      Insert(row);
      return Ok(row);
    }

    /** The two INSERTs. */
    method Insert(row: Row)
      requires Valid() && Follows(H, Project(rows, row.aggregateId), row) && !KnownEvent(rows, row.eventId)
      modifies this
      ensures Valid() && rows == old(rows) + [row]
      ensures outbox == old(outbox) + [OutboxRow(row.eventId, row.eventType, None)]
    {
      ExtendChains(H, rows, row);
      NewEventId(rows, row);
      rows := rows + [row];
      outbox := outbox + [OutboxRow(row.eventId, row.eventType, None)];
    }

    /** `unpublished`: the oldest `limit` events whose outbox row is not marked, in table order. */
    method Unpublished(limit: nat) returns (r: seq<Row>)
      requires Valid()
      ensures |r| <= limit && r <= Pending(rows, outbox)
      ensures |r| < limit ==> r == Pending(rows, outbox)
    {
      r := [];
      var i := 0;
      while i < |rows| && |r| < limit
        invariant 0 <= i <= |rows| && |r| <= limit
        invariant r + Pending(rows[i..], outbox[i..]) == Pending(rows, outbox)
      {
        assert rows[i..][1..] == rows[i + 1..] && outbox[i..][1..] == outbox[i + 1..];
        if outbox[i].publishedAt.None? {
          r := r + [rows[i]];
        }
        i := i + 1;
      }
    }

    /** `mark_published`: marks the one outbox row of that event and no other. */
    method MarkPublished(eventId: string, now: string)
      requires Valid()
      modifies this`outbox
      ensures Valid() && |outbox| == |old(outbox)|
      ensures forall i | 0 <= i < |outbox| :: outbox[i] == Marked(old(outbox)[i], eventId, now)
    {
      var i := 0;
      while i < |outbox|
        invariant 0 <= i <= |outbox| && |outbox| == |old(outbox)|
        invariant forall k | 0 <= k < i :: outbox[k] == Marked(old(outbox)[k], eventId, now)
        invariant forall k | i <= k < |outbox| :: outbox[k] == old(outbox)[k]
      {
        if outbox[i].eventId == eventId {
          outbox := outbox[i := outbox[i].(publishedAt := Some(now))];
        }
        i := i + 1;
      }
    }
  }

  /** The events still to be published, oldest first. */
  function Pending(rows: seq<Row>, outbox: seq<OutboxRow>): seq<Row>
    requires |rows| == |outbox|
    decreases |rows|
  {
    if rows == [] then []
    else if outbox[0].publishedAt.None? then [rows[0]] + Pending(rows[1..], outbox[1..])
    else Pending(rows[1..], outbox[1..])
  }

  lemma {:induction false} PendingExactly(rows: seq<Row>, outbox: seq<OutboxRow>, r: Row)
    requires |rows| == |outbox|
    ensures r in Pending(rows, outbox) <==> exists i :: 0 <= i < |rows| && rows[i] == r && outbox[i].publishedAt.None?
    decreases |rows|
  {
    if rows != [] {
      PendingExactly(rows[1..], outbox[1..], r);
      if exists i :: 0 <= i < |rows| && rows[i] == r && outbox[i].publishedAt.None? {
        var i :| 0 <= i < |rows| && rows[i] == r && outbox[i].publishedAt.None?;
        if i > 0 {
          assert rows[1..][i - 1] == r && outbox[1..][i - 1].publishedAt.None?;
        }
      }
      if r in Pending(rows, outbox) && !(rows[0] == r && outbox[0].publishedAt.None?) {
        var i :| 0 <= i < |rows[1..]| && rows[1..][i] == r && outbox[1..][i].publishedAt.None?;
        assert rows[i + 1] == r && outbox[i + 1].publishedAt.None?;
      }
    }
  }
}
