/** The hash-chained audit log of src/m2harness/store.py. The digest is a parameter: any function to 64-character
    texts. Nothing is assumed about collisions; where a result depends on them, the collision is returned. */
module HashChain {
  import opened Wrappers
  import opened Json
  import JsonRoundTrip

  /** One row of the `events` table; `payload` is JSON text. */
  datatype EventRow = EventRow(
    eventId: string, projectId: string, questionId: Option<string>, activityId: Option<string>,
    eventType: string, payload: string, occurredAt: string,
    previousHash: string, eventHash: string)

  /** The event a row stands for: its columns with the payload loaded. */
  datatype LoadedEvent = LoadedEvent(
    eventId: string, projectId: string, questionId: Option<string>, activityId: Option<string>,
    eventType: string, payload: Json, occurredAt: string,
    previousHash: string, eventHash: string)

  type Digest = string -> string

  function Zeros(n: nat): (s: string)
    ensures |s| == n
  {
    if n == 0 then [] else Zeros(n - 1) + ['0']
  }

  const ZERO_HASH := Zeros(64)

  ghost predicate Is64(H: Digest) {
    forall x :: |H(x)| == 64
  }

  function OrNull(column: Option<string>): Json {
    match column
    case None => Null
    case Some(text) => Str(text)
  }

  function Envelope(row: EventRow, payload: Json): Json {
    Obj(map[
      "event_id" := Str(row.eventId),
      "project_id" := Str(row.projectId),
      "question_id" := OrNull(row.questionId),
      "activity_id" := OrNull(row.activityId),
      "event_type" := Str(row.eventType),
      "payload" := payload,
      "occurred_at" := Str(row.occurredAt),
      "previous_hash" := Str(row.previousHash)])
  }

  /** The text under the hash. */
  function Digested(previous: string, row: EventRow, payload: Json): string {
    previous + Print(Envelope(row, payload))
  }

  function Head(rows: seq<EventRow>): string {
    if rows == [] then ZERO_HASH else rows[|rows| - 1].eventHash
  }

  /** One row's check: the payload loads, the link matches and the hash is the digest. */
  predicate RowVerifies(H: Digest, previous: string, row: EventRow) {
    var payload := Loads(row.payload);
    payload.Some? && row.previousHash == previous && row.eventHash == H(Digested(previous, row, payload.value))
  }

  /** Each row passes a check against the head before it. */
  predicate Linked(check: (string, EventRow) -> bool, rows: seq<EventRow>)
    decreases |rows|
  {
    rows == [] ||
    (var n := |rows| - 1; Linked(check, rows[..n]) && check(Head(rows[..n]), rows[n]))
  }

  function RowCheck(H: Digest): (string, EventRow) -> bool {
    (previous, row) => RowVerifies(H, previous, row)
  }

  predicate Verifies(H: Digest, rows: seq<EventRow>) {
    Linked(RowCheck(H), rows)
  }

  /** The row `_append_event` inserts after `rows`. */
  function NewRow(H: Digest, rows: seq<EventRow>, eventId: string, projectId: string, questionId: Option<string>,
                  activityId: Option<string>, eventType: string, payload: Json, occurredAt: string): EventRow
  {
    var previous := Head(rows);
    var row := EventRow(eventId, projectId, questionId, activityId, eventType, Print(payload), occurredAt, previous, "");
    row.(eventHash := H(Digested(previous, row, payload)))
  }

  lemma AppendVerifies(H: Digest, rows: seq<EventRow>, eventId: string, projectId: string, questionId: Option<string>,
                       activityId: Option<string>, eventType: string, payload: Json, occurredAt: string)
    requires Verifies(H, rows)
    ensures Verifies(H, rows + [NewRow(H, rows, eventId, projectId, questionId, activityId, eventType, payload, occurredAt)])
  {
    var row := NewRow(H, rows, eventId, projectId, questionId, activityId, eventType, payload, occurredAt);
    JsonRoundTrip.LoadsPrint(payload);
    assert (rows + [row])[..|rows|] == rows;
  }

  lemma {:induction false} LinkedPrefix(check: (string, EventRow) -> bool, rows: seq<EventRow>, n: nat)
    requires n <= |rows| && Linked(check, rows)
    ensures Linked(check, rows[..n])
    decreases |rows|
  {
    if n < |rows| {
      LinkedPrefix(check, rows[..|rows| - 1], n);
      assert rows[..|rows| - 1][..n] == rows[..n];
    } else {
      assert rows[..n] == rows;
    }
  }

  lemma VerifiesPrefix(H: Digest, rows: seq<EventRow>, n: nat)
    requires n <= |rows|
    requires Verifies(H, rows)
    ensures Verifies(H, rows[..n])
  {
    LinkedPrefix(RowCheck(H), rows, n);
  }

  ghost predicate EveryPrefixVerifies(H: Digest, rows: seq<EventRow>) {
    forall n: nat | n <= |rows| :: Verifies(H, rows[..n])
  }

  lemma PrefixesVerify(H: Digest, rows: seq<EventRow>)
    ensures EveryPrefixVerifies(H, rows) <==> Verifies(H, rows)
  {
    assert rows[..|rows|] == rows;
    if Verifies(H, rows) {
      forall n: nat | n <= |rows| ensures Verifies(H, rows[..n]) {
        VerifiesPrefix(H, rows, n);
      }
    }
  }

  /** `verify_event_chain`: the row count, or the first failure. */
  method VerifyEventChain(H: Digest, rows: seq<EventRow>) returns (r: Result<nat>)
    ensures r.Ok? <==> Verifies(H, rows)
    ensures r.Ok? ==> r.value == |rows|
    ensures r.Err? ==> r.error == Conflict || r.error == DecodeError
  {
    var previous, count := ZERO_HASH, 0;
    while count < |rows|
      invariant 0 <= count <= |rows|
      invariant previous == Head(rows[..count])
      invariant Verifies(H, rows[..count])
    {
      var row := rows[count];
      assert rows[..count + 1][..count] == rows[..count];
      var payload := Loads(row.payload);
      if payload.None? || row.previousHash != previous || row.eventHash != H(Digested(previous, row, payload.value)) {
        if Verifies(H, rows) {
          VerifiesPrefix(H, rows, count + 1);
          assert false;
        }
        return Err(if payload.None? then DecodeError else Conflict);
      }
      previous, count := row.eventHash, count + 1;
    }
    assert rows[..count] == rows;
    return Ok(count);
  }

  // ---------- tamper evidence ----------

  function Load(row: EventRow): LoadedEvent
    requires Loads(row.payload).Some?
  {
    LoadedEvent(row.eventId, row.projectId, row.questionId, row.activityId, row.eventType,
                Loads(row.payload).value, row.occurredAt, row.previousHash, row.eventHash)
  }

  lemma Unlink(H: Digest, rows: seq<EventRow>)
    requires Verifies(H, rows) && rows != []
    ensures var n := |rows| - 1; Verifies(H, rows[..n]) && RowVerifies(H, Head(rows[..n]), rows[n])
  {
  }

  /** The envelope determines every column under the hash. */
  lemma EnvelopeInjective(a: EventRow, p: Json, b: EventRow, q: Json)
    requires Envelope(a, p) == Envelope(b, q)
    ensures p == q && a.eventId == b.eventId && a.projectId == b.projectId && a.questionId == b.questionId
      && a.activityId == b.activityId && a.eventType == b.eventType && a.occurredAt == b.occurredAt
      && a.previousHash == b.previousHash
  {
    var f, g := Envelope(a, p).fields, Envelope(b, q).fields;
    assert f["event_id"] == g["event_id"] && f["project_id"] == g["project_id"];
    assert f["question_id"] == g["question_id"] && f["activity_id"] == g["activity_id"];
    assert f["event_type"] == g["event_type"] && f["payload"] == g["payload"];
    assert f["occurred_at"] == g["occurred_at"] && f["previous_hash"] == g["previous_hash"];
  }

  /** With 64-character links the digested text determines the link and the envelope. */
  lemma DigestedInjective(h: string, a: EventRow, p: Json, k: string, b: EventRow, q: Json)
    requires |h| == |k| == 64 && Digested(h, a, p) == Digested(k, b, q)
    ensures h == k && Envelope(a, p) == Envelope(b, q)
  {
    assert h == Digested(h, a, p)[..64] && k == Digested(k, b, q)[..64];
    assert Print(Envelope(a, p)) == Digested(h, a, p)[64..];
    assert Print(Envelope(b, q)) == Digested(k, b, q)[64..];
    JsonRoundTrip.PrintInjective(Envelope(a, p), Envelope(b, q));
  }

  lemma HeadLength(H: Digest, rows: seq<EventRow>)
    requires Is64(H) && Verifies(H, rows)
    ensures |Head(rows)| == 64
  {
  }

  ghost predicate SameEvents(a: seq<EventRow>, b: seq<EventRow>) {
    |a| == |b| && forall i: nat | i < |a| :: SameAt(a, b, i)
  }

  ghost predicate SameAt(a: seq<EventRow>, b: seq<EventRow>, i: nat)
    requires i < |a| == |b|
  {
    SameEvent(a[i], b[i])
  }

  /** The rows load to the same event. */
  ghost predicate SameEvent(a: EventRow, b: EventRow) {
    Loads(a.payload).Some? && Loads(b.payload).Some? && Load(a) == Load(b)
  }

  /** A witness that the digest is not ideal: two texts with one digest, or a text that digests to zero. */
  ghost predicate Broken(H: Digest, x: string, y: string) {
    (x != y && H(x) == H(y)) || H(x) == ZERO_HASH
  }

  /** A non-empty log that ends in zeros has a text that digests to zeros. */
  lemma ZeroHead(H: Digest, rows: seq<EventRow>) returns (x: string)
    requires Verifies(H, rows) && rows != [] && Head(rows) == ZERO_HASH
    ensures H(x) == ZERO_HASH
  {
    var last := rows[|rows| - 1];
    x := Digested(Head(rows[..|rows| - 1]), last, Loads(last.payload).value);
  }

  /** Two last rows with one hash stand for one event on top of one head, or two texts have one digest. */
  lemma LastRows(H: Digest, a0: seq<EventRow>, ra: EventRow, b0: seq<EventRow>, rb: EventRow) returns (x: string, y: string)
    requires Is64(H) && Verifies(H, a0) && Verifies(H, b0) && ra.eventHash == rb.eventHash
    requires RowVerifies(H, Head(a0), ra) && RowVerifies(H, Head(b0), rb)
    ensures (x != y && H(x) == H(y)) || (Head(a0) == Head(b0) && SameEvent(ra, rb))
  {
    var pa, pb := Loads(ra.payload).value, Loads(rb.payload).value;
    x, y := Digested(Head(a0), ra, pa), Digested(Head(b0), rb, pb);
    HeadLength(H, a0);
    HeadLength(H, b0);
    if x == y {
      DigestedInjective(Head(a0), ra, pa, Head(b0), rb, pb);
      EnvelopeInjective(ra, pa, rb, pb);
    }
  }

  /** Tamper evidence: two logs that both verify and end in the same hash are the same, event by event, unless
      the digest is broken on two texts that this lemma exhibits. */
  lemma {:induction false} SameHeadSameEvents(H: Digest, a: seq<EventRow>, b: seq<EventRow>) returns (x: string, y: string)
    requires Is64(H) && Verifies(H, a) && Verifies(H, b) && Head(a) == Head(b)
    ensures SameEvents(a, b) || Broken(H, x, y)
    decreases |a| + |b|
  {
    x, y := "", "";
    if a == [] && b == [] {
    } else if a == [] {
      x := ZeroHead(H, b);
    } else if b == [] {
      x := ZeroHead(H, a);
    } else {
      var m, n := |a| - 1, |b| - 1;
      Unlink(H, a);
      Unlink(H, b);
      x, y := LastRows(H, a[..m], a[m], b[..n], b[n]);
      if Head(a[..m]) == Head(b[..n]) && SameEvent(a[m], b[n]) {
        x, y := SameHeadSameEvents(H, a[..m], b[..n]);
        if SameEvents(a[..m], b[..n]) { ExtendSame(a, b); }
      }
    }
  }

  lemma ExtendSame(a: seq<EventRow>, b: seq<EventRow>)
    requires a != [] && b != [] && SameEvents(a[..|a| - 1], b[..|b| - 1]) && SameEvent(a[|a| - 1], b[|b| - 1])
    ensures SameEvents(a, b)
  {
    var m := |a| - 1;
    forall i: nat | i < |a| ensures SameAt(a, b, i) {
      if i < m { assert SameAt(a[..m], b[..m], i); }
    }
  }

  /** One check sees only what is loaded. */
  lemma SameRowVerifies(H: Digest, previous: string, a: EventRow, b: EventRow)
    requires SameEvent(a, b)
    ensures RowVerifies(H, previous, a) ==> RowVerifies(H, previous, b)
    ensures a.eventHash == b.eventHash
  {
    assert Envelope(a, Loads(a.payload).value) == Envelope(b, Loads(b.payload).value);
  }

  lemma SameInFront(a: seq<EventRow>, b: seq<EventRow>)
    requires SameEvents(a, b) && a != []
    ensures SameEvents(a[..|a| - 1], b[..|b| - 1]) && SameEvent(a[|a| - 1], b[|b| - 1])
  {
    var n := |a| - 1;
    assert SameAt(a, b, n);
    forall i: nat | i < n ensures SameAt(a[..n], b[..n], i) {
      assert SameAt(a, b, i);
    }
  }

  /** The converse: a log of the same events verifies too, and has the same head. */
  lemma {:induction false} SameEventsVerify(H: Digest, a: seq<EventRow>, b: seq<EventRow>)
    requires Verifies(H, a) && SameEvents(a, b)
    ensures Verifies(H, b) && Head(a) == Head(b)
    decreases |a|
  {
    if a != [] {
      var n := |a| - 1;
      SameInFront(a, b);
      SameEventsVerify(H, a[..n], b[..n]);
      SameRowVerifies(H, Head(a[..n]), a[n], b[n]);
    }
  }

  /** The undetected changes, exactly: with the head hash kept aside, another log passes in its place if and only if it is
      the same event by event, unless the digest is broken on two texts that this lemma exhibits. */
  lemma UndetectedIff(H: Digest, a: seq<EventRow>, b: seq<EventRow>) returns (x: string, y: string)
    requires Is64(H) && Verifies(H, a)
    ensures (Verifies(H, b) && Head(b) == Head(a) <==> SameEvents(a, b)) || Broken(H, x, y)
  {
    x, y := "", "";
    if Verifies(H, b) && Head(b) == Head(a) {
      x, y := SameHeadSameEvents(H, a, b);
    } else if SameEvents(a, b) {
      SameEventsVerify(H, a, b);
    }
  }

  /** Without the head hash a removed tail is not detected: every prefix of a verifying log verifies. */
  lemma TruncationIsNotDetected(H: Digest, rows: seq<EventRow>, n: nat)
    requires Verifies(H, rows) && n < |rows|
    ensures Verifies(H, rows[..n]) && rows[..n] != rows
  {
    VerifiesPrefix(H, rows, n);
  }

  /** Even with the head hash, only the loaded payload is protected, not its text: a blank after the last
      payload changes the row and still verifies with the same head. */
  lemma ReformattingIsNotDetected(H: Digest, rows: seq<EventRow>, payload: Json)
    requires Verifies(H, rows) && rows != [] && rows[|rows| - 1].payload == Print(payload)
    ensures var last := rows[|rows| - 1];
      var changed := rows[..|rows| - 1] + [last.(payload := last.payload + " ")];
      changed != rows && Verifies(H, changed) && Head(changed) == Head(rows)
  {
    var n := |rows| - 1;
    var last := rows[n];
    var row := last.(payload := last.payload + " ");
    var changed := rows[..n] + [row];
    JsonRoundTrip.BlankDoesNotChangeValue(payload);
    assert changed[..n] == rows[..n];
    assert changed[n] != rows[n];
    assert Envelope(row, Loads(row.payload).value) == Envelope(last, Loads(last.payload).value);
  }
}
