/** The canonical text itself: objects list their keys in ascending code-point order, without blanks, and only what
    must be escaped is; and the texts that the two hash chains digest, column by column. */
module JsonText {
  import opened Strings
  import opened Json
  import HashChain
  import AggregateLog

  // ---------- objects ----------

  datatype Field = Field(key: string, value: Json)

  function FieldText(f: Field): string {
    Quote(f.key) + ":" + Print(f.value)
  }

  /** Fields separated by commas. */
  function FieldsText(fields: seq<Field>): string
    requires fields != []
  {
    if |fields| == 1 then FieldText(fields[0]) else FieldText(fields[0]) + "," + FieldsText(fields[1..])
  }

  ghost predicate Ascending(fields: seq<Field>) {
    forall i | 0 <= i < |fields| - 1 :: Less(fields[i].key, fields[i + 1].key)
  }

  function Keys(fields: seq<Field>): seq<string> {
    seq(|fields|, i requires 0 <= i < |fields| => fields[i].key)
  }

  /** These are the fields of the object. */
  ghost predicate Lists(fields: seq<Field>, m: map<string, Json>) {
    m.Keys == Elements(Keys(fields)) && forall i | 0 <= i < |fields| :: fields[i].key in m && m[fields[i].key] == fields[i].value
  }

  lemma {:induction false} AscendingSorts(fields: seq<Field>, i: nat, j: nat)
    requires Ascending(fields) && i < j < |fields|
    ensures Less(fields[i].key, fields[j].key)
    decreases j
  {
    if i < j - 1 {
      var k := j - 1;
      AscendingSorts(fields, i, k);
      LessTransitive(fields[i].key, fields[k].key, fields[j].key);
    }
  }

  /** There is one strictly sorted list of a set. */
  lemma {:induction false} SortedOnce(a: seq<string>, b: seq<string>)
    requires StrictlySorted(a) && StrictlySorted(b) && Elements(a) == Elements(b)
    ensures a == b
    decreases |a|
  {
    assert b == [] || b[0] in Elements(b);
    if a != [] {
      assert a[0] in Elements(b);
      FirstIsLeast(a);
      FirstIsLeast(b);
      LeastUnique(a[0], b[0], Elements(a));
      RestElements(a);
      RestElements(b);
      SortedOnce(a[1..], b[1..]);
      assert a == [a[0]] + a[1..] && b == [b[0]] + b[1..];
    }
  }

  lemma FirstIsLeast(a: seq<string>)
    requires StrictlySorted(a) && a != []
    ensures IsLeast(a[0], Elements(a))
  {
    forall x | x in Elements(a) ensures Leq(a[0], x) {
      var i :| 0 <= i < |a| && a[i] == x;
    }
  }

  lemma RestElements(a: seq<string>)
    requires StrictlySorted(a) && a != []
    ensures StrictlySorted(a[1..]) && Elements(a[1..]) == Elements(a) - {a[0]}
  {
    forall i | 1 <= i < |a| ensures a[i] != a[0] {
      LessIrreflexive(a[0]);
    }
    forall x | x in Elements(a) && x != a[0] ensures x in Elements(a[1..]) {
      var i :| 0 <= i < |a| && a[i] == x;
      assert a[1..][i - 1] == x;
    }
    forall x | x in Elements(a[1..]) ensures x in Elements(a) && x != a[0] {
      var i :| 0 <= i < |a[1..]| && a[1..][i] == x;
      assert a[i + 1] == x;
    }
  }

  lemma {:induction false} FieldsArePrinted(j: Json, fields: seq<Field>)
    requires j.Obj? && fields != []
    requires forall i | 0 <= i < |fields| :: fields[i].key in j.fields && j.fields[fields[i].key] == fields[i].value
    ensures (forall k | k in Keys(fields) :: k in j.fields) && PrintFields(j, Keys(fields)) == FieldsText(fields)
    decreases |fields|
  {
    if |fields| > 1 {
      FieldsArePrinted(j, fields[1..]);
      assert Keys(fields)[1..] == Keys(fields[1..]);
    }
  }

  /** Whatever its fields in ascending order are, they are its text. */
  lemma ObjectText(m: map<string, Json>, fields: seq<Field>)
    requires fields != [] && Ascending(fields) && Lists(fields, m)
    ensures Print(Obj(m)) == "{" + FieldsText(fields) + "}"
  {
    KeysSorted(m, fields);
    FieldsArePrinted(Obj(m), fields);
  }

  lemma KeysSorted(m: map<string, Json>, fields: seq<Field>)
    requires fields != [] && Ascending(fields) && Lists(fields, m)
    ensures Keys(fields) == Sorted(m.Keys) && m.Keys != {}
  {
    var keys := Keys(fields);
    forall i, j | 0 <= i < j < |keys| ensures Less(keys[i], keys[j]) {
      AscendingSorts(fields, i, j);
    }
    SortedOnce(keys, Sorted(m.Keys));
    assert keys[0] in Elements(keys);
  }

  /** And every object has such fields: all of its keys, each once, in ascending code-point order. */
  lemma ObjectHasText(m: map<string, Json>) returns (fields: seq<Field>)
    requires m.Keys != {}
    ensures fields != [] && Ascending(fields) && Lists(fields, m) && Print(Obj(m)) == "{" + FieldsText(fields) + "}"
  {
    var keys := Sorted(m.Keys);
    forall i | 0 <= i < |keys| ensures keys[i] in m {
      assert keys[i] in Elements(keys);
    }
    fields := seq(|keys|, i requires 0 <= i < |keys| => Field(keys[i], m[keys[i]]));
    assert Keys(fields) == keys;
    ObjectText(m, fields);
  }

  // ---------- strings ----------

  /** A quote, a backslash and the control characters are escaped, and nothing else. */
  lemma OnlyTheseAreEscaped(c: char)
    ensures EscapeChar(c) == [c] <==> c != '\"' && c != '\\' && c as int >= 0x20
    ensures EscapeChar('\"') == "\\\"" && EscapeChar('\\') == "\\\\" && EscapeChar('\n') == "\\n"
    ensures EscapeChar('\r') == "\\r" && EscapeChar('\t') == "\\t"
    ensures c as int < 0x20 && c !in "\n\r\t\U{8}\U{c}" ==>
      EscapeChar(c) == "\\u00" + ["0123456789abcdef"[c as int / 16], "0123456789abcdef"[c as int % 16]]
  {
    HexDigits(c as int % 16);
    if c as int < 0x20 { HexDigits(c as int / 16); }
  }

  lemma HexDigits(d: nat)
    requires d < 16
    ensures HexChar(d) == "0123456789abcdef"[d]
  {
  }

  // ---------- the texts under the hashes ----------

  /** These are some fields of the object. */
  ghost predicate Has(m: map<string, Json>, fields: seq<Field>) {
    forall f | f in fields :: f.key in m && m[f.key] == f.value
  }

  lemma KeysConcat(a: seq<Field>, b: seq<Field>)
    ensures Elements(Keys(a + b)) == Elements(Keys(a)) + Elements(Keys(b))
  {
    assert Keys(a + b) == Keys(a) + Keys(b);
  }

  lemma HasBoth(m: map<string, Json>, a: seq<Field>, b: seq<Field>)
    requires Has(m, a) && Has(m, b)
    ensures Has(m, a + b)
    ensures forall i | 0 <= i < |a + b| :: (a + b)[i].key in m && m[(a + b)[i].key] == (a + b)[i].value
  {
    forall i | 0 <= i < |a + b| ensures (a + b)[i].key in m && m[(a + b)[i].key] == (a + b)[i].value {
      var f := (a + b)[i];
      assert f in a || f in b;
    }
  }

  function EnvelopeHead(row: HashChain.EventRow): seq<Field> {
    [Field("activity_id", HashChain.OrNull(row.activityId)),
     Field("event_id", Str(row.eventId)),
     Field("event_type", Str(row.eventType)),
     Field("occurred_at", Str(row.occurredAt))]
  }

  function EnvelopeTail(row: HashChain.EventRow, payload: Json): seq<Field> {
    [Field("payload", payload),
     Field("previous_hash", Str(row.previousHash)),
     Field("project_id", Str(row.projectId)),
     Field("question_id", HashChain.OrNull(row.questionId))]
  }

  function EnvelopeFields(row: HashChain.EventRow, payload: Json): seq<Field> {
    EnvelopeHead(row) + EnvelopeTail(row, payload)
  }

  lemma AscendingConcat(a: seq<Field>, b: seq<Field>)
    requires Ascending(a) && Ascending(b) && a != [] && b != [] && Less(a[|a| - 1].key, b[0].key)
    ensures Ascending(a + b)
  {
    forall i | 0 <= i < |a + b| - 1 ensures Less((a + b)[i].key, (a + b)[i + 1].key) {
      if i >= |a| { assert Less(b[i - |a|].key, b[i - |a| + 1].key); }
    }
  }

  lemma EventKeysAscend()
    ensures Less("event_id", "event_type")
  {
    LessCommonPrefix("event_", "id", "type");
    assert "event_" + "id" == "event_id" && "event_" + "type" == "event_type";
  }

  lemma ProjectKeysAscend()
    ensures Less("previous_hash", "project_id")
  {
    LessCommonPrefix("pr", "evious_hash", "oject_id");
    assert "pr" + "evious_hash" == "previous_hash" && "pr" + "oject_id" == "project_id";
  }

  lemma FourAscend(a: Field, b: Field, c: Field, d: Field)
    requires Less(a.key, b.key) && Less(b.key, c.key) && Less(c.key, d.key)
    ensures Ascending([a, b, c, d])
  {
  }

  /** Keys that differ in their first letter. */
  lemma FirstLetter(a: string, b: string)
    requires a != [] && b != [] && a[0] < b[0]
    ensures Less(a, b)
  {
  }

  lemma FirstFour(row: HashChain.EventRow)
    ensures Ascending(EnvelopeHead(row))
  {
    EventKeysAscend();
    FirstLetter("activity_id", "event_id");
    FirstLetter("event_type", "occurred_at");
    var f := EnvelopeHead(row);
    FourAscend(f[0], f[1], f[2], f[3]);
  }

  lemma LastFour(row: HashChain.EventRow, payload: Json)
    ensures Ascending(EnvelopeTail(row, payload))
  {
    ProjectKeysAscend();
    PayloadKeyAscends();
    FirstLetter("project_id", "question_id");
    var f := EnvelopeTail(row, payload);
    FourAscend(f[0], f[1], f[2], f[3]);
  }

  lemma PayloadKeyAscends()
    ensures Less("payload", "previous_hash")
  {
    LessCommonPrefix("p", "ayload", "revious_hash");
    assert "p" + "ayload" == "payload" && "p" + "revious_hash" == "previous_hash";
  }

  lemma EnvelopeAscends(row: HashChain.EventRow, payload: Json)
    ensures Ascending(EnvelopeFields(row, payload))
  {
    FirstFour(row);
    LastFour(row, payload);
    FirstLetter("occurred_at", "payload");
    AscendingConcat(EnvelopeHead(row), EnvelopeTail(row, payload));
  }

  /** What an event row's hash is taken of: the previous hash, and the eight columns of the envelope in order. */
  lemma DigestedText(previous: string, row: HashChain.EventRow, payload: Json)
    ensures HashChain.Digested(previous, row, payload) == previous + ("{" + FieldsText(EnvelopeFields(row, payload)) + "}")
  {
    EnvelopeAscends(row, payload);
    var fields, m := EnvelopeFields(row, payload), HashChain.Envelope(row, payload).fields;
    EnvelopeLists(row, payload);
    ObjectText(m, fields);
  }

  lemma EnvelopeHasHead(row: HashChain.EventRow, payload: Json)
    ensures Has(HashChain.Envelope(row, payload).fields, EnvelopeHead(row))
  {
  }

  lemma EnvelopeHasTail(row: HashChain.EventRow, payload: Json)
    ensures Has(HashChain.Envelope(row, payload).fields, EnvelopeTail(row, payload))
  {
  }

  lemma EnvelopeKeys(row: HashChain.EventRow, payload: Json)
    ensures HashChain.Envelope(row, payload).fields.Keys == Elements(Keys(EnvelopeFields(row, payload)))
  {
    var a, b := EnvelopeHead(row), EnvelopeTail(row, payload);
    KeysConcat(a, b);
    assert Keys(a) == ["activity_id", "event_id", "event_type", "occurred_at"];
    assert Keys(b) == ["payload", "previous_hash", "project_id", "question_id"];
  }

  lemma EnvelopeLists(row: HashChain.EventRow, payload: Json)
    ensures Lists(EnvelopeFields(row, payload), HashChain.Envelope(row, payload).fields)
  {
    EnvelopeHasHead(row, payload);
    EnvelopeHasTail(row, payload);
    EnvelopeKeys(row, payload);
    HasBoth(HashChain.Envelope(row, payload).fields, EnvelopeHead(row), EnvelopeTail(row, payload));
  }

  function ActorFields(row: AggregateLog.Row): seq<Field> {
    [Field("actor_id", Str(row.actorId)),
     Field("actor_type", Str(row.actorType))]
  }

  function AggregateFields(row: AggregateLog.Row): seq<Field> {
    [Field("aggregate_id", Str(row.aggregateId)),
     Field("aggregate_type", Str(row.aggregateType)),
     Field("aggregate_version", Num(row.version))]
  }

  function CauseFields(row: AggregateLog.Row): seq<Field> {
    [Field("causation_id", HashChain.OrNull(row.causationId)),
     Field("correlation_id", Str(row.correlationId)),
     Field("event_id", Str(row.eventId)),
     Field("event_type", Str(row.eventType))]
  }

  function BodyFields(row: AggregateLog.Row, payload: Json): seq<Field> {
    [Field("occurred_at", Str(row.occurredAt)),
     Field("payload", payload),
     Field("payload_schema", Str(row.payloadSchema)),
     Field("previous_hash", Str(row.previousHash))]
  }

  function RowFields(row: AggregateLog.Row, payload: Json): seq<Field> {
    (ActorFields(row) + AggregateFields(row)) + (CauseFields(row) + BodyFields(row, payload))
  }

  lemma ActorKeysAscend()
    ensures Less("actor_id", "actor_type")
  {
    LessCommonPrefix("actor_", "id", "type");
    assert "actor_" + "id" == "actor_id" && "actor_" + "type" == "actor_type";
  }

  lemma AggregateKeysAscend()
    ensures Less("aggregate_id", "aggregate_type")
  {
    LessCommonPrefix("aggregate_", "id", "type");
    assert "aggregate_" + "id" == "aggregate_id" && "aggregate_" + "type" == "aggregate_type";
  }

  lemma VersionKeyAscends()
    ensures Less("aggregate_type", "aggregate_version")
  {
    LessCommonPrefix("aggregate_", "type", "version");
    assert "aggregate_" + "type" == "aggregate_type" && "aggregate_" + "version" == "aggregate_version";
  }

  lemma ActorBeforeAggregate()
    ensures Less("actor_type", "aggregate_id")
  {
    LessCommonPrefix("a", "ctor_type", "ggregate_id");
    assert "a" + "ctor_type" == "actor_type" && "a" + "ggregate_id" == "aggregate_id";
  }

  lemma ThreeAscend(a: Field, b: Field, c: Field)
    requires Less(a.key, b.key) && Less(b.key, c.key)
    ensures Ascending([a, b, c])
  {
  }

  lemma ActorFieldsAscend(row: AggregateLog.Row)
    ensures Ascending(ActorFields(row))
  {
    ActorKeysAscend();
  }

  lemma AggregateFieldsAscend(row: AggregateLog.Row)
    ensures Ascending(AggregateFields(row))
  {
    var f := AggregateFields(row);
    AggregateKeysAscend();
    VersionKeyAscends();
    ThreeAscend(f[0], f[1], f[2]);
  }

  lemma CausesAscend()
    ensures Less("causation_id", "correlation_id")
  {
    LessCommonPrefix("c", "ausation_id", "orrelation_id");
    assert "c" + "ausation_id" == "causation_id" && "c" + "orrelation_id" == "correlation_id";
  }

  lemma CauseFieldsAscend(row: AggregateLog.Row)
    ensures Ascending(CauseFields(row))
  {
    var f := CauseFields(row);
    CausesAscend();
    FirstLetter("correlation_id", "event_id");
    EventKeysAscend();
    FourAscend(f[0], f[1], f[2], f[3]);
  }

  lemma SchemaKeysAscend()
    ensures Less("payload", "payload_schema") && Less("payload_schema", "previous_hash")
  {
    LessCommonPrefix("payload", "", "_schema");
    assert "payload" + "" == "payload" && "payload" + "_schema" == "payload_schema";
    LessCommonPrefix("p", "ayload_schema", "revious_hash");
    assert "p" + "ayload_schema" == "payload_schema" && "p" + "revious_hash" == "previous_hash";
  }

  lemma BodyFieldsAscend(row: AggregateLog.Row, payload: Json)
    ensures Ascending(BodyFields(row, payload))
  {
    var f := BodyFields(row, payload);
    FirstLetter("occurred_at", "payload");
    SchemaKeysAscend();
    FourAscend(f[0], f[1], f[2], f[3]);
  }

  lemma RowAscends(row: AggregateLog.Row, payload: Json)
    ensures Ascending(RowFields(row, payload))
  {
    ActorFieldsAscend(row);
    AggregateFieldsAscend(row);
    CauseFieldsAscend(row);
    BodyFieldsAscend(row, payload);
    ActorBeforeAggregate();
    FirstLetter("aggregate_version", "causation_id");
    FirstLetter("event_type", "occurred_at");
    AscendingConcat(ActorFields(row), AggregateFields(row));
    AscendingConcat(CauseFields(row), BodyFields(row, payload));
    AscendingConcat(ActorFields(row) + AggregateFields(row), CauseFields(row) + BodyFields(row, payload));
  }

  lemma RowHasActors(row: AggregateLog.Row, payload: Json)
    ensures Has(AggregateLog.RowEnvelope(row, payload).fields, ActorFields(row))
  {
  }

  lemma RowHasAggregate(row: AggregateLog.Row, payload: Json)
    ensures Has(AggregateLog.RowEnvelope(row, payload).fields, AggregateFields(row))
  {
  }

  lemma RowHasCauses(row: AggregateLog.Row, payload: Json)
    ensures Has(AggregateLog.RowEnvelope(row, payload).fields, CauseFields(row))
  {
  }

  lemma RowHasBody(row: AggregateLog.Row, payload: Json)
    ensures Has(AggregateLog.RowEnvelope(row, payload).fields, BodyFields(row, payload))
  {
  }

  lemma KeysOfActors(row: AggregateLog.Row)
    ensures Elements(Keys(ActorFields(row))) == {"actor_id", "actor_type"}
    ensures Elements(Keys(AggregateFields(row))) == {"aggregate_id", "aggregate_type", "aggregate_version"}
  {
    assert Keys(ActorFields(row)) == ["actor_id", "actor_type"];
    assert Keys(AggregateFields(row)) == ["aggregate_id", "aggregate_type", "aggregate_version"];
  }

  lemma KeysOfCauses(row: AggregateLog.Row, payload: Json)
    ensures Elements(Keys(CauseFields(row))) == {"causation_id", "correlation_id", "event_id", "event_type"}
    ensures Elements(Keys(BodyFields(row, payload))) == {"occurred_at", "payload", "payload_schema", "previous_hash"}
  {
    assert Keys(CauseFields(row)) == ["causation_id", "correlation_id", "event_id", "event_type"];
    assert Keys(BodyFields(row, payload)) == ["occurred_at", "payload", "payload_schema", "previous_hash"];
  }

  lemma RowKeys(row: AggregateLog.Row, payload: Json)
    ensures AggregateLog.RowEnvelope(row, payload).fields.Keys == Elements(Keys(RowFields(row, payload)))
  {
    var a, b, c, d := ActorFields(row), AggregateFields(row), CauseFields(row), BodyFields(row, payload);
    KeysConcat(a, b);
    KeysConcat(c, d);
    KeysConcat(a + b, c + d);
    KeysOfActors(row);
    KeysOfCauses(row, payload);
  }

  lemma RowLists(row: AggregateLog.Row, payload: Json)
    ensures Lists(RowFields(row, payload), AggregateLog.RowEnvelope(row, payload).fields)
  {
    var m := AggregateLog.RowEnvelope(row, payload).fields;
    RowHasActors(row, payload);
    RowHasAggregate(row, payload);
    RowHasCauses(row, payload);
    RowHasBody(row, payload);
    RowKeys(row, payload);
    HasBoth(m, ActorFields(row), AggregateFields(row));
    HasBoth(m, CauseFields(row), BodyFields(row, payload));
    HasBoth(m, ActorFields(row) + AggregateFields(row), CauseFields(row) + BodyFields(row, payload));
  }

  /** What a domain event's hash is taken of, after the previous hash: its thirteen columns in order. */
  lemma RowText(row: AggregateLog.Row, payload: Json)
    ensures Print(AggregateLog.RowEnvelope(row, payload)) == "{" + FieldsText(RowFields(row, payload)) + "}"
  {
    RowAscends(row, payload);
    RowLists(row, payload);
    ObjectText(AggregateLog.RowEnvelope(row, payload).fields, RowFields(row, payload));
  }
}
