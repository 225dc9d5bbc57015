/** Printing a JSON value canonically and loading the text gives the value back. */
module JsonRoundTrip {
  import opened Wrappers
  import opened Strings
  import opened Json

  // ---------- numbers ----------

  /** What may follow a printed value: nothing, a separator, a closing bracket or white space. */
  predicate Delimited(rest: string) {
    rest == [] || rest[0] == ',' || rest[0] == ']' || rest[0] == '}' || IsSpace(rest[0])
  }

  lemma {:induction false} DigitsShape(n: nat)
    ensures Digits(n) != []
    ensures forall c | c in Digits(n) :: IsDigit(c)
    ensures DigitsValue(Digits(n)) == n
    ensures Digits(n)[0] == '0' ==> n == 0
  {
    if n >= 10 {
      DigitsShape(n / 10);
      var d := Digits(n);
      assert d[..|d| - 1] == Digits(n / 10);
      assert d[|d| - 1] == DigitChar(n % 10);
    } else {
      var d := Digits(n);
      assert d[..|d| - 1] == [];
    }
  }

  lemma {:induction false} SpanOfDigits(d: string, rest: string)
    requires forall c | c in d :: IsDigit(c)
    requires Delimited(rest)
    ensures SpanDigits(d + rest) == |d|
  {
    if d == [] {
      assert d + rest == rest;
    } else {
      assert IsDigit(d[0]);
      assert (d + rest)[1..] == d[1..] + rest;
      SpanOfDigits(d[1..], rest);
    }
  }

  lemma ParseDigits(n: nat, rest: string)
    requires Delimited(rest)
    ensures ParseNat(Digits(n) + rest) == Some((n, rest))
  {
    DigitsShape(n);
    var d := Digits(n);
    SpanOfDigits(d, rest);
    assert d[0] == '0' ==> d == ['0'] by {
      if d[0] == '0' {
        assert n == 0;
      }
    }
    assert (d + rest)[..|d|] == d;
    assert (d + rest)[|d|..] == rest;
    assert |d| < |d + rest| ==> (d + rest)[|d|] == rest[0];
  }

  // ---------- strings ----------

  lemma HexRoundTrip(d: nat)
    requires d < 16
    ensures HexValue(HexChar(d)) == Some(d)
  {
  }

  lemma ControlEscape(c: char)
    requires ShortEscape(c) == None && (c as int) < 0x20
    ensures Hex4(EscapeChar(c)[2..6]) == Some(c as int)
  {
    HexRoundTrip(c as int / 16);
    HexRoundTrip(c as int % 16);
    var e := EscapeChar(c);
    assert e[2..6] == ['0', '0', HexChar(c as int / 16), HexChar(c as int % 16)];
  }

  lemma ScanChar(c: char, text: string, rest: string, tail: string)
    requires Scan(tail) == Some((text, rest))
    ensures Scan(EscapeChar(c) + tail) == Some(([c] + text, rest))
  {
    var e := EscapeChar(c);
    var s := e + tail;
    match ShortEscape(c) {
      case Some(letter) =>
        assert s[2..] == tail;
      case None =>
        if (c as int) < 0x20 {
          ControlEscape(c);
          assert s[2..6] == e[2..6];
          assert s[6..] == tail;
        } else {
          assert s[1..] == tail;
        }
    }
  }

  lemma {:induction false} ScanEscaped(text: string, rest: string)
    ensures Scan(Escape(text) + "\"" + rest) == Some((text, rest))
    decreases |text|
  {
    var s := Escape(text) + "\"" + rest;
    if text == [] {
      assert s[1..] == rest;
    } else {
      var tail := Escape(text[1..]) + "\"" + rest;
      ScanEscaped(text[1..], rest);
      ScanChar(text[0], text[1..], rest, tail);
      assert s == EscapeChar(text[0]) + tail;
      assert [text[0]] + text[1..] == text;
    }
  }

  lemma ScanQuoted(text: string, rest: string)
    ensures var s := Quote(text) + rest; s[0] == '\"' && Scan(s[1..]) == Some((text, rest))
  {
    var s := Quote(text) + rest;
    ScanEscaped(text, rest);
    assert s[1..] == Escape(text) + "\"" + rest;
  }

  // ---------- values ----------

  /** A printed value starts with a character that is neither white space nor a separator. */
  lemma PrintHead(j: Json)
    ensures Print(j) != [] && !IsSpace(Print(j)[0]) && Print(j)[0] != ']' && Print(j)[0] != '}'
  {
    match j {
      case Num(n) =>
        if n >= 0 { DigitsShape(n); assert IsDigit(Digits(n)[0]); }
      case _ =>
    }
  }

  lemma SkipSpaceNone(s: string)
    requires s != [] && !IsSpace(s[0])
    ensures SkipSpace(s) == s
  {
  }

  /** The sign and the digits of an integer, for any digit string that parses as a natural. */
  lemma AtomOfDigits(d: string, n: nat, rest: string)
    requires d != [] && IsDigit(d[0]) && ParseNat(d + rest) == Some((n, rest))
    ensures ParseAtom(d + rest) == Some((Num(n), rest))
    ensures ParseAtom("-" + d + rest) == Some((Num(0 - n), rest))
  {
    assert (d + rest)[0] == d[0];
    assert ("-" + d + rest)[1..] == d + rest;
  }

  lemma ParsePrintedInt(n: int, rest: string)
    requires Delimited(rest)
    ensures var s := IntText(n) + rest; s != [] && ParseAtom(s) == Some((Num(n), rest))
    ensures IntText(n)[0] == '-' || IsDigit(IntText(n)[0])
  {
    var m := if n < 0 then -n else n;
    DigitsShape(m);
    ParseDigits(m, rest);
    AtomOfDigits(Digits(m), m, rest);
  }

  lemma ParsePrintedAtom(j: Json, rest: string)
    requires j.Null? || j.Bool? || j.Num?
    requires Delimited(rest)
    ensures var s := Print(j) + rest;
      s != [] && ParseAtom(s) == Some((j, rest)) && s[0] != '\"' && s[0] != '[' && s[0] != '{'
  {
    var s := Print(j) + rest;
    match j {
      case Null => assert s[4..] == rest;
      case Bool(b) =>
        if b { assert s[4..] == rest; } else { assert s[5..] == rest; }
      case Num(n) => ParsePrintedInt(n, rest);
    }
  }

  lemma {:induction false} ParsePrinted(j: Json, rest: string)
    requires Delimited(rest)
    ensures ParseValue(Print(j) + rest) == Some((j, rest))
    decreases j, 1
  {
    match j {
      case Str(text) => ScanQuoted(text, rest);
      case Arr(items) => ParsePrintedArray(items, rest);
      case Obj(fields) =>
        if fields.Keys == {} {
          ParsePrintedEmptyObject(fields, rest);
        } else {
          ParsePrintedObject(fields, rest);
        }
      case _ => ParsePrintedAtom(j, rest);
    }
  }

  lemma ParsePrintedEmptyObject(fields: map<string, Json>, rest: string)
    requires fields.Keys == {}
    ensures ParseValue(Print(Obj(fields)) + rest) == Some((Obj(fields), rest))
  {
    var s := Print(Obj(fields)) + rest;
    assert s[1..] == "}" + rest;
    assert s[1..][1..] == rest;
    assert fields == map[];
  }

  lemma {:induction false} ParsePrintedArray(items: seq<Json>, rest: string)
    ensures ParseValue(Print(Arr(items)) + rest) == Some((Arr(items), rest))
    decreases Arr(items), 0
  {
    var s := Print(Arr(items)) + rest;
    if items == [] {
      assert s[1..] == "]" + rest;
      assert s[1..][1..] == rest;
    } else {
      var body := PrintItems(items) + "]" + rest;
      assert s[1..] == body;
      ItemsHead(items);
      SkipSpaceNone(body);
      ParsePrintedItems(items, rest);
    }
  }

  lemma ItemsHead(items: seq<Json>)
    requires items != []
    ensures PrintItems(items) != [] && !IsSpace(PrintItems(items)[0]) && PrintItems(items)[0] != ']'
  {
    PrintHead(items[0]);
  }

  /** One item followed by `]` ends the array; one followed by `,` continues it. */
  lemma ParseItemsStep(j: Json, next: char, tail: string)
    requires next == ']' || next == ','
    requires ParseValue(Print(j) + ([next] + tail)) == Some((j, [next] + tail))
    ensures next == ']' ==> ParseItems(Print(j) + ([next] + tail)) == Some(([j], tail))
    ensures next == ',' && ParseItems(SkipSpace(tail)).Some? ==>
      ParseItems(Print(j) + ([next] + tail)) ==
        Some(([j] + ParseItems(SkipSpace(tail)).value.0, ParseItems(SkipSpace(tail)).value.1))
  {
    SkipSpaceNone([next] + tail);
    assert ([next] + tail)[1..] == tail;
  }

  /** The text of the items of an array, split after the first. */
  lemma ItemsText(items: seq<Json>, rest: string)
    requires |items| > 1
    ensures PrintItems(items) + "]" + rest == Print(items[0]) + ([','] + (PrintItems(items[1..]) + "]" + rest))
  {
    var a, b := Print(items[0]), PrintItems(items[1..]);
    assert PrintItems(items) == a + "," + b;
    JoinedText(a, b, rest);
  }

  lemma JoinedText(a: string, b: string, rest: string)
    ensures (a + "," + b) + "]" + rest == a + ([','] + (b + "]" + rest))
  {
  }

  /** An array of several items, once its first and its other items are known to parse. */
  lemma ItemsGoOn(items: seq<Json>, rest: string)
    requires |items| > 1
    requires var tail := PrintItems(items[1..]) + "]" + rest;
      && ParseValue(Print(items[0]) + ([','] + tail)) == Some((items[0], [','] + tail))
      && ParseItems(tail) == Some((items[1..], rest))
    ensures ParseItems(PrintItems(items) + "]" + rest) == Some((items, rest))
  {
    var tail := PrintItems(items[1..]) + "]" + rest;
    ItemsText(items, rest);
    ItemsHead(items[1..]);
    SkipSpaceNone(tail);
    ParseItemsStep(items[0], ',', tail);
    assert [items[0]] + items[1..] == items;
  }

  lemma LastItem(item: Json, rest: string)
    requires ParseValue(Print(item) + ([']'] + rest)) == Some((item, [']'] + rest))
    ensures ParseItems(PrintItems([item]) + "]" + rest) == Some(([item], rest))
  {
    assert PrintItems([item]) + "]" + rest == Print(item) + ([']'] + rest);
    ParseItemsStep(item, ']', rest);
  }

  lemma {:induction false} ParsePrintedItems(items: seq<Json>, rest: string)
    requires items != []
    ensures ParseItems(PrintItems(items) + "]" + rest) == Some((items, rest))
    decreases items
  {
    if |items| == 1 {
      ParsePrinted(items[0], [']'] + rest);
      LastItem(items[0], rest);
      assert [items[0]] == items;
    } else {
      ParsePrinted(items[0], [','] + (PrintItems(items[1..]) + "]" + rest));
      ParsePrintedItems(items[1..], rest);
      ItemsGoOn(items, rest);
    }
  }

  function Restrict(fields: map<string, Json>, keys: seq<string>): map<string, Json> {
    map k | k in fields.Keys && k in keys :: fields[k]
  }

  /** One field followed by `}` ends the object; one followed by `,` continues it. */
  lemma ParseFieldsStep(k: string, v: Json, next: char, tail: string)
    requires next == '}' || next == ','
    requires ParseValue(Print(v) + ([next] + tail)) == Some((v, [next] + tail))
    ensures var s := Quote(k) + (":" + (Print(v) + ([next] + tail)));
      && (next == '}' ==> ParseFields(s) == Some((map[k := v], tail)))
      && (next == ',' && ParseFields(SkipSpace(tail)).Some? ==>
            ParseFields(s) == Some((map[k := v] + ParseFields(SkipSpace(tail)).value.0,
                                    ParseFields(SkipSpace(tail)).value.1)))
  {
    var value := Print(v) + ([next] + tail);
    ScanQuoted(k, ":" + value);
    SkipSpaceNone(":" + value);
    assert (":" + value)[1..] == value;
    PrintHead(v);
    SkipSpaceNone(value);
    SkipSpaceNone([next] + tail);
    assert ([next] + tail)[1..] == tail;
  }

  lemma {:induction false} ParsePrintedFields(j: Json, keys: seq<string>, rest: string)
    requires j.Obj? && keys != [] && forall k | k in keys :: k in j.fields
    requires Distinct(keys)
    ensures ParseFields(PrintFields(j, keys) + "}" + rest) == Some((Restrict(j.fields, keys), rest))
    decreases j, 0, |keys|
  {
    var k, v := keys[0], j.fields[keys[0]];
    if |keys| == 1 {
      ParsePrinted(v, ['}'] + rest);
      LastField(k, v, rest);
      ParseFieldsStep(k, v, '}', rest);
      assert Restrict(j.fields, keys) == map[k := v];
    } else {
      var more := PrintFields(j, keys[1..]);
      var tail := more + "}" + rest;
      ParsePrinted(v, [','] + tail);
      FieldThenMore(k, v, more, rest);
      SkipSpaceNone(tail);
      ParsePrintedFields(j, keys[1..], rest);
      ParseFieldsStep(k, v, ',', tail);
      RestrictCons(j.fields, keys);
    }
  }

  lemma LastField(k: string, v: Json, rest: string)
    ensures Quote(k) + ":" + Print(v) + "}" + rest == Quote(k) + (":" + (Print(v) + (['}'] + rest)))
  {
  }

  lemma FieldThenMore(k: string, v: Json, more: string, rest: string)
    ensures Quote(k) + ":" + Print(v) + "," + more + "}" + rest
         == Quote(k) + (":" + (Print(v) + ([','] + (more + "}" + rest))))
  {
  }

  lemma RestrictCons(fields: map<string, Json>, keys: seq<string>)
    requires keys != [] && Distinct(keys) && keys[0] in fields
    ensures Restrict(fields, keys) == map[keys[0] := fields[keys[0]]] + Restrict(fields, keys[1..])
  {
    assert keys == [keys[0]] + keys[1..];
  }

  lemma RestrictAll(fields: map<string, Json>, keys: seq<string>)
    requires Elements(keys) == fields.Keys
    ensures Restrict(fields, keys) == fields
  {
    forall k | k in fields ensures k in Restrict(fields, keys) {
      assert k in Elements(keys);
    }
  }

  /** The text of a non-empty object, and its keys in order. */
  lemma ObjectText(fields: map<string, Json>, keys: seq<string>, rest: string)
    requires fields.Keys != {} && keys == Sorted(fields.Keys)
    ensures keys != [] && Distinct(keys) && Elements(keys) == fields.Keys && forall k | k in keys :: k in fields
    ensures Print(Obj(fields)) + rest == "{" + (PrintFields(Obj(fields), keys) + "}" + rest)
  {
    forall k | k in keys ensures k in fields {
      assert k in Elements(keys);
    }
    assert keys != [];
    SortedDistinct(keys);
  }

  /** A brace and fields that parse are an object. */
  lemma ParseObjectStep(body: string, fields: map<string, Json>, rest: string)
    requires body != [] && body[0] == '\"' && ParseFields(body) == Some((fields, rest))
    ensures ParseValue("{" + body) == Some((Obj(fields), rest))
  {
    assert ("{" + body)[1..] == body;
    SkipSpaceNone(body);
  }

  lemma {:induction false} ParsePrintedObject(fields: map<string, Json>, rest: string)
    requires fields.Keys != {}
    ensures ParseValue(Print(Obj(fields)) + rest) == Some((Obj(fields), rest))
    decreases Obj(fields), 0, |fields.Keys| + 1
  {
    var keys := Sorted(fields.Keys);
    ObjectText(fields, keys, rest);
    ParsePrintedFields(Obj(fields), keys, rest);
    RestrictAll(fields, keys);
    ParseObjectStep(PrintFields(Obj(fields), keys) + "}" + rest, fields, rest);
  }

  /** Round trip: loading the canonical text of a value yields exactly that value. */
  lemma LoadsPrint(j: Json)
    ensures Loads(Print(j)) == Some(j)
  {
    PrintHead(j);
    SkipSpaceNone(Print(j));
    assert Print(j) + [] == Print(j);
    ParsePrinted(j, []);
  }

  /** The text under the hash determines the value: canonical printing is injective. */
  lemma PrintInjective(a: Json, b: Json)
    requires Print(a) == Print(b)
    ensures a == b
  {
    LoadsPrint(a);
    LoadsPrint(b);
  }

  /** What the verifiers recompute: re-serialising a loaded canonical text reproduces it. */
  lemma ReserialisationIsIdentity(j: Json)
    ensures Loads(Print(j)).Some? && Print(Loads(Print(j)).value) == Print(j)
  {
    LoadsPrint(j);
  }

  /** Loading is not injective: a blank after the value changes the text but not the value. */
  lemma BlankDoesNotChangeValue(j: Json)
    ensures Print(j) + " " != Print(j) && Loads(Print(j) + " ") == Loads(Print(j))
  {
    PrintHead(j);
    LoadsPrint(j);
    var s := Print(j) + " ";
    assert |s| == |Print(j)| + 1;
    SkipSpaceNone(s);
    ParsePrinted(j, " ");
    assert " "[1..] == [];
  }
}
