/** Canonical JSON: `json.dumps(v, ensure_ascii=False, sort_keys=True, separators=(",", ":"))` and
    `json.loads`, on values without floats. The text is what the hash chains digest. */
module Json {
  import opened Wrappers
  import opened Strings

  datatype Json =
    | Null
    | Bool(b: bool)
    | Num(n: int)
    | Str(s: string)
    | Arr(items: seq<Json>)
    | Obj(fields: map<string, Json>)

  // ---------- printing ----------

  function DigitChar(d: nat): char
    requires d < 10
  {
    (48 + d) as char
  }

  function Digits(n: nat): string {
    if n < 10 then [DigitChar(n)] else Digits(n / 10) + [DigitChar(n % 10)]
  }

  function IntText(n: int): string {
    if n < 0 then "-" + Digits(-n) else Digits(n)
  }

  function HexChar(d: nat): char
    requires d < 16
  {
    if d < 10 then (48 + d) as char else (87 + d) as char
  }

  /** The two-character escapes shared by printer and parser: the letter after the backslash. */
  function ShortEscape(c: char): Option<char> {
    if c == '\"' then Some('\"')
    else if c == '\\' then Some('\\')
    else if c == '\n' then Some('n')
    else if c == '\r' then Some('r')
    else if c == '\t' then Some('t')
    else if c == '\U{8}' then Some('b')
    else if c == '\U{c}' then Some('f')
    else None
  }

  function EscapeChar(c: char): string {
    match ShortEscape(c)
    case Some(letter) => ['\\', letter]
    case None =>
      if c as int < 0x20 then ['\\', 'u', '0', '0', HexChar(c as int / 16), HexChar(c as int % 16)]
      else [c]
  }

  function Escape(s: string): string {
    if s == [] then [] else EscapeChar(s[0]) + Escape(s[1..])
  }

  function Quote(s: string): string {
    "\"" + Escape(s) + "\""
  }

  /** `_json` / `_canonical`. */
  function Print(j: Json): string
    decreases j, 0
  {
    match j
    case Null => "null"
    case Bool(b) => if b then "true" else "false"
    case Num(n) => IntText(n)
    case Str(s) => Quote(s)
    case Arr(items) => if items == [] then "[]" else "[" + PrintItems(items) + "]"
    case Obj(fields) =>
      if fields.Keys == {} then "{}" else "{" + PrintFields(j, Sorted(fields.Keys)) + "}"
  }

  function PrintItems(items: seq<Json>): string
    requires items != []
    decreases items
  {
    if |items| == 1 then Print(items[0])
    else Print(items[0]) + "," + PrintItems(items[1..])
  }

  function PrintFields(j: Json, keys: seq<string>): string
    requires j.Obj? && keys != [] && forall k | k in keys :: k in j.fields
    decreases j, 0, |keys|
  {
    var first := Quote(keys[0]) + ":" + Print(j.fields[keys[0]]);
    if |keys| == 1 then first else first + "," + PrintFields(j, keys[1..])
  }

  // ---------- parsing ----------

  predicate IsDigit(c: char) { '0' <= c <= '9' }

  predicate IsSpace(c: char) { c == ' ' || c == '\t' || c == '\n' || c == '\r' }

  function SkipSpace(s: string): (r: string)
    ensures |r| <= |s|
  {
    if s != [] && IsSpace(s[0]) then SkipSpace(s[1..]) else s
  }

  function SpanDigits(s: string): (n: nat)
    ensures n <= |s|
  {
    if s != [] && IsDigit(s[0]) then 1 + SpanDigits(s[1..]) else 0
  }

  function DigitsValue(s: string): nat
    requires forall c | c in s :: IsDigit(c)
  {
    if s == [] then 0
    else
      var last := s[|s| - 1];
      assert IsDigit(last);
      10 * DigitsValue(s[..|s| - 1]) + (last as int - 48)
  }

  lemma SpanAreDigits(s: string)
    ensures forall c | c in s[..SpanDigits(s)] :: IsDigit(c)
  {
    if s != [] && IsDigit(s[0]) {
      SpanAreDigits(s[1..]);
      assert s[..SpanDigits(s)] == [s[0]] + s[1..][..SpanDigits(s[1..])];
    }
  }

  /** A decimal integer without leading zeros that is not the head of a float. */
  function ParseNat(s: string): (r: Option<(nat, string)>)
    ensures r.Some? ==> |r.value.1| < |s|
  {
    var n := SpanDigits(s);
    SpanAreDigits(s);
    if n == 0 then None
    else
      var k := if s[0] == '0' then 1 else n;
      if k < |s| && (s[k] == '.' || s[k] == 'e' || s[k] == 'E') then None
      else Some((DigitsValue(s[..k]), s[k..]))
  }

  function HexValue(c: char): Option<nat> {
    if '0' <= c <= '9' then Some(c as int - 48)
    else if 'a' <= c <= 'f' then Some(c as int - 87)
    else if 'A' <= c <= 'F' then Some(c as int - 55)
    else None
  }

  function Hex4(s: string): Option<nat>
    requires |s| == 4
  {
    var a :- HexValue(s[0]);
    var b :- HexValue(s[1]);
    var c :- HexValue(s[2]);
    var d :- HexValue(s[3]);
    Some(4096 * a + 256 * b + 16 * c + d)
  }

  function Unescape(letter: char): Option<char> {
    if letter == '\"' then Some('\"')
    else if letter == '\\' then Some('\\')
    else if letter == '/' then Some('/')
    else if letter == 'n' then Some('\n')
    else if letter == 'r' then Some('\r')
    else if letter == 't' then Some('\t')
    else if letter == 'b' then Some('\U{8}')
    else if letter == 'f' then Some('\U{c}')
    else None
  }

  /** Scans a string body up to its closing quote; control characters must be escaped. */
  function Scan(s: string): (r: Option<(string, string)>)
    ensures r.Some? ==> |r.value.1| < |s|
  {
    if s == [] then None
    else if s[0] == '\"' then Some(([], s[1..]))
    else if s[0] == '\\' then
      if |s| < 2 then None
      else if s[1] == 'u' then
        if |s| < 6 then None
        else
          var code :- Hex4(s[2..6]);
          if 0xD800 <= code < 0xE000 || code > 0xFFFF then None
          else
            var (text, rest) :- Scan(s[6..]);
            Some(([code as char] + text, rest))
      else
        var c :- Unescape(s[1]);
        var (text, rest) :- Scan(s[2..]);
        Some(([c] + text, rest))
    else if s[0] as int < 0x20 then None
    else
      var (text, rest) :- Scan(s[1..]);
      Some(([s[0]] + text, rest))
  }

  /** A literal or an integer. */
  function ParseAtom(s: string): (r: Option<(Json, string)>)
    requires s != []
    ensures r.Some? ==> |r.value.1| < |s|
  {
    if s[0] == 'n' then if "null" <= s then Some((Null, s[4..])) else None
    else if s[0] == 't' then if "true" <= s then Some((Bool(true), s[4..])) else None
    else if s[0] == 'f' then if "false" <= s then Some((Bool(false), s[5..])) else None
    else if s[0] == '-' then
      var (n, rest) :- ParseNat(s[1..]);
      Some((Num(0 - n), rest))
    else
      var (n, rest) :- ParseNat(s);
      Some((Num(n), rest))
  }

  function ParseValue(s: string): (r: Option<(Json, string)>)
    ensures r.Some? ==> |r.value.1| < |s|
    decreases |s|, 0
  {
    if s == [] then None
    else if s[0] == '\"' then
      var (text, rest) :- Scan(s[1..]);
      Some((Str(text), rest))
    else if s[0] == '[' then
      var body := SkipSpace(s[1..]);
      if body != [] && body[0] == ']' then Some((Arr([]), body[1..]))
      else
        var (items, rest) :- ParseItems(body);
        Some((Arr(items), rest))
    else if s[0] == '{' then
      var body := SkipSpace(s[1..]);
      if body != [] && body[0] == '}' then Some((Obj(map[]), body[1..]))
      else
        var (fields, rest) :- ParseFields(body);
        Some((Obj(fields), rest))
    else ParseAtom(s)
  }

  /** The items of a non-empty array, up to and including its `]`. */
  function ParseItems(s: string): (r: Option<(seq<Json>, string)>)
    ensures r.Some? ==> |r.value.1| < |s|
    decreases |s|, 1
  {
    var (item, after) :- ParseValue(s);
    var next := SkipSpace(after);
    if next == [] then None
    else if next[0] == ']' then Some(([item], next[1..]))
    else if next[0] == ',' then
      var (items, rest) :- ParseItems(SkipSpace(next[1..]));
      Some(([item] + items, rest))
    else None
  }

  /** The fields of a non-empty object, up to and including its `}`; a repeated key keeps its last value. */
  function ParseFields(s: string): (r: Option<(map<string, Json>, string)>)
    ensures r.Some? ==> |r.value.1| < |s|
    decreases |s|, 1
  {
    if s == [] || s[0] != '\"' then None
    else
      var (key, afterKey) :- Scan(s[1..]);
      var colon := SkipSpace(afterKey);
      if colon == [] || colon[0] != ':' then None
      else
        var (value, after) :- ParseValue(SkipSpace(colon[1..]));
        var next := SkipSpace(after);
        if next == [] then None
        else if next[0] == '}' then Some((map[key := value], next[1..]))
        else if next[0] == ',' then
          var (fields, rest) :- ParseFields(SkipSpace(next[1..]));
          Some((map[key := value] + fields, rest))
        else None
  }

  /** `json.loads`: one value with optional surrounding white space and nothing else. */
  function Loads(s: string): (r: Option<Json>) {
    var (value, rest) :- ParseValue(SkipSpace(s));
    if SkipSpace(rest) == [] then Some(value) else None
  }
}
