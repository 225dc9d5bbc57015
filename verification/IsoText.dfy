/** What `isoformat()` writes: a text from which every field can be read back at its place. */
module IsoText {
  import opened Timestamps

  /** The number that a text of digits stands for. */
  function Number(digits: string): int {
    if digits == [] then 0 else 10 * Number(digits[..|digits| - 1]) + (digits[|digits| - 1] as int - '0' as int)
  }

  lemma {:induction false} PadReads(w: nat, n: nat)
    requires n < Power10(w)
    ensures Number(Pad(w, n)) == n && forall c | c in Pad(w, n) :: '0' <= c <= '9'
    decreases w
  {
    if w > 0 {
      PadReads(w - 1, n / 10);
      var s := Pad(w, n);
      assert s[..w - 1] == Pad(w - 1, n / 10) && s[w - 1] == Digit(n % 10);
    }
  }

  /** The text `s` from position `at` on is a field of `w` digits with the value `n`, and then `rest`. */
  ghost predicate FieldAt(s: string, at: nat, w: nat, n: nat, rest: string) {
    && at + w <= |s| && Number(s[at..at + w]) == n && (forall i | at <= i < at + w :: '0' <= s[i] <= '9')
    && s[at + w..] == rest
  }

  lemma FieldReads(s: string, at: nat, w: nat, n: nat, rest: string)
    requires at <= |s| && s[at..] == Pad(w, n) + rest && n < Power10(w)
    ensures FieldAt(s, at, w, n, rest)
  {
    PadReads(w, n);
    var tail := s[at..];
    assert tail[..w] == Pad(w, n) && tail[w..] == rest;
    assert s[at..at + w] == tail[..w] && s[at + w..] == tail[w..];
    forall i | at <= i < at + w ensures '0' <= s[i] <= '9' {
      assert s[i] == tail[i - at] == Pad(w, n)[i - at];
      assert Pad(w, n)[i - at] in Pad(w, n);
    }
  }

  /** The mark `c` stands at position `at`, before `rest`. */
  lemma MarkReads(s: string, at: nat, c: char, rest: string)
    requires at <= |s| && s[at..] == [c] + rest
    ensures at < |s| && s[at] == c && s[at + 1..] == rest
  {
    var tail := s[at..];
    assert tail[0] == c && tail[1..] == rest;
  }

  /** Year, month and day at their places, then the time. */
  lemma DateReads(s: string, t: DateTime)
    requires t.Valid() && s == IsoFormat(t)
    ensures FieldAt(s, 0, 4, t.year, s[4..]) && s[4] == '-' && FieldAt(s, 5, 2, t.month, s[7..]) && s[7] == '-'
    ensures FieldAt(s, 8, 2, t.day, s[10..]) && s[10] == 'T' && s[11..] == TimeText(t)
  {
    Powers();
    var c := "T" + TimeText(t);
    var b := Pad(2, t.day) + c;
    var a := Pad(2, t.month) + ("-" + b);
    assert s[0..] == s;
    FieldReads(s, 0, 4, t.year, "-" + a);
    MarkReads(s, 4, '-', a);
    FieldReads(s, 5, 2, t.month, "-" + b);
    MarkReads(s, 7, '-', b);
    FieldReads(s, 8, 2, t.day, c);
    MarkReads(s, 10, 'T', TimeText(t));
  }

  /** Hour, minute and second at their places, six digits of microseconds unless there are none, and the offset of UTC. */
  lemma TimeReads(s: string, t: DateTime)
    requires t.Valid() && |s| >= 11 && s[11..] == TimeText(t)
    ensures FieldAt(s, 11, 2, t.hour, s[13..]) && s[13] == ':' && FieldAt(s, 14, 2, t.minute, s[16..]) && s[16] == ':'
    ensures FieldAt(s, 17, 2, t.second, s[19..])
    ensures if t.micro == 0 then s[19..] == "+00:00" else s[19] == '.' && FieldAt(s, 20, 6, t.micro, "+00:00")
  {
    Powers();
    var c := Fraction(t.micro) + "+00:00";
    var b := Pad(2, t.second) + c;
    var a := Pad(2, t.minute) + (":" + b);
    FieldReads(s, 11, 2, t.hour, ":" + a);
    MarkReads(s, 13, ':', a);
    FieldReads(s, 14, 2, t.minute, ":" + b);
    MarkReads(s, 16, ':', b);
    FieldReads(s, 17, 2, t.second, c);
    if t.micro != 0 {
      assert c == "." + (Pad(6, t.micro) + "+00:00");
      MarkReads(s, 19, '.', Pad(6, t.micro) + "+00:00");
      FieldReads(s, 20, 6, t.micro, "+00:00");
    }
  }

  /** Different times have different texts. */
  lemma TextDeterminesTime(t: DateTime, u: DateTime)
    requires t.Valid() && u.Valid() && IsoFormat(t) == IsoFormat(u)
    ensures t == u
  {
    DateReads(IsoFormat(t), t);
    DateReads(IsoFormat(u), u);
    TimeReads(IsoFormat(t), t);
    TimeReads(IsoFormat(u), u);
  }
}
