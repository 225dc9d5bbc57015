/** The lease tests compare `datetime.isoformat()` texts. For UTC values that byte order is the order of the
    instants, although the fraction is absent at microsecond 0 and six digits long otherwise. */
module Timestamps {
  import opened Strings

  /** A UTC `datetime`. */
  datatype DateTime = DateTime(year: nat, month: nat, day: nat, hour: nat, minute: nat, second: nat, micro: nat) {
    /** A date and time of the calendar, of whatever year. */
    predicate Proper() {
      1 <= year && 1 <= month <= 12 && 1 <= day <= DaysInMonth(year, month)
      && hour < 24 && minute < 60 && second < 60 && micro < 1_000_000
    }

    predicate Valid() {
      Proper() && year <= 9999
    }
  }

  predicate IsLeap(year: nat) {
    year % 4 == 0 && (year % 100 != 0 || year % 400 == 0)
  }

  function DaysInMonth(year: nat, month: nat): nat {
    if month == 2 then (if IsLeap(year) then 29 else 28)
    else if month == 4 || month == 6 || month == 9 || month == 11 then 30
    else 31
  }

  // ---------- instants ----------

  function DaysBeforeYear(year: nat): int
    requires year >= 1
  {
    var y := year - 1;
    y * 365 + y / 4 - y / 100 + y / 400
  }

  function DaysBeforeMonth(year: nat, month: nat): nat
    requires month >= 1
  {
    if month == 1 then 0 else DaysBeforeMonth(year, month - 1) + DaysInMonth(year, month - 1)
  }

  /** The proleptic Gregorian day number. */
  function DayNumber(t: DateTime): int
    requires t.Proper()
  {
    DaysBeforeYear(t.year) + DaysBeforeMonth(t.year, t.month) + t.day
  }

  function SecondOfDay(t: DateTime): nat {
    t.hour * 3600 + t.minute * 60 + t.second
  }

  /** The instant as a number of microseconds. */
  function Instant(t: DateTime): int
    requires t.Proper()
  {
    (DayNumber(t) * 86_400 + SecondOfDay(t)) * 1_000_000 + t.micro
  }

  // ---------- text ----------

  function Digit(d: nat): char
    requires d < 10
  {
    (48 + d) as char
  }

  /** `n` in decimal, zero-padded to `w` digits. */
  function Pad(w: nat, n: nat): (s: string)
    ensures |s| == w
  {
    if w == 0 then "" else Pad(w - 1, n / 10) + [Digit(n % 10)]
  }

  function Power10(w: nat): nat {
    if w == 0 then 1 else 10 * Power10(w - 1)
  }

  function Fraction(micro: nat): string {
    if micro == 0 then "" else "." + Pad(6, micro)
  }

  function TimeText(t: DateTime): string {
    Pad(2, t.hour) + (":" + (Pad(2, t.minute) + (":" + (Pad(2, t.second) + (Fraction(t.micro) + "+00:00")))))
  }

  /** `t.isoformat()`. */
  function IsoFormat(t: DateTime): string {
    Pad(4, t.year) + ("-" + (Pad(2, t.month) + ("-" + (Pad(2, t.day) + ("T" + TimeText(t))))))
  }

  // ---------- the text order ----------

  lemma {:induction false} PadOrder(w: nat, m: nat, n: nat)
    requires m < Power10(w) && n < Power10(w)
    ensures Less(Pad(w, m), Pad(w, n)) <==> m < n
    ensures Pad(w, m) == Pad(w, n) <==> m == n
  {
    if w > 0 {
      PadOrder(w - 1, m / 10, n / 10);
      var p, q := Pad(w - 1, m / 10), Pad(w - 1, n / 10);
      var c, d := [Digit(m % 10)], [Digit(n % 10)];
      if m / 10 == n / 10 {
        LessCommonPrefix(p, c, d);
        assert (p + c)[w - 1] == c[0] && (p + d)[w - 1] == d[0];
      } else {
        LessDecidedByPrefix(p, q, c, d);
        assert (p + c)[..w - 1] == p && (q + d)[..w - 1] == q;
      }
    }
  }

  /** A fixed-width field decides the order unless both sides agree on it. */
  lemma FieldStep(w: nat, m: nat, n: nat, a: string, b: string)
    requires m < Power10(w) && n < Power10(w)
    ensures Less(Pad(w, m) + a, Pad(w, n) + b) <==> m < n || (m == n && Less(a, b))
  {
    PadOrder(w, m, n);
    if m == n {
      LessCommonPrefix(Pad(w, m), a, b);
    } else {
      LessDecidedByPrefix(Pad(w, m), Pad(w, n), a, b);
    }
  }

  lemma Powers()
    ensures Power10(2) == 100 && Power10(4) == 10_000 && Power10(6) == 1_000_000
  {
    assert Power10(1) == 10 && Power10(2) == 100 && Power10(3) == 1000;
    assert Power10(4) == 10_000 && Power10(5) == 100_000;
  }

  /** '+' sorts before '.', so the missing fraction of microsecond 0 sorts first. */
  lemma FractionOrder(m: nat, n: nat)
    requires m < 1_000_000 && n < 1_000_000
    ensures Less(Fraction(m) + "+00:00", Fraction(n) + "+00:00") <==> m < n
  {
    Powers();
    var z := "+00:00";
    LessIrreflexive(z);
    if m > 0 && n > 0 {
      FieldStep(6, m, n, z, z);
      LessCommonPrefix(".", Pad(6, m) + z, Pad(6, n) + z);
      assert Fraction(m) + z == "." + (Pad(6, m) + z);
      assert Fraction(n) + z == "." + (Pad(6, n) + z);
    } else if m > 0 {
      assert (Fraction(m) + z)[0] == '.' && (Fraction(n) + z)[0] == '+';
    } else if n > 0 {
      assert (Fraction(m) + z)[0] == '+' && (Fraction(n) + z)[0] == '.';
    } else {
      assert Fraction(m) + z == z;
    }
  }

  predicate TimeBefore(a: DateTime, b: DateTime) {
    a.hour < b.hour || (a.hour == b.hour && (a.minute < b.minute || (a.minute == b.minute &&
      (a.second < b.second || (a.second == b.second && a.micro < b.micro)))))
  }

  predicate FieldsBefore(a: DateTime, b: DateTime) {
    a.year < b.year || (a.year == b.year && (a.month < b.month || (a.month == b.month &&
      (a.day < b.day || (a.day == b.day && TimeBefore(a, b))))))
  }

  lemma TimeTextOrder(a: DateTime, b: DateTime)
    requires a.Valid() && b.Valid()
    ensures Less(TimeText(a), TimeText(b)) <==> TimeBefore(a, b)
  {
    Powers();
    var fa, fb := Fraction(a.micro) + "+00:00", Fraction(b.micro) + "+00:00";
    FractionOrder(a.micro, b.micro);
    FieldStep(2, a.second, b.second, fa, fb);
    var sa, sb := Pad(2, a.second) + fa, Pad(2, b.second) + fb;
    LessCommonPrefix(":", sa, sb);
    FieldStep(2, a.minute, b.minute, ":" + sa, ":" + sb);
    var ma, mb := Pad(2, a.minute) + (":" + sa), Pad(2, b.minute) + (":" + sb);
    LessCommonPrefix(":", ma, mb);
    FieldStep(2, a.hour, b.hour, ":" + ma, ":" + mb);
  }

  lemma TextOrder(a: DateTime, b: DateTime)
    requires a.Valid() && b.Valid()
    ensures Less(IsoFormat(a), IsoFormat(b)) <==> FieldsBefore(a, b)
  {
    Powers();
    var ta, tb := TimeText(a), TimeText(b);
    TimeTextOrder(a, b);
    LessCommonPrefix("T", ta, tb);
    FieldStep(2, a.day, b.day, "T" + ta, "T" + tb);
    var da, db := Pad(2, a.day) + ("T" + ta), Pad(2, b.day) + ("T" + tb);
    LessCommonPrefix("-", da, db);
    FieldStep(2, a.month, b.month, "-" + da, "-" + db);
    var ma, mb := Pad(2, a.month) + ("-" + da), Pad(2, b.month) + ("-" + db);
    LessCommonPrefix("-", ma, mb);
    FieldStep(4, a.year, b.year, "-" + ma, "-" + mb);
  }

  // ---------- the instant order ----------

  lemma {:induction false} MonthsGrow(year: nat, m: nat, n: nat)
    requires 1 <= m < n
    ensures DaysBeforeMonth(year, m) + DaysInMonth(year, m) <= DaysBeforeMonth(year, n)
    decreases n
  {
    if m < n - 1 {
      MonthsGrow(year, m, n - 1);
    }
  }

  function DaysInYear(year: nat): nat {
    if IsLeap(year) then 366 else 365
  }

  lemma YearLength(year: nat)
    ensures DaysBeforeMonth(year, 12) + DaysInMonth(year, 12) == DaysInYear(year)
  {
    var feb := DaysInMonth(year, 2);
    assert DaysBeforeMonth(year, 2) == 31;
    assert DaysBeforeMonth(year, 4) == 62 + feb;
    assert DaysBeforeMonth(year, 6) == 123 + feb;
    assert DaysBeforeMonth(year, 8) == 184 + feb;
    assert DaysBeforeMonth(year, 10) == 245 + feb;
    assert DaysBeforeMonth(year, 12) == 306 + feb;
  }

  lemma Fours(year: nat)
    requires year >= 1
    ensures year / 4 == (year - 1) / 4 + if year % 4 == 0 then 1 else 0
  {
  }

  lemma Hundreds(year: nat)
    requires year >= 1
    ensures year / 100 == (year - 1) / 100 + if year % 100 == 0 then 1 else 0
  {
  }

  lemma FourHundreds(year: nat)
    requires year >= 1
    ensures year / 400 == (year - 1) / 400 + if year % 400 == 0 then 1 else 0
  {
  }

  lemma HundredsAreFours(j: int)
    ensures (100 * j) % 4 == 0
  {
    assert 100 * j == 4 * (25 * j);
  }

  lemma FourHundredsAreHundreds(j: int)
    ensures (400 * j) % 100 == 0
  {
    assert 400 * j == 100 * (4 * j);
  }

  lemma Multiples(year: nat)
    ensures year % 400 == 0 ==> year % 100 == 0
    ensures year % 100 == 0 ==> year % 4 == 0
  {
    if year % 400 == 0 {
      FourHundredsAreHundreds(year / 400);
      assert year == 400 * (year / 400);
    }
    if year % 100 == 0 {
      HundredsAreFours(year / 100);
      assert year == 100 * (year / 100);
    }
  }

  lemma NextYear(year: nat)
    requires year >= 1
    ensures DaysBeforeYear(year + 1) == DaysBeforeYear(year) + DaysInYear(year)
  {
    Fours(year);
    Hundreds(year);
    FourHundreds(year);
    Multiples(year);
  }

  lemma {:induction false} YearsGrow(m: nat, n: nat)
    requires 1 <= m < n
    ensures DaysBeforeYear(m) + DaysInYear(m) <= DaysBeforeYear(n)
    decreases n
  {
    NextYear(n - 1);
    if m < n - 1 {
      YearsGrow(m, n - 1);
    }
  }

  lemma DayWithinYear(t: DateTime)
    requires t.Proper()
    ensures 1 <= DaysBeforeMonth(t.year, t.month) + t.day <= DaysInYear(t.year)
  {
    YearLength(t.year);
    if t.month < 12 {
      MonthsGrow(t.year, t.month, 12);
    }
  }

  lemma FieldsBeforeIsEarlier(a: DateTime, b: DateTime)
    requires a.Proper() && b.Proper() && FieldsBefore(a, b)
    ensures Instant(a) < Instant(b)
  {
    DayWithinYear(a);
    DayWithinYear(b);
    if a.year < b.year {
      YearsGrow(a.year, b.year);
      EarlierDay(a, b);
    } else if a.month < b.month {
      MonthsGrow(a.year, a.month, b.month);
      EarlierDay(a, b);
    } else if a.day < b.day {
      EarlierDay(a, b);
    }
  }

  lemma EarlierDay(a: DateTime, b: DateTime)
    requires a.Proper() && b.Proper() && DayNumber(a) < DayNumber(b)
    ensures Instant(a) < Instant(b)
  {
    assert SecondOfDay(a) < 86_400;
  }

  /** The calendar order is the order of the instants. */
  lemma FieldOrderIsInstantOrder(a: DateTime, b: DateTime)
    requires a.Proper() && b.Proper()
    ensures FieldsBefore(a, b) <==> Instant(a) < Instant(b)
    ensures Instant(a) == Instant(b) <==> a == b
  {
    if FieldsBefore(a, b) {
      FieldsBeforeIsEarlier(a, b);
    } else if FieldsBefore(b, a) {
      FieldsBeforeIsEarlier(b, a);
    } else {
      assert a == b;
    }
  }

  // ---------- the clock ticks ----------

  /** The same time on the next day of the calendar. */
  function NextDay(t: DateTime): (u: DateTime)
    requires t.Proper()
    ensures u.Proper()
  {
    if t.day < DaysInMonth(t.year, t.month) then t.(day := t.day + 1)
    else if t.month < 12 then t.(day := 1, month := t.month + 1)
    else t.(day := 1, month := 1, year := t.year + 1)
  }

  lemma DayLater(t: DateTime)
    requires t.Proper()
    ensures DayNumber(NextDay(t)) == DayNumber(t) + 1
  {
    if t.day == DaysInMonth(t.year, t.month) && t.month == 12 {
      YearLength(t.year);
      NextYear(t.year);
    }
  }

  /** One second later, carried through the calendar. */
  function NextSecond(t: DateTime): (u: DateTime)
    requires t.Proper()
    ensures u.Proper()
  {
    if t.second < 59 then t.(second := t.second + 1)
    else if t.minute < 59 then t.(second := 0, minute := t.minute + 1)
    else if t.hour < 23 then t.(second := 0, minute := 0, hour := t.hour + 1)
    else NextDay(t).(second := 0, minute := 0, hour := 0)
  }

  /** `n` seconds later. */
  function Later(t: DateTime, n: nat): (u: DateTime)
    requires t.Proper()
    ensures u.Proper()
  {
    if n == 0 then t else NextSecond(Later(t, n - 1))
  }

  /** A second is a million microseconds, whatever it is carried into. */
  lemma SecondLater(t: DateTime)
    requires t.Proper()
    ensures Instant(NextSecond(t)) == Instant(t) + 1_000_000
  {
    var u := NextSecond(t);
    if t.second == 59 && t.minute == 59 && t.hour == 23 {
      DayLater(t);
      assert DayNumber(u) == DayNumber(NextDay(t));
      assert SecondOfDay(t) == 86_399 && SecondOfDay(u) == 0;
    } else {
      assert DayNumber(u) == DayNumber(t) && SecondOfDay(u) == SecondOfDay(t) + 1;
    }
  }

  lemma {:induction false} SecondsLater(t: DateTime, n: nat)
    requires t.Proper()
    ensures Instant(Later(t, n)) == Instant(t) + n * 1_000_000
  {
    if n > 0 {
      SecondsLater(t, n - 1);
      SecondLater(Later(t, n - 1));
    }
  }

  /** The string tests of the lease code are tests on instants. */
  lemma TextOrderIsInstantOrder(a: DateTime, b: DateTime)
    requires a.Valid() && b.Valid()
    ensures Less(IsoFormat(a), IsoFormat(b)) <==> Instant(a) < Instant(b)
    ensures IsoFormat(a) == IsoFormat(b) <==> a == b
  {
    TextOrder(a, b);
    TextOrder(b, a);
    LessIrreflexive(IsoFormat(a));
    FieldOrderIsInstantOrder(a, b);
  }
}
