// The proleptic Gregorian calendar of Python's `datetime` (years 1 to
// 9999), instants as whole minutes, and the strftime texts the scheduler
// writes ("%Y%m%d%H%M%S" and "%Y-%m-%d %H:%M").
module Calendar {
  import opened Text

  predicate IsLeap(y: int)
  {
    y % 4 == 0 && (y % 100 != 0 || y % 400 == 0)
  }

  function DaysInYear(y: int): (n: nat)
    ensures n == 365 || n == 366
  {
    if IsLeap(y) then 366 else 365
  }

  function DaysInMonth(y: int, m: int): (n: nat)
    requires 1 <= m <= 12
    ensures 28 <= n <= 31
    ensures m == 2 ==> (n == 29 <==> IsLeap(y))
  {
    if m == 2 then (if IsLeap(y) then 29 else 28)
    else if m == 4 || m == 6 || m == 9 || m == 11 then 30
    else 31
  }

  const MaxYear: int := 9999

  /** Days from 0001-01-01 to January 1st of year `y`. */
  function DaysBeforeYear(y: int): int
    requires y >= 1
  {
    var p := y - 1;
    365 * p + p / 4 - p / 100 + p / 400
  }

  lemma StepDiv4(y: int)
    ensures y / 4 - (y - 1) / 4 == if y % 4 == 0 then 1 else 0
  {
    var q, r := y / 4, y % 4;
    if r == 0 {
      assert y - 1 == 4 * (q - 1) + (4 - 1);
    } else {
      assert y - 1 == 4 * q + (r - 1);
    }
  }

  lemma StepDiv100(y: int)
    ensures y / 100 - (y - 1) / 100 == if y % 100 == 0 then 1 else 0
  {
    var q, r := y / 100, y % 100;
    if r == 0 {
      assert y - 1 == 100 * (q - 1) + (100 - 1);
    } else {
      assert y - 1 == 100 * q + (r - 1);
    }
  }

  lemma StepDiv400(y: int)
    ensures y / 400 - (y - 1) / 400 == if y % 400 == 0 then 1 else 0
  {
    var q, r := y / 400, y % 400;
    if r == 0 {
      assert y - 1 == 400 * (q - 1) + (400 - 1);
    } else {
      assert y - 1 == 400 * q + (r - 1);
    }
  }

  lemma HundredsAreFours(y: int)
    requires y % 100 == 0
    ensures y % 4 == 0
  {
    var k := y / 100;
    assert y == 4 * (25 * k);
  }

  lemma FourHundredsAreHundreds(y: int)
    requires y % 400 == 0
    ensures y % 100 == 0
  {
    var k := y / 400;
    assert y == 100 * (4 * k);
  }

  /** The leap-day count of `DaysBeforeYear` grows by one exactly across a leap year. */
  lemma LeapStep(y: int)
    ensures (y / 4 - (y - 1) / 4) - (y / 100 - (y - 1) / 100) + (y / 400 - (y - 1) / 400)
            == if IsLeap(y) then 1 else 0
  {
    StepDiv4(y);
    StepDiv100(y);
    StepDiv400(y);
    if y % 400 == 0 {
      FourHundredsAreHundreds(y);
      HundredsAreFours(y);
    } else if y % 100 == 0 {
      HundredsAreFours(y);
    }
  }

  /** One more year adds that year's length. */
  lemma DaysBeforeNextYear(y: int)
    requires y >= 1
    ensures DaysBeforeYear(y + 1) == DaysBeforeYear(y) + DaysInYear(y)
  {
    var p := y - 1;
    var n4, n100, n400 := y / 4, y / 100, y / 400;
    var p4, p100, p400 := p / 4, p / 100, p / 400;
    assert DaysBeforeYear(y + 1) == 365 * y + n4 - n100 + n400;
    assert DaysBeforeYear(y) == 365 * p + p4 - p100 + p400;
    LeapStep(y);
    assert (n4 - p4) - (n100 - p100) + (n400 - p400) == DaysInYear(y) - 365;
  }

  lemma {:induction false} DaysBeforeYearMonotonic(a: int, b: int)
    requires 1 <= a <= b
    ensures DaysBeforeYear(a) + 365 * (b - a) <= DaysBeforeYear(b)
    decreases b - a
  {
    if a < b {
      DaysBeforeNextYear(a);
      DaysBeforeYearMonotonic(a + 1, b);
    }
  }

  /** Days from January 1st to the first day of month `m` (13 means the next January). */
  function DaysBeforeMonth(y: int, m: int): (n: nat)
    requires 1 <= m <= 13
    ensures 28 * (m - 1) <= n <= 31 * (m - 1)
  {
    if m == 1 then 0 else DaysBeforeMonth(y, m - 1) + DaysInMonth(y, m - 1)
  }

  lemma WholeYearOfMonths(y: int)
    ensures DaysBeforeMonth(y, 13) == DaysInYear(y)
  {
    var leap := if IsLeap(y) then 1 else 0;
    assert DaysBeforeMonth(y, 3) == 59 + leap;
    assert DaysBeforeMonth(y, 5) == 120 + leap;
    assert DaysBeforeMonth(y, 7) == 181 + leap;
    assert DaysBeforeMonth(y, 9) == 243 + leap;
    assert DaysBeforeMonth(y, 11) == 304 + leap;
    assert DaysBeforeMonth(y, 13) == 365 + leap;
  }

  datatype Date = Date(year: int, month: int, day: int)

  predicate ValidDate(d: Date)
  {
    1 <= d.year <= MaxYear && 1 <= d.month <= 12 && 1 <= d.day <= DaysInMonth(d.year, d.month)
  }

  /** The number of representable days: 0001-01-01 to 9999-12-31. */
  const DayCount: int := DaysBeforeYear(MaxYear + 1)

  /** Days since 0001-01-01 (Python's `toordinal() - 1`). */
  function DayNumber(d: Date): (n: int)
    requires ValidDate(d)
    ensures DaysBeforeYear(d.year) <= n < DaysBeforeYear(d.year) + DaysInYear(d.year)
  {
    WholeYearOfMonths(d.year);
    DaysBeforeMonth(d.year, d.month) + d.day - 1 + DaysBeforeYear(d.year)
  }

  lemma DayNumberInRange(d: Date)
    requires ValidDate(d)
    ensures 0 <= DayNumber(d) < DayCount
  {
    DaysBeforeYearMonotonic(1, d.year);
    DaysBeforeYearMonotonic(d.year + 1, MaxYear + 1);
    DaysBeforeNextYear(d.year);
  }

  /** The year holding day `n`, searching upwards from `y`. */
  function YearFrom(n: int, y: int): (r: int)
    requires 1 <= y <= MaxYear && DaysBeforeYear(y) <= n < DayCount
    ensures y <= r <= MaxYear
    ensures DaysBeforeYear(r) <= n < DaysBeforeYear(r) + DaysInYear(r)
    decreases MaxYear - y
  {
    DaysBeforeNextYear(y);
    if n < DaysBeforeYear(y + 1) then y
    else if y == MaxYear then y
    else YearFrom(n, y + 1)
  }

  /** The month holding day `k` of year `y`, searching upwards from `m`. */
  function MonthFrom(y: int, k: int, m: int): (r: int)
    requires 1 <= m <= 12 && DaysBeforeMonth(y, m) <= k < DaysInYear(y)
    ensures m <= r <= 12
    ensures DaysBeforeMonth(y, r) <= k < DaysBeforeMonth(y, r) + DaysInMonth(y, r)
    decreases 12 - m
  {
    WholeYearOfMonths(y);
    if k < DaysBeforeMonth(y, m + 1) then m else MonthFrom(y, k, m + 1)
  }

  /** The date of day number `n` (Python's `date.fromordinal(n + 1)`). */
  function DateOf(n: int): (d: Date)
    requires 0 <= n < DayCount
    ensures ValidDate(d) && DayNumber(d) == n
  {
    var y := YearFrom(n, 1);
    var m := MonthFrom(y, n - DaysBeforeYear(y), 1);
    Date(y, m, n - DaysBeforeYear(y) - DaysBeforeMonth(y, m) + 1)
  }

  /** Different valid dates have different day numbers. */
  lemma DayNumberInjective(a: Date, b: Date)
    requires ValidDate(a) && ValidDate(b) && DayNumber(a) == DayNumber(b)
    ensures a == b
  {
    if a.year < b.year {
      DaysBeforeNextYear(a.year);
      DaysBeforeYearMonotonic(a.year + 1, b.year);
    } else if b.year < a.year {
      DaysBeforeNextYear(b.year);
      DaysBeforeYearMonotonic(b.year + 1, a.year);
    } else if a.month < b.month {
      MonthsAhead(a.year, a.month, b.month);
    } else if b.month < a.month {
      MonthsAhead(a.year, b.month, a.month);
    }
  }

  lemma {:induction false} MonthsAhead(y: int, m: int, n: int)
    requires 1 <= m < n <= 12
    ensures DaysBeforeMonth(y, m) + DaysInMonth(y, m) <= DaysBeforeMonth(y, n)
    decreases n - m
  {
    if m + 1 < n {
      MonthsAhead(y, m + 1, n);
    }
  }

  /** Reading a valid date's day number back gives the date. */
  lemma DateOfDayNumber(d: Date)
    requires ValidDate(d)
    ensures 0 <= DayNumber(d) < DayCount && DateOf(DayNumber(d)) == d
  {
    DayNumberInRange(d);
    DayNumberInjective(DateOf(DayNumber(d)), d);
  }

  // ---------------------------------------------------------------------
  // Instants: whole minutes since 0001-01-01 00:00

  const MinutesPerDay: int := 1440

  /** The instants a `datetime` can hold, at minute precision. */
  predicate Representable(t: int)
  {
    0 <= t < DayCount * MinutesPerDay
  }

  /** `datetime.combine(date, time)` with seconds dropped. */
  function At(d: Date, hour: int, minute: int): (t: int)
    requires ValidDate(d) && 0 <= hour < 24 && 0 <= minute < 60
    ensures Representable(t)
    ensures t / MinutesPerDay == DayNumber(d) && t % MinutesPerDay == 60 * hour + minute
  {
    DayNumberInRange(d);
    DayNumber(d) * MinutesPerDay + 60 * hour + minute
  }

  function DateAt(t: int): (d: Date)
    requires Representable(t)
    ensures ValidDate(d)
  {
    DateOf(t / MinutesPerDay)
  }

  function HourAt(t: int): (h: int)
    ensures 0 <= h < 24
  {
    t % MinutesPerDay / 60
  }

  function MinuteAt(t: int): (m: int)
    ensures 0 <= m < 60
  {
    t % MinutesPerDay % 60
  }

  /** Splitting an instant into date, hour and minute and combining them again gives it back. */
  lemma AtParts(t: int)
    requires Representable(t)
    ensures At(DateAt(t), HourAt(t), MinuteAt(t)) == t
  {
  }

  /** Four digits and four pairs of digits, then "00", make fourteen digits. */
  lemma StampDigits(a: string, b: string, c: string, e: string, f: string)
    requires |a| == 4 && |b| == 2 && |c| == 2 && |e| == 2 && |f| == 2
    requires forall i :: 0 <= i < 4 ==> IsDigit(a[i])
    requires forall i :: 0 <= i < 2 ==> IsDigit(b[i]) && IsDigit(c[i]) && IsDigit(e[i]) && IsDigit(f[i])
    ensures |a + b + c + e + f + "00"| == 14
    ensures forall i :: 0 <= i < 14 ==> IsDigit((a + b + c + e + f + "00")[i])
  {
    var s := a + b + c + e + f + "00";
    forall i | 0 <= i < 14
      ensures IsDigit(s[i])
    {
      if i < 4 { assert s[i] == a[i]; }
      else if i < 6 { assert s[i] == b[i - 4]; }
      else if i < 8 { assert s[i] == c[i - 6]; }
      else if i < 10 { assert s[i] == e[i - 8]; }
      else if i < 12 { assert s[i] == f[i - 10]; }
    }
  }

  /** strftime("%Y%m%d%H%M%S") with the seconds always zero. */
  function Timestamp(t: int): (s: string)
    requires Representable(t)
    ensures |s| == 14 && forall i :: 0 <= i < 14 ==> IsDigit(s[i])
  {
    var d := DateAt(t);
    var year, month, day := Digits(d.year, 4), Digits(d.month, 2), Digits(d.day, 2);
    var hour, minute := Digits(HourAt(t), 2), Digits(MinuteAt(t), 2);
    StampDigits(year, month, day, hour, minute);
    year + month + day + hour + minute + "00"
  }

  /** "YYYY-MM-DD hh:mm" puts its separators at 4, 7, 10 and 13, and the fields between them. */
  lemma ClockSeparators(a: string, b: string, c: string, e: string, f: string)
    requires |a| == 4 && |b| == 2 && |c| == 2 && |e| == 2 && |f| == 2
    ensures var s := a + "-" + b + "-" + c + " " + e + ":" + f;
            |s| == 16 && s[4] == '-' && s[7] == '-' && s[10] == ' ' && s[13] == ':' &&
            s[0..4] == a && s[5..7] == b && s[8..10] == c && s[11..13] == e && s[14..16] == f
  {
  }

  /**
   * strftime("%Y-%m-%d %H:%M"): the digits of the timestamp without its
   * seconds, with the separators in between.
   */
  function ClockText(t: int): (s: string)
    requires Representable(t)
    ensures |s| == 16 && s[4] == '-' && s[7] == '-' && s[10] == ' ' && s[13] == ':'
    ensures s[0..4] + s[5..7] + s[8..10] + s[11..13] + s[14..16] + "00" == Timestamp(t)
  {
    var d := DateAt(t);
    var year, month, day := Digits(d.year, 4), Digits(d.month, 2), Digits(d.day, 2);
    var hour, minute := Digits(HourAt(t), 2), Digits(MinuteAt(t), 2);
    ClockSeparators(year, month, day, hour, minute);
    year + "-" + month + "-" + day + " " + hour + ":" + minute
  }

  /** The instant written by `Timestamp`, read back field by field. */
  function ReadTimestamp(s: string): (t: int)
    requires |s| == 14 && forall i :: 0 <= i < 14 ==> IsDigit(s[i])
  {
    var d := Date(Value(s[0..4]), Value(s[4..6]), Value(s[6..8]));
    if ValidDate(d) && Value(s[8..10]) < 24 && Value(s[10..12]) < 60
    then At(d, Value(s[8..10]), Value(s[10..12]))
    else -1
  }

  lemma ReadFields(a: string, b: string, c: string, e: string, f: string)
    requires |a| == 4 && |b| == 2 && |c| == 2 && |e| == 2 && |f| == 2
    ensures var s := a + b + c + e + f + "00";
            s[0..4] == a && s[4..6] == b && s[6..8] == c && s[8..10] == e && s[10..12] == f
  {
  }

  /** Reading the fields of a stamp assembled from five digit strings gives back their values. */
  lemma ReadValues(a: string, b: string, c: string, e: string, f: string, s: string)
    requires |a| == 4 && |b| == 2 && |c| == 2 && |e| == 2 && |f| == 2
    requires s == a + b + c + e + f + "00"
    requires AllDigits(a) && AllDigits(b) && AllDigits(c) && AllDigits(e) && AllDigits(f) && AllDigits(s)
    ensures Value(s[0..4]) == Value(a) && Value(s[4..6]) == Value(b) && Value(s[6..8]) == Value(c) &&
            Value(s[8..10]) == Value(e) && Value(s[10..12]) == Value(f)
  {
    ReadFields(a, b, c, e, f);
  }

  /** Each field of a timestamp reads back as the part of the instant it was written from. */
  lemma TimestampFields(t: int)
    requires Representable(t)
    ensures var s := Timestamp(t);
            var d := DateAt(t);
            Value(s[0..4]) == d.year && Value(s[4..6]) == d.month && Value(s[6..8]) == d.day &&
            Value(s[8..10]) == HourAt(t) && Value(s[10..12]) == MinuteAt(t)
  {
    var d := DateAt(t);
    var year, month, day := Digits(d.year, 4), Digits(d.month, 2), Digits(d.day, 2);
    var hour, minute := Digits(HourAt(t), 2), Digits(MinuteAt(t), 2);
    ValueDigits(d.year, 4);
    ValueDigits(d.month, 2);
    ValueDigits(d.day, 2);
    ValueDigits(HourAt(t), 2);
    ValueDigits(MinuteAt(t), 2);
    ReadValues(year, month, day, hour, minute, Timestamp(t));
  }

  /** Timestamps are read back to the instant they were written from. */
  lemma TimestampRoundTrip(t: int)
    requires Representable(t)
    ensures ReadTimestamp(Timestamp(t)) == t
  {
    TimestampFields(t);
    AtParts(t);
  }

  /** Different instants get different timestamps. */
  lemma TimestampInjective(t: int, u: int)
    requires Representable(t) && Representable(u) && Timestamp(t) == Timestamp(u)
    ensures t == u
  {
    TimestampRoundTrip(t);
    TimestampRoundTrip(u);
  }

  /** Different instants get different "%Y-%m-%d %H:%M" texts. */
  lemma ClockTextInjective(t: int, u: int)
    requires Representable(t) && Representable(u) && ClockText(t) == ClockText(u)
    ensures t == u
  {
    var s := ClockText(t);
    assert Timestamp(t) == s[0..4] + s[5..7] + s[8..10] + s[11..13] + s[14..16] + "00" == Timestamp(u);
    TimestampInjective(t, u);
  }
}
