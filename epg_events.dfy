// Turning the scraped event cards of peacock_07_1.py (lines 62-124) into
// timed events: the date and time texts are read with the fallbacks the
// script uses, the start is clamped to now, and events more than seven
// days ahead are dropped. `now` is a parameter, in whole minutes.
module EpgEvents {
  import opened Options
  import opened Text
  import opened Calendar

  const Months: seq<string> := [
    "January", "February", "March", "April", "May", "June",
    "July", "August", "September", "October", "November", "December"
  ]

  /** `EVENT_DURATION_HOURS = 4.5`, in minutes. */
  const EventMinutes: int := 270
  /** `MAX_DAYS_AHEAD = 7`, in minutes. */
  const WindowMinutes: int := 7 * 1440

  // ---------------------------------------------------------------------
  // strptime's fields

  /** What `\s` matches in a str pattern: the characters for which `str.isspace()` holds. */
  predicate IsSpace(c: char)
  {
    c == ' ' || '\t' <= c <= '\r' || '\U{1c}' <= c <= '\U{1f}' || c == '\U{85}' || c == '\U{a0}' ||
    c == '\U{1680}' || '\U{2000}' <= c <= '\U{200a}' || c == '\U{2028}' || c == '\U{2029}' ||
    c == '\U{202f}' || c == '\U{205f}' || c == '\U{3000}'
  }

  /** `\s+`: one or more white-space characters. */
  predicate Spaces(s: string)
  {
    |s| > 0 && forall i :: 0 <= i < |s| ==> IsSpace(s[i])
  }

  /** `%d`: two digits 01 to 31, or one digit 1 to 9. */
  function DayField(d: string): (r: Option<nat>)
    ensures r.Some? ==> 1 <= r.value <= 31 && AllDigits(d)
  {
    if |d| == 2 && AllDigits(d) && 1 <= Value(d) <= 31 then Some(Value(d))
    else if |d| == 1 && '1' <= d[0] <= '9' then Some(Value(d))
    else None
  }

  /** `\s+%d` up to the end of the text. */
  function SpacedDay(rest: string): (r: Option<nat>)
    ensures r.Some? ==> 1 <= r.value <= 31
  {
    if |rest| >= 3 && Spaces(rest[..|rest| - 2]) && DayField(rest[|rest| - 2..]).Some? then
      DayField(rest[|rest| - 2..])
    else if |rest| >= 2 && Spaces(rest[..|rest| - 1]) then DayField(rest[|rest| - 1..])
    else None
  }

  datatype MonthDay = MonthDay(month: int, day: int)

  /** `name` written in any mix of upper and lower case starts `s`. */
  predicate StartsWithAnyCase(s: string, name: string)
  {
    |name| <= |s| && forall i :: 0 <= i < |name| ==> LowerChar(s[i]) == LowerChar(name[i])
  }

  /** Month `m`'s name, in any case, begins `s`. */
  predicate MonthBegins(s: string, m: int)
    requires 1 <= m <= 12
  {
    StartsWithAnyCase(s, Months[m - 1])
  }

  /** The `%B %d` reading of `s` with month `m`'s name as the `%B` part. */
  function MonthAt(s: string, m: int): (r: Option<MonthDay>)
    requires 1 <= m <= 12
    ensures r.Some? ==> MonthBegins(s, m) && r.value.month == m && 1 <= r.value.day <= DaysInMonth(1900, m)
  {
    var name := Months[m - 1];
    if MonthBegins(s, m) && SpacedDay(s[|name|..]).Some? && SpacedDay(s[|name|..]).value <= DaysInMonth(1900, m)
    then Some(MonthDay(m, SpacedDay(s[|name|..]).value))
    else None
  }

  /** The first month from `m` on whose name, in any case, begins a `%B %d` reading of `s`. */
  function MonthDayFrom(s: string, m: int): (r: Option<MonthDay>)
    requires 1 <= m <= 13
    ensures r.Some? ==> m <= r.value.month <= 12 && 1 <= r.value.day <= DaysInMonth(1900, r.value.month)
    decreases 13 - m
  {
    if m == 13 then None
    else if MonthAt(s, m).Some? then MonthAt(s, m)
    else MonthDayFrom(s, m + 1)
  }

  /**
   * `strptime(s, "%B %d")`: the whole text is a month name in any case,
   * white space and a day of that month in the default year 1900 (so
   * February 29 is refused). None stands for the ValueError.
   */
  function StrptimeMonthDay(s: string): (r: Option<MonthDay>)
    ensures r.Some? ==> 1 <= r.value.month <= 12 && 1 <= r.value.day <= DaysInMonth(1900, r.value.month)
  {
    MonthDayFrom(s, 1)
  }

  datatype Clock = Clock(hour: int, minute: int)

  /** `%I`: two digits 01 to 12, or one digit 1 to 9. */
  function HourField(h: string): (r: Option<nat>)
    ensures r.Some? ==> 1 <= r.value <= 12
  {
    if |h| == 2 && AllDigits(h) && 1 <= Value(h) <= 12 then Some(Value(h))
    else if |h| == 1 && '1' <= h[0] <= '9' then Some(Value(h))
    else None
  }

  /** `%M`: two digits 00 to 59, or one digit. */
  function MinuteField(m: string): (r: Option<nat>)
    ensures r.Some? ==> r.value < 60
  {
    if |m| == 2 && AllDigits(m) && Value(m) <= 59 then Some(Value(m))
    else if |m| == 1 && IsDigit(m[0]) then Some(Value(m))
    else None
  }

  /** `%M\s+%p` up to the end of the text: the minute and whether it is "pm". */
  function MinuteAndMeridiem(rest: string): (r: Option<(nat, bool)>)
    ensures r.Some? ==> r.value.0 < 60
  {
    if |rest| < 4 then None
    else
      var p := Lower(rest[|rest| - 2..]);
      var mid := rest[..|rest| - 2];
      if p != "am" && p != "pm" then None
      else if |mid| >= 3 && Spaces(mid[2..]) && MinuteField(mid[..2]).Some? then Some((MinuteField(mid[..2]).value, p == "pm"))
      else if Spaces(mid[1..]) && MinuteField(mid[..1]).Some? then Some((MinuteField(mid[..1]).value, p == "pm"))
      else None
  }

  /** The 12-hour clock read as a 24-hour one: 12 AM is 0, 12 PM is 12. */
  function To24(hour12: nat, pm: bool): (h: int)
    requires 1 <= hour12 <= 12
    ensures 0 <= h < 24
    ensures pm <==> h >= 12
    ensures h % 12 == hour12 % 12
  {
    if pm then (if hour12 == 12 then 12 else hour12 + 12)
    else (if hour12 == 12 then 0 else hour12)
  }

  function HourAndRest(h: string, rest: string): Option<Clock>
  {
    if HourField(h).Some? && MinuteAndMeridiem(rest).Some? then
      var mm := MinuteAndMeridiem(rest).value;
      Some(Clock(To24(HourField(h).value, mm.1), mm.0))
    else None
  }

  /** `strptime(s, "%I:%M %p").time()`; None stands for the ValueError. */
  function StrptimeClock(s: string): (r: Option<Clock>)
    ensures r.Some? ==> 0 <= r.value.hour < 24 && 0 <= r.value.minute < 60
  {
    if |s| >= 2 && s[1] == ':' && HourAndRest(s[..1], s[2..]).Some? then HourAndRest(s[..1], s[2..])
    else if |s| >= 3 && s[2] == ':' then HourAndRest(s[..2], s[3..])
    else None
  }

  // ---------------------------------------------------------------------
  // The card's date and time

  /** `month in date_str` for some month: the name written exactly, case included. */
  predicate MonthNamed(s: string)
  {
    exists k | 0 <= k < |Months| :: Contains(s, Months[k])
  }

  /**
   * The day (a day number) the date text names: "today" and "tomorrow" in
   * any case; a month-named text that strptime reads, in the current
   * year; today otherwise. None when "tomorrow" falls past 9999-12-31,
   * where Python raises and the card is dropped.
   */
  function EventDay(dateStr: string, now: int): (r: Option<int>)
    requires Representable(now)
    ensures r.Some? ==> 0 <= r.value < DayCount
    ensures Lower(dateStr) == "today" ==> r == Some(now / MinutesPerDay)
    ensures Lower(dateStr) == "tomorrow" ==> (r.Some? <==> now / MinutesPerDay + 1 < DayCount)
    ensures Lower(dateStr) == "tomorrow" && r.Some? ==> r.value == now / MinutesPerDay + 1
    ensures (Lower(dateStr) != "today" && Lower(dateStr) != "tomorrow" &&
             !(MonthNamed(dateStr) && StrptimeMonthDay(dateStr).Some?)) ==> r == Some(now / MinutesPerDay)
  {
    var today := now / MinutesPerDay;
    if Lower(dateStr) == "today" then Some(today)
    else if Lower(dateStr) == "tomorrow" then (if today + 1 < DayCount then Some(today + 1) else None)
    else if MonthNamed(dateStr) && StrptimeMonthDay(dateStr).Some? then
      Some(DayInCurrentYear(StrptimeMonthDay(dateStr).value, now))
    else Some(today)
  }

  /** The day a month and day read by strptime (never 29 February) names in the year of `now`. */
  function DayInCurrentYear(md: MonthDay, now: int): (r: int)
    requires Representable(now)
    requires 1 <= md.month <= 12 && 1 <= md.day <= DaysInMonth(1900, md.month)
    ensures 0 <= r < DayCount
    ensures DateOf(r) == Date(DateAt(now).year, md.month, md.day)
  {
    var d := Date(DateAt(now).year, md.month, md.day);
    assert ValidDate(d);
    DayNumberInRange(d);
    DateOfDayNumber(d);
    DayNumber(d)
  }

  /** A month-named text that strptime reads is that month and day of the current year. */
  lemma MonthDayInCurrentYear(dateStr: string, now: int)
    requires Representable(now)
    requires Lower(dateStr) != "today" && Lower(dateStr) != "tomorrow"
    requires MonthNamed(dateStr) && StrptimeMonthDay(dateStr).Some?
    ensures EventDay(dateStr, now).Some?
    ensures var d := DateOf(EventDay(dateStr, now).value);
            var md := StrptimeMonthDay(dateStr).value;
            d == Date(DateAt(now).year, md.month, md.day)
  {
  }

  /** What the month loop of lines 91-98 ends with: the strptime reading, when some month is named and it succeeds. */
  function MonthLoopResult(dateStr: string): (r: Option<MonthDay>)
  {
    if MonthNamed(dateStr) then StrptimeMonthDay(dateStr) else None
  }

  /**
   * The month loop, step by step: strptime is tried once per month name
   * found in the text, the first success ends the loop, and a failure
   * moves on to the next month.
   */
  method MonthLoop(dateStr: string) returns (found: Option<MonthDay>)
    ensures found == MonthLoopResult(dateStr)
  {
    found := None;
    ghost var reading := StrptimeMonthDay(dateStr);
    var i := 0;
    while i < |Months|
      invariant 0 <= i <= |Months|
      invariant found.None? && reading.Some? ==> !NamedAmong(dateStr, i)
      invariant found.Some? ==> MonthNamed(dateStr) && found == reading
    {
      NamedAmongStep(dateStr, i);
      if Contains(dateStr, Months[i]) {
        var parsed := StrptimeMonthDay(dateStr);
        if parsed.Some? {
          found := parsed;
          break;
        }
      }
      i := i + 1;
    }
    NamedAmongAll(dateStr);
  }

  /** One of the first `n` month names is written in `s`. */
  predicate NamedAmong(s: string, n: int)
    requires 0 <= n <= |Months|
  {
    exists k | 0 <= k < n :: Contains(s, Months[k])
  }

  lemma NamedAmongStep(s: string, n: int)
    requires 0 <= n < |Months|
    ensures NamedAmong(s, n + 1) <==> NamedAmong(s, n) || Contains(s, Months[n])
    ensures Contains(s, Months[n]) ==> MonthNamed(s)
  {
  }

  lemma NamedAmongAll(s: string)
    ensures NamedAmong(s, |Months|) <==> MonthNamed(s)
  {
  }

  /** The date parsing of lines 85-100. */
  method ParseEventDay(dateStr: string, now: int) returns (r: Option<int>)
    requires Representable(now)
    ensures r == EventDay(dateStr, now)
  {
    var today := now / MinutesPerDay;
    if Lower(dateStr) == "today" {
      return Some(today);
    } else if Lower(dateStr) == "tomorrow" {
      if today + 1 < DayCount {
        return Some(today + 1);
      }
      return None;
    }
    var found := MonthLoop(dateStr);
    if found.Some? {
      var d := Date(DateAt(now).year, found.value.month, found.value.day);
      DayNumberInRange(d);
      r := Some(DayNumber(d));
    } else {
      r := Some(today);
    }
  }

  /**
   * The clock time of the event: the text read by strptime when it holds
   * ":" and "am" or "pm" in any case, the current time otherwise.
   */
  function ClockOf(timeStr: string, now: int): (c: Clock)
    ensures 0 <= c.hour < 24 && 0 <= c.minute < 60
  {
    if Contains(timeStr, ":") && (Contains(Lower(timeStr), "am") || Contains(Lower(timeStr), "pm")) &&
       StrptimeClock(timeStr).Some?
    then StrptimeClock(timeStr).value
    else Clock(HourAt(now), MinuteAt(now))
  }

  // ---------------------------------------------------------------------
  // Reading back what is written

  /** The first three letters of each month name, lower-cased: they tell the months apart. */
  const MonthStems: seq<string> := ["jan", "feb", "mar", "apr", "may", "jun", "jul", "aug", "sep", "oct", "nov", "dec"]

  lemma MonthStemsOfNames()
    ensures forall k :: 0 <= k < 12 ==>
              |Months[k]| >= 3 && |MonthStems[k]| == 3 &&
              forall i :: 0 <= i < 3 ==> LowerChar(Months[k][i]) == MonthStems[k][i]
  {
  }

  lemma MonthStemsDistinct()
    ensures forall j, k :: 0 <= j < k < 12 ==> MonthStems[j] != MonthStems[k]
  {
  }

  /** At most one month name begins a text, whatever the case of either. */
  lemma OneMonthPrefix(s: string, j: int, k: int)
    requires 1 <= j <= 12 && 1 <= k <= 12
    requires MonthBegins(s, j) && MonthBegins(s, k)
    ensures j == k
  {
    MonthStemsOfNames();
    MonthStemsDistinct();
    assert forall i :: 0 <= i < 3 ==> MonthStems[j - 1][i] == LowerChar(s[i]) == MonthStems[k - 1][i];
    assert MonthStems[j - 1] == MonthStems[k - 1];
  }

  /** Months whose names do not begin the text are passed over. */
  lemma {:induction false} MonthDayFromSkips(s: string, k: int, m: int)
    requires 1 <= k <= m <= 13
    requires forall j :: k <= j < m ==> !MonthBegins(s, j)
    ensures MonthDayFrom(s, k) == MonthDayFrom(s, m)
    decreases m - k
  {
    if k < m {
      assert !MonthBegins(s, k);
      assert MonthAt(s, k).None?;
      MonthDayFromSkips(s, k + 1, m);
    }
  }

  /** strptime reads the month and day of a text whose only month name is month `m`'s. */
  lemma StrptimeAtMonth(s: string, m: int)
    requires 1 <= m <= 12 && MonthBegins(s, m)
    ensures StrptimeMonthDay(s) == MonthDayFrom(s, m)
  {
    forall j | 1 <= j < m
      ensures !MonthBegins(s, j)
    {
      if MonthBegins(s, j) {
        OneMonthPrefix(s, j, m);
      }
    }
    MonthDayFromSkips(s, 1, m);
  }

  lemma DecimalOfDay(d: nat)
    requires 1 <= d <= 31
    ensures d < 10 ==> |Decimal(d)| == 1
    ensures d >= 10 ==> |Decimal(d)| == 2
  {
  }

  /** A space and a day written in decimal read back as that day. */
  lemma SpacedDayOfDecimal(d: nat)
    requires 1 <= d <= 31
    ensures SpacedDay(" " + Decimal(d)) == Some(d)
  {
    var rest := " " + Decimal(d);
    DecimalOfDay(d);
    assert rest[1..] == Decimal(d);
    assert Spaces(" ");
    if d < 10 {
      assert Decimal(d)[0] == DigitChar(d);
      assert DayField(Decimal(d)) == Some(d);
      assert rest[..|rest| - 1] == " " && rest[|rest| - 1..] == Decimal(d);
    } else {
      assert DayField(Decimal(d)) == Some(d);
      assert rest[..|rest| - 2] == " " && rest[|rest| - 2..] == Decimal(d);
    }
  }

  /** "<Month> <day>", as the page writes it, is read back as that month and day. */
  lemma MonthDayRoundTrip(m: int, d: nat)
    requires 1 <= m <= 12 && 1 <= d <= DaysInMonth(1900, m)
    ensures StrptimeMonthDay(Months[m - 1] + " " + Decimal(d)) == Some(MonthDay(m, d))
  {
    var name := Months[m - 1];
    var s := name + " " + Decimal(d);
    assert forall i :: 0 <= i < |name| ==> s[i] == name[i];
    assert MonthBegins(s, m);
    assert s[|name|..] == " " + Decimal(d);
    SpacedDayOfDecimal(d);
    assert MonthAt(s, m) == Some(MonthDay(m, d));
    StrptimeAtMonth(s, m);
  }

  lemma TwoDigitValue(d: string)
    requires |d| == 2 && AllDigits(d)
    ensures Value(d) == 10 * DigitValue(d[0]) + DigitValue(d[1])
  {
    assert d[..1][..0] == [];
  }

  /** " 29" is read as day 29, which February of 1900 does not have. */
  lemma TwentyNinthNotInFebruary(s: string)
    requires |s| == 11 && s[8..] == " 29"
    ensures MonthAt(s, 2) == None
  {
    assert |Months[1]| == 8;
    SpacedTwentyNine(s[8..]);
    assert DaysInMonth(1900, 2) == 28;
  }

  lemma SpacedTwentyNine(rest: string)
    requires rest == " 29"
    ensures SpacedDay(rest) == Some(29)
  {
    assert rest[..1] == " " && rest[1..] == "29";
    TwoDigitValue("29");
    assert DayField("29") == Some(29);
  }

  /** February 29 is refused in every year, so such a card is dated today. */
  lemma FebruaryTwentyNinthIsRefused()
    ensures StrptimeMonthDay("February 29") == None
  {
    var s := "February 29";
    assert forall i :: 0 <= i < 8 ==> s[i] == Months[1][i];
    StrptimeAtMonth(s, 2);
    forall j | 3 <= j < 13
      ensures !MonthBegins(s, j)
    {
      if MonthBegins(s, j) {
        OneMonthPrefix(s, j, 2);
      }
    }
    MonthDayFromSkips(s, 3, 13);
    TwentyNinthNotInFebruary(s);
  }

  /** Every month name begins with a capital, so a text without one names no month. */
  lemma NoCapitalNoMonth(s: string)
    requires forall i :: 0 <= i < |s| ==> !('A' <= s[i] <= 'Z')
    ensures !MonthNamed(s)
  {
    forall k | 0 <= k < |Months|
      ensures !Contains(s, Months[k])
    {
      assert Months[k][0] in Months[k];
      MissingCharExcludes(s, Months[k], Months[k][0]);
    }
  }

  /** A text with no capital letter falls back to today unless it is "today" or "tomorrow". */
  lemma LowerCaseMonthIsToday(dateStr: string, now: int)
    requires Representable(now)
    requires forall i :: 0 <= i < |dateStr| ==> !('A' <= dateStr[i] <= 'Z')
    requires Lower(dateStr) != "today" && Lower(dateStr) != "tomorrow"
    ensures EventDay(dateStr, now) == Some(now / MinutesPerDay)
  {
    NoCapitalNoMonth(dateStr);
  }

  /** "mm AM" and "mm PM" read back as the minute and the half of the day. */
  lemma MinuteAndMeridiemRoundTrip(minute: nat, pm: bool)
    requires minute < 60
    ensures MinuteAndMeridiem(Digits(minute, 2) + " " + (if pm then "PM" else "AM")) == Some((minute, pm))
  {
    var p := if pm then "PM" else "AM";
    ValueDigits(minute, 2);
    assert Lower(p) == if pm then "pm" else "am";
    ReadMinuteAndMeridiem(Digits(minute, 2), p, minute, pm);
  }

  /** Two digits, a space and a meridiem in any case are read as that minute and half of the day. */
  lemma ReadMinuteAndMeridiem(mm: string, p: string, minute: nat, pm: bool)
    requires |mm| == 2 && AllDigits(mm) && Value(mm) == minute < 60
    requires |p| == 2 && Lower(p) == if pm then "pm" else "am"
    ensures MinuteAndMeridiem(mm + " " + p) == Some((minute, pm))
  {
    MinutePartsOf(mm, p);
    assert MinuteField(mm) == Some(minute);
  }

  /** Where `%M\s+%p` finds the minute and the meridiem in "mm p". */
  lemma MinutePartsOf(mm: string, p: string)
    requires |mm| == 2 && |p| == 2
    ensures var rest := mm + " " + p;
            |rest| == 5 && rest[|rest| - 2..] == p && rest[..|rest| - 2][2..] == " " && rest[..|rest| - 2][..2] == mm
  {
    var rest := mm + " " + p;
    assert rest[..|rest| - 2] == mm + " ";
  }

  /** "h:mm AM" and "h:mm PM", as the page writes them, are read back as that time of day. */
  lemma ClockRoundTrip(hour12: nat, minute: nat, pm: bool)
    requires 1 <= hour12 <= 12 && minute < 60
    ensures var s := Decimal(hour12) + ":" + Digits(minute, 2) + " " + (if pm then "PM" else "AM");
            StrptimeClock(s) == Some(Clock(To24(hour12, pm), minute))
  {
    var h := Decimal(hour12);
    var rest := Digits(minute, 2) + " " + (if pm then "PM" else "AM");
    var s := h + ":" + rest;
    assert s == Decimal(hour12) + ":" + Digits(minute, 2) + " " + (if pm then "PM" else "AM");
    MinuteAndMeridiemRoundTrip(minute, pm);
    if hour12 < 10 {
      assert |h| == 1;
      assert s[..1] == h && s[1] == ':' && s[2..] == rest;
      assert HourField(h) == Some(hour12);
    } else {
      assert |h| == 2;
      assert s[..2] == h && s[2] == ':' && s[3..] == rest;
      assert HourField(h) == Some(hour12);
      assert s[1] != ':';
    }
  }

  /** A text read as minute and meridiem ends in "am" or "pm", in any case. */
  lemma MeridiemEnds(rest: string)
    requires MinuteAndMeridiem(rest).Some?
    ensures |rest| >= 4 && (Lower(rest[|rest| - 2..]) == "am" || Lower(rest[|rest| - 2..]) == "pm")
  {
  }

  /** Where the colon of a readable time text is, with the minute and meridiem after it. */
  lemma ClockColon(timeStr: string) returns (k: int)
    requires StrptimeClock(timeStr).Some?
    ensures (k == 1 || k == 2) && k < |timeStr| && timeStr[k] == ':'
    ensures MinuteAndMeridiem(timeStr[k + 1..]).Some?
  {
    k := if timeStr[1] == ':' && HourAndRest(timeStr[..1], timeStr[2..]).Some? then 1 else 2;
  }

  /** A colon at `k`, and a text after it ending in "am" or "pm" in any case, pass the test. */
  lemma GateFromParts(timeStr: string, k: int, rest: string)
    requires 0 <= k < |timeStr| && timeStr[k] == ':' && rest == timeStr[k + 1..] && |rest| >= 2
    requires Lower(rest[|rest| - 2..]) == "am" || Lower(rest[|rest| - 2..]) == "pm"
    ensures Contains(timeStr, ":")
    ensures Contains(Lower(timeStr), "am") || Contains(Lower(timeStr), "pm")
  {
    assert MatchesAt(timeStr, ":", k);
    assert rest[|rest| - 2..] == timeStr[|timeStr| - 2..];
    var lowered := Lower(timeStr);
    var at := |timeStr| - 2;
    assert lowered[at..] == Lower(rest[|rest| - 2..]);
    if lowered[at..] == "am" {
      assert MatchesAt(lowered, "am", at);
    } else {
      assert MatchesAt(lowered, "pm", at);
    }
  }

  /** A time text strptime reads holds ":" and, lower-cased, "am" or "pm". */
  lemma ReadableClockPassesGate(timeStr: string)
    requires StrptimeClock(timeStr).Some?
    ensures Contains(timeStr, ":")
    ensures Contains(Lower(timeStr), "am") || Contains(Lower(timeStr), "pm")
  {
    var k := ClockColon(timeStr);
    var rest := timeStr[k + 1..];
    MeridiemEnds(rest);
    GateFromParts(timeStr, k, rest);
  }

  /** Whenever strptime can read the time text, the ":" and am/pm test before it passes. */
  lemma ClockGateIsImplied(timeStr: string, now: int)
    requires StrptimeClock(timeStr).Some?
    ensures ClockOf(timeStr, now) == StrptimeClock(timeStr).value
  {
    ReadableClockPassesGate(timeStr);
  }

  // ---------------------------------------------------------------------
  // Events

  /**
   * The strings the regexes found in one card, each already stripped of
   * surrounding whitespace by `.strip()`; a missing match is None, the
   * times list may be short.
   */
  datatype Card = Card(sport: Option<string>, title: Option<string>, times: seq<string>)

  datatype Event = Event(title: string, start: int, end: int)

  function DateText(card: Card): string
  {
    if |card.times| > 0 then card.times[0] else "N/A"
  }

  function TimeText(card: Card): string
  {
    if |card.times| > 1 then card.times[1] else "N/A"
  }

  /** `f"{sport} - {title_text}"` with the defaults "Sports" and "N/A". */
  function FullTitle(card: Card): string
  {
    card.sport.GetOr("Sports") + " - " + card.title.GetOr("N/A")
  }

  /** The start the card names, before it is clamped to now. */
  function ScheduledStart(card: Card, now: int): (r: Option<int>)
    requires Representable(now)
    ensures r.Some? ==> Representable(r.value)
  {
    match EventDay(DateText(card), now)
    case None => None
    case Some(day) =>
      var c := ClockOf(TimeText(card), now);
      Some(day * MinutesPerDay + 60 * c.hour + c.minute)
  }

  /**
   * One card's event (lines 84-124). The end is the scheduled start plus
   * 4.5 hours, taken before the start is clamped up to now; a start more
   * than seven days after now drops the card. None is also the card that
   * the bare `except` drops when a datetime would pass 9999-12-31.
   */
  function EventOf(card: Card, now: int): (r: Option<Event>)
    requires Representable(now)
    ensures r.Some? ==>
              (ScheduledStart(card, now).Some? &&
               r.value.start == (if ScheduledStart(card, now).value < now then now else ScheduledStart(card, now).value) &&
               r.value.end == ScheduledStart(card, now).value + EventMinutes &&
               r.value.title == FullTitle(card))
    ensures r.Some? ==> now <= r.value.start <= now + WindowMinutes
    ensures r.Some? <==>
              (ScheduledStart(card, now).Some? &&
               Representable(ScheduledStart(card, now).value + EventMinutes) &&
               Representable(now + WindowMinutes) &&
               ScheduledStart(card, now).value <= now + WindowMinutes)
  {
    match ScheduledStart(card, now)
    case None => None
    case Some(start) =>
      var end := start + EventMinutes;
      if !Representable(end) then None
      else
        var clamped := if start < now then now else start;
        if !Representable(now + WindowMinutes) then None
        else if clamped > now + WindowMinutes then None
        else Some(Event(FullTitle(card), clamped, end))
  }

  /**
   * The end is taken from the scheduled start, so an event that began
   * more than 4.5 hours before now is kept with an end before its
   * clamped start (scraped at noon, "today" at "1:00 AM": noon to 5:30).
   */
  lemma EndBeforeClampedStart(card: Card, now: int)
    requires Representable(now) && Representable(now + WindowMinutes)
    requires Lower(DateText(card)) == "today" && StrptimeClock(TimeText(card)).Some?
    requires var c := StrptimeClock(TimeText(card)).value;
             60 * c.hour + c.minute + EventMinutes < now % MinutesPerDay
    ensures EventOf(card, now).Some?
    ensures EventOf(card, now).value.start == now
    ensures EventOf(card, now).value.end < EventOf(card, now).value.start
  {
    ClockGateIsImplied(TimeText(card), now);
  }

  /** The events list the card loop builds, in card order. */
  function EventsOf(cards: seq<Card>, now: int): (es: seq<Event>)
    requires Representable(now)
    ensures |es| <= |cards|
  {
    if cards == [] then []
    else
      var rest := EventsOf(cards[..|cards| - 1], now);
      match EventOf(cards[|cards| - 1], now)
      case None => rest
      case Some(e) => rest + [e]
  }

  /** Every event starts between now and seven days after it. */
  lemma {:induction false} EventsInWindow(cards: seq<Card>, now: int)
    requires Representable(now)
    ensures forall e :: e in EventsOf(cards, now) ==> now <= e.start <= now + WindowMinutes
  {
    if cards != [] {
      EventsInWindow(cards[..|cards| - 1], now);
    }
  }

  /** Every event starts and ends at an instant a datetime can hold. */
  lemma {:induction false} EventsAreRepresentable(cards: seq<Card>, now: int)
    requires Representable(now)
    ensures forall e :: e in EventsOf(cards, now) ==> Representable(e.start) && Representable(e.end)
  {
    if cards != [] {
      EventsAreRepresentable(cards[..|cards| - 1], now);
    }
  }

  /** One more card appends its event, if it yields one, to the events of the cards before it. */
  lemma EventsOfStep(cards: seq<Card>, i: nat, now: int)
    requires Representable(now) && i < |cards|
    ensures EventsOf(cards[..i + 1], now) ==
              EventsOf(cards[..i], now) + (if EventOf(cards[i], now).Some? then [EventOf(cards[i], now).value] else [])
  {
    assert cards[..i + 1][..i] == cards[..i];
  }

  /** The loop of lines 68-127: each card that yields an event appends it. */
  method BuildEvents(cards: seq<Card>, now: int) returns (events: seq<Event>)
    requires Representable(now)
    ensures events == EventsOf(cards, now)
  {
    events := [];
    var i := 0;
    while i < |cards|
      invariant 0 <= i <= |cards|
      invariant events == EventsOf(cards[..i], now)
    {
      EventsOfStep(cards, i, now);
      var e := EventOf(cards[i], now);
      if e.Some? {
        events := events + [e.value];
      }
      i := i + 1;
    }
    assert cards[..i] == cards;
  }
}
