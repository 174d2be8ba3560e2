/**
 * The proleptic Gregorian calendar as Python's `datetime` (and the pandas
 * `Timestamp` built on it) computes with it: day numbers (`toordinal`),
 * weekdays, adding days, the `%Y-%m-%d` format, and the two `strptime`
 * formats the dashboard parses, `"%d %b %Y"` and `"%H:%M"`.
 */
module Calendar {
  import opened Common
  import opened Text

  datatype Date = Date(year: int, month: int, day: int)

  predicate IsLeapYear(y: int) { y % 4 == 0 && (y % 100 != 0 || y % 400 == 0) }

  function DaysInMonth(y: int, m: int): (n: int)
    requires 1 <= m <= 12
    ensures 28 <= n <= 31
    ensures n == 29 <==> m == 2 && IsLeapYear(y)
  {
    if m == 2 then (if IsLeapYear(y) then 29 else 28)
    else if m == 4 || m == 6 || m == 9 || m == 11 then 30
    else 31
  }

  /** A date `datetime.date(year, month, day)` accepts, without its upper bound on the year. */
  predicate ValidDate(d: Date)
  {
    1 <= d.year && 1 <= d.month <= 12 && 1 <= d.day <= DaysInMonth(d.year, d.month)
  }

  /** The dates whose year `%Y` writes and reads in four digits. */
  predicate FourDigitYear(d: Date) { d.year <= 9999 }

  function DaysInYear(y: int): int { if IsLeapYear(y) then 366 else 365 }

  function DaysBeforeMonth(y: int, m: int): nat
    requires 1 <= m <= 13
  {
    if m == 1 then 0 else DaysBeforeMonth(y, m - 1) + DaysInMonth(y, m - 1)
  }

  function DaysBeforeYear(y: int): int
    requires y >= 1
  {
    var p := y - 1;
    365 * p + p / 4 - p / 100 + p / 400
  }

  /** Python's `date.toordinal()`: 0001-01-01 is day 1. */
  function DayNumber(d: Date): int
    requires ValidDate(d)
  {
    DaysBeforeYear(d.year) + DaysBeforeMonth(d.year, d.month) + d.day
  }

  const Monday := 0
  const Friday := 4
  const Saturday := 5
  const Sunday := 6

  /** Python's `weekday()`: Monday is 0, Saturday 5, Sunday 6. */
  function Weekday(d: Date): (w: int)
    requires ValidDate(d)
    ensures 0 <= w < 7
  {
    (DayNumber(d) + 6) % 7
  }

  lemma YearLength(y: int)
    ensures DaysBeforeMonth(y, 13) == DaysInYear(y)
  {
    var leap := if IsLeapYear(y) then 1 else 0;
    assert DaysBeforeMonth(y, 2) == 31;
    assert DaysBeforeMonth(y, 3) == 59 + leap;
    assert DaysBeforeMonth(y, 4) == 90 + leap;
    assert DaysBeforeMonth(y, 5) == 120 + leap;
    assert DaysBeforeMonth(y, 6) == 151 + leap;
    assert DaysBeforeMonth(y, 7) == 181 + leap;
    assert DaysBeforeMonth(y, 8) == 212 + leap;
    assert DaysBeforeMonth(y, 9) == 243 + leap;
    assert DaysBeforeMonth(y, 10) == 273 + leap;
    assert DaysBeforeMonth(y, 11) == 304 + leap;
    assert DaysBeforeMonth(y, 12) == 334 + leap;
  }

  lemma NextYearStart(y: int)
    requires y >= 1
    ensures DaysBeforeYear(y + 1) == DaysBeforeYear(y) + DaysInYear(y)
  {
    var p := y - 1;
    assert y / 4 == p / 4 + (if y % 4 == 0 then 1 else 0);
    assert y / 100 == p / 100 + (if y % 100 == 0 then 1 else 0);
    assert y / 400 == p / 400 + (if y % 400 == 0 then 1 else 0);
  }

  /** The day after `d`, rolling over month and year ends. */
  function NextDay(d: Date): (r: Date)
    requires ValidDate(d)
    ensures ValidDate(r) && DayNumber(r) == DayNumber(d) + 1
  {
    if d.day < DaysInMonth(d.year, d.month) then Date(d.year, d.month, d.day + 1)
    else if d.month < 12 then Date(d.year, d.month + 1, 1)
    else
      YearLength(d.year);
      NextYearStart(d.year);
      Date(d.year + 1, 1, 1)
  }

  /** `date + timedelta(days=n)`. */
  function AddDays(d: Date, n: nat): (r: Date)
    requires ValidDate(d)
    ensures ValidDate(r) && DayNumber(r) == DayNumber(d) + n
  {
    if n == 0 then d else NextDay(AddDays(d, n - 1))
  }

  /** Adding one day moves the weekday on by one, Sunday wrapping round to Monday. */
  lemma WeekdayNextDay(d: Date)
    requires ValidDate(d)
    ensures Weekday(NextDay(d)) == (Weekday(d) + 1) % 7
  {
    WeekdayLater(d, NextDay(d), 1);
  }

  /** A date `n` days later falls `n` weekdays later, counted round the week. */
  lemma WeekdayLater(a: Date, b: Date, n: nat)
    requires ValidDate(a) && ValidDate(b) && DayNumber(b) == DayNumber(a) + n
    ensures Weekday(b) == (Weekday(a) + n) % 7
  {
    ModSevenShift(DayNumber(a) + 6, n);
  }

  lemma ModSevenShift(m: int, k: int)
    ensures (m + k) % 7 == (m % 7 + k) % 7
  {
    var q := m / 7;
    assert m == 7 * q + m % 7;
    ModSevenMultiple(q, m % 7 + k);
  }

  lemma ModSevenMultiple(q: int, r: int)
    ensures (7 * q + r) % 7 == r % 7
  {
    var t := r / 7;
    assert r == 7 * t + r % 7;
    assert 7 * q + r == 7 * (q + t) + r % 7;
  }

  // ---------------------------------------------------------------------
  // Chronological order
  // ---------------------------------------------------------------------

  /** Comparison of dates field by field: year, then month, then day. */
  predicate FieldsLess(a: Date, b: Date)
  {
    a.year < b.year || (a.year == b.year && (a.month < b.month || (a.month == b.month && a.day < b.day)))
  }

  lemma {:induction false} DaysBeforeMonthMonotonic(y: int, m: int, m': int)
    requires 1 <= m <= m' <= 13
    ensures DaysBeforeMonth(y, m) <= DaysBeforeMonth(y, m')
    decreases m' - m
  {
    if m < m' { DaysBeforeMonthMonotonic(y, m, m' - 1); }
  }

  lemma {:induction false} DaysBeforeYearMonotonic(y: int, y': int)
    requires 1 <= y <= y'
    ensures DaysBeforeYear(y) + (if y < y' then DaysInYear(y) else 0) <= DaysBeforeYear(y')
    decreases y' - y
  {
    if y < y' {
      NextYearStart(y);
      if y + 1 < y' {
        DaysBeforeYearMonotonic(y + 1, y');
      }
    }
  }

  /** The day of the year of a valid date lies between 1 and the year's length. */
  lemma DayOfYearBounds(d: Date)
    requires ValidDate(d)
    ensures 1 <= DaysBeforeMonth(d.year, d.month) + d.day <= DaysInYear(d.year)
  {
    DaysBeforeMonthMonotonic(d.year, d.month + 1, 13);
    YearLength(d.year);
  }

  /** Day numbers order dates as their fields do. */
  lemma {:induction false} DayNumberOrder(a: Date, b: Date)
    requires ValidDate(a) && ValidDate(b)
    ensures DayNumber(a) < DayNumber(b) <==> FieldsLess(a, b)
    ensures DayNumber(a) == DayNumber(b) <==> a == b
  {
    DayNumberFromFields(a, b);
    DayNumberFromFields(b, a);
  }

  lemma DayNumberFromFields(a: Date, b: Date)
    requires ValidDate(a) && ValidDate(b)
    ensures FieldsLess(a, b) ==> DayNumber(a) < DayNumber(b)
  {
    DayOfYearBounds(a);
    DayOfYearBounds(b);
    if a.year < b.year {
      DaysBeforeYearMonotonic(a.year, b.year);
    } else if a.year == b.year && a.month < b.month {
      DaysBeforeMonthMonotonic(a.year, a.month + 1, b.month);
    }
  }

  // ---------------------------------------------------------------------
  // "%Y-%m-%d"
  // ---------------------------------------------------------------------

  /** `strftime("%Y-%m-%d")`: zero-padded year, month and day. */
  function IsoString(d: Date): string
    requires ValidDate(d)
  {
    Show(d.year, 4) + "-" + Show(d.month, 2) + "-" + Show(d.day, 2)
  }

  /**
   * The date an ISO `YYYY-MM-DD` string denotes (`pd.to_datetime` applied to
   * the strings `strftime("%Y-%m-%d")` writes), or None for any other string.
   */
  function ParseIso(s: string): (r: Option<Date>)
    ensures r.Some? ==> ValidDate(r.value) && FourDigitYear(r.value)
  {
    if |s| == 10 && AllDigits(s[..4]) && s[4] == '-' && AllDigits(s[5..7]) && s[7] == '-'
       && AllDigits(s[8..])
    then
      var d := Date(DigitsValue(s[..4]), DigitsValue(s[5..7]), DigitsValue(s[8..]));
      DigitsValueBound(s[..4]);
      if ValidDate(d) then Some(d) else None
    else None
  }

  lemma IsoStringShape(d: Date)
    requires ValidDate(d) && FourDigitYear(d)
    ensures var s := IsoString(d);
      |s| == 10 && s[..4] == Show(d.year, 4) && s[4] == '-' && s[5..7] == Show(d.month, 2)
      && s[7] == '-' && s[8..] == Show(d.day, 2)
  {
    ShowLength(d.year, 4);
    ShowLength(d.month, 2);
    ShowLength(d.day, 2);
  }

  /** Formatting a date and parsing the text gives the date back. */
  lemma IsoRoundTrip(d: Date)
    requires ValidDate(d) && FourDigitYear(d)
    ensures ParseIso(IsoString(d)) == Some(d)
  {
    IsoStringShape(d);
    ShowValue(d.year, 4);
    ShowValue(d.month, 2);
    ShowValue(d.day, 2);
  }

  /** A string that parses is exactly the formatting of its date. */
  lemma ParseIsoRoundTrip(s: string)
    requires ParseIso(s).Some?
    ensures IsoString(ParseIso(s).value) == s
  {
    var d := ParseIso(s).value;
    IsoStringShape(d);
    ShowOfValue(s[..4]);
    ShowOfValue(s[5..7]);
    ShowOfValue(s[8..]);
    assert s == s[..4] + [s[4]] + s[5..7] + [s[7]] + s[8..];
  }

  /**
   * ISO strings of four-digit-year dates sort as text exactly as the dates
   * sort in time, which is why sorting the extracted pairs as strings also
   * sorts them chronologically.
   */
  lemma {:induction false} IsoStringOrder(a: Date, b: Date)
    requires ValidDate(a) && FourDigitYear(a) && ValidDate(b) && FourDigitYear(b)
    ensures StrLt(IsoString(a), IsoString(b)) <==> DayNumber(a) < DayNumber(b)
  {
    IsoStringFieldsLess(a, b);
    DayNumberOrder(a, b);
  }

  /** ISO strings compare as their fields do, year first. */
  lemma IsoStringFieldsLess(a: Date, b: Date)
    requires ValidDate(a) && FourDigitYear(a) && ValidDate(b) && FourDigitYear(b)
    ensures StrLt(IsoString(a), IsoString(b)) <==> FieldsLess(a, b)
  {
    ShowLength(a.year, 4); ShowLength(b.year, 4);
    ShowLength(a.month, 2); ShowLength(b.month, 2);
    DashedLt(Show(a.year, 4), Show(a.month, 2), Show(a.day, 2), Show(b.year, 4), Show(b.month, 2), Show(b.day, 2));
    ShowLt(a.year, b.year, 4);
    ShowLt(a.month, b.month, 2);
    ShowLt(a.day, b.day, 2);
    ShowValue(a.year, 4); ShowValue(b.year, 4);
    ShowValue(a.month, 2); ShowValue(b.month, 2);
  }

  /** Strings `x-y-z` with fields of equal widths compare field by field. */
  lemma DashedLt(x1: string, y1: string, z1: string, x2: string, y2: string, z2: string)
    requires |x1| == |x2| && |y1| == |y2|
    ensures StrLt(x1 + "-" + y1 + "-" + z1, x2 + "-" + y2 + "-" + z2) <==>
      StrLt(x1, x2) || (x1 == x2 && (StrLt(y1, y2) || (y1 == y2 && StrLt(z1, z2))))
  {
    assert x1 + "-" + y1 + "-" + z1 == x1 + ("-" + (y1 + ("-" + z1)));
    assert x2 + "-" + y2 + "-" + z2 == x2 + ("-" + (y2 + ("-" + z2)));
    StrLtConcat(x1, "-" + (y1 + ("-" + z1)), x2, "-" + (y2 + ("-" + z2)));
    StrLtConcat("-", y1 + ("-" + z1), "-", y2 + ("-" + z2));
    StrLtIrreflexive("-");
    StrLtConcat(y1, "-" + z1, y2, "-" + z2);
    StrLtConcat("-", z1, "-", z2);
  }

  // ---------------------------------------------------------------------
  // strptime(s, "%d %b %Y")
  // ---------------------------------------------------------------------

  /** The month abbreviations `%b` accepts (C locale), lower-cased as IGNORECASE compares them. */
  const MonthAbbreviations: seq<string> :=
    ["jan", "feb", "mar", "apr", "may", "jun", "jul", "aug", "sep", "oct", "nov", "dec"]

  function MonthFrom(s: string, k: nat): (m: Option<int>)
    requires k <= 12
    ensures m.Some? ==> k < m.value <= 12 && s == MonthAbbreviations[m.value - 1]
    ensures m.None? ==> forall i :: k <= i < 12 ==> s != MonthAbbreviations[i]
    decreases 12 - k
  {
    if k == 12 then None
    else if s == MonthAbbreviations[k] then Some(k + 1)
    else MonthFrom(s, k + 1)
  }

  /** The month number of a three-letter abbreviation, compared without regard to case. */
  function MonthOfAbbreviation(s: string): (m: Option<int>)
    ensures m.Some? <==> LowerAsciiString(s) in MonthAbbreviations
    ensures m.Some? ==> 1 <= m.value <= 12 && LowerAsciiString(s) == MonthAbbreviations[m.value - 1]
  {
    MonthFrom(LowerAsciiString(s), 0)
  }

  /**
   * The `%d` directive, the alternation `3[01]|[12]\d|0[1-9]|[1-9]| [1-9]`:
   * the day and the number of characters it took. At most one alternative
   * can lead to a successful parse (a two-digit match leaves no room for the
   * one-digit alternatives, which need a space next), so the first that
   * matches is the one that counts.
   */
  function DayField(s: string): (r: Option<(int, nat)>)
    ensures r.Some? ==> 1 <= r.value.0 <= 31 && 1 <= r.value.1 <= 2 && r.value.1 <= |s|
  {
    if |s| >= 2 && IsDigit(s[0]) && IsDigit(s[1])
       && 1 <= 10 * DigitValue(s[0]) + DigitValue(s[1]) <= 31
    then Some((10 * DigitValue(s[0]) + DigitValue(s[1]), 2))
    else if |s| >= 1 && '1' <= s[0] <= '9' then Some((DigitValue(s[0]), 1))
    else if |s| >= 2 && s[0] == ' ' && '1' <= s[1] <= '9' then Some((DigitValue(s[1]), 2))
    else None
  }

  /**
   * `datetime.strptime(s, "%d %b %Y")`, None where it raises ValueError: the
   * format must match the whole string, each space of the format stands for
   * one or more whitespace characters, and the resulting date must exist.
   */
  function StrptimeDayMonYear(s: string): (r: Option<Date>)
    ensures r.Some? ==> ValidDate(r.value) && FourDigitYear(r.value)
  {
    match DayField(s)
    case None => None
    case Some((day, k)) =>
      var j := SkipSpaces(s, k);
      if j == k || j + 3 > |s| then None
      else
        match MonthOfAbbreviation(s[j..j + 3])
        case None => None
        case Some(month) =>
          var j2 := SkipSpaces(s, j + 3);
          if j2 == j + 3 || j2 + 4 != |s| || !AllDigits(s[j2..]) then None
          else
            var d := Date(DigitsValue(s[j2..]), month, day);
            DigitsValueBound(s[j2..]);
            if ValidDate(d) then Some(d) else None
  }

  // ---------------------------------------------------------------------
  // strptime(s, "%H:%M")
  // ---------------------------------------------------------------------

  datatype Clock = Clock(hour: int, minute: int)

  /** The two-character alternatives `2[0-3]|[0-1]\d` of `%H`. */
  predicate TwoDigitHour(a: char, b: char)
  {
    (a == '2' && '0' <= b <= '3') || ((a == '0' || a == '1') && IsDigit(b))
  }

  /** `%M`, the alternation `[0-5]\d|\d`, starting at `p`, then the end of the string. */
  function MinuteField(s: string, p: nat, hour: int): (r: Option<Clock>)
    requires p < |s| && IsDigit(s[p])
    ensures r.Some? ==> r.value.hour == hour && 0 <= r.value.minute <= 59
  {
    if p + 1 < |s| && '0' <= s[p] <= '5' && IsDigit(s[p + 1]) then
      if p + 2 == |s| then Some(Clock(hour, 10 * DigitValue(s[p]) + DigitValue(s[p + 1]))) else None
    else if p + 1 == |s| then Some(Clock(hour, DigitValue(s[p])))
    else None
  }

  /**
   * `datetime.strptime(s, "%H:%M")`, None where it raises ValueError. `%H` is
   * `2[0-3]|[0-1]\d|\d` and `%M` is `[0-5]\d|\d`; the first alternatives that
   * let the whole pattern match are taken, and characters left over after
   * that match are an error ("unconverted data remains").
   */
  function StrptimeHourMinute(s: string): (r: Option<Clock>)
    ensures r.Some? ==> 0 <= r.value.hour <= 23 && 0 <= r.value.minute <= 59
  {
    if |s| >= 4 && TwoDigitHour(s[0], s[1]) && s[2] == ':' && IsDigit(s[3]) then
      MinuteField(s, 3, 10 * DigitValue(s[0]) + DigitValue(s[1]))
    else if |s| >= 3 && IsDigit(s[0]) && s[1] == ':' && IsDigit(s[2]) then
      MinuteField(s, 2, DigitValue(s[0]))
    else None
  }

  /** `%H:%M` must match the whole string, so nothing longer than `HH:MM` parses. */
  lemma StrptimeHourMinuteLength(s: string)
    ensures StrptimeHourMinute(s).Some? ==> 3 <= |s| <= 5
  {
  }

  /** A five-character `HH:MM` of digits parses exactly when it is a time of day. */
  lemma StrptimeHourMinuteOfFiveChars(s: string)
    requires |s| == 5 && IsDigit(s[0]) && IsDigit(s[1]) && s[2] == ':' && IsDigit(s[3]) && IsDigit(s[4])
    ensures var h, m := 10 * DigitValue(s[0]) + DigitValue(s[1]), 10 * DigitValue(s[3]) + DigitValue(s[4]);
      StrptimeHourMinute(s) == if h <= 23 && m <= 59 then Some(Clock(h, m)) else None
  {
  }
}
