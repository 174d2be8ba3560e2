/**
 * The date helpers of the earnings reaction calculator: the regex extractor
 * for `DD Mon YYYY HH:MM`, the Saturday-to-Monday shift, the "after 15:15
 * means next trading day" shift, and the sort-then-adjust prefix of
 * `price_changes_for_dates` that feeds the price lookup.
 */
module ReactionCalculator {
  import opened Common
  import opened Text
  import opened Calendar
  import opened Sorting
  import opened Tokens
  import opened Lists
  import opened Scanning

  // ---------------------------------------------------------------------
  // re.findall(r"(\d{1,2} [A-Za-z]{3} \d{4})\s+(\d{2}:\d{2})", text)
  // ---------------------------------------------------------------------

  /** The two groups of a match: the date text and the time text. */
  datatype Groups = Groups(dateText: string, timeText: string)

  type TokenMatch = Match<Groups>

  /**
   * The match of the pattern that starts at `i`, if any. The greedy `\s+`
   * must stop at the first non-space, since the digits that follow are not
   * spaces, so there is never a second way to match.
   */
  function MatchAt(s: string, i: nat): (m: Option<TokenMatch>)
    ensures m.Some? ==>
      && DateTokenAt(s, i).Some?
      && m.value.start == i && m.value.groups.dateText == s[i..DateTokenAt(s, i).value]
      && DateTokenAt(s, i).value < m.value.end - 5 && m.value.end <= |s|
      && TimeTokenAt(s, m.value.end - 5) && m.value.groups.timeText == s[m.value.end - 5..m.value.end]
    ensures m.Some? ==>
      && DateTokenAt(m.value.groups.dateText, 0) == Some(|m.value.groups.dateText|)
      && |m.value.groups.timeText| == 5 && TimeTokenAt(m.value.groups.timeText, 0)
  {
    match DateTokenAt(s, i)
    case None => None
    case Some(e) =>
      var j := SkipSpaces(s, e);
      if j > e && TimeTokenAt(s, j) then
        MatchFields(s, i, e, j);
        Some(Match(i, j + 5, Groups(s[i..e], s[j..j + 5])))
      else None
  }

  /** The groups of a match are a whole date token and a whole time token. */
  lemma MatchFields(s: string, i: nat, e: nat, j: nat)
    requires DateTokenAt(s, i) == Some(e) && e < j && TimeTokenAt(s, j)
    ensures i <= e < j && j + 5 <= |s|
    ensures DateTokenAt(s[i..e], 0) == Some(|s[i..e]|)
    ensures |s[j..j + 5]| == 5 && TimeTokenAt(s[j..j + 5], 0)
  {
    DateTokenOfSlice(s, i, e);
    TimeTokenOfSlice(s, j);
  }

  /**
   * The pattern matches at `i` exactly when a date token there is followed by
   * one or more whitespace characters and a time token.
   */
  lemma MatchAtIsPattern(s: string, i: nat)
    ensures MatchAt(s, i).Some? <==>
      exists j :: DateTokenAt(s, i).Some? && DateTokenAt(s, i).value < j && TimeTokenAt(s, j)
        && (forall k :: DateTokenAt(s, i).value <= k < j ==> s[k] in PySpaces)
  {
    if e :| e == DateTokenAt(s, i) && e.Some? {
      var x := SkipSpaces(s, e.value);
      if j :| e.value < j && TimeTokenAt(s, j) && (forall k :: e.value <= k < j ==> s[k] in PySpaces) {
        // the spaces run on to `x`, and a digit at `j` ends the run there
        assert s[j] !in PySpaces;
        assert x == j;
      }
    }
  }

  /** `MatchAt` over `s` is fit for scanning. */
  lemma MatchAtWellFormed(s: string)
    ensures WellFormed((p: nat) => MatchAt(s, p), |s|)
  {
  }

  /** `re.findall(pattern, s)`. */
  function FindAll(s: string): seq<TokenMatch>
  {
    MatchAtWellFormed(s);
    FindAllFrom((p: nat) => MatchAt(s, p), |s|, 0)
  }

  /** Every match `findall` reports is one date token, whitespace and one time token, as whole groups. */
  lemma FindAllGroups(s: string, m: TokenMatch)
    requires m in FindAll(s)
    ensures DateTokenAt(m.groups.dateText, 0) == Some(|m.groups.dateText|)
    ensures |m.groups.timeText| == 5 && TimeTokenAt(m.groups.timeText, 0)
  {
    FoundIsMatch(s, m);
  }

  /** Each match `findall` reports is the pattern's match at its own start. */
  lemma FoundIsMatch(s: string, m: TokenMatch)
    requires m in FindAll(s)
    ensures MatchAt(s, m.start) == Some(m)
  {
    MatchAtWellFormed(s);
    FindAllFromSound((p: nat) => MatchAt(s, p), |s|, 0);
    var k :| 0 <= k < |FindAll(s)| && FindAll(s)[k] == m;
  }

  /** A time token read out of a longer text is a time token on its own. */
  lemma TimeTokenOfSlice(s: string, j: nat)
    requires TimeTokenAt(s, j)
    ensures TimeTokenAt(s[j..j + 5], 0)
  {
  }

  /** A date token read out of a longer text is a date token on its own. */
  lemma DateTokenOfSlice(s: string, i: nat, e: nat)
    requires DateTokenAt(s, i) == Some(e)
    ensures DateTokenAt(s[i..e], 0) == Some(e - i)
  {
    var t := s[i..e];
    var k := e - i - 9;
    assert t[k + 5..k + 9] == s[i + k + 5..i + k + 9];
  }

  // ---------------------------------------------------------------------
  // The conversion loop of extract_dates_times_from_text
  // ---------------------------------------------------------------------

  /** `strptime(dt_str, "%d %b %Y").strftime("%Y-%m-%d")` paired with the time, or None on ValueError. */
  function ConvertMatch(m: TokenMatch): (r: Option<DatedTime>)
    ensures r.Some? ==> ParseIso(r.value.date).Some? && r.value.time == m.groups.timeText
  {
    match StrptimeDayMonYear(m.groups.dateText)
    case None => None
    case Some(d) =>
      IsoRoundTrip(d);
      Some(DatedTime(IsoString(d), m.groups.timeText))
  }

  /** The intended `extract_dates_times_from_text`: the pairs of all matches, in match order. */
  method ExtractDatesTimes(text: string) returns (datesWithTimes: seq<DatedTime>)
    ensures datesWithTimes == FilterMap(ConvertMatch, FindAll(text))
  {
    var matches := FindAll(text);
    datesWithTimes := [];
    var i := 0;
    while i < |matches|
      invariant 0 <= i <= |matches|
      invariant datesWithTimes == FilterMap(ConvertMatch, matches[..i])
    {
      FilterMapPrefix(ConvertMatch, matches, i);
      // a ValueError from strptime skips the match
      var converted := ConvertMatch(matches[i]);
      if converted.Some? {
        datesWithTimes := datesWithTimes + [converted.value];
      }
      i := i + 1;
    }
    assert matches[..|matches|] == matches;
  }

  /**
   * One pair per match whose date parses: never more pairs than matches, and
   * each pair is the conversion of one of the matches.
   */
  lemma ExtractedOnePerParsingMatch(text: string)
    ensures var ms, r := FindAll(text), FilterMap(ConvertMatch, FindAll(text));
      |r| == CountSome(ConvertMatch, ms) <= |ms|
      && forall k :: 0 <= k < |r| ==> exists j :: 0 <= j < |ms| && ConvertMatch(ms[j]) == Some(r[k])
  {
    FilterMapCount(ConvertMatch, FindAll(text));
  }

  /**
   * A match is dropped exactly when its date token does not spell a real
   * date ("31 Feb 2025", an unknown month name, day 0): the token always
   * covers the whole group, so trailing text is never the reason.
   */
  lemma ExtractedMatchParses(s: string, m: TokenMatch)
    requires m in FindAll(s)
    ensures DateTokenAt(m.groups.dateText, 0).Some?
    ensures ConvertMatch(m).Some? <==> TokenDate(m.groups.dateText, 0).Some?
    ensures ConvertMatch(m).Some? ==> ParseIso(ConvertMatch(m).value.date) == TokenDate(m.groups.dateText, 0)
  {
    FindAllGroups(s, m);
    StrptimeOfDateToken(m.groups.dateText);
    if ConvertMatch(m).Some? {
      IsoRoundTrip(StrptimeDayMonYear(m.groups.dateText).value);
    }
  }

  /** Every extracted pair is an ISO date and a two-digit `HH:MM` time. */
  lemma ExtractedPairsShape(text: string)
    ensures forall p :: p in FilterMap(ConvertMatch, FindAll(text)) ==>
      ParseIso(p.date).Some? && |p.time| == 5 && TimeTokenAt(p.time, 0)
  {
    var ms := FindAll(text);
    FilterMapCount(ConvertMatch, ms);
    forall p | p in FilterMap(ConvertMatch, ms)
      ensures ParseIso(p.date).Some? && |p.time| == 5 && TimeTokenAt(p.time, 0)
    {
      var k :| 0 <= k < |FilterMap(ConvertMatch, ms)| && FilterMap(ConvertMatch, ms)[k] == p;
      var j :| 0 <= j < |ms| && ConvertMatch(ms[j]) == Some(p);
      FindAllGroups(text, ms[j]);
    }
  }

  /** `findall` on the source's own example finds the one match spanning the whole text. */
  lemma FindAllExample()
    ensures FindAll("18 Jul 2025 19:33") == [Match(0, 17, Groups("18 Jul 2025", "19:33"))]
  {
    var s := "18 Jul 2025 19:33";
    ExampleMatchAtStart();
    MatchAtWellFormed(s);
    var f := (p: nat) => MatchAt(s, p);
    assert FindAllFrom(f, |s|, 17) == [];
  }

  /** The pattern matches the whole of "18 Jul 2025 19:33". */
  lemma ExampleMatchAtStart()
    ensures MatchAt("18 Jul 2025 19:33", 0) == Some(Match(0, 17, Groups("18 Jul 2025", "19:33")))
  {
    var s := "18 Jul 2025 19:33";
    ExampleDateToken();
    ExampleSpaces();
    assert s[0..11] == "18 Jul 2025" && s[12..17] == "19:33";
  }

  lemma ExampleDateToken()
    ensures DateTokenAt("18 Jul 2025 19:33", 0) == Some(11)
  {
    var s := "18 Jul 2025 19:33";
    assert AllDigits(s[7..11]);
  }

  lemma ExampleSpaces()
    ensures SkipSpaces("18 Jul 2025 19:33", 11) == 12 && TimeTokenAt("18 Jul 2025 19:33", 12)
  {
    var s := "18 Jul 2025 19:33";
    assert SkipSpaces(s, 12) == 12;
  }

  /** The token "18 Jul 2025" spells 18 July 2025. */
  lemma TokenDateExample()
    ensures DateTokenAt("18 Jul 2025", 0) == Some(11)
    ensures TokenDate("18 Jul 2025", 0) == Some(Date(2025, 7, 18))
  {
    var t := "18 Jul 2025";
    assert t[0..2] == "18" && t[3..6] == "Jul" && t[7..11] == "2025";
    assert AllDigits(t[7..11]);
    TwoDigitDayToken(t);
    JulyFields();
    TokenDateOfFields(t, 18, 7, 2025);
  }

  /** The fields of "18 Jul 2025". */
  lemma JulyFields()
    ensures DigitsValue("18") == 18 && MonthOfAbbreviation("Jul") == Some(7) && DigitsValue("2025") == 2025
  {
    TwoDigitsValue("18");
    FourDigitsValue("2025");
    JulAbbreviation();
  }

  lemma JulAbbreviation()
    ensures MonthOfAbbreviation("Jul") == Some(7)
  {
    assert LowerAsciiString("Jul") == "jul";
    assert MonthAbbreviations[6] == "jul";
  }

  /** `strptime("18 Jul 2025", "%d %b %Y")` is 18 July 2025. */
  lemma StrptimeExample()
    ensures StrptimeDayMonYear("18 Jul 2025") == Some(Date(2025, 7, 18))
  {
    TokenDateExample();
    StrptimeOfDateToken("18 Jul 2025");
  }

  lemma IsoExample()
    ensures IsoString(Date(2025, 7, 18)) == "2025-07-18"
  {
    assert Show(2025, 4) == "2025";
    assert Show(7, 2) == "07";
    assert Show(18, 2) == "18";
  }

  /** The example in the source's comment: "18 Jul 2025 19:33" yields ("2025-07-18", "19:33"). */
  lemma ExtractExample()
    ensures FilterMap(ConvertMatch, FindAll("18 Jul 2025 19:33")) == [DatedTime("2025-07-18", "19:33")]
  {
    var m := Match(0, 17, Groups("18 Jul 2025", "19:33"));
    FindAllExample();
    assert ConvertMatch(m) == Some(DatedTime("2025-07-18", "19:33")) by {
      StrptimeExample();
      IsoExample();
    }
    assert [m][..0] == [];
    assert FilterMap(ConvertMatch, [m]) == [DatedTime("2025-07-18", "19:33")];
  }

  // ---------------------------------------------------------------------
  // As shipped: the module never imports `re`
  // ---------------------------------------------------------------------

  datatype ExtractError = NameError(name: string)

  /**
   * `extract_dates_times_from_text` as the file ships it: the first statement
   * that reaches `re.findall` raises NameError, because `re` is not imported.
   */
  function ExtractDatesTimesAsShipped(text: string): (r: Result<seq<DatedTime>, ExtractError>)
    ensures r == Failure(NameError("re"))
  {
    Failure(NameError("re"))
  }

  /** On the source's own example the shipped function raises where the intended one finds a pair. */
  lemma AsShippedLosesExample()
    ensures ExtractDatesTimesAsShipped("18 Jul 2025 19:33").Failure?
    ensures |FilterMap(ConvertMatch, FindAll("18 Jul 2025 19:33"))| == 1
  {
    ExtractExample();
  }

  // ---------------------------------------------------------------------
  // adjust_dates_for_saturday
  // ---------------------------------------------------------------------

  /** A Saturday moves two days on, to the Monday; every other day stays. */
  function SaturdayShift(d: Date): (r: Date)
    requires ValidDate(d)
    ensures ValidDate(r)
    ensures Weekday(d) == Saturday ==> DayNumber(r) == DayNumber(d) + 2 && Weekday(r) == Monday
    ensures Weekday(d) != Saturday ==> r == d
    ensures Weekday(r) != Saturday
  {
    if Weekday(d) == Saturday then
      WeekdayLater(d, AddDays(d, 2), 2);
      AddDays(d, 2)
    else d
  }

  /** The notes `adjust_dates_for_saturday` records: each Saturday among `dates`, mapped to its Monday. */
  function SaturdayAdjustments(dates: seq<string>): (m: map<string, string>)
    requires forall s :: s in dates ==> ParseIso(s).Some?
  {
    KeyedNotes(dates, FallsOnSaturday, MondayNote)
  }

  /** Whether a string is an ISO date that names a Saturday. */
  predicate FallsOnSaturday(s: string)
  {
    ParseIso(s).Some? && Weekday(ParseIso(s).value) == Saturday
  }

  /** The note for an ISO date: the ISO string of its shifted date (unused for other strings). */
  function MondayNote(s: string): string
  {
    match ParseIso(s)
    case Some(d) => IsoString(SaturdayShift(d))
    case None => s
  }

  /**
   * `adjust_dates_for_saturday`: every date moved off Saturday, in the same
   * order, and the notes of which dates moved where. Keys are the strftime
   * of the parsed date, which is the input string itself.
   */
  method AdjustDatesForSaturday(dates: seq<string>) returns (adjustedDates: seq<Date>, adjustments: map<string, string>)
    requires forall s :: s in dates ==> ParseIso(s).Some?
    ensures |adjustedDates| == |dates|
    ensures forall i :: 0 <= i < |dates| ==> adjustedDates[i] == SaturdayShift(ParseIso(dates[i]).value)
    ensures forall i :: 0 <= i < |dates| ==> ValidDate(adjustedDates[i]) && Weekday(adjustedDates[i]) != Saturday
    ensures adjustments == SaturdayAdjustments(dates)
  {
    adjustedDates := [];
    adjustments := map[];
    for i := 0 to |dates|
      invariant adjustedDates == SaturdayShifts(dates[..i])
      invariant adjustments == SaturdayAdjustments(dates[..i])
    {
      var date := ParseIso(dates[i]).value;
      var originalDate := IsoString(date);
      SaturdayShiftsStep(dates, i);
      SaturdayAdjustmentsStep(dates, i);
      if Weekday(date) == Saturday {
        date := AddDays(date, 2);
        adjustments := adjustments[originalDate := IsoString(date)];
      }
      adjustedDates := adjustedDates + [date];
    }
    assert dates[..|dates|] == dates;
    SaturdayShiftsAt(dates);
  }

  /** The dates `adjust_dates_for_saturday` has produced after the dates `dates`. */
  function SaturdayShifts(dates: seq<string>): (r: seq<Date>)
    requires forall s :: s in dates ==> ParseIso(s).Some?
    ensures |r| == |dates|
  {
    if dates == [] then []
    else SaturdayShifts(dates[..|dates| - 1]) + [SaturdayShift(ParseIso(dates[|dates| - 1]).value)]
  }

  /** Entry `i` of the shifted dates is the shift of date `i`. */
  lemma {:induction false} SaturdayShiftsAt(dates: seq<string>)
    requires forall s :: s in dates ==> ParseIso(s).Some?
    ensures forall i :: 0 <= i < |dates| ==> SaturdayShifts(dates)[i] == SaturdayShift(ParseIso(dates[i]).value)
  {
    if dates != [] {
      var front := dates[..|dates| - 1];
      assert forall s :: s in front ==> s in dates;
      SaturdayShiftsAt(front);
      var r := SaturdayShifts(dates);
      assert r == SaturdayShifts(front) + [SaturdayShift(ParseIso(dates[|dates| - 1]).value)];
      forall i | 0 <= i < |dates|
        ensures r[i] == SaturdayShift(ParseIso(dates[i]).value)
      {
        if i < |front| {
          assert dates[i] == front[i];
        } else {
          assert i == |front| == |SaturdayShifts(front)|;
        }
      }
    }
  }

  /** One more date considered: its shift goes at the end. */
  lemma SaturdayShiftsStep(dates: seq<string>, i: nat)
    requires forall s :: s in dates ==> ParseIso(s).Some?
    requires i < |dates|
    ensures SaturdayShifts(dates[..i + 1]) == SaturdayShifts(dates[..i]) + [SaturdayShift(ParseIso(dates[i]).value)]
  {
    assert dates[..i + 1][..i] == dates[..i];
  }

  /** One more date considered: a Saturday adds its note, keyed by its own ISO string, over any earlier note. */
  lemma SaturdayAdjustmentsStep(dates: seq<string>, i: nat)
    requires forall s :: s in dates ==> ParseIso(s).Some?
    requires i < |dates|
    ensures var d := ParseIso(dates[i]).value;
      SaturdayAdjustments(dates[..i + 1]) ==
        if Weekday(d) == Saturday then SaturdayAdjustments(dates[..i])[IsoString(d) := IsoString(AddDays(d, 2))]
        else SaturdayAdjustments(dates[..i])
  {
    var d := ParseIso(dates[i]).value;
    ParseIsoRoundTrip(dates[i]);
    KeyedNotesSnoc(dates[..i], dates[i], FallsOnSaturday, MondayNote);
    assert dates[..i + 1] == dates[..i] + [dates[i]];
    assert FallsOnSaturday(dates[i]) <==> Weekday(d) == Saturday;
  }

  /**
   * The notes hold exactly the Saturdays, each mapped to the date two days
   * later, which is a Monday.
   */
  lemma SaturdayAdjustmentsAreMondays(dates: seq<string>, k: string)
    requires forall s :: s in dates ==> ParseIso(s).Some?
    ensures k in SaturdayAdjustments(dates) <==> k in dates && Weekday(ParseIso(k).value) == Saturday
    ensures k in SaturdayAdjustments(dates) ==>
      var monday := AddDays(ParseIso(k).value, 2);
      SaturdayAdjustments(dates)[k] == IsoString(monday) && Weekday(monday) == Monday
  {
    KeyedNotesKeys(dates, FallsOnSaturday, MondayNote, k);
  }

  // ---------------------------------------------------------------------
  // adjust_dates_for_time
  // ---------------------------------------------------------------------

  /** `datetime.strptime("15:15", "%H:%M").time()`. */
  const Threshold := Clock(15, 15)

  lemma ThresholdParses()
    ensures StrptimeHourMinute("15:15") == Some(Threshold)
  {
  }

  /** `time_obj > threshold_time` for times of day with whole minutes. */
  predicate ClockAfter(a: Clock, b: Clock)
  {
    a.hour > b.hour || (a.hour == b.hour && a.minute > b.minute)
  }

  /** Whether a time string moves its date on: it parses as `%H:%M` and is strictly later than 15:15. */
  predicate AfterCutoff(time: string)
  {
    match StrptimeHourMinute(time)
    case None => false
    case Some(c) => ClockAfter(c, Threshold)
  }

  /**
   * For a two-digit `HH:MM` time the cutoff is strict: 15:16 and later move
   * the date, 15:15 and earlier do not, and an hour past 23 or a minute
   * past 59 is a parse error that moves nothing.
   */
  lemma AfterCutoffOfHHMM(s: string)
    requires |s| == 5 && TimeTokenAt(s, 0)
    ensures var h, m := 10 * DigitValue(s[0]) + DigitValue(s[1]), 10 * DigitValue(s[3]) + DigitValue(s[4]);
      AfterCutoff(s) <==> h <= 23 && m <= 59 && (h > 15 || (h == 15 && m > 15))
  {
    StrptimeHourMinuteOfFiveChars(s);
  }

  /** The boundary and the error cases named in the source: "15:15" stays, "15:16" moves, "25:00" and "" do not parse. */
  lemma AfterCutoffExamples()
    ensures !AfterCutoff("15:15") && AfterCutoff("15:16")
    ensures !AfterCutoff("25:00") && !AfterCutoff("")
  {
    AfterCutoffOfHHMM("15:15");
    AfterCutoffOfHHMM("15:16");
    AfterCutoffOfHHMM("25:00");
  }

  /** Whether entry `i` is moved a day on: not noted as a Saturday, and timed after the cutoff. */
  predicate TimeShifted(i: nat, times: seq<string>, saturdayAdjustments: map<string, string>,
                        originalDates: seq<string>)
    requires i < |times| && i < |originalDates|
  {
    originalDates[i] !in saturdayAdjustments && AfterCutoff(times[i])
  }

  /** Entry `i` after `adjust_dates_for_time`: the next day when it is moved by its time, else unchanged. */
  function ShiftedByTime(i: nat, adjustedDates: seq<Date>, times: seq<string>, saturdayAdjustments: map<string, string>,
                         originalDates: seq<string>): Date
    requires i < |adjustedDates| && i < |times| && i < |originalDates| && ValidDate(adjustedDates[i])
  {
    if TimeShifted(i, times, saturdayAdjustments, originalDates) then NextDay(adjustedDates[i]) else adjustedDates[i]
  }

  /** The dates `adjust_dates_for_time` has produced after the first `n` entries. */
  function TimeShiftedDates(adjustedDates: seq<Date>, times: seq<string>, saturdayAdjustments: map<string, string>,
                            originalDates: seq<string>, n: nat): (r: seq<Date>)
    requires n <= |adjustedDates| && n <= |times| && n <= |originalDates|
    requires forall i :: 0 <= i < |adjustedDates| ==> ValidDate(adjustedDates[i])
    ensures |r| == n
  {
    if n == 0 then []
    else TimeShiftedDates(adjustedDates, times, saturdayAdjustments, originalDates, n - 1)
         + [ShiftedByTime(n - 1, adjustedDates, times, saturdayAdjustments, originalDates)]
  }

  /** Entry `i` of the produced dates is entry `i` moved, or not, by its own time. */
  lemma {:induction false} TimeShiftedDatesAt(adjustedDates: seq<Date>, times: seq<string>,
                                              saturdayAdjustments: map<string, string>,
                                              originalDates: seq<string>, n: nat)
    requires n <= |adjustedDates| && n <= |times| && n <= |originalDates|
    requires forall i :: 0 <= i < |adjustedDates| ==> ValidDate(adjustedDates[i])
    ensures forall i :: 0 <= i < n ==>
      TimeShiftedDates(adjustedDates, times, saturdayAdjustments, originalDates, n)[i]
        == ShiftedByTime(i, adjustedDates, times, saturdayAdjustments, originalDates)
  {
    if n > 0 {
      TimeShiftedDatesAt(adjustedDates, times, saturdayAdjustments, originalDates, n - 1);
      var front := TimeShiftedDates(adjustedDates, times, saturdayAdjustments, originalDates, n - 1);
      assert forall i :: 0 <= i < n - 1 ==>
        TimeShiftedDates(adjustedDates, times, saturdayAdjustments, originalDates, n)[i] == front[i];
    }
  }

  /** The notes `adjust_dates_for_time` has recorded after the first `n` entries; a later entry for the same key overwrites. */
  function TimeAdjustments(adjustedDates: seq<Date>, times: seq<string>, saturdayAdjustments: map<string, string>,
                           originalDates: seq<string>, n: nat): map<string, string>
    requires n <= |adjustedDates| && n <= |times| && n <= |originalDates|
    requires forall i :: 0 <= i < |adjustedDates| ==> ValidDate(adjustedDates[i])
  {
    if n == 0 then map[]
    else
      var m := TimeAdjustments(adjustedDates, times, saturdayAdjustments, originalDates, n - 1);
      if TimeShifted(n - 1, times, saturdayAdjustments, originalDates)
      then m[originalDates[n - 1] := IsoString(NextDay(adjustedDates[n - 1]))]
      else m
  }

  /** One more entry: its note, if it is moved, is added over the earlier ones. */
  lemma TimeAdjustmentsStep(adjustedDates: seq<Date>, times: seq<string>, saturdayAdjustments: map<string, string>,
                            originalDates: seq<string>, i: nat)
    requires i < |adjustedDates| && i < |times| && i < |originalDates|
    requires forall i :: 0 <= i < |adjustedDates| ==> ValidDate(adjustedDates[i])
    ensures TimeAdjustments(adjustedDates, times, saturdayAdjustments, originalDates, i + 1) ==
      if originalDates[i] !in saturdayAdjustments && AfterCutoff(times[i])
      then TimeAdjustments(adjustedDates, times, saturdayAdjustments, originalDates, i)[
             originalDates[i] := IsoString(NextDay(adjustedDates[i]))]
      else TimeAdjustments(adjustedDates, times, saturdayAdjustments, originalDates, i)
  {
  }

  /**
   * A key is noted exactly when some entry with that original date was moved
   * by its time, and it is noted with that entry's new date; a Saturday-noted
   * date is never a key.
   */
  lemma {:induction false} TimeAdjustmentsRecorded(adjustedDates: seq<Date>, times: seq<string>,
                                                   saturdayAdjustments: map<string, string>,
                                                   originalDates: seq<string>, n: nat, k: string)
    requires n <= |adjustedDates| && n <= |times| && n <= |originalDates|
    requires forall i :: 0 <= i < |adjustedDates| ==> ValidDate(adjustedDates[i])
    ensures var m := TimeAdjustments(adjustedDates, times, saturdayAdjustments, originalDates, n);
      (k in m <==> exists i :: 0 <= i < n && originalDates[i] == k
                    && TimeShifted(i, times, saturdayAdjustments, originalDates))
      && (k in m ==>
            k !in saturdayAdjustments
            && exists i :: 0 <= i < n && originalDates[i] == k && m[k] == IsoString(NextDay(adjustedDates[i])))
  {
    if n > 0 {
      TimeAdjustmentsRecorded(adjustedDates, times, saturdayAdjustments, originalDates, n - 1, k);
    }
  }

  /**
   * `adjust_dates_for_time`, with the global `dates` it reads passed in as
   * `originalDates`: an entry whose original date is noted as a Saturday
   * passes through; otherwise a time after 15:15 moves it one day on and
   * notes the move, and a time that does not parse leaves it as it is.
   */
  method AdjustDatesForTime(adjustedDates: seq<Date>, times: seq<string>, saturdayAdjustments: map<string, string>,
                            originalDates: seq<string>)
    returns (finalDates: seq<Date>, timeAdjustments: map<string, string>)
    requires |adjustedDates| <= |times| && |adjustedDates| <= |originalDates|
    requires forall i :: 0 <= i < |adjustedDates| ==> ValidDate(adjustedDates[i])
    ensures |finalDates| == |adjustedDates|
    ensures forall i :: 0 <= i < |adjustedDates| ==>
      finalDates[i] == if TimeShifted(i, times, saturdayAdjustments, originalDates)
                       then NextDay(adjustedDates[i]) else adjustedDates[i]
    ensures timeAdjustments == TimeAdjustments(adjustedDates, times, saturdayAdjustments, originalDates, |adjustedDates|)
  {
    finalDates := [];
    timeAdjustments := map[];
    for i := 0 to |adjustedDates|
      invariant finalDates == TimeShiftedDates(adjustedDates, times, saturdayAdjustments, originalDates, i)
      invariant timeAdjustments == TimeAdjustments(adjustedDates, times, saturdayAdjustments, originalDates, i)
    {
      TimeAdjustmentsStep(adjustedDates, times, saturdayAdjustments, originalDates, i);
      var date, shifted := AdjustEntryForTime(adjustedDates[i], times[i], originalDates[i], saturdayAdjustments);
      if shifted {
        timeAdjustments := timeAdjustments[originalDates[i] := IsoString(date)];
      }
      finalDates := finalDates + [date];
    }
    TimeShiftedDatesAt(adjustedDates, times, saturdayAdjustments, originalDates, |adjustedDates|);
  }

  /**
   * One pass of the loop of `adjust_dates_for_time`: a Saturday-noted entry
   * passes through, a time that does not parse skips the adjustment, and a
   * time after 15:15 moves the date one day on.
   */
  method AdjustEntryForTime(date: Date, timeStr: string, originalDate: string, saturdayAdjustments: map<string, string>)
    returns (newDate: Date, shifted: bool)
    requires ValidDate(date)
    ensures shifted <==> originalDate !in saturdayAdjustments && AfterCutoff(timeStr)
    ensures newDate == if shifted then NextDay(date) else date
  {
    newDate, shifted := date, false;
    if originalDate in saturdayAdjustments {
      return;
    }
    match StrptimeHourMinute(timeStr) {
      case None =>
        // "Invalid time format ... Skipping time adjustment."
      case Some(timeObj) =>
        ThresholdParses();
        var thresholdTime := StrptimeHourMinute("15:15").value;
        if ClockAfter(timeObj, thresholdTime) {
          newDate, shifted := NextDay(date), true;
        }
    }
  }

  // ---------------------------------------------------------------------
  // The prefix of price_changes_for_dates
  // ---------------------------------------------------------------------

  /** The sort key `pd.to_datetime(pair[0])`: the day number of the pair's date. */
  function DateKey(p: DatedTime): int
  {
    match ParseIso(p.date)
    case Some(d) => DayNumber(d)
    case None => 0
  }

  predicate ByDate(a: DatedTime, b: DatedTime)
  {
    DateKey(a) <= DateKey(b)
  }

  /** Where an announcement ends up: Saturday to Monday, otherwise after 15:15 to the next day. */
  function FinalDate(d: Date, time: string): (r: Date)
    requires ValidDate(d)
    ensures ValidDate(r)
  {
    if Weekday(d) == Saturday then AddDays(d, 2)
    else if AfterCutoff(time) then NextDay(d)
    else d
  }

  /**
   * An announcement moves at most two days: two exactly when it falls on a
   * Saturday, whatever its time; one when it is timed after 15:15 on any
   * other day; none otherwise.
   */
  lemma FinalDateOffset(d: Date, time: string)
    requires ValidDate(d)
    ensures Weekday(d) == Saturday ==> DayNumber(FinalDate(d, time)) == DayNumber(d) + 2
    ensures Weekday(d) != Saturday && AfterCutoff(time) ==> DayNumber(FinalDate(d, time)) == DayNumber(d) + 1
    ensures Weekday(d) != Saturday && !AfterCutoff(time) ==> FinalDate(d, time) == d
  {
  }

  /**
   * The Saturday shift runs before the time shift, so a Friday announcement
   * after 15:15 ends on the Saturday and is not moved again.
   */
  lemma FridayAfterCutoffEndsOnSaturday(d: Date, time: string)
    requires ValidDate(d) && Weekday(d) == Friday && AfterCutoff(time)
    ensures FinalDate(d, time) == NextDay(d) && Weekday(FinalDate(d, time)) == Saturday
  {
    assert FinalDate(d, time) == NextDay(d);
    WeekdayNextDay(d);
  }

  /** The dates `price_changes_for_dates` goes on to look up, with the notes it prints. */
  datatype PreparedDates = PreparedDates(
    dates: seq<string>,
    times: seq<string>,
    adjustedDates: seq<Date>,
    saturdayAdjustments: map<string, string>,
    finalDates: seq<Date>,
    timeAdjustments: map<string, string>)

  /** `[pair[0] for pair in pairs]`. */
  function DatesOf(pairs: seq<DatedTime>): (r: seq<string>)
    ensures |r| == |pairs| && forall i :: 0 <= i < |pairs| ==> r[i] == pairs[i].date
  {
    seq(|pairs|, i requires 0 <= i < |pairs| => pairs[i].date)
  }

  /** `[pair[1] for pair in pairs]`. */
  function TimesOf(pairs: seq<DatedTime>): (r: seq<string>)
    ensures |r| == |pairs| && forall i :: 0 <= i < |pairs| ==> r[i] == pairs[i].time
  {
    seq(|pairs|, i requires 0 <= i < |pairs| => pairs[i].time)
  }

  /** The dates of pairs whose dates all parse all parse. */
  lemma DatesOfParse(pairs: seq<DatedTime>)
    requires forall p :: p in pairs ==> ParseIso(p.date).Some?
    ensures forall s :: s in DatesOf(pairs) ==> ParseIso(s).Some?
  {
    forall s | s in DatesOf(pairs) ensures ParseIso(s).Some? {
      var i :| 0 <= i < |pairs| && DatesOf(pairs)[i] == s;
      assert pairs[i] in pairs;
    }
  }

  /**
   * Lines 66-78 of `price_changes_for_dates`: sort the pairs by date (stable),
   * split them into dates and times, shift Saturdays, then shift late times.
   * The global `dates` that `adjust_dates_for_time` sorts again is already
   * sorted, so each entry is checked against its own original date.
   */
  method PrepareDates(datesWithTimes: seq<DatedTime>) returns (r: PreparedDates)
    requires forall p :: p in datesWithTimes ==> ParseIso(p.date).Some?
    ensures r.dates == DatesOf(SortBy(datesWithTimes, ByDate))
    ensures r.times == TimesOf(SortBy(datesWithTimes, ByDate))
    ensures forall s :: s in r.dates ==> ParseIso(s).Some?
    ensures |r.finalDates| == |r.dates|
    ensures forall i :: 0 <= i < |r.dates| ==> r.finalDates[i] == FinalDate(ParseIso(r.dates[i]).value, r.times[i])
    ensures r.saturdayAdjustments == SaturdayAdjustments(r.dates)
    ensures |r.adjustedDates| == |r.dates|
    ensures forall i :: 0 <= i < |r.dates| ==> ValidDate(r.adjustedDates[i])
    ensures forall i :: 0 <= i < |r.dates| ==> r.adjustedDates[i] == SaturdayShift(ParseIso(r.dates[i]).value)
    ensures r.timeAdjustments == TimeAdjustments(r.adjustedDates, r.times, r.saturdayAdjustments, r.dates, |r.dates|)
  {
    var sortedPairs := SortBy(datesWithTimes, ByDate);
    SortedPairsParse(datesWithTimes);
    var dates := DatesOf(sortedPairs);
    var times := TimesOf(sortedPairs);
    DatesOfParse(sortedPairs);

    var adjustedDates, saturdayAdjustments := AdjustDatesForSaturday(dates);

    var originalDates := SortBy(dates, StrLe);
    DatesAlreadySorted(sortedPairs, dates);
    SortBySortedIsIdentity(dates, StrLe);

    var finalDates, timeAdjustments := AdjustDatesForTime(adjustedDates, times, saturdayAdjustments, originalDates);
    FinalDatesComposed(dates, times, adjustedDates, saturdayAdjustments, finalDates);
    r := PreparedDates(dates, times, adjustedDates, saturdayAdjustments, finalDates, timeAdjustments);
  }

  /** Sorting keeps the pairs, so every sorted date still parses, and the sort is by date. */
  lemma SortedPairsParse(datesWithTimes: seq<DatedTime>)
    requires forall p :: p in datesWithTimes ==> ParseIso(p.date).Some?
    ensures forall p :: p in SortBy(datesWithTimes, ByDate) ==> ParseIso(p.date).Some?
    ensures SortedBy(SortBy(datesWithTimes, ByDate), ByDate)
  {
    var sortedPairs := SortBy(datesWithTimes, ByDate);
    SortByPermutation(datesWithTimes, ByDate);
    SortBySorted(datesWithTimes, ByDate);
    forall p | p in sortedPairs ensures ParseIso(p.date).Some? {
      assert p in multiset(sortedPairs);
    }
  }

  /**
   * For one entry, the two adjustments in sequence give `FinalDate`: the
   * entry is noted as a Saturday exactly when its date is one, and then the
   * time shift leaves it alone.
   */
  lemma EntryFinalDate(dates: seq<string>, i: nat, time: string, adjusted: Date,
                       saturdayAdjustments: map<string, string>, final: Date)
    requires forall s :: s in dates ==> ParseIso(s).Some?
    requires i < |dates| && saturdayAdjustments == SaturdayAdjustments(dates)
    requires adjusted == SaturdayShift(ParseIso(dates[i]).value)
    requires final == if dates[i] !in saturdayAdjustments && AfterCutoff(time) then NextDay(adjusted) else adjusted
    ensures final == FinalDate(ParseIso(dates[i]).value, time)
  {
    SaturdayAdjustmentsAreMondays(dates, dates[i]);
  }

  /** Shifting Saturdays and then late times gives each entry its `FinalDate`. */
  lemma FinalDatesComposed(dates: seq<string>, times: seq<string>, adjustedDates: seq<Date>,
                           saturdayAdjustments: map<string, string>, finalDates: seq<Date>)
    requires forall s :: s in dates ==> ParseIso(s).Some?
    requires |times| == |dates| && |adjustedDates| == |dates| && |finalDates| == |dates|
    requires saturdayAdjustments == SaturdayAdjustments(dates)
    requires forall i :: 0 <= i < |dates| ==> adjustedDates[i] == SaturdayShift(ParseIso(dates[i]).value)
    requires forall i :: 0 <= i < |dates| ==> ValidDate(adjustedDates[i])
    requires forall i :: 0 <= i < |dates| ==>
      finalDates[i] == if TimeShifted(i, times, saturdayAdjustments, dates)
                       then NextDay(adjustedDates[i]) else adjustedDates[i]
    ensures forall i :: 0 <= i < |dates| ==> finalDates[i] == FinalDate(ParseIso(dates[i]).value, times[i])
  {
    forall i | 0 <= i < |dates|
      ensures finalDates[i] == FinalDate(ParseIso(dates[i]).value, times[i])
    {
      EntryFinalDate(dates, i, times[i], adjustedDates[i], saturdayAdjustments, finalDates[i]);
    }
  }

  /** Date strings of pairs sorted by date are sorted as strings too. */
  lemma DatesAlreadySorted(sortedPairs: seq<DatedTime>, dates: seq<string>)
    requires SortedBy(sortedPairs, ByDate)
    requires forall p :: p in sortedPairs ==> ParseIso(p.date).Some?
    requires |dates| == |sortedPairs| && forall i :: 0 <= i < |dates| ==> dates[i] == sortedPairs[i].date
    ensures SortedBy(dates, StrLe)
  {
    forall i, j | 0 <= i < j < |dates| ensures StrLe(dates[i], dates[j]) {
      assert sortedPairs[i] in sortedPairs && sortedPairs[j] in sortedPairs;
      var a, b := ParseIso(dates[i]).value, ParseIso(dates[j]).value;
      assert ByDate(sortedPairs[i], sortedPairs[j]);
      ParseIsoRoundTrip(dates[i]);
      ParseIsoRoundTrip(dates[j]);
      IsoStringOrder(a, b);
      DayNumberOrder(a, b);
    }
  }
}
