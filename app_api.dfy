/**
 * The `/analyze` endpoint of the API server: recognised text of each
 * uploaded image is cut into lines, date lines and time lines are collected
 * separately and paired by position, the pairs of all images are sorted, and
 * the sorted pairs go to the calculator's date preparation.
 */
module AnalyzeApi {
  import opened Common
  import opened Text
  import opened Calendar
  import opened Sorting
  import opened Tokens
  import opened Lists
  import opened ReactionCalculator

  // ---------------------------------------------------------------------
  // extract_dates_times_from_text
  // ---------------------------------------------------------------------

  /** A line as the comprehension keeps it: non-empty, with no whitespace at either end. */
  predicate Trimmed(l: string)
  {
    l != [] && l[0] !in PySpaces && l[|l| - 1] !in PySpaces
  }

  /** `line.strip()`, kept only when something is left. */
  function StripLine(line: string): (r: Option<string>)
    ensures r.Some? ==> Trimmed(r.value)
  {
    var t := Strip(line, PySpaces);
    if t == [] then None else Some(t)
  }

  /**
   * `[line.strip() for line in text.splitlines() if line.strip()]`. Cutting
   * at every line-break character gives the same stripped, non-empty lines as
   * `splitlines`: the only extra pieces it makes (between `\r` and `\n`, or
   * after a final break) are empty and are dropped.
   */
  function StrippedLines(text: string): seq<string>
  {
    FilterMap(StripLine, SplitOn(text, PyLineBreaks))
  }

  /** Only trimmed, non-empty lines are considered. */
  lemma StrippedLinesAreTrimmed(text: string)
    ensures forall l :: l in StrippedLines(text) ==> Trimmed(l)
  {
    StrippedPiecesAreTrimmed(SplitOn(text, PyLineBreaks));
  }

  lemma StrippedPiecesAreTrimmed(pieces: seq<string>)
    ensures forall l :: l in FilterMap(StripLine, pieces) ==> Trimmed(l)
  {
    FilterMapCount(StripLine, pieces);
    forall l | l in FilterMap(StripLine, pieces) ensures Trimmed(l)
    {
      var k :| 0 <= k < |FilterMap(StripLine, pieces)| && FilterMap(StripLine, pieces)[k] == l;
      var j :| 0 <= j < |pieces| && StripLine(pieces[j]) == Some(l);
    }
  }

  /** `re.match(r"\d{1,2} [A-Za-z]{3} \d{4}", line)`: the line starts with a date token. */
  predicate IsDateLine(line: string)
  {
    DateTokenAt(line, 0).Some?
  }

  /** `re.match(r"\d{2}:\d{2}", line)` tested only when the date test failed. */
  predicate IsTimeLine(line: string)
  {
    !IsDateLine(line) && TimeTokenAt(line, 0)
  }

  /** The date lines, in order. */
  function DateLines(lines: seq<string>): seq<string>
  {
    Filter(IsDateLine, lines)
  }

  /** The time lines, in order. */
  function TimeLines(lines: seq<string>): seq<string>
  {
    Filter(IsTimeLine, lines)
  }

  /** One `(dt, tm)` of the zip: the date line reformatted as ISO with the time line as it is, or None on ValueError. */
  function ConvertLinePair(lines: (string, string)): (r: Option<DatedTime>)
    ensures r.Some? ==> ParseIso(r.value.date).Some? && r.value.time == lines.1
  {
    match StrptimeDayMonYear(lines.0)
    case None => None
    case Some(d) =>
      IsoRoundTrip(d);
      Some(DatedTime(IsoString(d), lines.1))
  }

  /** What `extract_dates_times_from_text` returns for `text`. */
  function ExtractedPairs(text: string): seq<DatedTime>
  {
    var lines := StrippedLines(text);
    FilterMap(ConvertLinePair, Zip(DateLines(lines), TimeLines(lines)))
  }

  method ExtractDatesTimesFromText(text: string) returns (datesWithTimes: seq<DatedTime>)
    ensures datesWithTimes == ExtractedPairs(text)
  {
    var lines := StrippedLines(text);
    var dates: seq<string> := [];
    var times: seq<string> := [];
    for i := 0 to |lines|
      invariant dates == DateLines(lines[..i])
      invariant times == TimeLines(lines[..i])
    {
      FilterPrefix(IsDateLine, lines, i);
      FilterPrefix(IsTimeLine, lines, i);
      var line := lines[i];
      if DateTokenAt(line, 0).Some? {
        dates := dates + [line];
      } else if TimeTokenAt(line, 0) {
        times := times + [line];
      }
    }
    assert lines[..|lines|] == lines;
    var zipped := Zip(dates, times);
    datesWithTimes := [];
    for i := 0 to |zipped|
      invariant datesWithTimes == FilterMap(ConvertLinePair, zipped[..i])
    {
      FilterMapPrefix(ConvertLinePair, zipped, i);
      var (dt, tm) := zipped[i];
      match StrptimeDayMonYear(dt) {
        case None =>
        case Some(dtObj) =>
          datesWithTimes := datesWithTimes + [DatedTime(IsoString(dtObj), tm)];
      }
    }
    assert zipped[..|zipped|] == zipped;
  }

  /**
   * Pairs follow position: pair `k` comes from the `j`-th date line and the
   * `j`-th time line for some `j` whose date parses, the time kept verbatim,
   * so there are never more pairs than the shorter of the two lists.
   */
  ghost predicate FromPositions(pairs: seq<DatedTime>, dates: seq<string>, times: seq<string>)
  {
    && |pairs| <= |dates| && |pairs| <= |times|
    && forall k :: 0 <= k < |pairs| ==>
         exists j :: 0 <= j < |dates| && j < |times| && StrptimeDayMonYear(dates[j]).Some?
           && pairs[k] == DatedTime(IsoString(StrptimeDayMonYear(dates[j]).value), times[j])
  }

  /** The pairs of a text come from its date and time lines by position. */
  lemma PairsByPosition(text: string)
    ensures var lines := StrippedLines(text);
      FromPositions(ExtractedPairs(text), DateLines(lines), TimeLines(lines))
  {
    var lines := StrippedLines(text);
    ZippedPairsByPosition(DateLines(lines), TimeLines(lines));
  }

  lemma ZippedPairsByPosition(dates: seq<string>, times: seq<string>)
    ensures FromPositions(FilterMap(ConvertLinePair, Zip(dates, times)), dates, times)
  {
    var zipped := Zip(dates, times);
    var pairs := FilterMap(ConvertLinePair, zipped);
    FilterMapCount(ConvertLinePair, zipped);
    forall k | 0 <= k < |pairs|
      ensures exists j :: 0 <= j < |dates| && j < |times| && StrptimeDayMonYear(dates[j]).Some?
                && pairs[k] == DatedTime(IsoString(StrptimeDayMonYear(dates[j]).value), times[j])
    {
      var j :| 0 <= j < |zipped| && ConvertLinePair(zipped[j]) == Some(pairs[k]);
      assert zipped[j] == (dates[j], times[j]);
      var d := StrptimeDayMonYear(dates[j]).value;
      assert pairs[k] == DatedTime(IsoString(d), times[j]);
    }
  }

  /**
   * A date line that is more than `D Mon YYYY` (trailing text) is dropped,
   * and with it the time line it was paired with.
   */
  lemma DateLineWithTrailingTextDropped(dateLine: string, timeLine: string)
    requires IsDateLine(dateLine) && DateTokenAt(dateLine, 0).value < |dateLine|
    ensures ConvertLinePair((dateLine, timeLine)).None?
  {
    StrptimeOfDateToken(dateLine);
  }

  /**
   * Pairs do not re-align after a drop: with date lines "31 Feb 2025" and
   * "10 Mar 2025" and time lines "09:30" and "16:00", the February line
   * fails and takes "09:30" with it, and March keeps "16:00".
   */
  lemma NoRealignExample()
    ensures FilterMap(ConvertLinePair, Zip(["31 Feb 2025", "10 Mar 2025"], ["09:30", "16:00"]))
      == [DatedTime("2025-03-10", "16:00")]
  {
    var z: seq<(string, string)> := Zip(["31 Feb 2025", "10 Mar 2025"], ["09:30", "16:00"]);
    assert z == [("31 Feb 2025", "09:30"), ("10 Mar 2025", "16:00")];
    FebruaryThirtyFirstFails();
    MarchTenthParses();
    assert z[..1] == [z[0]] && z[..1][..0] == [];
    assert FilterMap(ConvertLinePair, z[..1]) == [];
  }

  lemma DayMonYearDigits()
    ensures DigitsValue("31") == 31 && DigitsValue("10") == 10 && DigitsValue("2025") == 2025
  {
    TwoDigitsValue("31");
    TwoDigitsValue("10");
    FourDigitsValue("2025");
  }

  lemma FebAbbreviation()
    ensures MonthOfAbbreviation("Feb") == Some(2)
  {
    assert LowerAsciiString("Feb") == "feb";
    assert MonthAbbreviations[1] == "feb";
  }

  lemma MarAbbreviation()
    ensures MonthOfAbbreviation("Mar") == Some(3)
  {
    assert LowerAsciiString("Mar") == "mar";
    assert MonthAbbreviations[2] == "mar";
  }

  lemma FebruaryThirtyFirstFails()
    ensures StrptimeDayMonYear("31 Feb 2025").None?
  {
    var t := "31 Feb 2025";
    assert t[0..2] == "31" && t[3..6] == "Feb" && t[7..11] == "2025";
    assert AllDigits(t[7..11]);
    TwoDigitDayToken(t);
    DayMonYearDigits();
    FebAbbreviation();
    TokenDateOfFields(t, 31, 2, 2025);
    StrptimeOfDateToken(t);
  }

  lemma MarchTenthToken()
    ensures DateTokenAt("10 Mar 2025", 0) == Some(11)
    ensures TokenDate("10 Mar 2025", 0) == Some(Date(2025, 3, 10))
  {
    var t := "10 Mar 2025";
    assert t[0..2] == "10" && t[3..6] == "Mar" && t[7..11] == "2025";
    assert AllDigits(t[7..11]);
    TwoDigitDayToken(t);
    DayMonYearDigits();
    MarAbbreviation();
    TokenDateOfFields(t, 10, 3, 2025);
  }

  lemma MarchTenthParses()
    ensures StrptimeDayMonYear("10 Mar 2025") == Some(Date(2025, 3, 10))
    ensures IsoString(Date(2025, 3, 10)) == "2025-03-10"
  {
    MarchTenthToken();
    StrptimeOfDateToken("10 Mar 2025");
    MarchTenthIso();
  }

  lemma MarchTenthIso()
    ensures IsoString(Date(2025, 3, 10)) == "2025-03-10"
  {
    assert Show(2025, 4) == "2025";
    assert Show(3, 2) == "03";
    assert Show(10, 2) == "10";
  }

  // ---------------------------------------------------------------------
  // analyze
  // ---------------------------------------------------------------------

  /** Python's `<=` on `(date, time)` tuples of strings: by date, then by time. */
  predicate PairLe(a: DatedTime, b: DatedTime)
  {
    StrLt(a.date, b.date) || (a.date == b.date && StrLe(a.time, b.time))
  }

  lemma PairLeIsTotalPreorder()
    ensures IsTotalPreorder(PairLe)
  {
    forall a, b ensures PairLe(a, b) || PairLe(b, a) {
      StrLtTrichotomy(a.date, b.date);
      StrLtTrichotomy(a.time, b.time);
    }
    forall a, b, c | PairLe(a, b) && PairLe(b, c) ensures PairLe(a, c) {
      if StrLt(a.date, b.date) && StrLt(b.date, c.date) {
        StrLtTransitive(a.date, b.date, c.date);
      } else if a.date == b.date == c.date && StrLt(a.time, b.time) && StrLt(b.time, c.time) {
        StrLtTransitive(a.time, b.time, c.time);
      }
    }
  }

  /** The pairs of all images, concatenated in upload order. */
  function AllPairs(ocrTexts: seq<string>): seq<DatedTime>
  {
    if ocrTexts == [] then []
    else AllPairs(ocrTexts[..|ocrTexts| - 1]) + ExtractedPairs(ocrTexts[|ocrTexts| - 1])
  }

  const NoPairsError := "Could not extract any valid date/time pairs from images."

  datatype AnalyzeResponse =
    | BadRequest(status: int, error: string)
    | Analyzed(pairs: seq<DatedTime>, prepared: PreparedDates, totalInputDates: nat)

  /** The loop over the images: each image's pairs are appended in upload order. */
  method CollectPairs(ocrTexts: seq<string>) returns (allDatesWithTimes: seq<DatedTime>)
    ensures allDatesWithTimes == AllPairs(ocrTexts)
  {
    allDatesWithTimes := [];
    for i := 0 to |ocrTexts|
      invariant allDatesWithTimes == AllPairs(ocrTexts[..i])
    {
      assert ocrTexts[..i + 1][..i] == ocrTexts[..i];
      var datesWithTimes := ExtractDatesTimesFromText(ocrTexts[i]);
      allDatesWithTimes := allDatesWithTimes + datesWithTimes;
    }
    assert ocrTexts[..|ocrTexts|] == ocrTexts;
  }

  /**
   * `analyze` up to the price lookup, with the recognised text of each image
   * as input: an empty aggregate is a 400 error before any price work;
   * otherwise the sorted pairs are prepared and counted.
   */
  method Analyze(ocrTexts: seq<string>) returns (response: AnalyzeResponse)
    ensures var all := SortBy(AllPairs(ocrTexts), PairLe);
      && (response.BadRequest? <==> all == [])
      && (response.BadRequest? ==> response == BadRequest(400, NoPairsError))
      && (response.Analyzed? ==>
            && response.pairs == all
            && response.totalInputDates == |all|
            && response.prepared.dates == DatesOf(all)
            && response.prepared.times == TimesOf(all)
            && |response.prepared.finalDates| == |all|
            && forall i :: 0 <= i < |all| ==>
                 && ParseIso(all[i].date).Some?
                 && response.prepared.finalDates[i] == FinalDate(ParseIso(all[i].date).value, all[i].time))
  {
    var allDatesWithTimes := CollectPairs(ocrTexts);
    allDatesWithTimes := SortBy(allDatesWithTimes, PairLe);
    if allDatesWithTimes == [] {
      return BadRequest(400, NoPairsError);
    }
    AnalyzedPairsByDate(ocrTexts);
    SortBySortedIsIdentity(allDatesWithTimes, ByDate);
    var prepared := PrepareDates(allDatesWithTimes);
    response := Analyzed(allDatesWithTimes, prepared, |allDatesWithTimes|);
  }

  /** Every extracted date is an ISO date. */
  lemma ExtractedPairsParse(text: string)
    ensures forall p :: p in ExtractedPairs(text) ==> ParseIso(p.date).Some?
  {
    var lines := StrippedLines(text);
    var zipped := Zip(DateLines(lines), TimeLines(lines));
    FilterMapCount(ConvertLinePair, zipped);
    forall p | p in ExtractedPairs(text) ensures ParseIso(p.date).Some? {
      var k :| 0 <= k < |ExtractedPairs(text)| && ExtractedPairs(text)[k] == p;
      var j :| 0 <= j < |zipped| && ConvertLinePair(zipped[j]) == Some(p);
    }
  }

  lemma {:induction false} AllPairsParse(ocrTexts: seq<string>)
    ensures forall p :: p in AllPairs(ocrTexts) ==> ParseIso(p.date).Some?
  {
    if ocrTexts != [] {
      AllPairsParse(ocrTexts[..|ocrTexts| - 1]);
      ExtractedPairsParse(ocrTexts[|ocrTexts| - 1]);
    }
  }

  /**
   * After `sort()` the pairs are ordered as tuples, hold the same pairs as
   * before, and are ordered by date, so the calculator's own sort by date
   * leaves them as they are.
   */
  lemma AnalyzedPairsByDate(ocrTexts: seq<string>)
    ensures var all := SortBy(AllPairs(ocrTexts), PairLe);
      && multiset(all) == multiset(AllPairs(ocrTexts))
      && SortedBy(all, PairLe)
      && (forall p :: p in all ==> ParseIso(p.date).Some?)
      && SortedBy(all, ByDate)
  {
    var all := SortBy(AllPairs(ocrTexts), PairLe);
    PairLeIsTotalPreorder();
    SortByPermutation(AllPairs(ocrTexts), PairLe);
    SortBySorted(AllPairs(ocrTexts), PairLe);
    AllPairsParse(ocrTexts);
    forall p | p in all ensures ParseIso(p.date).Some? {
      assert p in multiset(all);
    }
    forall i, j | 0 <= i < j < |all| ensures ByDate(all[i], all[j]) {
      assert all[i] in all && all[j] in all;
      PairLeByDate(all[i], all[j]);
    }
  }

  /** For pairs whose dates parse, string order on the pair implies order by date. */
  lemma PairLeByDate(p: DatedTime, q: DatedTime)
    requires ParseIso(p.date).Some? && ParseIso(q.date).Some? && PairLe(p, q)
    ensures ByDate(p, q)
  {
    ParseIsoRoundTrip(p.date);
    ParseIsoRoundTrip(q.date);
    IsoStringOrder(ParseIso(p.date).value, ParseIso(q.date).value);
  }

  /**
   * The time is kept as the whole line, so a time line with anything after
   * `HH:MM` never parses as `%H:%M` and never moves its date, however late.
   */
  lemma SuffixedTimeNeverShifts(time: string)
    requires |time| > 5
    ensures !AfterCutoff(time)
  {
    StrptimeHourMinuteLength(time);
  }

  lemma LateTimeWithZoneStays()
    ensures !AfterCutoff("15:30 IST") && AfterCutoff("15:30")
  {
    SuffixedTimeNeverShifts("15:30 IST");
    AfterCutoffOfHHMM("15:30");
  }
}
