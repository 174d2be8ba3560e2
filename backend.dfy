/**
 * The FastAPI back end (`backend/main.py`): the recognised text fragments of
 * an image are joined with spaces, four date regexes are run over the text
 * one after the other, the matches are deduplicated, and the `/analyze`
 * endpoint turns the dates (or a fixed fallback list) into mock price moves
 * and a statistics summary.
 *
 * The regexes are Python patterns compiled with IGNORECASE. Each is modelled
 * by the function that says where its match at a position ends. Every choice
 * the regex engine could backtrack into is forced here: `\d{1,2}` is always
 * followed by something a digit cannot be (a separator, a space, a comma or a
 * word boundary), `[a-z]*` and `\s+` are followed by something they cannot
 * consume, and `,?` is followed by `\s+`, which a comma is not.
 */
module Backend {
  import opened Common
  import opened Text
  import opened Calendar
  import opened Sorting
  import opened Lists
  import opened Scanning

  // ---------------------------------------------------------------------
  // Regex building blocks
  // ---------------------------------------------------------------------

  /** `\b` in front of a word character at `p`: the text starts there or a non-word character precedes it. */
  predicate BoundaryBefore(s: string, p: nat)
  {
    p == 0 || (p <= |s| && !IsWordChar(s[p - 1]))
  }

  /** `\b` after a word character that ends at `e`: the text ends there or a non-word character follows. */
  predicate BoundaryAfter(s: string, e: nat)
  {
    e == |s| || (e < |s| && !IsWordChar(s[e]))
  }

  /** `\d{1,2}` at `i`, greedy: where the one or two digits end. */
  function ShortDigitsEnd(s: string, i: nat): (e: Option<nat>)
    ensures e.Some? ==> i < e.value <= i + 2 && e.value <= |s| && AllDigits(s[i..e.value])
    ensures e.Some? ==> e.value == |s| || !IsDigit(s[e.value]) || e.value == i + 2
  {
    if i < |s| && IsDigit(s[i]) then
      Some(if i + 1 < |s| && IsDigit(s[i + 1]) then i + 2 else i + 1)
    else None
  }

  /** `\d{4}` at `i`. */
  function YearDigitsEnd(s: string, i: nat): (e: Option<nat>)
    ensures e.Some? <==> i + 4 <= |s| && AllDigits(s[i..i + 4])
    ensures e.Some? ==> e.value == i + 4
  {
    if i + 4 <= |s| && AllDigits(s[i..i + 4]) then Some(i + 4) else None
  }

  /** `[-/]`. */
  predicate IsDateSeparator(c: char) { c == '-' || c == '/' }

  /** `(?:Jan|Feb|...|Dec)` at `i`, ignoring case. */
  predicate MonthAt(s: string, i: nat)
  {
    i + 3 <= |s| && MonthOfAbbreviation(s[i..i + 3]).Some?
  }

  /** `[a-z]*` at `i` under IGNORECASE, greedy: where the run of letters ends. */
  function LettersEnd(s: string, i: nat): (e: nat)
    requires i <= |s|
    ensures i <= e <= |s|
    ensures forall k :: i <= k < e ==> IsAsciiLetter(s[k])
    ensures e == |s| || !IsAsciiLetter(s[e])
    decreases |s| - i
  {
    if i < |s| && IsAsciiLetter(s[i]) then LettersEnd(s, i + 1) else i
  }

  /** `\s+` at `i`: where the run of whitespace ends, if there is at least one. */
  function SpacesEnd(s: string, i: nat): (e: Option<nat>)
    requires i <= |s|
    ensures e.Some? ==> i < e.value <= |s|
  {
    var j := SkipSpaces(s, i);
    if j > i then Some(j) else None
  }

  // ---------------------------------------------------------------------
  // The four patterns
  // ---------------------------------------------------------------------

  /** The date patterns, in the order they are run. */
  datatype DatePattern =
    | NumericDayFirst   // \b\d{1,2}[-/]\d{1,2}[-/]\d{4}\b
    | NumericYearFirst  // \b\d{4}[-/]\d{1,2}[-/]\d{1,2}\b
    | DayMonthYear      // \b\d{1,2}\s+(?:Jan|...|Dec)[a-z]*\s+\d{4}\b
    | MonthDayYear      // \b(?:Jan|...|Dec)[a-z]*\s+\d{1,2},?\s+\d{4}\b

  const DatePatterns: seq<DatePattern> := [NumericDayFirst, NumericYearFirst, DayMonthYear, MonthDayYear]

  /** `\b\d{1,2}[-/]\d{1,2}[-/]\d{4}\b` at `p`. */
  function NumericDayFirstEnd(s: string, p: nat): (e: Option<nat>)
    ensures e.Some? ==> p < e.value <= |s|
  {
    if !BoundaryBefore(s, p) then None
    else match ShortDigitsEnd(s, p)
      case None => None
      case Some(a) =>
        if a < |s| && IsDateSeparator(s[a]) then
          match ShortDigitsEnd(s, a + 1)
          case None => None
          case Some(b) =>
            if b < |s| && IsDateSeparator(s[b]) then
              match YearDigitsEnd(s, b + 1)
              case None => None
              case Some(e) => if BoundaryAfter(s, e) then Some(e) else None
            else None
        else None
  }

  /** `\b\d{4}[-/]\d{1,2}[-/]\d{1,2}\b` at `p`. */
  function NumericYearFirstEnd(s: string, p: nat): (e: Option<nat>)
    ensures e.Some? ==> p < e.value <= |s|
  {
    if !BoundaryBefore(s, p) then None
    else match YearDigitsEnd(s, p)
      case None => None
      case Some(a) =>
        if a < |s| && IsDateSeparator(s[a]) then
          match ShortDigitsEnd(s, a + 1)
          case None => None
          case Some(b) =>
            if b < |s| && IsDateSeparator(s[b]) then
              match ShortDigitsEnd(s, b + 1)
              case None => None
              case Some(e) => if BoundaryAfter(s, e) then Some(e) else None
            else None
        else None
  }

  /** `(?:Jan|...|Dec)[a-z]*\s+` at `m`: the month name, any letters after it, then whitespace. */
  function MonthWordEnd(s: string, m: nat): (e: Option<nat>)
    ensures e.Some? ==> m < e.value <= |s|
  {
    if MonthAt(s, m) then SpacesEnd(s, LettersEnd(s, m + 3)) else None
  }

  /** `\d{4}\b` at `y`. */
  function YearEnd(s: string, y: nat): (e: Option<nat>)
    ensures e.Some? ==> e.value == y + 4 <= |s|
  {
    match YearDigitsEnd(s, y)
    case None => None
    case Some(e) => if BoundaryAfter(s, e) then Some(e) else None
  }

  /** `\b\d{1,2}\s+(?:Jan|...|Dec)[a-z]*\s+\d{4}\b` at `p`, ignoring case. */
  function DayMonthYearEnd(s: string, p: nat): (e: Option<nat>)
    ensures e.Some? ==> p < e.value <= |s|
  {
    if !BoundaryBefore(s, p) then None
    else match ShortDigitsEnd(s, p)
      case None => None
      case Some(a) =>
        match SpacesEnd(s, a)
        case None => None
        case Some(m) =>
          match MonthWordEnd(s, m)
          case None => None
          case Some(y) => YearEnd(s, y)
  }

  /** `,?\s+` at `a`: an optional comma, then whitespace. */
  function CommaSpacesEnd(s: string, a: nat): (e: Option<nat>)
    requires a <= |s|
    ensures e.Some? ==> a < e.value <= |s|
  {
    SpacesEnd(s, if a < |s| && s[a] == ',' then a + 1 else a)
  }

  /** `\b(?:Jan|...|Dec)[a-z]*\s+\d{1,2},?\s+\d{4}\b` at `p`, ignoring case. */
  function MonthDayYearEnd(s: string, p: nat): (e: Option<nat>)
    ensures e.Some? ==> p < e.value <= |s|
  {
    if !BoundaryBefore(s, p) then None
    else match MonthWordEnd(s, p)
      case None => None
      case Some(d) =>
        match ShortDigitsEnd(s, d)
        case None => None
        case Some(a) =>
          match CommaSpacesEnd(s, a)
          case None => None
          case Some(y) => YearEnd(s, y)
  }

  function PatternEnd(pattern: DatePattern, s: string, p: nat): (e: Option<nat>)
    ensures e.Some? ==> p < e.value <= |s|
  {
    match pattern
    case NumericDayFirst => NumericDayFirstEnd(s, p)
    case NumericYearFirst => NumericYearFirstEnd(s, p)
    case DayMonthYear => DayMonthYearEnd(s, p)
    case MonthDayYear => MonthDayYearEnd(s, p)
  }

  /** The pattern's match at `p`; the matched text is the only thing `findall` reports, as the patterns have no groups. */
  function PatternMatchAt(pattern: DatePattern, s: string, p: nat): Option<Match<string>>
  {
    match PatternEnd(pattern, s, p)
    case None => None
    case Some(e) => Some(Match(p, e, s[p..e]))
  }

  /** The pattern's match function, as the scan takes it. */
  function Matcher(pattern: DatePattern, s: string): nat -> Option<Match<string>>
  {
    (p: nat) => PatternMatchAt(pattern, s, p)
  }

  lemma MatcherWellFormed(pattern: DatePattern, s: string)
    ensures WellFormed(Matcher(pattern, s), |s|)
  {
  }

  function MatchedTexts(ms: seq<Match<string>>): (r: seq<string>)
    ensures |r| == |ms| && forall k :: 0 <= k < |ms| ==> r[k] == ms[k].groups
  {
    seq(|ms|, k requires 0 <= k < |ms| => ms[k].groups)
  }

  /** `re.findall(pattern, text, re.IGNORECASE)`. */
  function PatternMatches(pattern: DatePattern, s: string): seq<string>
  {
    MatcherWellFormed(pattern, s);
    MatchedTexts(FindAllFrom(Matcher(pattern, s), |s|, 0))
  }

  /** Each reported date is the text that a match of the pattern covers. */
  lemma PatternMatchesSound(pattern: DatePattern, s: string)
    ensures forall k :: 0 <= k < |PatternMatches(pattern, s)| ==>
      exists p: nat ::
        (p < |s| && PatternEnd(pattern, s, p).Some?
         && PatternMatches(pattern, s)[k] == s[p..PatternEnd(pattern, s, p).value])
  {
    MatcherWellFormed(pattern, s);
    var ms := FindAllFrom(Matcher(pattern, s), |s|, 0);
    FindAllFromSound(Matcher(pattern, s), |s|, 0);
    forall k | 0 <= k < |PatternMatches(pattern, s)|
      ensures exists p: nat ::
        (p < |s| && PatternEnd(pattern, s, p).Some?
         && PatternMatches(pattern, s)[k] == s[p..PatternEnd(pattern, s, p).value])
    {
      var p := ms[k].start;
      assert Matcher(pattern, s)(p) == Some(ms[k]);
      assert PatternMatches(pattern, s)[k] == ms[k].groups;
    }
  }

  /** The matches of the patterns in `patterns`, run one after the other, each pattern's matches in text order. */
  function ScanAll(patterns: seq<DatePattern>, s: string): seq<string>
  {
    if patterns == [] then []
    else ScanAll(patterns[..|patterns| - 1], s) + PatternMatches(patterns[|patterns| - 1], s)
  }

  /** All matches of the first pattern come first, then those of the second, and so on. */
  lemma ScanOrder(s: string)
    ensures ScanAll(DatePatterns, s) ==
      PatternMatches(NumericDayFirst, s) + PatternMatches(NumericYearFirst, s)
      + PatternMatches(DayMonthYear, s) + PatternMatches(MonthDayYear, s)
  {
    var ps := DatePatterns;
    assert ps[..3][..2][..1][..0] == [];
    assert ScanAll(ps[..3][..2][..1], s) == PatternMatches(NumericDayFirst, s);
    assert ScanAll(ps[..3][..2], s) == ScanAll(ps[..3][..2][..1], s) + PatternMatches(NumericYearFirst, s);
    assert ScanAll(ps[..3], s) == ScanAll(ps[..3][..2], s) + PatternMatches(DayMonthYear, s);
    assert ScanAll(ps, s) == ScanAll(ps[..3], s) + PatternMatches(MonthDayYear, s);
  }

  // ---------------------------------------------------------------------
  // extract_dates_from_image
  // ---------------------------------------------------------------------

  /**
   * The dates `extract_dates_from_image` returns, given what OCR recognised
   * in the image: `None` when decoding or recognition raises, otherwise the
   * text fragments in reading order.
   */
  function ExtractedDates(recognized: Option<seq<string>>): seq<string>
  {
    match recognized
    case None => []
    case Some(fragments) => Dedup(ScanAll(DatePatterns, JoinWith(fragments, " ")))
  }

  method ExtractDatesFromImage(recognized: Option<seq<string>>) returns (uniqueDates: seq<string>)
    ensures uniqueDates == ExtractedDates(recognized)
  {
    match recognized
    case None =>
      return [];
    case Some(textLines) =>
      var allText := JoinWith(textLines, " ");
      var extractedDates: seq<string> := [];
      for i := 0 to |DatePatterns|
        invariant extractedDates == ScanAll(DatePatterns[..i], allText)
      {
        assert DatePatterns[..i + 1][..i] == DatePatterns[..i];
        extractedDates := extractedDates + PatternMatches(DatePatterns[i], allText);
      }
      assert DatePatterns[..|DatePatterns|] == DatePatterns;
      uniqueDates := Dedup(extractedDates);
  }

  /**
   * The extracted dates are the raw matches with repeats removed: no
   * duplicates, nothing lost or added, in first-occurrence order.
   */
  lemma ExtractedDatesDeduplicated(fragments: seq<string>)
    ensures var raw := ScanAll(DatePatterns, JoinWith(fragments, " "));
      var r := ExtractedDates(Some(fragments));
      && (forall i, j :: 0 <= i < j < |r| ==> r[i] != r[j])
      && (forall x :: x in r <==> x in raw)
      && (forall i, j :: 0 <= i < j < |r| ==> FirstIndex(raw, r[i]) < FirstIndex(raw, r[j]))
  {
    var raw := ScanAll(DatePatterns, JoinWith(fragments, " "));
    DedupNoDuplicates(raw);
    DedupSameElements(raw);
    DedupFirstOccurrenceOrder(raw);
  }

  /** Whatever the error while reading the image, extraction reports no dates. */
  lemma ExtractionFailureGivesNoDates()
    ensures ExtractedDates(None) == []
  {
  }

  lemma JanIsAMonth(s: string, i: nat)
    requires i + 3 <= |s| && s[i..i + 3] == "Jan"
    ensures MonthAt(s, i)
  {
    assert LowerAsciiString("Jan") == "jan" && MonthAbbreviations[0] == "jan";
  }

  lemma SingleSpaceEnd(s: string, i: nat)
    requires i + 1 < |s| && s[i] == ' ' && (IsDigit(s[i + 1]) || IsAsciiLetter(s[i + 1]))
    ensures SpacesEnd(s, i) == Some(i + 1)
  {
    assert s[i] in PySpaces && s[i + 1] !in PySpaces;
  }

  lemma JanWordEnd(s: string, i: nat)
    requires i + 5 <= |s| && s[i] == 'J' && s[i + 1] == 'a' && s[i + 2] == 'n' && s[i + 3] == ' '
    requires IsDigit(s[i + 4])
    ensures MonthWordEnd(s, i) == Some(i + 4)
  {
    assert s[i..i + 3] == "Jan";
    JanIsAMonth(s, i);
    assert LettersEnd(s, i + 3) == i + 3;
    SingleSpaceEnd(s, i + 3);
  }

  lemma FinalYearEnd(s: string, y: nat)
    requires y + 4 == |s| && AllDigits(s[y..])
    ensures YearEnd(s, y) == Some(|s|)
  {
    assert s[y..y + 4] == s[y..];
  }

  /** `DD Jan YYYY` is one whole match of the day-first pattern. */
  lemma DayMonthYearWhole(s: string)
    requires |s| == 11 && IsDigit(s[0]) && IsDigit(s[1]) && s[2] == ' '
    requires s[3] == 'J' && s[4] == 'a' && s[5] == 'n' && s[6] == ' ' && AllDigits(s[7..])
    ensures DayMonthYearEnd(s, 0) == Some(11)
  {
    assert ShortDigitsEnd(s, 0) == Some(2);
    SingleSpaceEnd(s, 2);
    JanWordEnd(s, 3);
    FinalYearEnd(s, 7);
  }

  /** `Jan DD, YYYY` is one whole match of the month-first pattern. */
  lemma MonthDayYearWhole(s: string)
    requires |s| == 12 && s[0] == 'J' && s[1] == 'a' && s[2] == 'n' && s[3] == ' '
    requires IsDigit(s[4]) && IsDigit(s[5]) && s[6] == ',' && s[7] == ' ' && AllDigits(s[8..])
    ensures MonthDayYearEnd(s, 0) == Some(12)
  {
    JanWordEnd(s, 0);
    assert ShortDigitsEnd(s, 4) == Some(6);
    CommaSpaceEnd(s, 6);
    FinalYearEnd(s, 8);
  }

  lemma DayMonthYearAtStart()
    ensures DayMonthYearEnd("15 Jan 2024", 0) == Some(11)
  {
    DayMonthYearWhole("15 Jan 2024");
  }

  lemma MonthDayYearAtStart()
    ensures MonthDayYearEnd("Jan 15, 2024", 0) == Some(12)
  {
    MonthDayYearWhole("Jan 15, 2024");
  }

  lemma CommaSpaceEnd(s: string, a: nat)
    requires a + 2 < |s| && s[a] == ',' && s[a + 1] == ' ' && IsDigit(s[a + 2])
    ensures CommaSpacesEnd(s, a) == Some(a + 2)
  {
    SingleSpaceEnd(s, a + 1);
  }

  /** A text that is one whole match of a pattern is reported as that one date. */
  lemma WholeTextMatch(pattern: DatePattern, s: string)
    requires PatternEnd(pattern, s, 0) == Some(|s|)
    ensures PatternMatches(pattern, s) == [s]
  {
    MatcherWellFormed(pattern, s);
    assert s[0..|s|] == s;
    assert Matcher(pattern, s)(0) == Some(Match(0, |s|, s));
    assert FindAllFrom(Matcher(pattern, s), |s|, 0) == [Match(0, |s|, s)];
  }

  lemma DayMonthYearExample()
    ensures PatternMatches(DayMonthYear, "15 Jan 2024") == ["15 Jan 2024"]
  {
    DayMonthYearAtStart();
    WholeTextMatch(DayMonthYear, "15 Jan 2024");
  }

  lemma MonthDayYearExample()
    ensures PatternMatches(MonthDayYear, "Jan 15, 2024") == ["Jan 15, 2024"]
  {
    MonthDayYearAtStart();
    WholeTextMatch(MonthDayYear, "Jan 15, 2024");
  }

  /** Dates are compared as strings, never parsed: two spellings of one day are both kept. */
  lemma DistinctSpellingsSurvive()
    ensures Dedup(PatternMatches(DayMonthYear, "15 Jan 2024") + PatternMatches(MonthDayYear, "Jan 15, 2024"))
      == ["15 Jan 2024", "Jan 15, 2024"]
  {
    DayMonthYearExample();
    MonthDayYearExample();
    var xs := ["15 Jan 2024", "Jan 15, 2024"];
    assert xs[..1] == ["15 Jan 2024"];
    assert xs[..1][..0] == [];
    assert Dedup(xs[..1]) == ["15 Jan 2024"];
  }

  // ---------------------------------------------------------------------
  // generate_mock_price_data and calculate_statistics
  // ---------------------------------------------------------------------

  /**
   * What the random draws of one iteration decide: the date
   * `datetime.now() - timedelta(days=randint(30, 1095))` and the price change.
   */
  datatype MockDraw = MockDraw(date: Date, priceChange: real)

  /** One element of the mock price data. */
  datatype MockEntry = MockEntry(date: string, move: real, direction: string)

  const MaxMockEntries := 12

  function Min(a: int, b: int): int { if a <= b then a else b }

  predicate ValidDraws(draws: seq<MockDraw>)
  {
    forall i :: 0 <= i < |draws| ==> ValidDate(draws[i].date) && FourDigitYear(draws[i].date)
  }

  /** The entry one iteration appends: the drawn date in ISO form, the move in percent, its direction. */
  function MockEntryOf(draw: MockDraw): (r: MockEntry)
    requires ValidDate(draw.date) && FourDigitYear(draw.date)
    ensures r.direction == "up" <==> draw.priceChange > 0.0
    ensures r.direction == "up" || r.direction == "down"
  {
    MockEntry(IsoString(draw.date), draw.priceChange * 100.0, if draw.priceChange > 0.0 then "up" else "down")
  }

  /** The entry's date is the drawn date written as `%Y-%m-%d`: parsing it back gives the drawn date. */
  lemma MockEntryDateParses(draw: MockDraw)
    requires ValidDate(draw.date) && FourDigitYear(draw.date)
    ensures ParseIso(MockEntryOf(draw).date) == Some(draw.date)
  {
    IsoRoundTrip(draw.date);
  }

  /** The entries of the first `n` iterations, in append order. */
  function MockEntries(draws: seq<MockDraw>, n: nat): (r: seq<MockEntry>)
    requires n <= |draws| && ValidDraws(draws)
    ensures |r| == n
  {
    if n == 0 then [] else MockEntries(draws, n - 1) + [MockEntryOf(draws[n - 1])]
  }

  /** `sort(key=date, reverse=True)`: newer dates first; equal dates keep their order. */
  predicate NewerFirst(a: MockEntry, b: MockEntry)
  {
    StrLe(b.date, a.date)
  }

  lemma NewerFirstIsTotalPreorder()
    ensures IsTotalPreorder(NewerFirst)
  {
    forall a, b ensures NewerFirst(a, b) || NewerFirst(b, a) {
      StrLtTrichotomy(a.date, b.date);
    }
    forall a, b, c | NewerFirst(a, b) && NewerFirst(b, c) ensures NewerFirst(a, c) {
      if StrLt(c.date, b.date) && StrLt(b.date, a.date) {
        StrLtTransitive(c.date, b.date, a.date);
      }
    }
  }

  /**
   * `generate_mock_price_data`: one entry per date among the first 12, then
   * a stable sort, newest first. The date strings themselves are never read:
   * only how many there are matters.
   */
  method GenerateMockPriceData(earningsDates: seq<string>, draws: seq<MockDraw>) returns (mockData: seq<MockEntry>)
    requires Min(MaxMockEntries, |earningsDates|) <= |draws| && ValidDraws(draws)
    ensures |mockData| == Min(MaxMockEntries, |earningsDates|)
    ensures mockData == SortBy(MockEntries(draws, Min(MaxMockEntries, |earningsDates|)), NewerFirst)
  {
    var recent := earningsDates[..Min(MaxMockEntries, |earningsDates|)];
    mockData := [];
    for i := 0 to |recent|
      invariant mockData == MockEntries(draws, i)
    {
      mockData := mockData + [MockEntryOf(draws[i])];
    }
    mockData := SortBy(mockData, NewerFirst);
  }

  /** The mock data holds exactly the generated entries, newest first, equal dates in generation order. */
  lemma MockDataOrdered(draws: seq<MockDraw>, n: nat)
    requires n <= |draws| && ValidDraws(draws)
    ensures multiset(SortBy(MockEntries(draws, n), NewerFirst)) == multiset(MockEntries(draws, n))
    ensures SortedBy(SortBy(MockEntries(draws, n), NewerFirst), NewerFirst)
    ensures forall k ::
      (EquivalentTo(SortBy(MockEntries(draws, n), NewerFirst), NewerFirst, k)
       == EquivalentTo(MockEntries(draws, n), NewerFirst, k))
  {
    NewerFirstIsTotalPreorder();
    SortByPermutation(MockEntries(draws, n), NewerFirst);
    SortBySorted(MockEntries(draws, n), NewerFirst);
    forall k ensures EquivalentTo(SortBy(MockEntries(draws, n), NewerFirst), NewerFirst, k)
      == EquivalentTo(MockEntries(draws, n), NewerFirst, k)
    {
      SortByStable(MockEntries(draws, n), NewerFirst, k);
    }
  }

  /** The part of the statistics the model keeps: an empty dict, or the number of entries summarised. */
  datatype Statistics = EmptyStatistics | Summary(totalEarnings: nat)

  /** `calculate_statistics`: `{}` for no data, otherwise a summary over all entries. */
  function CalculateStatistics(priceData: seq<MockEntry>): (r: Statistics)
    ensures r == EmptyStatistics <==> priceData == []
    ensures r.Summary? ==> r.totalEarnings == |priceData|
  {
    if priceData == [] then EmptyStatistics else Summary(|priceData|)
  }

  // ---------------------------------------------------------------------
  // analyze_earnings
  // ---------------------------------------------------------------------

  const FallbackDates: seq<string> := [
    "2024-01-15", "2024-04-18", "2024-07-22", "2024-10-25",
    "2023-10-20", "2023-07-18", "2023-04-15", "2023-01-12",
    "2022-10-18", "2022-07-15", "2022-04-12", "2022-01-14"
  ]

  /** The dates the analysis goes on with: the extracted ones, or the fallback list when there are none. */
  function DatesOrFallback(extracted: seq<string>): (r: seq<string>)
    ensures r != []
    ensures extracted != [] ==> r == extracted
    ensures extracted == [] ==> r == FallbackDates && |r| == 12
  {
    if extracted == [] then FallbackDates else extracted
  }

  const MaxReportedDates := 10
  const SuccessMessage := "Analysis completed successfully"
  const NotAnImage := "File must be an image"

  datatype AnalysisResponse =
    | HttpError(status: nat, detail: string)
    | Analysis(statistics: Statistics, data: seq<MockEntry>, ticker: string,
               extractedDates: seq<string>, message: string)

  /** The response for an upload that passed the content-type check. */
  predicate IsAnalysisOf(response: AnalysisResponse, recognized: Option<seq<string>>, ticker: string,
                         draws: seq<MockDraw>)
    requires MaxMockEntries <= |draws| && ValidDraws(draws)
  {
    var dates := DatesOrFallback(ExtractedDates(recognized));
    var data := SortBy(MockEntries(draws, Min(MaxMockEntries, |dates|)), NewerFirst);
    response == Analysis(CalculateStatistics(data), data, UpperAsciiString(ticker),
                         dates[..Min(MaxReportedDates, |dates|)], SuccessMessage)
  }

  /** The body of `analyze_earnings` after the content-type check. */
  method AnalyzeImage(recognized: Option<seq<string>>, ticker: string, draws: seq<MockDraw>)
    returns (response: AnalysisResponse)
    requires MaxMockEntries <= |draws| && ValidDraws(draws)
    ensures IsAnalysisOf(response, recognized, ticker, draws) && response.Analysis?
  {
    var extractedDates := ExtractDatesFromImage(recognized);
    if extractedDates == [] {
      extractedDates := FallbackDates;
    }
    var priceData := GenerateMockPriceData(extractedDates, draws);
    var statistics := CalculateStatistics(priceData);
    response := Analysis(statistics, priceData, UpperAsciiString(ticker),
                         extractedDates[..Min(MaxReportedDates, |extractedDates|)], SuccessMessage);
  }

  /**
   * What every successful analysis reports: there is always at least one
   * date (the fallback list covers an empty extraction), so the statistics
   * are never empty and summarise between 1 and 12 entries; at most the
   * first 10 dates are echoed; the data is sorted newest first.
   */
  lemma AnalysisShape(response: AnalysisResponse, recognized: Option<seq<string>>, ticker: string,
                      draws: seq<MockDraw>)
    requires MaxMockEntries <= |draws| && ValidDraws(draws)
    requires IsAnalysisOf(response, recognized, ticker, draws)
    ensures response.Analysis?
    ensures response.statistics.Summary? && response.statistics.totalEarnings == |response.data|
    ensures 1 <= |response.data| <= MaxMockEntries
    ensures SortedBy(response.data, NewerFirst)
    ensures var dates := DatesOrFallback(ExtractedDates(recognized));
      1 <= |response.extractedDates| <= MaxReportedDates
      && response.extractedDates == dates[..|response.extractedDates|]
    ensures ExtractedDates(recognized) == [] ==> response.extractedDates == FallbackDates[..MaxReportedDates]
  {
    var dates := DatesOrFallback(ExtractedDates(recognized));
    MockDataOrdered(draws, Min(MaxMockEntries, |dates|));
  }

  /**
   * `analyze_earnings` as intended: an upload whose content type is not
   * `image/...` is refused with status 400, anything else is analysed.
   */
  method AnalyzeEarnings(contentType: string, recognized: Option<seq<string>>, ticker: string,
                         draws: seq<MockDraw>) returns (response: AnalysisResponse)
    requires MaxMockEntries <= |draws| && ValidDraws(draws)
    ensures !StartsWith(contentType, "image/") <==> response == HttpError(400, NotAnImage)
    ensures StartsWith(contentType, "image/") ==> IsAnalysisOf(response, recognized, ticker, draws)
  {
    if !StartsWith(contentType, "image/") {
      return HttpError(400, NotAnImage);
    }
    response := AnalyzeImage(recognized, ticker, draws);
  }

  /**
   * `analyze_earnings` as written: the 400 for a non-image is raised inside
   * the `try` whose `except Exception` turns every error into a 500, so the
   * client sees status 500 with the 400 folded into the message.
   */
  method AnalyzeEarningsAsWritten(contentType: string, recognized: Option<seq<string>>, ticker: string,
                                  draws: seq<MockDraw>) returns (response: AnalysisResponse)
    requires MaxMockEntries <= |draws| && ValidDraws(draws)
    ensures !StartsWith(contentType, "image/") <==>
      response == HttpError(500, "Analysis failed: 400: " + NotAnImage)
    ensures StartsWith(contentType, "image/") ==> IsAnalysisOf(response, recognized, ticker, draws)
    ensures response.HttpError? ==> response.status != 400
  {
    if !StartsWith(contentType, "image/") {
      var raised := HttpError(400, NotAnImage);
      StatusText400();
      return HttpError(500, "Analysis failed: " + IntToString(raised.status) + ": " + raised.detail);
    }
    response := AnalyzeImage(recognized, ticker, draws);
  }

  lemma StatusText400()
    ensures IntToString(400) == "400"
  {
  }
}
