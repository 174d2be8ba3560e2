# NSE earnings dashboard: date extraction and adjustment, in Dafny

This project models how the NSE earnings dashboard turns recognised text from earnings-calendar images into announcement dates. It also models what the dashboard does with those dates next. Each core file of the repository has its own module:

- `ReactionCalculator` (`calculator.dfy`) — the helpers in `earnings_reaction_calculator.py`:
  - the `DD Mon YYYY HH:MM` regex extractor;
  - the Saturday-to-Monday shift;
  - the "after 15:15 means the next day" shift, which skips Saturday-shifted dates;
  - the sort-then-adjust prefix of `price_changes_for_dates`.
- `AnalyzeApi` (`app_api.dfy`) — the API server in `app.py`:
  - the extractor that collects date lines and time lines and zips them by position;
  - the `/analyze` aggregation, sort and empty check;
  - `total_input_dates`.
- `Backend` (`backend.dfy`) — the FastAPI back end in `backend/main.py`:
  - the four date regexes run in order over the space-joined OCR fragments;
  - the first-occurrence dedup;
  - the fallback date list;
  - the structure of the mock price data (at most 12 entries, newest first) and of the statistics;
  - the `/analyze` response, with its 10-date truncation and its content-type check.
- `OcrComponent` (`ocr_component.dfy`) — the browser extractor in `src/components/OCRComponent.tsx`. Each date line gets the time line at the same position, or `''`.
- `HistogramChart` (`histogram_chart.dfy`) — the binning in `src/components/HistogramChart.tsx`: 14 half-open unit bins on [-7, 7), `maxFreq` and `yTicks`.
- `UploadBoxComponent` (`upload_box.dfy`) — the upload rules of `src/components/UploadBox.tsx`. It is a class whose fields are the component's state: `dragOver`, `error`, `isFocused`, and the files handed to `onFileUpload`.

Shared modules:

- `Calendar` (`calendar.dfy`) — proleptic Gregorian dates with a day number (Python's `toordinal`) and a weekday (Monday = 0). It also has ISO formatting and parsing with a round trip, and the `strptime` formats `%d %b %Y` and `%H:%M`.
- `Tokens` (`tokens.dfy`) — the `\d{1,2} [A-Za-z]{3} \d{4}` and `\d{2}:\d{2}` tokens shared by three extractors.
- `Scanning` (`scanning.dfy`) — a generic leftmost, non-overlapping `findall`.
- `Sorting` (`sorting.dfy`) — a stable insertion sort by a total preorder, used for Python's `sorted` and `list.sort`.
- `Lists` (`lists.dfy`) — filter, zip, the convert-or-skip loop and `list(dict.fromkeys(...))`.
- `Text` (`text.dfy`) — Python and JavaScript whitespace, strip/trim, splitting and joining, and digit strings.
- `Common` (`common.dfy`) — `Option` and `Result`.

Inputs that come from I/O become parameters:

- The OCR output is a parameter: one string per image for `app.py` and the OCR component, and `Option<seq<string>>` for the back end, where `None` stands for any exception while decoding or recognising.
- The random draws of the mock price data are parameters: each draw is a date and a price change (`MockDraw`).
- The browser's file and clipboard objects are plain records.

Where the repository's design description and its code disagree, the model follows the code:

- **Cutoff at 15:15.** The description says 15:15 counts as after close (`>=`). The code compares with a strict `>` (`earnings_reaction_calculator.py:56`), so `15:15` is not shifted (`ReactionCalculator.AfterCutoffExamples`).
- **Missing or unparseable time.** The description says these count as after close. The code leaves the date unchanged and records nothing (`ReactionCalculator.AdjustDatesForTime`).
- **Dedup and sort.** The description dedups on a composite `date|time` key and keeps input order. In the code:
  - `app.py` sorts the pairs and does not dedup;
  - `backend/main.py` dedups the raw matched strings;
  - the TypeScript extractor does neither.
- **Pairing.** The description pairs a date with the times on its own line. `app.py` and `OCRComponent.tsx` pair the i-th date line with the i-th time line.
- **Date formats.** The description parses four formats into ISO dates, with a `sept` abbreviation and AM/PM times. In the code:
  - the back end reports the matched text verbatim and never parses it;
  - its pattern order starts with the numeric formats;
  - the other extractors accept only `D Mon YYYY` with a three-letter month.
- **Not in the code.** Image downscaling, AM/PM conversion and the run/cancel orchestrator do not appear in these files and are not modelled.

## Model

| member | source | states |
|---|---|---|
| Tokens.DateTokenAt | earnings_reaction_calculator.py:12 | a `\d{1,2} [A-Za-z]{3} \d{4}` token at `i` ends 10 or 11 characters later, inside the text |
| Tokens.TokenDate | earnings_reaction_calculator.py:17 | the date a token names, when it exists, is a valid date with a four-digit year |
| Tokens.StrptimeOfDateToken | app.py:43 | `strptime(line, "%d %b %Y")` on a line that starts with a date token succeeds exactly when the token is the whole line and names a real date |
| Tokens.HasDateTokenFrom | src/components/OCRComponent.tsx:104 | the unanchored date test holds iff a date token starts at some position of the line |
| Tokens.HasTimeTokenFrom | src/components/OCRComponent.tsx:105 | the unanchored time test holds iff a `\d{2}:\d{2}` token starts at some position of the line |
| Calendar.DaysInMonth | earnings_reaction_calculator.py:17 | months have 28 to 31 days, and 29 exactly for February of a leap year |
| Calendar.NextDay | earnings_reaction_calculator.py:57 | `date + timedelta(days=1)` is a valid date whose day number is one more |
| Calendar.AddDays | earnings_reaction_calculator.py:32 | `date + timedelta(days=n)` is a valid date whose day number is n more |
| Calendar.WeekdayNextDay | earnings_reaction_calculator.py:31 | `weekday()` advances by one, modulo 7, from one day to the next |
| Calendar.DayNumberOrder | earnings_reaction_calculator.py:68 | comparing `pd.to_datetime` values is comparing (year, month, day) fields, and equal day numbers mean equal dates |
| Calendar.IsoRoundTrip | earnings_reaction_calculator.py:18 | a date written with `%Y-%m-%d` parses back to the same date |
| Calendar.ParseIsoRoundTrip | earnings_reaction_calculator.py:29-30 | a string that parses as an ISO date is rewritten by `strftime('%Y-%m-%d')` to itself |
| Calendar.IsoStringOrder | app.py:64 | on ISO date strings, string order is chronological order |
| Calendar.MonthOfAbbreviation | earnings_reaction_calculator.py:17 | `%b` accepts a three-letter month name in any letter case, and gives its month number 1..12 |
| Calendar.StrptimeDayMonYear | earnings_reaction_calculator.py:17 | a successful `%d %b %Y` parse is a valid date with a four-digit year |
| Calendar.StrptimeHourMinute | earnings_reaction_calculator.py:54 | a successful `%H:%M` parse has hour 0..23 and minute 0..59 |
| Calendar.StrptimeHourMinuteLength | earnings_reaction_calculator.py:54 | `%H:%M` only accepts strings of 3 to 5 characters |
| Calendar.StrptimeHourMinuteOfFiveChars | earnings_reaction_calculator.py:54 | a two-digit `HH:MM` parses iff HH <= 23 and MM <= 59, and gives those numbers |
| Scanning.FindAllFromSound | earnings_reaction_calculator.py:13 | every match `findall` reports is a match of the pattern at its start, within the text |
| Scanning.FindAllFromOrdered | earnings_reaction_calculator.py:13 | `findall` matches are in text order and do not overlap |
| Scanning.FindAllFromLeftmost | backend/main.py:57 | every position where the pattern matches is inside or before a reported match, so no match is skipped |
| Sorting.SortByPermutation | earnings_reaction_calculator.py:68 | sorting keeps exactly the same elements (same multiset) |
| Sorting.SortBySorted | earnings_reaction_calculator.py:68 | the sorted list is ordered by the key |
| Sorting.SortByStable | earnings_reaction_calculator.py:68 | elements with equal keys keep their relative order (Python's sort is stable) |
| Sorting.SortBySortedIsIdentity | earnings_reaction_calculator.py:41 | sorting an already-sorted list changes nothing |
| Lists.FilterMapCount | earnings_reaction_calculator.py:15-21 | the convert-or-skip loop gives one result per element that converts, never more than there are elements, each the conversion of an element |
| Lists.FilterMapAllSome | earnings_reaction_calculator.py:15-21 | when every element converts, nothing is skipped and results are position by position |
| Lists.FilterMapConcat | app.py:56-62 | converting a concatenation gives the first part's results followed by the second's |
| Lists.Filter | app.py:35-39 | kept lines are lines of the input that satisfy the test, never more than the input |
| Lists.FilterKeeps | app.py:35-39 | no line that satisfies the test is dropped |
| Lists.Zip | app.py:41 | `zip` has the shorter list's length and pairs equal positions |
| Lists.DedupSameElements | backend/main.py:61 | `dict.fromkeys` dedup loses and adds nothing |
| Lists.DedupNoDuplicates | backend/main.py:61 | no element appears twice after dedup |
| Lists.DedupFirstOccurrenceOrder | backend/main.py:61 | dedup keeps first-occurrence order |
| ReactionCalculator.MatchAtIsPattern | earnings_reaction_calculator.py:12 | a match starts at `i` iff a date token, one or more whitespace characters and an `HH:MM` token follow there |
| ReactionCalculator.MatchAtWellFormed | earnings_reaction_calculator.py:12-13 | each match of the pattern is non-empty, starts where asked and ends inside the text |
| ReactionCalculator.FoundIsMatch | earnings_reaction_calculator.py:13 | each match `findall` reports is the pattern's match at its own start |
| ReactionCalculator.FindAllGroups | earnings_reaction_calculator.py:12-15 | each match's first group is a whole date token and its second a five-character `HH:MM` |
| ReactionCalculator.ConvertMatch | earnings_reaction_calculator.py:17-19 | a converted match is an ISO date that parses, with the time group verbatim |
| ReactionCalculator.ExtractDatesTimes | earnings_reaction_calculator.py:10-22 | the loop appends the conversions of the `findall` matches in order and skips the matches whose date fails to parse |
| ReactionCalculator.ExtractedOnePerParsingMatch | earnings_reaction_calculator.py:15-21 | one pair per match whose date parses: at most as many pairs as matches, each from a match |
| ReactionCalculator.ExtractedMatchParses | earnings_reaction_calculator.py:16-21 | a match is dropped exactly when its date does not exist ("31 Feb 2025", unknown month); a kept one carries that date |
| ReactionCalculator.ExtractedPairsShape | earnings_reaction_calculator.py:12-19 | every pair is an ISO date and a two-digit `HH:MM` time |
| ReactionCalculator.FindAllExample | earnings_reaction_calculator.py:11-13 | "18 Jul 2025 19:33" holds one match, covering it whole, with groups "18 Jul 2025" and "19:33" |
| ReactionCalculator.ExtractExample | earnings_reaction_calculator.py:11-19 | "18 Jul 2025 19:33" gives the single pair ("2025-07-18", "19:33") |
| ReactionCalculator.ExtractDatesTimesAsShipped | earnings_reaction_calculator.py:4-13 | as shipped, every call fails with `NameError` for `re` |
| ReactionCalculator.AsShippedLosesExample | earnings_reaction_calculator.py:4-13 | on an input where the intended extractor finds a pair, the shipped one fails |
| ReactionCalculator.SaturdayShift | earnings_reaction_calculator.py:31-32 | a Saturday moves two days on, to a Monday; any other date (Sunday too) is unchanged; the result is never a Saturday |
| ReactionCalculator.AdjustDatesForSaturday | earnings_reaction_calculator.py:25-35 | keeps length and order, shifts each date as above, and returns the notes map |
| ReactionCalculator.SaturdayShiftsAt | earnings_reaction_calculator.py:28-34 | entry i of the adjusted dates is the Saturday shift of date i |
| ReactionCalculator.SaturdayAdjustmentsStep | earnings_reaction_calculator.py:31-33 | one more date adds a note, keyed by its own ISO string and valued with its Monday, exactly when it is a Saturday, over any earlier note for that key |
| Lists.KeyedNotesKeys | earnings_reaction_calculator.py:31-33 | a key is in the notes map iff it is one of the inputs that meets the test, and its value is that input's note |
| ReactionCalculator.SaturdayAdjustmentsAreMondays | earnings_reaction_calculator.py:31-33 | the notes hold exactly the Saturday inputs, each mapped to the ISO string of its Monday |
| ReactionCalculator.ThresholdParses | earnings_reaction_calculator.py:55 | the threshold "15:15" parses to 15:15 |
| ReactionCalculator.AfterCutoffOfHHMM | earnings_reaction_calculator.py:54-56 | a valid `HH:MM` time shifts iff it is strictly later than 15:15; an out-of-range one never does |
| ReactionCalculator.AfterCutoffExamples | earnings_reaction_calculator.py:52-60 | "15:15" does not shift, "15:16" does, "25:00" and "" do not |
| ReactionCalculator.TimeAdjustmentsRecorded | earnings_reaction_calculator.py:48-58 | a key is noted iff some entry with that original date was shifted by its time; its value is that entry's next day; a Saturday-noted date is never a key |
| ReactionCalculator.AdjustDatesForTime | earnings_reaction_calculator.py:38-63 | keeps length; entry i moves one day on iff its original date is not Saturday-noted and its time is after the cutoff; returns the notes map |
| ReactionCalculator.AdjustEntryForTime | earnings_reaction_calculator.py:47-62 | one entry moves one day on iff its original date is not Saturday-noted and its time parses and is after 15:15; an unparsable time leaves it as it is |
| ReactionCalculator.TimeShiftedDatesAt | earnings_reaction_calculator.py:43-62 | entry i of the produced dates is date i moved, or not, by its own time |
| ReactionCalculator.FinalDateOffset | earnings_reaction_calculator.py:73-77 | after both shifts a Saturday is 2 days later, a late non-Saturday is 1 day later, and anything else is unchanged |
| ReactionCalculator.FridayAfterCutoffEndsOnSaturday | earnings_reaction_calculator.py:73-77 | a Friday announced after 15:15 ends on the Saturday and is not moved again |
| ReactionCalculator.PrepareDates | earnings_reaction_calculator.py:66-77 | pairs are stably sorted by date, split into dates and times; each adjusted date is the Saturday shift of its date, the notes are the Saturday and time notes built from them, and each final date is the Saturday shift followed by the time shift |
| ReactionCalculator.SortedPairsParse | earnings_reaction_calculator.py:68 | after the sort every date still parses and the pairs are in date order |
| ReactionCalculator.EntryFinalDate | earnings_reaction_calculator.py:43-62 | the date one entry ends with is the composed shift of its original date and time |
| ReactionCalculator.DatesAlreadySorted | earnings_reaction_calculator.py:41 | the dates taken from the date-sorted pairs are in string order, so `sorted(dates)` is `dates` and each entry is checked against its own original |
| AnalyzeApi.StripLine | app.py:30 | a kept line is non-empty and has no whitespace at either end |
| AnalyzeApi.StrippedLinesAreTrimmed | app.py:30 | only trimmed, non-empty lines are considered |
| AnalyzeApi.ConvertLinePair | app.py:41-47 | a converted pair has an ISO date that parses and the time line verbatim |
| AnalyzeApi.ExtractDatesTimesFromText | app.py:29-48 | the two loops give the zip of the date lines and time lines, keeping the pairs whose date line parses |
| AnalyzeApi.PairsByPosition | app.py:40-41 | every pair comes from date line j and time line j at the same position j, so pairs <= min(#dates, #times) |
| AnalyzeApi.ZippedPairsByPosition | app.py:40-47 | the same for any two lists zipped and converted |
| AnalyzeApi.DateLineWithTrailingTextDropped | app.py:36-47 | a date line with text after the date is a date line but its pair is dropped |
| AnalyzeApi.NoRealignExample | app.py:40-47 | with date lines "31 Feb 2025", "10 Mar 2025" and times "09:30", "16:00" the output is the one pair ("2025-03-10", "16:00"): pairs do not re-align |
| AnalyzeApi.FebruaryThirtyFirstFails | app.py:43 | "31 Feb 2025" fails `strptime` |
| AnalyzeApi.MarchTenthParses | app.py:43-44 | "10 Mar 2025" parses and is written "2025-03-10" |
| AnalyzeApi.PairLeIsTotalPreorder | app.py:64 | tuple order on (date, time) is total and transitive, so the sort is well defined |
| AnalyzeApi.CollectPairs | app.py:55-62 | the loop over the images appends each image's pairs in upload order |
| AnalyzeApi.Analyze | app.py:55-92 | per-image pairs concatenated in upload order and sorted; empty gives 400 with the fixed message and no further work; otherwise the prepared dates of the sorted pairs, with `total_input_dates` the number of aggregated pairs |
| AnalyzeApi.ExtractedPairsParse | app.py:41-45 | every extracted pair's date parses as ISO |
| AnalyzeApi.AllPairsParse | app.py:56-62 | every aggregated pair's date parses as ISO |
| AnalyzeApi.AnalyzedPairsByDate | app.py:64 | the tuple-sorted pairs are already in date order, so the calculator's re-sort keeps them as they are |
| AnalyzeApi.PairLeByDate | app.py:64 | for pairs whose dates parse, tuple order implies order by date |
| AnalyzeApi.SuffixedTimeNeverShifts | earnings_reaction_calculator.py:52-60 | a verbatim time line longer than five characters (e.g. "15:30 IST") never parses as `%H:%M`, so it never shifts its date |
| AnalyzeApi.LateTimeWithZoneStays | app.py:38-45 | "15:30 IST" does not shift while "15:30" does |
| Backend.ShortDigitsEnd | backend/main.py:49 | `\d{1,2}` takes one or two digits, greedily |
| Backend.YearDigitsEnd | backend/main.py:49 | `\d{4}` takes exactly four digits |
| Backend.LettersEnd | backend/main.py:51 | `[a-z]*` (case-insensitive) takes the longest run of letters |
| Backend.MatcherWellFormed | backend/main.py:48-57 | each pattern's match at a position is non-empty and inside the text |
| Backend.PatternMatchesSound | backend/main.py:57 | each reported date is the exact text covered by a match of its pattern |
| Backend.ScanOrder | backend/main.py:48-58 | all matches of pattern 1 come first, then pattern 2, 3 and 4 |
| Backend.ExtractDatesFromImage | backend/main.py:32-68 | fragments joined with single spaces, the patterns scanned in order, the matches deduplicated; `[]` on any error |
| Backend.ExtractedDatesDeduplicated | backend/main.py:61 | no duplicates, same elements as the raw matches, first-occurrence order |
| Backend.ExtractionFailureGivesNoDates | backend/main.py:66-68 | an exception during extraction gives `[]` |
| Backend.DayMonthYearWhole | backend/main.py:51 | any `DD Jan YYYY` text is one whole match of the day-first pattern |
| Backend.MonthDayYearWhole | backend/main.py:52 | any `Jan DD, YYYY` text is one whole match of the month-first pattern |
| Backend.DayMonthYearExample | backend/main.py:51 | "15 Jan 2024" is found as "15 Jan 2024" |
| Backend.MonthDayYearExample | backend/main.py:52 | "Jan 15, 2024" is found as "Jan 15, 2024" |
| Backend.DistinctSpellingsSurvive | backend/main.py:56-61 | dedup is by exact string, so "15 Jan 2024" and "Jan 15, 2024" both survive |
| Backend.MockEntryOf | backend/main.py:88-92 | the entry's direction is "up" iff the change is positive, "down" otherwise |
| Backend.MockEntryDateParses | backend/main.py:88-89 | the entry's date is the drawn date written `%Y-%m-%d`: it parses back to the drawn date |
| Backend.NewerFirstIsTotalPreorder | backend/main.py:99 | descending order of date strings is a total preorder |
| Backend.GenerateMockPriceData | backend/main.py:70-100 | min(12, #dates) entries, one per iteration, then stably sorted newest first |
| Backend.MockDataOrdered | backend/main.py:99 | the sorted data is a permutation of the entries, newest first, equal dates in generation order |
| Backend.CalculateStatistics | backend/main.py:102-128 | `{}` iff there is no data; otherwise `totalEarnings` is the number of entries |
| Backend.DatesOrFallback | backend/main.py:156-163 | no dates extracted gives the 12 fixed fallback dates, otherwise the extracted ones |
| Backend.AnalyzeImage | backend/main.py:149-181 | the response holds the statistics, the data, the upper-cased ticker, the first 10 dates and the success message |
| Backend.AnalysisShape | backend/main.py:156-178 | a successful analysis summarises 1 to 12 entries, sorted newest first, and echoes 1 to 10 leading dates (the fallback ones when none were found) |
| Backend.AnalyzeEarnings | backend/main.py:144-147 | a content type not starting with `image/` gives status 400 "File must be an image", anything else is analysed |
| Backend.AnalyzeEarningsAsWritten | backend/main.py:144-185 | as written, a non-image upload gives status 500 "Analysis failed: 400: File must be an image", never 400 |
| OcrComponent.TrimLine | src/components/OCRComponent.tsx:103 | a kept line is non-empty with no JavaScript whitespace at either end |
| OcrComponent.TrimmedLinesAreTrimmed | src/components/OCRComponent.tsx:103 | every considered line is the trim of a piece of the text cut at `'\n'` |
| OcrComponent.ClassifyLines | src/components/OCRComponent.tsx:107-113 | the `forEach` puts the lines with a date token in `dates` and the other lines with a time token in `times`, in order |
| OcrComponent.ExtractDatesTimesFromText | src/components/OCRComponent.tsx:102-119 | one entry per date line, in order; entry i has the i-th time line or `''`; surplus time lines are ignored |
| OcrComponent.ExtractedFieldsAreLines | src/components/OCRComponent.tsx:110-118 | dates and times are trimmed lines verbatim; a date has a date token somewhere; a non-empty time has a time token and no date token |
| OcrComponent.DateTestWins | src/components/OCRComponent.tsx:110-113 | a line with both tokens is a date line and never a time line |
| OcrComponent.UnanchoredDateLine | src/components/OCRComponent.tsx:104 | "On 18 Jul 2025" is a date line: the test is unanchored |
| HistogramChart.ValidMovesAreTheNonNull | src/components/HistogramChart.tsx:34-36 | valid moves are the non-null moves of the rows, no more than there are rows |
| HistogramChart.CountIn | src/components/HistogramChart.tsx:44 | a bin never counts more moves than there are |
| HistogramChart.BuildBins | src/components/HistogramChart.tsx:39-51 | 14 bins from -7 to 7 with consecutive unit-width edges, each counting the moves in [start, end) and labelled "start to end" |
| HistogramChart.CountSplit | src/components/HistogramChart.tsx:44 | counting over two adjacent half-open ranges equals counting over their union |
| HistogramChart.SumOfFrequencies | src/components/HistogramChart.tsx:41-51 | the frequencies add up to the number of moves in [-7, 7), at most the number of moves |
| HistogramChart.ExactlyOneBin | src/components/HistogramChart.tsx:44 | a move in [-7, 7) is in exactly one bin, the one starting at its floor; any other move is in none |
| HistogramChart.MaxFrequency | src/components/HistogramChart.tsx:56 | `maxFreq` is at least every frequency and equal to one of them |
| HistogramChart.YTicks | src/components/HistogramChart.tsx:57 | the ticks are 0, 1, ..., maxFreq + 1 |
| HistogramChart.TicksCoverBins | src/components/HistogramChart.tsx:56-57 | the top tick is one above the tallest bin and every frequency has a tick |
| UploadBoxComponent.ValidationError | src/components/UploadBox.tsx:22-36 | no error iff the type is one of the three allowed and size <= 10 MiB; a wrong type reports the type error, else an oversize the size error |
| UploadBoxComponent.SubtypeOfImageType | src/components/UploadBox.tsx:26 | `t.split('/')[1]` of `image/x` is `x` |
| UploadBoxComponent.TypeErrorMessageText | src/components/UploadBox.tsx:26 | the type error reads "Invalid file type. Please upload jpeg, png, webp images only." |
| UploadBoxComponent.SizeLimitInclusive | src/components/UploadBox.tsx:14-33 | exactly 10485760 bytes is accepted, one byte more is refused with the size error |
| UploadBoxComponent.TypeCheckedFirst | src/components/UploadBox.tsx:25-33 | a wrong-type, oversized file reports the type error |
| UploadBoxComponent.OnlyThreeTypes | src/components/UploadBox.tsx:13 | only image/jpeg, image/png and image/webp pass; image/gif does not |
| UploadBoxComponent.FirstAllowedItem | src/components/UploadBox.tsx:83-84 | the index found is the first item with an allowed type; none means no item has one |
| UploadBoxComponent.FirstAllowedIsUnique | src/components/UploadBox.tsx:83-84 | an allowed item with no allowed item before it is the one found |
| UploadBoxComponent.PasteNeedsFocus | src/components/UploadBox.tsx:79 | paste does nothing unless the box is focused |
| UploadBoxComponent.PasteStopsAtFirstAllowed | src/components/UploadBox.tsx:83-94 | an allowed item without a file still stops the search |
| UploadBoxComponent.PasteSkipsOtherTypes | src/components/UploadBox.tsx:83-87 | items of other types are passed over |
| UploadBoxComponent.Selected | src/components/UploadBox.tsx:38-40 | the file goes to `onFileUpload` iff it validates |
| UploadBoxComponent.UploadBox.constructor | src/components/UploadBox.tsx:17-19 | not dragging, no error, not focused, nothing uploaded |
| UploadBoxComponent.UploadBox.ValidateFile | src/components/UploadBox.tsx:22-36 | clears and then sets the error to the validation result, returns whether it passed, touches nothing else |
| UploadBoxComponent.UploadBox.HandleFileSelect | src/components/UploadBox.tsx:38-46 | validates, and uploads the file iff it passes |
| UploadBoxComponent.UploadBox.HandleFileUpload | src/components/UploadBox.tsx:48-53 | only the first selected file is handled; no file changes nothing |
| UploadBoxComponent.UploadBox.HandleDrop | src/components/UploadBox.tsx:55-63 | clears the drag highlight and handles only the first dropped file |
| UploadBoxComponent.UploadBox.HandleDragOver | src/components/UploadBox.tsx:65-68 | sets the drag highlight, nothing else |
| UploadBoxComponent.UploadBox.HandleDragLeave | src/components/UploadBox.tsx:70-76 | clears the highlight only when the pointer leaves the box |
| UploadBoxComponent.UploadBox.HandlePaste | src/components/UploadBox.tsx:78-97 | when focused, the first clipboard item with an allowed type is selected if it has a file; the loop stops there either way |
| UploadBoxComponent.UploadBox.Focus | src/components/UploadBox.tsx:126 | sets focus, nothing else |
| UploadBoxComponent.UploadBox.Blur | src/components/UploadBox.tsx:127 | clears focus, nothing else |

## Left out

- OCR engines and image decoding (easyocr, pytesseract, tesseract.js, `cv2.imdecode`, PIL) are foreign calls. Their output is a model input, and any decoding or recognition exception in the back end is the `None` input. In `app.py`, `analyze` has no handler around `cv2.imdecode` and `pytesseract.image_to_string` (`app.py:57-60`), so an image that does not decode ends the request with an unhandled error; `AnalyzeApi.Analyze` takes one recognised text per image and does not model that path.
- The price lookup in `price_changes_for_dates` (`earnings_reaction_calculator.py:80-162`) is left out. It downloads prices with `yfinance`, works on pandas frames and prints its results.
- Floating-point statistics are left out: means, standard deviations, win rate, rounding and `np.histogram` in `backend/main.py:107-136` and `app.py:84-96`. `Backend.Statistics` keeps only the empty case and `totalEarnings`.
- Backend.MockEntryOf: the move is `price_change * 100` without `round(..., 2)`, because float rounding is not modelled. The random draws (`np.random`, seeded from `hash(ticker)`, and `datetime.now()`) are parameters. Their ranges (30 to 1095 days back, normal noise) are not constrained.
- Backend.AnalyzeEarnings: the content type is a string. A missing content type (`None`), on which `startswith` would raise, is not modelled.
- Backend.AnalyzeImage: `str.upper` is modelled on ASCII letters only. Non-ASCII case mapping is left out.
- Backend.GenerateMockPriceData: a draw's date must have a four-digit year. `strftime("%Y")` for years below 1000 is not modelled.
- Unicode matching is left out:
  - `\d` matches ASCII digits only;
  - `\w` (for `\b`) and IGNORECASE use ASCII letters, digits and `_`;
  - Python's Unicode digits, letters and case folding (e.g. `ſ`, the Kelvin sign) are not modelled.
- `pd.to_datetime` accepts many string formats and has Timestamp bounds (years 1677 to 2262). ReactionCalculator.PrepareDates and ReactionCalculator.AdjustDatesForSaturday require ISO dates as the extractors produce them. The bounds are not modelled.
- The `print` of an unparseable time (`earnings_reaction_calculator.py:60`), logging, toasts, the drag-over styling and all rendering are left out.
- HistogramChart: `NaN` moves are not modelled, because moves are real numbers. `xTicks` is the edge list and is not modelled separately.
- UploadBoxComponent.UploadBox.HandleDragLeave: the DOM containment test `currentTarget.contains(relatedTarget)` is the boolean parameter `leavesBox`.
- UploadBoxComponent: the keyboard and click handlers only open the file dialog and are left out. `onFileUpload` is recorded as the `uploads` field.
- The code in triple-quoted strings (`earnings_reaction_calculator.py:165-277`, `app.py:102-215`) and the commented-out copy at the top of `OCRComponent.tsx` are dead code and are not modelled.
- The other components (Dashboard, ChartDisplay, StatsCards, ResultsTable, App) are rendering and HTTP plumbing and are not part of this model.

## Findings

| source | as written | input that shows it | evidently intended | confidence | as-written member | corrected member |
|---|---|---|---|---|---|---|
| earnings_reaction_calculator.py:13 | `re.findall` is called but `re` is never imported (lines 4-8), so every call raises `NameError`; its only caller is the example inside the triple-quoted string at line 166, and `app.py` imports only `price_changes_for_dates`, so the running API never reaches it | "18 Jul 2025 19:33" | the pair ("2025-07-18", "19:33") | not executed | ReactionCalculator.AsShippedLosesExample | ReactionCalculator.ExtractDatesTimes |
| backend/main.py:146-147 | the `HTTPException(400)` is raised inside the `try`, and `except Exception` at line 183 turns it into a 500 | content type "text/plain" | status 400 "File must be an image" | not executed | Backend.AnalyzeEarningsAsWritten | Backend.AnalyzeEarnings |
