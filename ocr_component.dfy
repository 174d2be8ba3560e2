/**
 * The browser-side extractor of the OCR component
 * (`extractDatesTimesFromText`): the recognised text is cut at `'\n'`, each
 * line trimmed and empty lines dropped; a line containing a date token
 * anywhere is a date line, any other line containing a time token anywhere
 * is a time line, and the i-th date line is paired with the i-th time line,
 * or with `''` when there are not that many time lines.
 */
module OcrComponent {
  import opened Common
  import opened Text
  import opened Tokens
  import opened Lists

  /** A line as the filter keeps it: non-empty, with no JavaScript whitespace at either end. */
  predicate JsTrimmed(l: string)
  {
    l != [] && l[0] !in JsSpaces && l[|l| - 1] !in JsSpaces
  }

  /** `line.trim()`, kept by `filter(Boolean)` only when something is left. */
  function TrimLine(line: string): (r: Option<string>)
    ensures r.Some? ==> JsTrimmed(r.value)
  {
    var t := Strip(line, JsSpaces);
    if t == [] then None else Some(t)
  }

  /** `text.split('\n').map(line => line.trim()).filter(Boolean)`. */
  function TrimmedLines(text: string): seq<string>
  {
    FilterMap(TrimLine, SplitOn(text, {'\n'}))
  }

  /** Only trimmed, non-empty lines are considered, and each is the trimmed form of a piece of the text. */
  lemma TrimmedLinesAreTrimmed(text: string)
    ensures forall l :: l in TrimmedLines(text) ==>
      JsTrimmed(l) && exists piece :: piece in SplitOn(text, {'\n'}) && Strip(piece, JsSpaces) == l
  {
    var pieces := SplitOn(text, {'\n'});
    forall l | l in TrimmedLines(text)
      ensures JsTrimmed(l) && exists piece :: piece in pieces && Strip(piece, JsSpaces) == l
    {
      var piece := FilterMapMember(TrimLine, pieces, l);
    }
  }

  /** Every kept line is trimmed and non-empty. */
  lemma LinesAreTrimmed(text: string)
    ensures forall l :: l in TrimmedLines(text) ==> JsTrimmed(l)
  {
    TrimmedLinesAreTrimmed(text);
  }

  /** `/\d{1,2} [A-Za-z]{3} \d{4}/.test(line)`: unanchored, so a date token anywhere in the line counts. */
  predicate IsDateLine(line: string)
  {
    HasDateTokenFrom(line, 0)
  }

  /** `/\d{2}:\d{2}/.test(line)`, tested only when the date test failed. */
  predicate IsTimeLine(line: string)
  {
    !IsDateLine(line) && HasTimeTokenFrom(line, 0)
  }

  /** The `dates` array after the `forEach`. */
  function DateLines(lines: seq<string>): seq<string>
  {
    Filter(IsDateLine, lines)
  }

  /** The `times` array after the `forEach`. */
  function TimeLines(lines: seq<string>): seq<string>
  {
    Filter(IsTimeLine, lines)
  }

  /** `dates.map((date, i) => ({ date, time: times[i] || '' }))`. */
  function PairWithTimes(dates: seq<string>, times: seq<string>): seq<DatedTime>
  {
    seq(|dates|, i requires 0 <= i < |dates| => DatedTime(dates[i], if i < |times| then times[i] else ""))
  }

  /** What `extractDatesTimesFromText` returns for `text`. */
  function Extracted(text: string): seq<DatedTime>
  {
    var lines := TrimmedLines(text);
    PairWithTimes(DateLines(lines), TimeLines(lines))
  }

  /**
   * One entry per date line, in order, with the date line verbatim; entry
   * `i` carries the `i`-th time line verbatim, or `''` past the last time
   * line; time lines beyond the number of date lines are ignored.
   */
  method ExtractDatesTimesFromText(text: string) returns (r: seq<DatedTime>)
    ensures r == Extracted(text)
    ensures var lines := TrimmedLines(text);
      var dates, times := DateLines(lines), TimeLines(lines);
      && |r| == |dates|
      && (forall i :: 0 <= i < |dates| ==> r[i].date == dates[i])
      && (forall i :: 0 <= i < |dates| && i < |times| ==> r[i].time == times[i])
      && (forall i :: |times| <= i < |dates| ==> r[i].time == "")
  {
    var lines := TrimmedLines(text);
    var dates, times := ClassifyLines(lines);
    r := seq(|dates|, i requires 0 <= i < |dates| => DatedTime(dates[i], if i < |times| then times[i] else ""));
  }

  /** The `forEach` over the lines: the date test first, then the time test. */
  method ClassifyLines(lines: seq<string>) returns (dates: seq<string>, times: seq<string>)
    ensures dates == DateLines(lines) && times == TimeLines(lines)
  {
    dates, times := [], [];
    for i := 0 to |lines|
      invariant dates == DateLines(lines[..i])
      invariant times == TimeLines(lines[..i])
    {
      FilterPrefix(IsDateLine, lines, i);
      FilterPrefix(IsTimeLine, lines, i);
      var line := lines[i];
      if IsDateLine(line) {
        dates := dates + [line];
      } else if IsTimeLine(line) {
        times := times + [line];
      }
    }
    assert lines[..|lines|] == lines;
  }

  /**
   * Every date field is a trimmed line of the text with a date token
   * somewhere in it; every time field is empty or a trimmed line with a time
   * token and no date token.
   */
  lemma ExtractedFieldsAreLines(text: string)
    ensures forall e :: e in Extracted(text) ==>
      e.date in TrimmedLines(text) && JsTrimmed(e.date)
      && (exists j :: 0 <= j < |e.date| && DateTokenAt(e.date, j).Some?)
    ensures forall e :: e in Extracted(text) && e.time != "" ==>
      e.time in TrimmedLines(text) && JsTrimmed(e.time)
      && (exists j :: 0 <= j < |e.time| && TimeTokenAt(e.time, j))
      && !(exists j :: 0 <= j < |e.time| && DateTokenAt(e.time, j).Some?)
  {
    LinesAreTrimmed(text);
    var lines := TrimmedLines(text);
    PairedFieldsComeFrom(DateLines(lines), TimeLines(lines));
  }

  /** Each pair's date is one of the dates, and its time, unless empty, one of the times. */
  lemma PairedFieldsComeFrom(dates: seq<string>, times: seq<string>)
    ensures forall e :: e in PairWithTimes(dates, times) ==>
      e.date in dates && (e.time != "" ==> e.time in times)
  {
    var r := PairWithTimes(dates, times);
    forall e | e in r
      ensures e.date in dates && (e.time != "" ==> e.time in times)
    {
      var i :| 0 <= i < |r| && r[i] == e;
      assert e.date == dates[i];
    }
  }

  /** A line with both a date and a time token is a date line and never a time line. */
  lemma DateTestWins(text: string, line: string)
    requires line in TrimmedLines(text) && HasDateTokenFrom(line, 0) && HasTimeTokenFrom(line, 0)
    ensures line in DateLines(TrimmedLines(text)) && line !in TimeLines(TrimmedLines(text))
  {
    FilterKeeps(IsDateLine, TrimmedLines(text), line);
  }

  lemma TokenInsideLine()
    ensures DateTokenAt("On 18 Jul 2025", 3) == Some(14)
  {
    var s := "On 18 Jul 2025";
    assert AllDigits(s[10..14]);
  }

  /** Unlike the Python extractors, text before the date does not stop a line from being a date line. */
  lemma UnanchoredDateLine()
    ensures IsDateLine("On 18 Jul 2025")
  {
    TokenInsideLine();
  }
}
