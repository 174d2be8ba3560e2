/**
 * The two token patterns that the calculator, the API server and the browser
 * extractor all look for in recognised text: a date `\d{1,2} [A-Za-z]{3} \d{4}`
 * (as in `18 Jul 2025`) and a time `\d{2}:\d{2}` (as in `19:33`), and the
 * `(date, time)` pair the Python code hands on.
 */
module Tokens {
  import opened Common
  import opened Text
  import opened Calendar

  /** An extracted announcement as the Python code passes it on: `(date, time)`. */
  datatype DatedTime = DatedTime(date: string, time: string)

  /**
   * Where the date token `\d{1,2} [A-Za-z]{3} \d{4}` that starts at `i` ends.
   * `\d{1,2}` takes a second digit when there is one; giving it back never
   * helps, because the pattern needs a space right after the day digits.
   */
  function DateTokenAt(s: string, i: nat): (e: Option<nat>)
    ensures e.Some? ==> i + 10 <= e.value <= i + 11 && e.value <= |s|
  {
    if i < |s| && IsDigit(s[i]) then
      var k := if i + 1 < |s| && IsDigit(s[i + 1]) then 2 else 1;
      if i + k + 9 <= |s| && s[i + k] == ' ' && IsAsciiLetter(s[i + k + 1])
         && IsAsciiLetter(s[i + k + 2]) && IsAsciiLetter(s[i + k + 3]) && s[i + k + 4] == ' '
         && AllDigits(s[i + k + 5..i + k + 9])
      then Some(i + k + 9)
      else None
    else None
  }

  /** Whether the time token `\d{2}:\d{2}` starts at `i`. */
  predicate TimeTokenAt(s: string, i: nat)
  {
    i + 5 <= |s| && IsDigit(s[i]) && IsDigit(s[i + 1]) && s[i + 2] == ':'
    && IsDigit(s[i + 3]) && IsDigit(s[i + 4])
  }

  /** A date token has one or two day digits and ends with the four year digits. */
  lemma DateTokenShape(s: string, i: nat)
    requires DateTokenAt(s, i).Some?
    ensures var e := DateTokenAt(s, i).value;
      1 <= e - i - 9 <= 2 && e <= |s| && AllDigits(s[i..e - 9]) && AllDigits(s[e - 4..e])
      && DigitsValue(s[e - 4..e]) < 10000
  {
    var e := DateTokenAt(s, i).value;
    DigitsValueBound(s[e - 4..e]);
    assert Pow10(4) == 10000;
  }

  /** The calendar date a date token spells, if its day, month and year make one. */
  function TokenDate(s: string, i: nat): (d: Option<Date>)
    requires DateTokenAt(s, i).Some?
    ensures d.Some? ==> ValidDate(d.value) && FourDigitYear(d.value)
  {
    DateTokenShape(s, i);
    var e := DateTokenAt(s, i).value;
    var k := e - i - 9;
    match MonthOfAbbreviation(s[i + k + 1..i + k + 4])
    case None => None
    case Some(m) =>
      var d := Date(DigitsValue(s[e - 4..e]), m, DigitsValue(s[i..i + k]));
      if ValidDate(d) then Some(d) else None
  }

  /** An eleven-character string shaped `DD Mon YYYY` is one whole date token. */
  lemma TwoDigitDayToken(t: string)
    requires |t| == 11 && IsDigit(t[0]) && IsDigit(t[1]) && t[2] == ' '
    requires IsAsciiLetter(t[3]) && IsAsciiLetter(t[4]) && IsAsciiLetter(t[5]) && t[6] == ' '
    requires AllDigits(t[7..11])
    ensures DateTokenAt(t, 0) == Some(11)
  {
  }

  /** The date a whole `DD Mon YYYY` token spells, from its three fields. */
  lemma TokenDateOfFields(t: string, day: int, month: int, year: int)
    requires |t| == 11 && DateTokenAt(t, 0) == Some(11)
    requires DigitsValue(t[0..2]) == day && MonthOfAbbreviation(t[3..6]) == Some(month)
    requires DigitsValue(t[7..11]) == year
    ensures TokenDate(t, 0) == if ValidDate(Date(year, month, day)) then Some(Date(year, month, day)) else None
  {
  }

  lemma TwoDigitsValue(s: string)
    requires |s| == 2 && AllDigits(s)
    ensures DigitsValue(s) == 10 * DigitValue(s[0]) + DigitValue(s[1])
  {
    assert s[..1][..0] == [];
    assert DigitsValue(s[..1]) == DigitValue(s[0]);
  }

  lemma FourDigitsValue(s: string)
    requires |s| == 4 && AllDigits(s)
    ensures DigitsValue(s) ==
      1000 * DigitValue(s[0]) + 100 * DigitValue(s[1]) + 10 * DigitValue(s[2]) + DigitValue(s[3])
  {
    assert s[..3][..2] == s[..2] && s[..2][..1] == s[..1] && s[..1][..0] == [];
    assert DigitsValue(s[..1]) == DigitValue(s[0]);
    assert DigitsValue(s[..2]) == 10 * DigitValue(s[0]) + DigitValue(s[1]);
    assert DigitsValue(s[..3]) == 100 * DigitValue(s[0]) + 10 * DigitValue(s[1]) + DigitValue(s[2]);
  }

  lemma OneDigitValue(s: string)
    requires |s| == 1 && AllDigits(s)
    ensures DigitsValue(s) == DigitValue(s[0])
  {
    assert s[..0] == [];
  }

  /** `%d` on a date token reads the token's day digits when they make a day of 1 to 31. */
  lemma DayFieldOfToken(s: string)
    requires DateTokenAt(s, 0).Some?
    ensures var k := DateTokenAt(s, 0).value - 9;
      AllDigits(s[..k]) &&
      (1 <= DigitsValue(s[..k]) <= 31 ==> DayField(s) == Some((DigitsValue(s[..k]), k))) &&
      (!(1 <= DigitsValue(s[..k]) <= 31) ==>
         DayField(s).None? || (k == 2 && DayField(s).value.1 == 1 && IsDigit(s[1])))
  {
    var k := DateTokenAt(s, 0).value - 9;
    if k == 2 {
      TwoDigitsValue(s[..2]);
    } else {
      OneDigitValue(s[..1]);
    }
  }

  /** The spaces of a date token are single, so skipping them is one step. */
  lemma SpacesOfToken(s: string)
    requires DateTokenAt(s, 0).Some?
    ensures var k := DateTokenAt(s, 0).value - 9;
      SkipSpaces(s, k) == k + 1 && SkipSpaces(s, k + 4) == k + 5
      && (k == 2 ==> SkipSpaces(s, 1) == 1)
  {
    var k := DateTokenAt(s, 0).value - 9;
    assert s[k] == ' ' && s[k] in PySpaces;
    assert s[k + 1] !in PySpaces;
    assert SkipSpaces(s, k + 1) == k + 1;
    assert s[k + 4] == ' ' && s[k + 4] in PySpaces;
    assert IsDigit(s[k + 5..k + 9][0]) && s[k + 5] !in PySpaces;
    assert SkipSpaces(s, k + 5) == k + 5;
    if k == 2 {
      assert s[1] !in PySpaces;
    }
  }

  /**
   * `strptime(line, "%d %b %Y")` on a string that starts with a date token
   * succeeds exactly when the token is the whole string and spells a real
   * date; trailing text, an unknown month or a day the month lacks all fail.
   */
  lemma StrptimeOfDateToken(s: string)
    requires DateTokenAt(s, 0).Some?
    ensures StrptimeDayMonYear(s) == if DateTokenAt(s, 0).value == |s| then TokenDate(s, 0) else None
  {
    var e := DateTokenAt(s, 0).value;
    var k := e - 9;
    DayFieldOfToken(s);
    SpacesOfToken(s);
    if 1 <= DigitsValue(s[..k]) <= 31 {
      DateTokenShape(s, 0);
      StrptimeOfValidDay(s, DigitsValue(s[..k]), k);
      TokenDateFields(s);
    } else {
      assert s[0..k] == s[..k];
    }
  }

  /** With the day read from `k` digits, strptime reads the month and year that follow, and nothing may trail them. */
  lemma StrptimeOfValidDay(s: string, day: int, k: nat)
    requires DayField(s) == Some((day, k))
    requires k + 9 <= |s| && SkipSpaces(s, k) == k + 1 && SkipSpaces(s, k + 4) == k + 5
    requires AllDigits(s[k + 5..k + 9])
    ensures StrptimeDayMonYear(s) ==
      if k + 9 != |s| then None
      else
        match MonthOfAbbreviation(s[k + 1..k + 4])
        case None => None
        case Some(m) =>
          if ValidDate(Date(DigitsValue(s[k + 5..k + 9]), m, day)) then Some(Date(DigitsValue(s[k + 5..k + 9]), m, day))
          else None
  {
    StrptimeAfterDay(s, day, k);
    if k + 9 == |s| {
      assert s[k + 5..] == s[k + 5..k + 9];
    }
  }

  /** `strptime(s, "%d %b %Y")` once the day is read and single spaces surround the month. */
  lemma StrptimeAfterDay(s: string, day: int, k: nat)
    requires DayField(s) == Some((day, k))
    requires k + 9 <= |s| && SkipSpaces(s, k) == k + 1 && SkipSpaces(s, k + 4) == k + 5
    ensures StrptimeDayMonYear(s) ==
      match MonthOfAbbreviation(s[k + 1..k + 4])
      case None => None
      case Some(m) =>
        if k + 9 != |s| || !AllDigits(s[k + 5..]) then None
        else if ValidDate(Date(DigitsValue(s[k + 5..]), m, day)) then Some(Date(DigitsValue(s[k + 5..]), m, day))
        else None
  {
  }

  /** The date of a token at the start of `s`, field by field. */
  lemma TokenDateFields(s: string)
    requires DateTokenAt(s, 0).Some?
    ensures var e := DateTokenAt(s, 0).value;
      var k := e - 9;
      AllDigits(s[..k]) && AllDigits(s[e - 4..e]) &&
      TokenDate(s, 0) ==
        match MonthOfAbbreviation(s[k + 1..k + 4])
        case None => None
        case Some(m) =>
          if ValidDate(Date(DigitsValue(s[e - 4..e]), m, DigitsValue(s[..k]))) then
            Some(Date(DigitsValue(s[e - 4..e]), m, DigitsValue(s[..k])))
          else None
  {
    var e := DateTokenAt(s, 0).value;
    var k := e - 9;
    DateTokenShape(s, 0);
    assert s[0..k] == s[..k];
  }

  /** JavaScript `/\d{1,2} [A-Za-z]{3} \d{4}/.test(s.slice(i))`: a date token starts somewhere from `i` on. */
  function HasDateTokenFrom(s: string, i: nat): (r: bool)
    requires i <= |s|
    ensures r <==> exists j :: i <= j < |s| && DateTokenAt(s, j).Some?
    decreases |s| - i
  {
    if i == |s| then false
    else DateTokenAt(s, i).Some? || HasDateTokenFrom(s, i + 1)
  }

  /** JavaScript `/\d{2}:\d{2}/.test(s.slice(i))`: a time token starts somewhere from `i` on. */
  function HasTimeTokenFrom(s: string, i: nat): (r: bool)
    requires i <= |s|
    ensures r <==> exists j :: i <= j < |s| && TimeTokenAt(s, j)
    decreases |s| - i
  {
    if i == |s| then false
    else TimeTokenAt(s, i) || HasTimeTokenFrom(s, i + 1)
  }
}
