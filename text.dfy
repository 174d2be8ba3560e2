/**
 * Characters and strings as the Python and JavaScript runtimes of the
 * dashboard see them: the character classes their regular expressions use,
 * the whitespace sets of `str.strip`/`str.splitlines` and `String.trim`,
 * line splitting, decimal formatting and Python's ordering of strings.
 */
module Text {

  // ---------------------------------------------------------------------
  // Character classes
  // ---------------------------------------------------------------------

  /** `\d` of the regular expressions, restricted to ASCII digits. */
  predicate IsDigit(c: char) { '0' <= c <= '9' }

  function DigitValue(c: char): (v: nat)
    requires IsDigit(c)
    ensures v < 10
  {
    (c as int) - ('0' as int)
  }

  function DigitChar(v: nat): (c: char)
    requires v < 10
    ensures IsDigit(c) && DigitValue(c) == v
  {
    (v + '0' as int) as char
  }

  /** `[A-Za-z]`. */
  predicate IsAsciiLetter(c: char) { 'a' <= c <= 'z' || 'A' <= c <= 'Z' }

  /** ASCII lower-casing, the case folding that IGNORECASE applies to ASCII letters. */
  function LowerAscii(c: char): (r: char)
    ensures IsAsciiLetter(c) ==> 'a' <= r <= 'z'
    ensures !('A' <= c <= 'Z') ==> r == c
  {
    if 'A' <= c <= 'Z' then (c as int + 32) as char else c
  }

  function LowerAsciiString(s: string): (r: string)
    ensures |r| == |s|
    ensures forall i :: 0 <= i < |s| ==> r[i] == LowerAscii(s[i])
  {
    if s == [] then [] else [LowerAscii(s[0])] + LowerAsciiString(s[1..])
  }

  /** ASCII upper-casing, as Python's `str.upper` does on ASCII letters. */
  function UpperAscii(c: char): (r: char)
    ensures 'a' <= c <= 'z' ==> 'A' <= r <= 'Z' && LowerAscii(r) == c
    ensures !('a' <= c <= 'z') ==> r == c
  {
    if 'a' <= c <= 'z' then (c as int - 32) as char else c
  }

  function UpperAsciiString(s: string): (r: string)
    ensures |r| == |s|
    ensures forall i :: 0 <= i < |s| ==> r[i] == UpperAscii(s[i])
  {
    if s == [] then [] else [UpperAscii(s[0])] + UpperAsciiString(s[1..])
  }

  /** Python `s.startswith(prefix)`. */
  predicate StartsWith(s: string, prefix: string)
  {
    |prefix| <= |s| && s[..|prefix|] == prefix
  }

  /** `\w` restricted to ASCII: letters, digits and underscore. */
  predicate IsWordChar(c: char) { IsDigit(c) || IsAsciiLetter(c) || c == '_' }

  /** Python's `\s` in a `str` pattern and `str.isspace()`. */
  const PySpaces: set<char> :=
    {'\t', '\n', '\U{0B}', '\U{0C}', '\r', '\U{1C}', '\U{1D}', '\U{1E}', '\U{1F}', ' ',
     '\U{85}', '\U{A0}', '\U{1680}', '\U{2000}', '\U{2001}', '\U{2002}', '\U{2003}',
     '\U{2004}', '\U{2005}', '\U{2006}', '\U{2007}', '\U{2008}', '\U{2009}', '\U{200A}',
     '\U{2028}', '\U{2029}', '\U{202F}', '\U{205F}', '\U{3000}'}

  /** The line boundaries of Python's `str.splitlines()` (`\r\n` is two of them here, see PyLines). */
  const PyLineBreaks: set<char> :=
    {'\n', '\U{0B}', '\U{0C}', '\r', '\U{1C}', '\U{1D}', '\U{1E}', '\U{85}', '\U{2028}', '\U{2029}'}

  /** The characters JavaScript's `String.prototype.trim` removes (WhiteSpace and LineTerminator). */
  const JsSpaces: set<char> :=
    {'\t', '\n', '\U{0B}', '\U{0C}', '\r', ' ', '\U{A0}', '\U{1680}', '\U{2000}', '\U{2001}',
     '\U{2002}', '\U{2003}', '\U{2004}', '\U{2005}', '\U{2006}', '\U{2007}', '\U{2008}',
     '\U{2009}', '\U{200A}', '\U{2028}', '\U{2029}', '\U{202F}', '\U{205F}', '\U{3000}', '\U{FEFF}'}

  // ---------------------------------------------------------------------
  // strip / trim
  // ---------------------------------------------------------------------

  function TrimStart(s: string, ws: set<char>): (r: string)
    ensures |r| <= |s| && r == s[|s| - |r|..]
    ensures r == [] || r[0] !in ws
    ensures forall i :: 0 <= i < |s| - |r| ==> s[i] in ws
  {
    if s != [] && s[0] in ws then TrimStart(s[1..], ws) else s
  }

  function TrimEnd(s: string, ws: set<char>): (r: string)
    ensures |r| <= |s| && r == s[..|r|]
    ensures r == [] || r[|r| - 1] !in ws
    ensures forall i :: |r| <= i < |s| ==> s[i] in ws
  {
    if s != [] && s[|s| - 1] in ws then TrimEnd(s[..|s| - 1], ws) else s
  }

  /**
   * Python `s.strip()` (with `ws == PySpaces`) and JavaScript `s.trim()`
   * (with `ws == JsSpaces`): the longest infix that neither starts nor ends
   * with a whitespace character; empty exactly when `s` is all whitespace.
   */
  function Strip(s: string, ws: set<char>): (r: string)
    ensures r == [] <==> forall i :: 0 <= i < |s| ==> s[i] in ws
    ensures r != [] ==> r[0] !in ws && r[|r| - 1] !in ws
    ensures forall c :: c in r ==> c in s
  {
    var t := TrimStart(s, ws);
    var r := TrimEnd(t, ws);
    assert forall c :: c in r ==> c in t;
    r
  }

  /** The first index at or after `i` that is not Python whitespace (`\s+` matching greedily). */
  function SkipSpaces(s: string, i: nat): (j: nat)
    requires i <= |s|
    ensures i <= j <= |s|
    ensures forall k :: i <= k < j ==> s[k] in PySpaces
    ensures j < |s| ==> s[j] !in PySpaces
    decreases |s| - i
  {
    if i < |s| && s[i] in PySpaces then SkipSpaces(s, i + 1) else i
  }

  // ---------------------------------------------------------------------
  // Splitting on separator characters
  // ---------------------------------------------------------------------

  /**
   * The pieces between separator characters, as JavaScript's `split` does
   * for one separator: always one more piece than there are separators.
   */
  function SplitOn(s: string, seps: set<char>): (pieces: seq<string>)
    ensures |pieces| >= 1
  {
    if s == [] then [[]]
    else
      var rest := SplitOn(s[1..], seps);
      if s[0] in seps then [[]] + rest else [[s[0]] + rest[0]] + rest[1..]
  }

  /** The pieces joined with one separator between neighbours (`sep.join(pieces)`). */
  function JoinWith(pieces: seq<string>, sep: string): (s: string)
  {
    if pieces == [] then []
    else if |pieces| == 1 then pieces[0]
    else pieces[0] + sep + JoinWith(pieces[1..], sep)
  }

  /** No piece that SplitOn returns contains a separator. */
  lemma {:induction false} SplitOnPiecesHaveNoSeparator(s: string, seps: set<char>)
    ensures forall p :: p in SplitOn(s, seps) ==> forall c :: c in p ==> c !in seps
  {
    if s != [] {
      SplitOnPiecesHaveNoSeparator(s[1..], seps);
      var rest := SplitOn(s[1..], seps);
      if s[0] !in seps {
        assert rest[0] in rest;
        assert forall c :: c in [s[0]] + rest[0] ==> c == s[0] || c in rest[0];
        assert forall p :: p in rest[1..] ==> p in rest;
        forall p | p in SplitOn(s, seps) ensures forall c :: c in p ==> c !in seps {
          if p != [s[0]] + rest[0] { assert p in rest[1..]; }
        }
      }
    }
  }

  /** Joining the pieces of a split on one character gives the text back. */
  lemma {:induction false} JoinSplitOn(s: string, sep: char)
    ensures JoinWith(SplitOn(s, {sep}), [sep]) == s
  {
    if s != [] {
      JoinSplitOn(s[1..], sep);
      var rest := SplitOn(s[1..], {sep});
      if s[0] == sep {
        assert SplitOn(s, {sep}) == [[]] + rest;
        assert ([[]] + rest)[1..] == rest;
      } else {
        var ps := SplitOn(s, {sep});
        assert ps == [[s[0]] + rest[0]] + rest[1..];
        if |rest| == 1 {
          assert ps == [[s[0]] + rest[0]];
        } else {
          assert ps[1..] == rest[1..];
          assert JoinWith(rest, [sep]) == rest[0] + [sep] + JoinWith(rest[1..], [sep]);
        }
      }
    }
  }

  /** Splitting a separator-free prefix `p` followed by `t` extends the first piece of `t`. */
  lemma {:induction false} SplitOnPrefix(p: string, t: string, sep: char)
    requires sep !in p
    ensures SplitOn(p + t, {sep}) == [p + SplitOn(t, {sep})[0]] + SplitOn(t, {sep})[1..]
  {
    if p == [] {
      assert p + t == t;
      var ps := SplitOn(t, {sep});
      assert ps == [ps[0]] + ps[1..];
      assert p + ps[0] == ps[0];
    } else {
      assert (p + t)[1..] == p[1..] + t;
      SplitOnPrefix(p[1..], t, sep);
      assert [p[0]] + (p[1..] + SplitOn(t, {sep})[0]) == p + SplitOn(t, {sep})[0];
    }
  }

  /** Splitting text joined with a separator that no piece contains gives the pieces back. */
  lemma {:induction false} SplitJoinWith(pieces: seq<string>, sep: char)
    requires |pieces| >= 1
    requires forall p :: p in pieces ==> sep !in p
    ensures SplitOn(JoinWith(pieces, [sep]), {sep}) == pieces
  {
    if |pieces| == 1 {
      SplitOnPrefix(pieces[0], [], sep);
      assert pieces[0] + [] == pieces[0];
    } else {
      var tail := JoinWith(pieces[1..], [sep]);
      assert forall p :: p in pieces[1..] ==> p in pieces;
      SplitJoinWith(pieces[1..], sep);
      assert JoinWith(pieces, [sep]) == pieces[0] + ([sep] + tail);
      SplitOnPrefix(pieces[0], [sep] + tail, sep);
      assert ([sep] + tail)[1..] == tail;
      assert SplitOn([sep] + tail, {sep}) == [[]] + pieces[1..];
      assert pieces[0] + [] == pieces[0];
      assert pieces == [pieces[0]] + pieces[1..];
    }
  }

  // ---------------------------------------------------------------------
  // Decimal digits
  // ---------------------------------------------------------------------

  predicate AllDigits(s: string) { forall i :: 0 <= i < |s| ==> IsDigit(s[i]) }

  /** `int(s)` for a string of ASCII digits. */
  function DigitsValue(s: string): nat
    requires AllDigits(s)
  {
    if s == [] then 0 else DigitsValue(s[..|s| - 1]) * 10 + DigitValue(s[|s| - 1])
  }

  function Pow10(w: nat): (p: nat)
    ensures p >= 1
  {
    if w == 0 then 1 else 10 * Pow10(w - 1)
  }

  /**
   * The decimal digits of `n`, left-padded with zeros to at least `width`
   * characters (`%0<width>d`, the zero padding of `strftime` fields).
   */
  function Show(n: nat, width: int): (s: string)
    ensures |s| >= 1 && AllDigits(s)
    decreases n + (if width > 0 then width else 0)
  {
    if n < 10 && width <= 1 then [DigitChar(n)]
    else Show(n / 10, width - 1) + [DigitChar(n % 10)]
  }

  /** Reading back a formatted number gives the number. */
  lemma {:induction false} ShowValue(n: nat, width: int)
    ensures DigitsValue(Show(n, width)) == n
    decreases n + (if width > 0 then width else 0)
  {
    if !(n < 10 && width <= 1) {
      ShowValue(n / 10, width - 1);
      DigitsValueSnoc(Show(n / 10, width - 1), DigitChar(n % 10));
    }
  }

  /** One more digit on the right: ten times the value so far, plus the digit. */
  lemma DigitsValueSnoc(front: string, c: char)
    requires AllDigits(front) && IsDigit(c)
    ensures AllDigits(front + [c]) && DigitsValue(front + [c]) == DigitsValue(front) * 10 + DigitValue(c)
  {
    assert (front + [c])[..|front|] == front;
  }

  lemma {:induction false} DigitsValueBound(s: string)
    requires AllDigits(s)
    ensures DigitsValue(s) < Pow10(|s|)
  {
    if s != [] { DigitsValueBound(s[..|s| - 1]); }
  }

  /** A number below `10^width` is formatted in exactly `width` characters. */
  lemma {:induction false} ShowLength(n: nat, width: nat)
    requires 1 <= width && n < Pow10(width)
    ensures |Show(n, width)| == width
  {
    if width > 1 {
      ShowLength(n / 10, width - 1);
    }
  }

  /** Formatting the value of a digit string at its own width gives the string back. */
  lemma {:induction false} ShowOfValue(s: string)
    requires |s| >= 1 && AllDigits(s)
    ensures Show(DigitsValue(s), |s|) == s
  {
    var init := s[..|s| - 1];
    var v := DigitsValue(s);
    if |s| == 1 {
      assert s[..0] == [];
      assert DigitsValue(s[..0]) == 0;
      assert v == DigitsValue(s[..0]) * 10 + DigitValue(s[0]);
    } else {
      ShowOfValue(init);
      assert v / 10 == DigitsValue(init) && v % 10 == DigitValue(s[|s| - 1]);
      assert s == init + [s[|s| - 1]];
    }
  }

  // ---------------------------------------------------------------------
  // Python's ordering of strings
  // ---------------------------------------------------------------------

  /** Python `a < b` on `str`: lexicographic by code point, a proper prefix first. */
  predicate StrLt(a: string, b: string)
  {
    if b == [] then false
    else if a == [] then true
    else if a[0] != b[0] then a[0] < b[0]
    else StrLt(a[1..], b[1..])
  }

  predicate StrLe(a: string, b: string) { a == b || StrLt(a, b) }

  lemma {:induction false} StrLtIrreflexive(a: string)
    ensures !StrLt(a, a)
  {
    if a != [] { StrLtIrreflexive(a[1..]); }
  }

  lemma {:induction false} StrLtTransitive(a: string, b: string, c: string)
    requires StrLt(a, b) && StrLt(b, c)
    ensures StrLt(a, c)
  {
    if a != [] && a[0] == b[0] && b[0] == c[0] {
      StrLtTransitive(a[1..], b[1..], c[1..]);
    }
  }

  lemma {:induction false} StrLtTrichotomy(a: string, b: string)
    ensures a == b || StrLt(a, b) || StrLt(b, a)
  {
    if a != [] && b != [] && a[0] == b[0] {
      StrLtTrichotomy(a[1..], b[1..]);
      if a[1..] == b[1..] {
        assert a == [a[0]] + a[1..] && b == [b[0]] + b[1..];
      }
    }
  }

  lemma StrLtAsymmetric(a: string, b: string)
    requires StrLt(a, b)
    ensures !StrLt(b, a)
  {
    if StrLt(b, a) {
      StrLtTransitive(a, b, a);
      StrLtIrreflexive(a);
    }
  }

  /** Comparing two strings whose first parts have the same length compares those parts first. */
  lemma {:induction false} StrLtConcat(x1: string, y1: string, x2: string, y2: string)
    requires |x1| == |x2|
    ensures StrLt(x1 + y1, x2 + y2) <==> StrLt(x1, x2) || (x1 == x2 && StrLt(y1, y2))
  {
    if x1 == [] {
      assert x1 + y1 == y1 && x2 + y2 == y2;
    } else {
      assert (x1 + y1)[0] == x1[0] && (x2 + y2)[0] == x2[0];
      assert (x1 + y1)[1..] == x1[1..] + y1 && (x2 + y2)[1..] == x2[1..] + y2;
      StrLtConcat(x1[1..], y1, x2[1..], y2);
      if x1[0] == x2[0] {
        assert x1 == x2 <==> x1[1..] == x2[1..] by {
          assert x1 == [x1[0]] + x1[1..] && x2 == [x2[0]] + x2[1..];
        }
      }
    }
  }

  /** One-digit strings compare as their digits do. */
  lemma DigitStrLt(u: nat, v: nat)
    requires u < 10 && v < 10
    ensures StrLt([DigitChar(u)], [DigitChar(v)]) <==> u < v
  {
    assert [DigitChar(u)][1..] == [] && [DigitChar(v)][1..] == [];
  }

  /** Comparing numbers compares their leading parts, then their last digits. */
  lemma DivModLt(a: nat, b: nat)
    ensures a < b <==> a / 10 < b / 10 || (a / 10 == b / 10 && a % 10 < b % 10)
  {
    assert a == 10 * (a / 10) + a % 10 && b == 10 * (b / 10) + b % 10;
  }

  /** Formatted numbers of the same width compare as strings as they compare as numbers. */
  lemma {:induction false} ShowLt(a: nat, b: nat, width: nat)
    requires 1 <= width && a < Pow10(width) && b < Pow10(width)
    ensures StrLt(Show(a, width), Show(b, width)) <==> a < b
  {
    if width == 1 {
      assert Show(a, width) == [DigitChar(a)] && Show(b, width) == [DigitChar(b)];
      DigitStrLt(a, b);
    } else {
      var ha, hb := Show(a / 10, width - 1), Show(b / 10, width - 1);
      ShowLength(a / 10, width - 1);
      ShowLength(b / 10, width - 1);
      ShowLt(a / 10, b / 10, width - 1);
      assert Show(a, width) == ha + [DigitChar(a % 10)];
      assert Show(b, width) == hb + [DigitChar(b % 10)];
      StrLtConcat(ha, [DigitChar(a % 10)], hb, [DigitChar(b % 10)]);
      ShowInjective(a / 10, b / 10, width - 1);
      DigitStrLt(a % 10, b % 10);
      DivModLt(a, b);
    }
  }

  /** Two numbers formatted to one width give the same string only when they are equal. */
  lemma ShowInjective(a: nat, b: nat, width: nat)
    ensures Show(a, width) == Show(b, width) <==> a == b
  {
    ShowValue(a, width);
    ShowValue(b, width);
  }

  /** JavaScript's `${n}` for an integer-valued number. */
  function IntToString(i: int): (s: string)
    ensures |s| >= 1
    ensures i >= 0 ==> AllDigits(s) && DigitsValue(s) == i
    ensures i < 0 ==> s[0] == '-' && AllDigits(s[1..]) && DigitsValue(s[1..]) == -i
  {
    ShowValue(if i < 0 then -i else i, 1);
    if i < 0 then "-" + Show(-i, 1) else Show(i, 1)
  }
}
