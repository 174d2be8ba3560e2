/**
 * Python's `re.findall` over a text of length `n`, for a pattern given by its
 * match function: the match that starts at each position, if any. The search
 * tries positions from left to right and, after a match, resumes where the
 * match ended, so matches never overlap.
 */
module Scanning {
  import opened Common

  /** A non-empty match: the span `[start, end)` it covers and its groups. */
  datatype Match<G> = Match(start: nat, end: nat, groups: G)

  /** A match function fit for scanning: a match starting at `p` starts there, is non-empty and fits the text. */
  ghost predicate WellFormed<G>(matchAt: nat -> Option<Match<G>>, n: nat)
  {
    forall p: nat :: p < n && matchAt(p).Some? ==>
      matchAt(p).value.start == p < matchAt(p).value.end <= n
  }

  /** `re.findall` from position `i` on. */
  function FindAllFrom<G>(matchAt: nat -> Option<Match<G>>, n: nat, i: nat): (r: seq<Match<G>>)
    requires i <= n && WellFormed(matchAt, n)
    decreases n - i
  {
    if i == n then []
    else
      match matchAt(i)
      case Some(m) => [m] + FindAllFrom(matchAt, n, m.end)
      case None => FindAllFrom(matchAt, n, i + 1)
  }

  /** Each reported match is the pattern's match at its own start, at or after `i`. */
  lemma {:induction false} FindAllFromSound<G>(matchAt: nat -> Option<Match<G>>, n: nat, i: nat)
    requires i <= n && WellFormed(matchAt, n)
    ensures forall k :: 0 <= k < |FindAllFrom(matchAt, n, i)| ==>
      i <= FindAllFrom(matchAt, n, i)[k].start
      && matchAt(FindAllFrom(matchAt, n, i)[k].start) == Some(FindAllFrom(matchAt, n, i)[k])
    decreases n - i
  {
    if i < n {
      match matchAt(i)
      case Some(m) =>
        FindAllFromSound(matchAt, n, m.end);
        assert FindAllFrom(matchAt, n, i) == [m] + FindAllFrom(matchAt, n, m.end);
      case None =>
        FindAllFromSound(matchAt, n, i + 1);
    }
  }

  /** The matches do not overlap and come in text order. */
  lemma {:induction false} FindAllFromOrdered<G>(matchAt: nat -> Option<Match<G>>, n: nat, i: nat)
    requires i <= n && WellFormed(matchAt, n)
    ensures forall k :: 0 <= k < |FindAllFrom(matchAt, n, i)| - 1 ==>
      FindAllFrom(matchAt, n, i)[k].end <= FindAllFrom(matchAt, n, i)[k + 1].start
    decreases n - i
  {
    if i < n {
      match matchAt(i)
      case Some(m) =>
        FindAllFromOrdered(matchAt, n, m.end);
        FindAllFromSound(matchAt, n, m.end);
        assert FindAllFrom(matchAt, n, i) == [m] + FindAllFrom(matchAt, n, m.end);
      case None =>
        FindAllFromOrdered(matchAt, n, i + 1);
    }
  }

  /** Whether position `p` lies inside one of the matches `r`. */
  ghost predicate Covered<G>(r: seq<Match<G>>, p: int)
  {
    exists k :: 0 <= k < |r| && r[k].start <= p < r[k].end
  }

  /**
   * Every position from `i` on where the pattern matches lies inside a
   * reported match: a match is missed only where an earlier match has
   * consumed its start.
   */
  lemma {:induction false} FindAllFromLeftmost<G>(matchAt: nat -> Option<Match<G>>, n: nat, i: nat)
    requires i <= n && WellFormed(matchAt, n)
    ensures forall p: nat :: i <= p < n && matchAt(p).Some? ==> Covered(FindAllFrom(matchAt, n, i), p)
    decreases n - i
  {
    if i < n {
      match matchAt(i)
      case Some(m) =>
        var rest := FindAllFrom(matchAt, n, m.end);
        var r := [m] + rest;
        assert FindAllFrom(matchAt, n, i) == r;
        FindAllFromLeftmost(matchAt, n, m.end);
        forall p: nat | i <= p < n && matchAt(p).Some?
          ensures Covered(r, p)
        {
          if p >= m.end {
            assert Covered(rest, p);
            var k :| 0 <= k < |rest| && rest[k].start <= p < rest[k].end;
            assert r[k + 1] == rest[k];
          } else {
            assert r[0].start <= p < r[0].end;
          }
        }
      case None =>
        FindAllFromLeftmost(matchAt, n, i + 1);
    }
  }
}
