/**
 * Python's `sorted(xs, key=...)` and `list.sort()`: a stable sort by a total
 * preorder. Insertion sort is the reference definition; the lemmas give the
 * properties Python documents for its sort (a permutation, ordered, equal
 * elements kept in their original order) and one the pipeline relies on (a
 * list that is already ordered comes back unchanged).
 */
module Sorting {

  ghost predicate IsTotalPreorder<T(!new)>(le: (T, T) -> bool)
  {
    && (forall a, b :: le(a, b) || le(b, a))
    && (forall a, b, c :: le(a, b) && le(b, c) ==> le(a, c))
  }

  ghost predicate SortedBy<T>(s: seq<T>, le: (T, T) -> bool)
  {
    forall i, j :: 0 <= i < j < |s| ==> le(s[i], s[j])
  }

  /** Inserts `x` before the first element it is not after. */
  function Insert<T>(x: T, s: seq<T>, le: (T, T) -> bool): (r: seq<T>)
    ensures |r| == |s| + 1
  {
    if s == [] then [x]
    else if le(x, s[0]) then [x] + s
    else [s[0]] + Insert(x, s[1..], le)
  }

  function SortBy<T>(s: seq<T>, le: (T, T) -> bool): (r: seq<T>)
    ensures |r| == |s|
  {
    if s == [] then [] else Insert(s[0], SortBy(s[1..], le), le)
  }

  /** The elements equivalent to `k` under `le`, in their order in `s`. */
  ghost function EquivalentTo<T>(s: seq<T>, le: (T, T) -> bool, k: T): seq<T>
  {
    if s == [] then []
    else (if le(s[0], k) && le(k, s[0]) then [s[0]] else []) + EquivalentTo(s[1..], le, k)
  }

  lemma {:induction false} InsertPermutation<T>(x: T, s: seq<T>, le: (T, T) -> bool)
    ensures multiset(Insert(x, s, le)) == multiset([x]) + multiset(s)
  {
    if s != [] && !le(x, s[0]) {
      InsertPermutation(x, s[1..], le);
      assert s == [s[0]] + s[1..];
    }
  }

  /** Sorting rearranges the elements and neither adds nor drops any. */
  lemma {:induction false} SortByPermutation<T>(s: seq<T>, le: (T, T) -> bool)
    ensures multiset(SortBy(s, le)) == multiset(s)
    ensures |SortBy(s, le)| == |s|
  {
    if s != [] {
      SortByPermutation(s[1..], le);
      InsertPermutation(s[0], SortBy(s[1..], le), le);
      assert s == [s[0]] + s[1..];
    }
    assert |multiset(SortBy(s, le))| == |multiset(s)|;
  }

  lemma {:induction false} InsertSorted<T(!new)>(x: T, s: seq<T>, le: (T, T) -> bool)
    requires IsTotalPreorder(le) && SortedBy(s, le)
    ensures SortedBy(Insert(x, s, le), le)
  {
    if s != [] && !le(x, s[0]) {
      InsertSorted(x, s[1..], le);
      InsertPermutation(x, s[1..], le);
      var r := Insert(x, s[1..], le);
      forall j | 0 <= j < |r| ensures le(s[0], r[j]) {
        assert r[j] in multiset(r);
        if r[j] != x {
          assert r[j] in multiset(s[1..]);
          var k :| 0 <= k < |s[1..]| && s[1..][k] == r[j];
          assert s[k + 1] == r[j];
        }
      }
    }
  }

  /** The result of sorting is ordered. */
  lemma {:induction false} SortBySorted<T(!new)>(s: seq<T>, le: (T, T) -> bool)
    requires IsTotalPreorder(le)
    ensures SortedBy(SortBy(s, le), le)
  {
    if s != [] {
      SortBySorted(s[1..], le);
      InsertSorted(s[0], SortBy(s[1..], le), le);
    }
  }

  lemma {:induction false} EquivalentToConcat<T>(a: seq<T>, b: seq<T>, le: (T, T) -> bool, k: T)
    ensures EquivalentTo(a + b, le, k) == EquivalentTo(a, le, k) + EquivalentTo(b, le, k)
  {
    if a != [] {
      EquivalentToConcat(a[1..], b, le, k);
      assert (a + b)[1..] == a[1..] + b;
    } else {
      assert a + b == b;
    }
  }

  lemma {:induction false} InsertStable<T(!new)>(x: T, s: seq<T>, le: (T, T) -> bool, k: T)
    requires IsTotalPreorder(le)
    ensures EquivalentTo(Insert(x, s, le), le, k) == EquivalentTo([x], le, k) + EquivalentTo(s, le, k)
  {
    if s == [] {
    } else if le(x, s[0]) {
      EquivalentToConcat([x], s, le, k);
    } else {
      InsertStable(x, s[1..], le, k);
      EquivalentToConcat([s[0]], Insert(x, s[1..], le), le, k);
      // s[0] comes strictly before x, so it is equivalent to k only when x is not
      if le(s[0], k) && le(k, s[0]) {
        assert !(le(x, k) && le(k, x));
      }
      EquivalentToConcat([s[0]], s[1..], le, k);
      assert s == [s[0]] + s[1..];
    }
  }

  /** Sorting is stable: elements that compare equal keep their relative order. */
  lemma {:induction false} SortByStable<T(!new)>(s: seq<T>, le: (T, T) -> bool, k: T)
    requires IsTotalPreorder(le)
    ensures EquivalentTo(SortBy(s, le), le, k) == EquivalentTo(s, le, k)
  {
    if s != [] {
      SortByStable(s[1..], le, k);
      InsertStable(s[0], SortBy(s[1..], le), le, k);
      EquivalentToConcat([s[0]], s[1..], le, k);
      assert s == [s[0]] + s[1..];
    }
  }

  /** An ordered list comes back from the sort unchanged. */
  lemma {:induction false} SortBySortedIsIdentity<T>(s: seq<T>, le: (T, T) -> bool)
    requires SortedBy(s, le)
    ensures SortBy(s, le) == s
  {
    if s != [] {
      assert SortedBy(s[1..], le);
      SortBySortedIsIdentity(s[1..], le);
      if |s| > 1 {
        assert le(s[0], s[1]);
        assert s == [s[0]] + s[1..];
      }
    }
  }
}
