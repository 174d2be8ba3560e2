/**
 * The "try to convert each element, skip the ones that fail" loop shape that
 * several extractors share, as one list function with its properties.
 */
module Lists {
  import opened Common

  /** The successful conversions of `xs`, in order; elements `f` rejects are skipped. */
  function FilterMap<A, B>(f: A -> Option<B>, xs: seq<A>): seq<B>
  {
    if xs == [] then []
    else
      var front := FilterMap(f, xs[..|xs| - 1]);
      match f(xs[|xs| - 1])
      case None => front
      case Some(y) => front + [y]
  }

  /** How many elements of `xs` convert. */
  function CountSome<A, B>(f: A -> Option<B>, xs: seq<A>): (n: nat)
    ensures n <= |xs|
  {
    if xs == [] then 0
    else CountSome(f, xs[..|xs| - 1]) + (if f(xs[|xs| - 1]).Some? then 1 else 0)
  }

  /** Converting a concatenation converts each part, the first part's results first. */
  lemma {:induction false} FilterMapConcat<A, B>(f: A -> Option<B>, a: seq<A>, b: seq<A>)
    ensures FilterMap(f, a + b) == FilterMap(f, a) + FilterMap(f, b)
  {
    if b == [] {
      assert a + b == a;
    } else {
      var b' := b[..|b| - 1];
      FilterMapConcat(f, a, b');
      assert (a + b)[..|a + b| - 1] == a + b';
    }
  }

  /**
   * One result per element that converts, so never more results than
   * elements, and every result is the conversion of some element.
   */
  lemma {:induction false} FilterMapCount<A, B>(f: A -> Option<B>, xs: seq<A>)
    ensures |FilterMap(f, xs)| == CountSome(f, xs) <= |xs|
    ensures forall k :: 0 <= k < |FilterMap(f, xs)| ==>
      exists j :: 0 <= j < |xs| && f(xs[j]) == Some(FilterMap(f, xs)[k])
  {
    if xs != [] {
      var front := xs[..|xs| - 1];
      FilterMapCount(f, front);
      forall k | 0 <= k < |FilterMap(f, xs)|
        ensures exists j :: 0 <= j < |xs| && f(xs[j]) == Some(FilterMap(f, xs)[k])
      {
        if k < |FilterMap(f, front)| {
          var j :| 0 <= j < |front| && f(front[j]) == Some(FilterMap(f, front)[k]);
          assert xs[j] == front[j];
        } else {
          assert f(xs[|xs| - 1]) == Some(FilterMap(f, xs)[k]);
        }
      }
    }
  }

  /** Every kept value is the image of some element of `xs`. */
  lemma FilterMapMember<A, B>(f: A -> Option<B>, xs: seq<A>, y: B) returns (x: A)
    requires y in FilterMap(f, xs)
    ensures x in xs && f(x) == Some(y)
  {
    FilterMapCount(f, xs);
    var k :| 0 <= k < |FilterMap(f, xs)| && FilterMap(f, xs)[k] == y;
    var j :| 0 <= j < |xs| && f(xs[j]) == Some(y);
    x := xs[j];
  }

  /** When every element converts, nothing is skipped. */
  lemma {:induction false} FilterMapAllSome<A, B>(f: A -> Option<B>, xs: seq<A>)
    requires forall j :: 0 <= j < |xs| ==> f(xs[j]).Some?
    ensures |FilterMap(f, xs)| == |xs|
    ensures forall k :: 0 <= k < |xs| ==> f(xs[k]) == Some(FilterMap(f, xs)[k])
  {
    if xs != [] {
      var front := xs[..|xs| - 1];
      FilterMapAllSome(f, front);
      assert forall k :: 0 <= k < |front| ==> xs[k] == front[k];
    }
  }

  /** The elements of `xs` that satisfy `p`, in order (a list comprehension with a condition). */
  function Filter<A>(p: A -> bool, xs: seq<A>): (r: seq<A>)
    ensures |r| <= |xs|
    ensures forall x :: x in r ==> x in xs && p(x)
  {
    if xs == [] then []
    else Filter(p, xs[..|xs| - 1]) + (if p(xs[|xs| - 1]) then [xs[|xs| - 1]] else [])
  }

  /** Nothing that satisfies `p` is dropped. */
  lemma {:induction false} FilterKeeps<A>(p: A -> bool, xs: seq<A>, x: A)
    requires x in xs && p(x)
    ensures x in Filter(p, xs)
  {
    var front := xs[..|xs| - 1];
    if x != xs[|xs| - 1] {
      assert xs == front + [xs[|xs| - 1]];
      assert x in front;
      FilterKeeps(p, front, x);
    }
  }

  /** The dict built by `for x in xs: if keep(x): d[x] = note(x)`. */
  function KeyedNotes<K, V>(xs: seq<K>, keep: K -> bool, note: K -> V): map<K, V>
  {
    if xs == [] then map[]
    else
      var m := KeyedNotes(xs[..|xs| - 1], keep, note);
      var x := xs[|xs| - 1];
      if keep(x) then m[x := note(x)] else m
  }

  /** One more element: it is added, over any earlier entry, exactly when it is kept. */
  lemma KeyedNotesSnoc<K, V>(xs: seq<K>, x: K, keep: K -> bool, note: K -> V)
    ensures KeyedNotes(xs + [x], keep, note) ==
      if keep(x) then KeyedNotes(xs, keep, note)[x := note(x)] else KeyedNotes(xs, keep, note)
  {
    assert (xs + [x])[..|xs|] == xs;
  }

  /** A key is in the dict exactly when it is one of `xs` that is kept, and its value is its note. */
  lemma {:induction false} KeyedNotesKeys<K, V>(xs: seq<K>, keep: K -> bool, note: K -> V, k: K)
    ensures k in KeyedNotes(xs, keep, note) <==> k in xs && keep(k)
    ensures k in KeyedNotes(xs, keep, note) ==> KeyedNotes(xs, keep, note)[k] == note(k)
  {
    if xs != [] {
      var front := xs[..|xs| - 1];
      KeyedNotesKeys(front, keep, note, k);
      assert xs == front + [xs[|xs| - 1]];
    }
  }

  /** `zip(xs, ys)`: pairs up to the shorter list's length; the rest of the longer list is dropped. */
  function Zip<A, B>(xs: seq<A>, ys: seq<B>): (r: seq<(A, B)>)
    ensures |r| == if |xs| <= |ys| then |xs| else |ys|
    ensures forall i :: 0 <= i < |r| ==> r[i] == (xs[i], ys[i])
  {
    if xs == [] || ys == [] then [] else [(xs[0], ys[0])] + Zip(xs[1..], ys[1..])
  }

  /** One more element of `xs` considered: its conversion, if any, goes at the end. */
  lemma FilterMapPrefix<A, B>(f: A -> Option<B>, xs: seq<A>, i: nat)
    requires i < |xs|
    ensures FilterMap(f, xs[..i + 1]) ==
      FilterMap(f, xs[..i]) + (if f(xs[i]).Some? then [f(xs[i]).value] else [])
  {
    assert xs[..i + 1][..i] == xs[..i];
  }

  /** One more element of `xs` considered: kept at the end if it satisfies `p`. */
  lemma FilterPrefix<A>(p: A -> bool, xs: seq<A>, i: nat)
    requires i < |xs|
    ensures Filter(p, xs[..i + 1]) == Filter(p, xs[..i]) + (if p(xs[i]) then [xs[i]] else [])
  {
    assert xs[..i + 1][..i] == xs[..i];
  }

  // ---------------------------------------------------------------------
  // list(dict.fromkeys(xs))
  // ---------------------------------------------------------------------

  /** `list(dict.fromkeys(xs))`: each distinct element once, where it first occurs. */
  function Dedup<T(==)>(xs: seq<T>): (r: seq<T>)
    ensures |r| <= |xs|
  {
    if xs == [] then []
    else
      var front := Dedup(xs[..|xs| - 1]);
      if xs[|xs| - 1] in front then front else front + [xs[|xs| - 1]]
  }

  /** The position of the first occurrence of `x` in `xs`. */
  function FirstIndex<T(==)>(xs: seq<T>, x: T): (k: nat)
    requires x in xs
    ensures k < |xs| && xs[k] == x && forall j :: 0 <= j < k ==> xs[j] != x
  {
    if xs[0] == x then 0 else 1 + FirstIndex(xs[1..], x)
  }

  /** Dedup keeps exactly the elements of the input: nothing lost, nothing added. */
  lemma {:induction false} DedupSameElements<T>(xs: seq<T>)
    ensures forall x :: x in Dedup(xs) <==> x in xs
  {
    if xs != [] {
      var front := xs[..|xs| - 1];
      DedupSameElements(front);
      assert xs == front + [xs[|xs| - 1]];
    }
  }

  /** No element appears twice after dedup. */
  lemma {:induction false} DedupNoDuplicates<T>(xs: seq<T>)
    ensures forall i, j :: 0 <= i < j < |Dedup(xs)| ==> Dedup(xs)[i] != Dedup(xs)[j]
  {
    if xs != [] {
      DedupNoDuplicates(xs[..|xs| - 1]);
    }
  }

  /** First occurrences inside a prefix are the same in the whole sequence. */
  lemma FirstIndexOfPrefix<T>(xs: seq<T>, front: seq<T>, x: T)
    requires |front| <= |xs| && front == xs[..|front|] && x in front
    ensures FirstIndex(xs, x) == FirstIndex(front, x)
  {
    var b := FirstIndex(front, x);
    assert front[b] == xs[b];
    assert forall j :: 0 <= j < b ==> xs[j] == front[j];
  }

  /** Two elements of the front keep their first-occurrence order in the whole sequence. */
  lemma FrontFirstIndexOrder<T>(xs: seq<T>, front: seq<T>, x: T, y: T)
    requires |front| <= |xs| && front == xs[..|front|] && x in front && y in front
    requires FirstIndex(front, x) < FirstIndex(front, y)
    ensures x in xs && y in xs && FirstIndex(xs, x) < FirstIndex(xs, y)
  {
    FirstIndexOfPrefix(xs, front, x);
    FirstIndexOfPrefix(xs, front, y);
  }

  /** An element of the front is first seen before the element that occurs only last. */
  lemma LastFirstIndex<T>(xs: seq<T>, front: seq<T>, x: T)
    requires xs != [] && front == xs[..|xs| - 1] && x in front && xs[|xs| - 1] !in front
    ensures FirstIndex(xs, x) < FirstIndex(xs, xs[|xs| - 1]) == |xs| - 1
  {
    FirstIndexOfPrefix(xs, front, x);
  }

  /** Dedup keeps first-occurrence order: earlier in the result means first seen earlier in the input. */
  lemma {:induction false} DedupFirstOccurrenceOrder<T>(xs: seq<T>)
    ensures forall x :: x in Dedup(xs) ==> x in xs
    ensures forall i, j :: 0 <= i < j < |Dedup(xs)| ==>
      FirstIndex(xs, Dedup(xs)[i]) < FirstIndex(xs, Dedup(xs)[j])
  {
    DedupSameElements(xs);
    if xs != [] {
      var front := xs[..|xs| - 1];
      var last := xs[|xs| - 1];
      var d := Dedup(front);
      DedupFirstOccurrenceOrder(front);
      DedupSameElements(front);
      assert Dedup(xs) == if last in d then d else d + [last];
      forall i, j | 0 <= i < j < |Dedup(xs)|
        ensures FirstIndex(xs, Dedup(xs)[i]) < FirstIndex(xs, Dedup(xs)[j])
      {
        var r := Dedup(xs);
        assert r[i] == d[i] && d[i] in front;
        if j < |d| {
          assert r[j] == d[j] && d[j] in front;
          FrontFirstIndexOrder(xs, front, d[i], d[j]);
        } else {
          assert r[j] == last && last !in front;
          LastFirstIndex(xs, front, d[i]);
        }
      }
    }
  }
}
