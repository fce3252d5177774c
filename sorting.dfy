/**
 * Rust's `slice::sort` / `sort_by`: a stable sort that only asks the comparison `lt`
 * (`PartialOrd::lt`, or the closure given to `sort_by`). Modelled by an in-place insertion
 * sort whose result is the functional `InsertionSort` below.
 */
module Sorting {

  /** `lt` is a strict weak order: irreflexive, transitive, and incomparability is
      transitive (stated as negative transitivity). */
  ghost predicate StrictWeakOrder<T(!new)>(lt: (T, T) -> bool) {
    && (forall a :: !lt(a, a))
    && (forall a, b, c :: lt(a, b) && lt(b, c) ==> lt(a, c))
    && (forall a, b, c :: lt(a, c) ==> lt(a, b) || lt(b, c))
  }

  /** No element is less than an element before it. */
  ghost predicate SortedBy<T>(s: seq<T>, lt: (T, T) -> bool) {
    forall i, j :: 0 <= i < j < |s| ==> !lt(s[j], s[i])
  }

  /** Insert `x` after the last element of `p` that it is not less than. */
  function Insert<T>(x: T, p: seq<T>, lt: (T, T) -> bool): (r: seq<T>)
    ensures |r| == |p| + 1
    decreases |p|
  {
    if p == [] then [x]
    else if lt(x, p[|p| - 1]) then Insert(x, p[..|p| - 1], lt) + [p[|p| - 1]]
    else p + [x]
  }

  function InsertionSort<T>(s: seq<T>, lt: (T, T) -> bool): (r: seq<T>)
    ensures |r| == |s|
    decreases |s|
  {
    if s == [] then [] else Insert(s[|s| - 1], InsertionSort(s[..|s| - 1], lt), lt)
  }

  lemma {:induction false} InsertPermutes<T>(x: T, p: seq<T>, lt: (T, T) -> bool)
    ensures multiset(Insert(x, p, lt)) == multiset(p) + multiset{x}
    decreases |p|
  {
    if p != [] && lt(x, p[|p| - 1]) {
      InsertPermutes(x, p[..|p| - 1], lt);
      assert p == p[..|p| - 1] + [p[|p| - 1]];
    }
  }

  /** The sort only reorders: the result is a permutation of the input. */
  lemma {:induction false} InsertionSortPermutes<T>(s: seq<T>, lt: (T, T) -> bool)
    ensures multiset(InsertionSort(s, lt)) == multiset(s)
    decreases |s|
  {
    if s != [] {
      InsertionSortPermutes(s[..|s| - 1], lt);
      InsertPermutes(s[|s| - 1], InsertionSort(s[..|s| - 1], lt), lt);
      assert s == s[..|s| - 1] + [s[|s| - 1]];
    }
  }

  /** The element inserted is not less than anything before it, so nothing after the
      insertion point is less than the last element either. */
  lemma {:induction false} InsertSorted<T(!new)>(x: T, p: seq<T>, lt: (T, T) -> bool)
    requires StrictWeakOrder(lt) && SortedBy(p, lt)
    ensures SortedBy(Insert(x, p, lt), lt)
    decreases |p|
  {
    if p != [] {
      var q := p[..|p| - 1];
      var last := p[|p| - 1];
      if lt(x, last) {
        InsertSorted(x, q, lt);
        InsertPermutes(x, q, lt);
        LastNotLess(x, q, last, lt);
      } else {
        forall k | 0 <= k < |p| ensures !lt(x, p[k]) {
          if k < |p| - 1 {
            assert !lt(last, p[k]);
          }
        }
      }
    }
  }

  lemma LastNotLess<T(!new)>(x: T, q: seq<T>, last: T, lt: (T, T) -> bool)
    requires StrictWeakOrder(lt) && lt(x, last)
    requires SortedBy(q + [last], lt)
    requires SortedBy(Insert(x, q, lt), lt)
    requires multiset(Insert(x, q, lt)) == multiset(q) + multiset{x}
    ensures SortedBy(Insert(x, q, lt) + [last], lt)
  {
    var r' := Insert(x, q, lt);
    var p := q + [last];
    forall i | 0 <= i < |r'| ensures !lt(last, r'[i]) {
      assert r'[i] in multiset(r');
      if r'[i] != x {
        assert r'[i] in multiset(q);
        var k :| 0 <= k < |q| && q[k] == r'[i];
        assert p[k] == q[k] && p[|q|] == last;
      }
    }
  }

  /** For a strict weak order the result is sorted. */
  lemma {:induction false} InsertionSortSorted<T(!new)>(s: seq<T>, lt: (T, T) -> bool)
    requires StrictWeakOrder(lt)
    ensures SortedBy(InsertionSort(s, lt), lt)
    decreases |s|
  {
    if s != [] {
      InsertionSortSorted(s[..|s| - 1], lt);
      InsertSorted(s[|s| - 1], InsertionSort(s[..|s| - 1], lt), lt);
    }
  }

  /** Inserting into an already sorted prefix whose last element `x` is not less than. */
  lemma InsertAtEnd<T>(x: T, p: seq<T>, lt: (T, T) -> bool)
    requires p == [] || !lt(x, p[|p| - 1])
    ensures Insert(x, p, lt) == p + [x]
  {
  }

  /** The sort of a longer prefix inserts the next element into the sort of the shorter. */
  lemma InsertionSortStep<T>(s: seq<T>, k: nat, lt: (T, T) -> bool)
    requires k < |s|
    ensures InsertionSort(s[..k + 1], lt) == Insert(s[k], InsertionSort(s[..k], lt), lt)
  {
    assert s[..k + 1][..k] == s[..k];
  }

  /** Sorting an already sorted sequence leaves it as it is. */
  lemma {:induction false} InsertionSortOfSorted<T>(s: seq<T>, lt: (T, T) -> bool)
    requires SortedBy(s, lt)
    ensures InsertionSort(s, lt) == s
    decreases |s|
  {
    if s != [] {
      var p := s[..|s| - 1];
      assert SortedBy(p, lt);
      InsertionSortOfSorted(p, lt);
      InsertAtEnd(s[|s| - 1], p, lt);
    }
  }

  /** Where `Insert` puts `x`: after `p[..j]`, when `x` is less than every element from `j` on
      and not less than the one before. */
  lemma {:induction false} InsertAt<T>(x: T, p: seq<T>, j: nat, lt: (T, T) -> bool)
    requires j <= |p| && (j == 0 || !lt(x, p[j - 1]))
    requires forall k :: j <= k < |p| ==> lt(x, p[k])
    ensures Insert(x, p, lt) == p[..j] + [x] + p[j..]
    decreases |p|
  {
    if j == |p| {
      assert p[..j] == p && p[j..] == [];
    } else {
      var q := p[..|p| - 1];
      assert q[..j] == p[..j] && q[j..] + [p[|p| - 1]] == p[j..];
      InsertAt(x, q, j, lt);
    }
  }

  /** Move `a[i]` left past the elements of the prefix `a[..i]` that it is less than. */
  method InsertInPlace<T>(a: array<T>, i: nat, lt: (T, T) -> bool)
    requires i < a.Length
    modifies a
    ensures a[..i + 1] == Insert(old(a[i]), old(a[..i]), lt)
    ensures a[i + 1..] == old(a[i + 1..])
  {
    ghost var p := a[..i];
    ghost var tail := a[i + 1..];
    var x := a[i];
    var j := i;
    while j > 0 && lt(a[j], a[j - 1])
      invariant 0 <= j <= i
      invariant forall k :: 0 <= k < j ==> a[k] == p[k]
      invariant a[j] == x
      invariant forall k :: j < k <= i ==> a[k] == p[k - 1]
      invariant forall k :: i < k < a.Length ==> a[k] == tail[k - i - 1]
      invariant forall k :: j <= k < i ==> lt(x, p[k])
    {
      a[j - 1], a[j] := a[j], a[j - 1];
      j := j - 1;
    }
    InsertAt(x, p, j, lt);
    Assemble(a[..], p, x, j, tail);
  }

  /** The array after the loop: the prefix before `j`, then `x`, then the rest of the prefix
      shifted one place right, then the untouched tail. */
  lemma Assemble<T>(s: seq<T>, p: seq<T>, x: T, j: nat, tail: seq<T>)
    requires j <= |p| < |s| && |s| == |p| + 1 + |tail|
    requires forall k :: 0 <= k < j ==> s[k] == p[k]
    requires s[j] == x
    requires forall k :: j < k <= |p| ==> s[k] == p[k - 1]
    requires forall k :: |p| < k < |s| ==> s[k] == tail[k - |p| - 1]
    ensures s[..|p| + 1] == p[..j] + [x] + p[j..]
    ensures s[|p| + 1..] == tail
  {
  }

  /** Sort `a` in place by inserting each element into the sorted prefix before it. */
  method InsertionSortInPlace<T>(a: array<T>, lt: (T, T) -> bool)
    modifies a
    ensures a[..] == InsertionSort(old(a[..]), lt)
  {
    ghost var s := a[..];
    var i := 0;
    while i < a.Length
      invariant 0 <= i <= a.Length
      invariant a[..i] == InsertionSort(s[..i], lt)
      invariant a[i..] == s[i..]
    {
      assert a[i] == s[i];
      InsertInPlace(a, i, lt);
      assert s[..i + 1][..i] == s[..i];
      i := i + 1;
    }
    assert a[..] == a[..a.Length];
    assert s == s[..a.Length];
  }

  /** Two sorted permutations of one another are equal when no two distinct elements are
      incomparable. */
  lemma {:induction false} SortedPermutationsEqual<T(!new)>(s: seq<T>, t: seq<T>, lt: (T, T) -> bool)
    requires forall a, b :: !lt(a, b) && !lt(b, a) ==> a == b
    requires SortedBy(s, lt) && SortedBy(t, lt) && multiset(s) == multiset(t)
    ensures s == t
    decreases |s|
  {
    assert |s| == |multiset(s)| == |multiset(t)| == |t|;
    if s != [] {
      HeadsEqual(s, t, lt);
      assert s == [s[0]] + s[1..];
      assert t == [t[0]] + t[1..];
      calc {
        multiset(s[1..]);
        multiset(s) - multiset{s[0]};
        multiset(t) - multiset{t[0]};
        multiset(t[1..]);
      }
      SortedPermutationsEqual(s[1..], t[1..], lt);
    }
  }

  lemma HeadsEqual<T(!new)>(s: seq<T>, t: seq<T>, lt: (T, T) -> bool)
    requires forall a, b :: !lt(a, b) && !lt(b, a) ==> a == b
    requires SortedBy(s, lt) && SortedBy(t, lt) && multiset(s) == multiset(t)
    requires s != [] && t != []
    ensures s[0] == t[0]
  {
    assert s[0] in multiset(t) && t[0] in multiset(s);
    var k :| 0 <= k < |t| && t[k] == s[0];
    var m :| 0 <= m < |s| && s[m] == t[0];
    if k != 0 && m != 0 {
      assert !lt(t[k], t[0]);
      assert !lt(s[m], s[0]);
    }
  }
}
