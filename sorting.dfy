/** A stable sort driven by a JavaScript-style comparator, as `Array.prototype.sort`
    applies it: `gt(a, b)` says the comparator returned a positive number, so `b`
    must come before `a`. `SortBy` is insertion sort on sequences; `InsertionSort`
    performs it in place on an array. */
module Sorting {

  /** Insert `x` after the trailing elements of `t` that are not greater than it,
      scanning from the right. */
  function Insert<T>(x: T, t: seq<T>, gt: (T, T) -> bool): (r: seq<T>)
    ensures |r| == |t| + 1
  {
    if t == [] || !gt(t[|t| - 1], x) then t + [x]
    else Insert(x, t[..|t| - 1], gt) + [t[|t| - 1]]
  }

  /** Sort by inserting each element, first to last, into the sorted prefix. */
  function SortBy<T>(s: seq<T>, gt: (T, T) -> bool): (r: seq<T>)
    ensures |r| == |s|
  {
    if s == [] then []
    else Insert(s[|s| - 1], SortBy(s[..|s| - 1], gt), gt)
  }

  /** Inserting adds exactly `x`. */
  lemma {:induction false} InsertPermutes<T>(x: T, t: seq<T>, gt: (T, T) -> bool)
    ensures multiset(Insert(x, t, gt)) == multiset(t) + multiset{x}
  {
    if t != [] && gt(t[|t| - 1], x) {
      var init := t[..|t| - 1];
      assert t == init + [t[|t| - 1]];
      InsertPermutes(x, init, gt);
    }
  }

  /** The sort is a permutation of its input. */
  lemma {:induction false} SortByPermutes<T>(s: seq<T>, gt: (T, T) -> bool)
    ensures multiset(SortBy(s, gt)) == multiset(s)
  {
    if s != [] {
      var init := s[..|s| - 1];
      assert s == init + [s[|s| - 1]];
      SortByPermutes(init, gt);
      InsertPermutes(s[|s| - 1], SortBy(init, gt), gt);
    }
  }

  /** Non-decreasing by `key`. */
  ghost predicate SortedBy<T>(s: seq<T>, key: T -> int)
  {
    forall i, j :: 0 <= i < j < |s| ==> key(s[i]) <= key(s[j])
  }

  /** On the elements of `s`, the comparator is the one of subtracting keys. */
  ghost predicate Agrees<T>(s: seq<T>, gt: (T, T) -> bool, key: T -> int)
  {
    forall a, b :: a in s && b in s ==> gt(a, b) == (key(a) > key(b))
  }

  /** The elements of `s` with key `k`, in the order of `s`. */
  function WithKey<T>(s: seq<T>, key: T -> int, k: int): seq<T>
  {
    if s == [] then []
    else WithKey(s[..|s| - 1], key, k) + (if key(s[|s| - 1]) == k then [s[|s| - 1]] else [])
  }

  /** The sort only rearranges: its elements are those of the input. */
  lemma SortByMembers<T>(s: seq<T>, gt: (T, T) -> bool)
    ensures forall a :: a in SortBy(s, gt) ==> a in s
  {
    SortByPermutes(s, gt);
    forall a | a in SortBy(s, gt) ensures a in s {
      assert a in multiset(SortBy(s, gt));
    }
  }

  /** The prefix before the last element still agrees with the comparator, and
      so do the elements of its sorted form against the last element. */
  lemma AgreesInit<T>(s: seq<T>, gt: (T, T) -> bool, key: T -> int)
    requires s != [] && Agrees(s, gt, key)
    ensures Agrees(s[..|s| - 1], gt, key)
    ensures forall a :: a in SortBy(s[..|s| - 1], gt) ==> gt(a, s[|s| - 1]) == (key(a) > key(s[|s| - 1]))
  {
    var init := s[..|s| - 1];
    assert forall a :: a in init ==> a in s;
    SortByMembers(init, gt);
  }

  lemma {:induction false} InsertSorted<T>(x: T, t: seq<T>, gt: (T, T) -> bool, key: T -> int)
    requires SortedBy(t, key)
    requires forall a :: a in t ==> gt(a, x) == (key(a) > key(x))
    ensures SortedBy(Insert(x, t, gt), key)
  {
    if t == [] || !gt(t[|t| - 1], x) {
    } else {
      var init := t[..|t| - 1];
      var last := t[|t| - 1];
      assert forall a :: a in init ==> a in t;
      assert SortedBy(init, key);
      InsertSorted(x, init, gt, key);
      var r := Insert(x, init, gt);
      InsertPermutes(x, init, gt);
      forall a | a in r ensures key(a) <= key(last) {
        assert a in multiset(r);
      }
      assert Insert(x, t, gt) == r + [last];
    }
  }

  /** Where the comparator subtracts keys, the result is ordered by key. */
  lemma {:induction false} SortBySorted<T>(s: seq<T>, gt: (T, T) -> bool, key: T -> int)
    requires Agrees(s, gt, key)
    ensures SortedBy(SortBy(s, gt), key)
  {
    if s != [] {
      AgreesInit(s, gt, key);
      SortBySorted(s[..|s| - 1], gt, key);
      InsertSorted(s[|s| - 1], SortBy(s[..|s| - 1], gt), gt, key);
    }
  }

  lemma {:induction false} WithKeyAppend<T>(a: seq<T>, b: seq<T>, key: T -> int, k: int)
    ensures WithKey(a + b, key, k) == WithKey(a, key, k) + WithKey(b, key, k)
    decreases |b|
  {
    if b == [] {
      assert a + b == a;
    } else {
      assert (a + b)[..|a + b| - 1] == a + b[..|b| - 1];
      WithKeyAppend(a, b[..|b| - 1], key, k);
    }
  }

  lemma WithKeySingle<T>(y: T, key: T -> int, k: int)
    ensures WithKey([y], key, k) == if key(y) == k then [y] else []
  {
    assert [y][..0] == [];
  }

  /** Two elements with different keys can trade places under a key filter. */
  lemma WithKeySwap<T>(a: seq<T>, x: T, y: T, key: T -> int, k: int)
    requires key(x) != key(y)
    ensures WithKey(a, key, k) + WithKey([x], key, k) + WithKey([y], key, k)
         == WithKey(a, key, k) + WithKey([y], key, k) + WithKey([x], key, k)
  {
    WithKeySingle(x, key, k);
    WithKeySingle(y, key, k);
  }

  lemma {:induction false} InsertStable<T>(x: T, t: seq<T>, gt: (T, T) -> bool, key: T -> int, k: int)
    requires forall a :: a in t ==> gt(a, x) == (key(a) > key(x))
    ensures WithKey(Insert(x, t, gt), key, k) == WithKey(t, key, k) + WithKey([x], key, k)
  {
    if t == [] || !gt(t[|t| - 1], x) {
      WithKeyAppend(t, [x], key, k);
    } else {
      var init := t[..|t| - 1];
      var last := t[|t| - 1];
      assert t == init + [last];
      assert forall a :: a in init ==> a in t;
      InsertStable(x, init, gt, key, k);
      var r := Insert(x, init, gt);
      assert Insert(x, t, gt) == r + [last];
      WithKeyAppend(r, [last], key, k);
      WithKeyAppend(init, [last], key, k);
      WithKeySwap(WithKey(init, key, k), x, last, key, k);
      WithKeySwap(init, x, last, key, k);
    }
  }

  /** Where the comparator subtracts keys, the sort is stable: for every key, the
      elements with that key keep their input order. */
  lemma {:induction false} SortByStable<T>(s: seq<T>, gt: (T, T) -> bool, key: T -> int, k: int)
    requires Agrees(s, gt, key)
    ensures WithKey(SortBy(s, gt), key, k) == WithKey(s, key, k)
  {
    if s != [] {
      var init := s[..|s| - 1];
      var x := s[|s| - 1];
      assert init + [x] == s;
      AgreesInit(s, gt, key);
      SortByStable(init, gt, key, k);
      InsertStable(x, SortBy(init, gt), gt, key, k);
      WithKeyAppend(init, [x], key, k);
    }
  }

  /** `Insert` puts `x` between a prefix whose last element is not greater than it
      and a suffix of greater elements. */
  lemma {:induction false} InsertBetween<T>(x: T, p: seq<T>, q: seq<T>, gt: (T, T) -> bool)
    requires p == [] || !gt(p[|p| - 1], x)
    requires forall k :: 0 <= k < |q| ==> gt(q[k], x)
    ensures Insert(x, p + q, gt) == p + [x] + q
    decreases |q|
  {
    if q == [] {
      assert p + q == p;
    } else {
      var init := q[..|q| - 1];
      var last := q[|q| - 1];
      assert gt(last, x);
      var t := p + q;
      assert t[|t| - 1] == last;
      assert t[..|t| - 1] == p + init;
      assert Insert(x, t, gt) == Insert(x, p + init, gt) + [last];
      forall k | 0 <= k < |init| ensures gt(init[k], x) {
        assert init[k] == q[k];
      }
      InsertBetween(x, p, init, gt);
      assert q == init + [last];
    }
  }

  /** A sequence that holds `x` at `j`, the sorted prefix before it and the rest of
      `sorted` shifted up by one after it, where `x` stops after every element that
      is not greater, is what `Insert` builds. */
  lemma PlacedIsInsert<T>(sorted: seq<T>, j: nat, x: T, placed: seq<T>, gt: (T, T) -> bool)
    requires j <= |sorted| && |placed| == |sorted| + 1
    requires forall k :: 0 <= k < j ==> placed[k] == sorted[k]
    requires placed[j] == x
    requires forall k :: j < k < |placed| ==> placed[k] == sorted[k - 1]
    requires forall k :: j <= k < |sorted| ==> gt(sorted[k], x)
    requires j == 0 || !gt(sorted[j - 1], x)
    ensures placed == Insert(x, sorted, gt)
  {
    assert sorted == sorted[..j] + sorted[j..];
    forall k | 0 <= k < |sorted[j..]| ensures gt(sorted[j..][k], x) {
      assert sorted[j..][k] == sorted[j + k];
    }
    InsertBetween(x, sorted[..j], sorted[j..], gt);
    ghost var r := sorted[..j] + [x] + sorted[j..];
    forall k | 0 <= k < |placed| ensures placed[k] == r[k] {
      if k < j {
        assert r[k] == sorted[k];
      } else if k > j {
        assert r[k] == sorted[k - 1];
      }
    }
  }

  /** Move `a[i]` left past the greater elements before it. */
  method InsertAt<T>(a: array<T>, i: nat, gt: (T, T) -> bool)
    requires i < a.Length
    modifies a
    ensures a[..i + 1] == Insert(old(a[i]), old(a[..i]), gt)
    ensures forall k :: i < k < a.Length ==> a[k] == old(a[k])
  {
    ghost var sorted := a[..i];
    var x := a[i];
    var j := i;
    while j > 0 && gt(a[j - 1], x)
      invariant 0 <= j <= i
      invariant forall k :: 0 <= k < j ==> a[k] == sorted[k]
      invariant forall k :: j < k <= i ==> a[k] == sorted[k - 1]
      invariant forall k :: i < k < a.Length ==> a[k] == old(a[k])
      invariant forall k :: j <= k < i ==> gt(sorted[k], x)
    {
      a[j] := a[j - 1];
      j := j - 1;
    }
    a[j] := x;
    PlacedIsInsert(sorted, j, x, a[..i + 1], gt);
  }


  /** The sort of a prefix one longer. */
  lemma SortByStep<T>(s: seq<T>, i: nat, gt: (T, T) -> bool)
    requires i < |s|
    ensures SortBy(s[..i + 1], gt) == Insert(s[i], SortBy(s[..i], gt), gt)
  {
    assert s[..i + 1][..i] == s[..i];
  }

  /** Sort `a` in place: insertion sort, shifting greater elements one place right. */
  method InsertionSort<T>(a: array<T>, gt: (T, T) -> bool)
    modifies a
    ensures a[..] == SortBy(old(a[..]), gt)
  {
    ghost var input := a[..];
    var i := 0;
    assert input[..0] == [];
    while i < a.Length
      invariant 0 <= i <= a.Length
      invariant a[..i] == SortBy(input[..i], gt)
      invariant forall k :: i <= k < a.Length ==> a[k] == input[k]
    {
      ghost var before := a[..i];
      assert a[i] == input[i];
      InsertAt(a, i, gt);
      SortByStep(input, i, gt);
      assert a[..i + 1] == Insert(input[i], before, gt);
      i := i + 1;
    }
    assert input[..a.Length] == input;
    assert a[..] == a[..a.Length];
  }

  /** Sum of `f` over a sequence. */
  function SumBy<T>(s: seq<T>, f: T -> nat): nat
  {
    if s == [] then 0 else f(s[0]) + SumBy(s[1..], f)
  }

  lemma {:induction false} SumByAppend<T>(a: seq<T>, b: seq<T>, f: T -> nat)
    ensures SumBy(a + b, f) == SumBy(a, f) + SumBy(b, f)
  {
    if a != [] {
      assert (a + b)[1..] == a[1..] + b;
      SumByAppend(a[1..], b, f);
    } else {
      assert a + b == b;
    }
  }

  lemma {:induction false} SumByInsert<T>(x: T, t: seq<T>, gt: (T, T) -> bool, f: T -> nat)
    ensures SumBy(Insert(x, t, gt), f) == SumBy(t, f) + f(x)
  {
    if t == [] || !gt(t[|t| - 1], x) {
      SumByAppend(t, [x], f);
    } else {
      var init := t[..|t| - 1];
      var last := t[|t| - 1];
      assert t == init + [last];
      SumByInsert(x, init, gt, f);
      SumByAppend(Insert(x, init, gt), [last], f);
      SumByAppend(init, [last], f);
    }
  }

  /** Sorting does not change a sum over the elements. */
  lemma {:induction false} SumBySortBy<T>(s: seq<T>, gt: (T, T) -> bool, f: T -> nat)
    ensures SumBy(SortBy(s, gt), f) == SumBy(s, f)
  {
    if s != [] {
      var init := s[..|s| - 1];
      assert init + [s[|s| - 1]] == s;
      SumBySortBy(init, gt, f);
      SumByInsert(s[|s| - 1], SortBy(init, gt), gt, f);
      SumByAppend(init, [s[|s| - 1]], f);
    }
  }

  /** `s.map(f)`. */
  function MapSeq<T, U>(s: seq<T>, f: T -> U): (r: seq<U>)
    ensures |r| == |s|
    ensures forall i :: 0 <= i < |s| ==> r[i] == f(s[i])
  {
    if s == [] then [] else [f(s[0])] + MapSeq(s[1..], f)
  }

  lemma MapSeqAppend<T, U>(a: seq<T>, b: seq<T>, f: T -> U)
    ensures MapSeq(a + b, f) == MapSeq(a, f) + MapSeq(b, f)
  {
    var l := MapSeq(a + b, f);
    var r := MapSeq(a, f) + MapSeq(b, f);
    assert |l| == |r|;
    forall i | 0 <= i < |l| ensures l[i] == r[i] {
      if i < |a| {
        assert (a + b)[i] == a[i];
      } else {
        assert (a + b)[i] == b[i - |a|];
      }
    }
  }

  lemma {:induction false} MapSeqInsert<T, U>(x: T, t: seq<T>, gt: (T, T) -> bool, f: T -> U)
    ensures multiset(MapSeq(Insert(x, t, gt), f)) == multiset(MapSeq(t, f)) + multiset{f(x)}
  {
    if t == [] || !gt(t[|t| - 1], x) {
      MapSeqAppend(t, [x], f);
    } else {
      var init := t[..|t| - 1];
      var last := t[|t| - 1];
      assert t == init + [last];
      MapSeqInsert(x, init, gt, f);
      MapSeqAppend(Insert(x, init, gt), [last], f);
      MapSeqAppend(init, [last], f);
    }
  }

  /** Sorting rearranges any projection of the elements. */
  lemma {:induction false} MapSeqSortBy<T, U>(s: seq<T>, gt: (T, T) -> bool, f: T -> U)
    ensures multiset(MapSeq(SortBy(s, gt), f)) == multiset(MapSeq(s, f))
  {
    if s != [] {
      var init := s[..|s| - 1];
      assert s == init + [s[|s| - 1]];
      MapSeqSortBy(init, gt, f);
      MapSeqInsert(s[|s| - 1], SortBy(init, gt), gt, f);
      MapSeqAppend(init, [s[|s| - 1]], f);
    }
  }
}
