/** What the two sorting exercises share: sortedness and permutation of a
    range of an array, and the two library algorithms they call,
    `std::sort` and `std::inplace_merge`, given here by value-level reference
    definitions and written back into the array. */
module Sorting {
  /** `data_t`, an `unsigned long long`. */
  type DataT = x: int | 0 <= x < 0x1_0000_0000_0000_0000

  predicate Sorted(s: seq<DataT>)
  {
    forall i, j :: 0 <= i < j < |s| ==> s[i] <= s[j]
  }

  predicate AllAtLeast(s: seq<DataT>, h: int)
  {
    forall k :: 0 <= k < |s| ==> h <= s[k]
  }

  predicate AllAtMost(s: seq<DataT>, h: int)
  {
    forall k :: 0 <= k < |s| ==> s[k] <= h
  }

  /** `t` is `s` with the range `[lo, hi)` permuted and everything else kept. */
  predicate PermRange(s: seq<DataT>, t: seq<DataT>, lo: int, hi: int)
  {
    0 <= lo <= hi <= |s| == |t| &&
    s[..lo] == t[..lo] && s[hi..] == t[hi..] &&
    multiset(s[lo..hi]) == multiset(t[lo..hi])
  }

  /** `t` is `s` with the range `[lo, hi)` sorted. */
  predicate SortedRange(s: seq<DataT>, t: seq<DataT>, lo: int, hi: int)
  {
    PermRange(s, t, lo, hi) && Sorted(t[lo..hi])
  }

  // ---------------------------------------------------------------------------
  // Facts about bounds and permutations
  // ---------------------------------------------------------------------------

  /** Bounds on the elements are bounds on the multiset, so a permutation keeps them. */
  lemma AtLeastPerm(s: seq<DataT>, t: seq<DataT>, h: int)
    requires multiset(s) == multiset(t) && AllAtLeast(s, h)
    ensures AllAtLeast(t, h)
  {
    forall k | 0 <= k < |t|
      ensures h <= t[k]
    {
      assert t[k] in multiset(s);
      var j :| 0 <= j < |s| && s[j] == t[k];
    }
  }

  lemma AtMostPerm(s: seq<DataT>, t: seq<DataT>, h: int)
    requires multiset(s) == multiset(t) && AllAtMost(s, h)
    ensures AllAtMost(t, h)
  {
    forall k | 0 <= k < |t|
      ensures t[k] <= h
    {
      assert t[k] in multiset(s);
      var j :| 0 <= j < |s| && s[j] == t[k];
    }
  }

  lemma PermRangeRefl(s: seq<DataT>, lo: int, hi: int)
    requires 0 <= lo <= hi <= |s|
    ensures PermRange(s, s, lo, hi)
  {
  }

  lemma PermRangeTrans(s: seq<DataT>, t: seq<DataT>, u: seq<DataT>, lo: int, hi: int)
    requires PermRange(s, t, lo, hi) && PermRange(t, u, lo, hi)
    ensures PermRange(s, u, lo, hi)
  {
  }

  /** A permutation of a sub-range is a permutation of any range around it. */
  lemma PermRangeWiden(s: seq<DataT>, t: seq<DataT>, lo: int, hi: int, lo': int, hi': int)
    requires PermRange(s, t, lo, hi) && 0 <= lo' <= lo && hi <= hi' <= |s|
    ensures PermRange(s, t, lo', hi')
  {
    assert s[lo'..hi'] == s[lo'..lo] + s[lo..hi] + s[hi..hi'];
    assert t[lo'..hi'] == t[lo'..lo] + t[lo..hi] + t[hi..hi'];
    assert s[lo'..lo] == s[..lo][lo'..] && t[lo'..lo] == t[..lo][lo'..];
    assert s[hi..hi'] == s[hi..][..hi' - hi] && t[hi..hi'] == t[hi..][..hi' - hi];
    assert s[..lo'] == s[..lo][..lo'] && t[..lo'] == t[..lo][..lo'];
    assert s[hi'..] == s[hi..][hi' - hi..] && t[hi'..] == t[hi..][hi' - hi..];
  }

  /** A permutation of a range keeps every element outside it. */
  lemma PermRangeOutside(s: seq<DataT>, t: seq<DataT>, lo: int, hi: int, k: int)
    requires PermRange(s, t, lo, hi) && 0 <= k < |s| && (k < lo || hi <= k)
    ensures s[k] == t[k]
  {
    if k < lo {
      assert s[k] == s[..lo][k] && t[k] == t[..lo][k];
    } else {
      assert s[k] == s[hi..][k - hi] && t[k] == t[hi..][k - hi];
    }
  }

  /** Exchanging two elements of the range permutes it. */
  lemma SwapPerm(s: seq<DataT>, i: int, j: int, lo: int, hi: int)
    requires 0 <= lo <= i < hi <= |s| && lo <= j < hi
    ensures PermRange(s, s[i := s[j]][j := s[i]], lo, hi)
  {
    var t := s[i := s[j]][j := s[i]];
    assert s[..lo] == t[..lo] && s[hi..] == t[hi..];
    var r, r' := s[lo..hi], t[lo..hi];
    assert r' == r[i - lo := r[j - lo]][j - lo := r[i - lo]];
  }

  // ---------------------------------------------------------------------------
  // std::sort: insertion into a sorted sequence
  // ---------------------------------------------------------------------------

  function Insert(x: DataT, s: seq<DataT>): (r: seq<DataT>)
    decreases |s|
  {
    if s == [] || x <= s[0] then [x] + s else [s[0]] + Insert(x, s[1..])
  }

  /** Insertion adds exactly the one element. */
  lemma {:induction false} InsertPerm(x: DataT, s: seq<DataT>)
    ensures multiset(Insert(x, s)) == multiset(s) + multiset{x}
    decreases |s|
  {
    if !(s == [] || x <= s[0]) {
      InsertPerm(x, s[1..]);
      assert s == [s[0]] + s[1..];
    }
  }

  /** A sorted sequence stays sorted. */
  lemma {:induction false} InsertSorted(x: DataT, s: seq<DataT>)
    requires Sorted(s)
    ensures Sorted(Insert(x, s))
    decreases |s|
  {
    if !(s == [] || x <= s[0]) {
      InsertSorted(x, s[1..]);
      InsertPerm(x, s[1..]);
      assert AllAtLeast(s[1..], s[0]);
      assert AllAtLeast([x], s[0]);
      UnionAtLeast(Insert(x, s[1..]), s[1..], [x], s[0]);
      ConsSorted(s[0], Insert(x, s[1..]));
    }
  }

  lemma UnionAtLeast(m: seq<DataT>, p: seq<DataT>, q: seq<DataT>, h: int)
    requires multiset(m) == multiset(p) + multiset(q) && AllAtLeast(p, h) && AllAtLeast(q, h)
    ensures AllAtLeast(m, h)
  {
    AtLeastPerm(p + q, m, h);
  }

  lemma ConsSorted(h: DataT, m: seq<DataT>)
    requires Sorted(m) && AllAtLeast(m, h)
    ensures Sorted([h] + m)
  {
  }

  /** The reference sort. */
  function SortSeq(s: seq<DataT>): (r: seq<DataT>)
    decreases |s|
  {
    if s == [] then [] else Insert(s[0], SortSeq(s[1..]))
  }

  /** The reference sort returns a sorted permutation. */
  lemma {:induction false} SortSeqCorrect(s: seq<DataT>)
    ensures Sorted(SortSeq(s)) && multiset(SortSeq(s)) == multiset(s)
    decreases |s|
  {
    if s != [] {
      SortSeqCorrect(s[1..]);
      InsertSorted(s[0], SortSeq(s[1..]));
      InsertPerm(s[0], SortSeq(s[1..]));
      assert s == [s[0]] + s[1..];
    }
  }

  // ---------------------------------------------------------------------------
  // std::inplace_merge: merging two sorted sequences
  // ---------------------------------------------------------------------------

  /** Merging takes from the first sequence when the heads are equal, as the
      stable `std::inplace_merge` does. */
  function Merge(x: seq<DataT>, y: seq<DataT>): (r: seq<DataT>)
    ensures |r| == |x| + |y|
    decreases |x| + |y|
  {
    if x == [] then y
    else if y == [] then x
    else if x[0] <= y[0] then [x[0]] + Merge(x[1..], y)
    else [y[0]] + Merge(x, y[1..])
  }

  lemma {:induction false} MergePerm(x: seq<DataT>, y: seq<DataT>)
    ensures multiset(Merge(x, y)) == multiset(x) + multiset(y)
    decreases |x| + |y|
  {
    if x != [] && y != [] {
      if x[0] <= y[0] {
        var t := Merge(x[1..], y);
        assert Merge(x, y) == [x[0]] + t;
        MergePerm(x[1..], y);
        assert x == [x[0]] + x[1..];
        PermStep(x[0], x[1..], x, t, multiset(y));
      } else {
        var t := Merge(x, y[1..]);
        assert Merge(x, y) == [y[0]] + t;
        MergePerm(x, y[1..]);
        assert y == [y[0]] + y[1..];
        PermStep(y[0], y[1..], y, t, multiset(x));
      }
    }
  }

  /** Putting the head taken from `whole` in front of a merge of its tail
      with the other side keeps the multiset. */
  lemma PermStep(h: DataT, rest: seq<DataT>, whole: seq<DataT>, t: seq<DataT>, other: multiset<DataT>)
    requires whole == [h] + rest && multiset(t) == multiset(rest) + other
    ensures multiset([h] + t) == multiset(whole) + other
  {
  }

  /** Merging two sorted sequences gives a sorted sequence. */
  lemma {:induction false} MergeSorted(x: seq<DataT>, y: seq<DataT>)
    requires Sorted(x) && Sorted(y)
    ensures Sorted(Merge(x, y))
    decreases |x| + |y|
  {
    if x != [] && y != [] {
      if x[0] <= y[0] {
        MergeSorted(x[1..], y);
        MergePerm(x[1..], y);
        assert AllAtLeast(x[1..], x[0]) && AllAtLeast(y, x[0]);
        UnionAtLeast(Merge(x[1..], y), x[1..], y, x[0]);
        ConsSorted(x[0], Merge(x[1..], y));
      } else {
        MergeSorted(x, y[1..]);
        MergePerm(x, y[1..]);
        assert AllAtLeast(x, y[0]) && AllAtLeast(y[1..], y[0]);
        UnionAtLeast(Merge(x, y[1..]), x, y[1..], y[0]);
        ConsSorted(y[0], Merge(x, y[1..]));
      }
    }
  }

  // ---------------------------------------------------------------------------
  // The library calls on array ranges
  // ---------------------------------------------------------------------------

  /** Writes `r` over `a[lo..lo + |r|]`. */
  method WriteBack(a: array<DataT>, lo: nat, r: seq<DataT>)
    requires lo + |r| <= a.Length
    modifies a
    ensures a[..] == old(a[..lo]) + r + old(a[lo + |r|..])
  {
    var k := 0;
    while k < |r|
      invariant 0 <= k <= |r|
      invariant forall i :: 0 <= i < a.Length ==> a[i] == if lo <= i < lo + k then r[i - lo] else old(a[i])
    {
      a[lo + k] := r[k];
      k := k + 1;
    }
    ghost var want := old(a[..lo]) + r + old(a[lo + |r|..]);
    forall i | 0 <= i < a.Length
      ensures a[i] == want[i]
    {
      if i < lo {
        assert want[i] == old(a[..lo])[i];
      } else if i < lo + |r| {
        assert want[i] == r[i - lo];
      } else {
        assert want[i] == old(a[lo + |r|..])[i - lo - |r|];
      }
    }
    assert a[..] == want;
  }

  /** Writing a permutation of a range back over it permutes the range. */
  lemma WriteBackPerm(before: seq<DataT>, after: seq<DataT>, lo: int, hi: int, r: seq<DataT>)
    requires 0 <= lo && hi == lo + |r| <= |before|
    requires after == before[..lo] + r + before[hi..]
    requires multiset(r) == multiset(before[lo..hi])
    ensures PermRange(before, after, lo, hi) && after[lo..hi] == r
  {
    assert after[..lo] == before[..lo];
    assert after[lo..hi] == r;
    assert after[hi..] == before[hi..];
  }

  /** `std::sort(a + lo, a + hi)`. */
  method SortRange(a: array<DataT>, lo: nat, hi: nat)
    requires lo <= hi <= a.Length
    modifies a
    ensures PermRange(old(a[..]), a[..], lo, hi) && Sorted(a[lo..hi])
  {
    ghost var before := a[..];
    var r := SortSeq(a[lo..hi]);
    SortSeqCorrect(before[lo..hi]);
    assert |r| == hi - lo by {
      assert |multiset(r)| == |multiset(before[lo..hi])|;
    }
    WriteBack(a, lo, r);
    WriteBackPerm(before, a[..], lo, hi, r);
  }

  /** Writing the merge of two sorted adjacent ranges over them leaves the
      whole range sorted and permuted. */
  lemma MergedRange(before: seq<DataT>, after: seq<DataT>, lo: int, mid: int, hi: int)
    requires 0 <= lo <= mid <= hi <= |before|
    requires Sorted(before[lo..mid]) && Sorted(before[mid..hi])
    requires after == before[..lo] + Merge(before[lo..mid], before[mid..hi]) + before[hi..]
    ensures PermRange(before, after, lo, hi) && Sorted(after[lo..hi])
  {
    var x, y := before[lo..mid], before[mid..hi];
    var m := Merge(x, y);
    MergePerm(x, y);
    MergeSorted(x, y);
    SliceSplit(before, lo, mid, hi);
    WriteBackPerm(before, after, lo, hi, m);
  }

  lemma SliceSplit(s: seq<DataT>, lo: int, mid: int, hi: int)
    requires 0 <= lo <= mid <= hi <= |s|
    ensures s[lo..hi] == s[lo..mid] + s[mid..hi]
    ensures multiset(s[lo..hi]) == multiset(s[lo..mid]) + multiset(s[mid..hi])
  {
  }

  /** `std::inplace_merge(a + lo, a + mid, a + hi)` on two sorted halves. */
  method MergeRange(a: array<DataT>, lo: nat, mid: nat, hi: nat)
    requires lo <= mid <= hi <= a.Length
    requires Sorted(a[lo..mid]) && Sorted(a[mid..hi])
    modifies a
    ensures PermRange(old(a[..]), a[..], lo, hi) && Sorted(a[lo..hi])
  {
    ghost var before := a[..];
    var r := Merge(a[lo..mid], a[mid..hi]);
    WriteBack(a, lo, r);
    MergedRange(before, a[..], lo, mid, hi);
  }

  // ---------------------------------------------------------------------------
  // The task budget: both exercises derive it from the binary logarithm of
  // the thread count
  // ---------------------------------------------------------------------------

  /** 2 to the power `k`. */
  function Pow2(k: nat): (p: nat)
    ensures p >= 1
  {
    if k == 0 then 1 else 2 * Pow2(k - 1)
  }

  /** The integer part of the binary logarithm. */
  function Log2Floor(t: nat): (k: nat)
    requires t >= 1
    ensures Pow2(k) <= t < 2 * Pow2(k)
  {
    if t == 1 then 0 else 1 + Log2Floor(t / 2)
  }
}
