/** The quicksort of the `so5` exercise: a three-value pivot, a Hoare
    partition with two moving pointers, and two task-parallel recursive calls
    on the parts, until the task budget `thread` is used up and `std::sort`
    takes over. The two tasks act on disjoint parts, so they are modelled as
    two calls in sequence. */
module QuickSortSo5 {
  import opened Sorting
  import PpcRandom

  // ---------------------------------------------------------------------------
  // The pivot
  // ---------------------------------------------------------------------------

  /** `std::max(x, y)`. */
  function Max(x: DataT, y: DataT): DataT { if x < y then y else x }

  /** `std::min(x, y)`. */
  function Min(x: DataT, y: DataT): DataT { if y < x then y else x }

  /** `x + y` in `data_t`. */
  function Add(x: DataT, y: DataT): DataT { PpcRandom.Wrap(x + y) }

  /** `x - y` in `data_t`. */
  function Sub(x: DataT, y: DataT): DataT { PpcRandom.Wrap(x - y) }

  /** The pivot as the source computes it from `p1 = data[n / 2]`,
      `p2 = data[0]` and `p3 = data[n - 1]`: with `max = std::max(p2, p3)`,
      `p1 + p2 + p3 - std::max(p1, max) - std::min(p1, max)`. */
  function PivotAsWritten(p1: DataT, p2: DataT, p3: DataT): DataT
  {
    var max := Max(p2, p3);
    Sub(Sub(Add(Add(p1, p2), p3), Max(p1, max)), Min(p1, max))
  }

  /** `std::max(p1, max) + std::min(p1, max)` is `p1 + max`, so what is left
      is the smaller of the two end elements, whatever `p1` is: the middle
      element never takes part. The wrap-arounds cancel. */
  lemma PivotAsWrittenIsMinOfEnds(p1: DataT, p2: DataT, p3: DataT)
    ensures PivotAsWritten(p1, p2, p3) == Min(p2, p3)
  {
    var max := Max(p2, p3);
    SumExact(p1, p2, p3, Max(p1, max), Min(p1, max));
  }

  /** Three values added and two taken away in `data_t` give the exact
      result whenever it is representable: the wrap-arounds of the steps
      cancel. */
  lemma SumExact(x: DataT, y: DataT, z: DataT, big: DataT, small: DataT)
    requires 0 <= x + y + z - big - small < PpcRandom.TWO64
    ensures Sub(Sub(Add(Add(x, y), z), big), small) == x + y + z - big - small
  {
    var T := PpcRandom.TWO64;
    var s1 := Add(x, y);
    var q1 := PpcRandom.WrapOffset(x + y);
    assert s1 == x + y - q1 * T;
    var s2 := Add(s1, z);
    var q2 := PpcRandom.WrapOffset(s1 + z);
    assert s2 == x + y + z - q1 * T - q2 * T;
    var s3 := Sub(s2, big);
    var q3 := PpcRandom.WrapOffset(s2 - big);
    assert s3 == x + y + z - big - q1 * T - q2 * T - q3 * T;
    var s4 := Sub(s3, small);
    var q4 := PpcRandom.WrapOffset(s3 - small);
    assert s4 == x + y + z - big - small - q1 * T - q2 * T - q3 * T - q4 * T;
    var k := q1 + q2 + q3 + q4;
    assert k * T == q1 * T + q2 * T + q3 * T + q4 * T;
    assert s4 == x + y + z - big - small - k * T;
  }

  /** `v` is a median of the three values. */
  predicate IsMedian(v: int, p1: int, p2: int, p3: int)
  {
    (v == p1 && (p2 <= v <= p3 || p3 <= v <= p2)) ||
    (v == p2 && (p1 <= v <= p3 || p3 <= v <= p1)) ||
    (v == p3 && (p1 <= v <= p2 || p2 <= v <= p1))
  }

  /** On `data = [1, 5, 3]` the source picks 1, while the median is 3. */
  lemma PivotAsWrittenIsNotMedian()
    ensures PivotAsWritten(5, 1, 3) == 1 && !IsMedian(1, 5, 1, 3) && IsMedian(3, 5, 1, 3)
  {
    PivotAsWrittenIsMinOfEnds(5, 1, 3);
  }

  /** The median of three as the comment "choosing a better pivot" intends
      it: the sum less the largest and the smallest of all three values, in
      the same wrap-around arithmetic. */
  function MedianOfThree(p1: DataT, p2: DataT, p3: DataT): DataT
  {
    Sub(Sub(Add(Add(p1, p2), p3), Max(p1, Max(p2, p3))), Min(p1, Min(p2, p3)))
  }

  /** The corrected pivot is a median of the three values. */
  lemma MedianOfThreeIsMedian(p1: DataT, p2: DataT, p3: DataT)
    ensures IsMedian(MedianOfThree(p1, p2, p3), p1, p2, p3)
  {
    var big, small := Max(p1, Max(p2, p3)), Min(p1, Min(p2, p3));
    SumExact(p1, p2, p3, big, small);
  }

  // ---------------------------------------------------------------------------
  // The partition
  // ---------------------------------------------------------------------------

  /** The state of the partition of `s[lo .. hi)` with the pointers at `left`
      and `right`: nothing before `left` is above the pivot and nothing after
      `right` is below it. */
  predicate Split(s: seq<DataT>, lo: int, hi: int, left: int, right: int, pivot: DataT)
  {
    0 <= lo <= left <= hi <= |s| && lo - 1 <= right < hi &&
    AllAtMost(s[lo..left], pivot) && AllAtLeast(s[right + 1..hi], pivot)
  }

  /** The state of the partition loop: the range is a permutation of `orig`,
      the pointers have split it, and while they have not crossed an element
      at `above`, not before `left`, is not below the pivot and one at
      `below`, not after `right`, is not above it: these stop the scans. */
  predicate Scanning(s: seq<DataT>, orig: seq<DataT>, lo: int, hi: int, pivot: DataT,
                     left: int, right: int, above: int, below: int)
  {
    PermRange(orig, s, lo, hi) && Split(s, lo, hi, left, right, pivot) &&
    (left <= right ==> left <= above < hi && pivot <= s[above] && lo <= below <= right && s[below] <= pivot)
  }

  /** The partition loop of `quickSort` on `a[lo .. lo + n)`, with `left` and
      `right` the positions `left - data` and `right - data` of the two
      pointers, offset by `lo`. It needs the pivot to occur in the range
      (at `at`), which stops both scans; at the end the pointers have
      crossed. */
  method Partition(a: array<DataT>, lo: nat, n: nat, pivot: DataT, ghost at: nat) returns (left: int, right: int)
    requires lo <= at < lo + n <= a.Length && a[at] == pivot
    modifies a
    ensures PermRange(old(a[..]), a[..], lo, lo + n)
    ensures Split(a[..], lo, lo + n, left, right, pivot) && right < left
  {
    left, right := lo, lo + n - 1;
    ghost var above, below := at, at;
    ScanningStart(a[..], lo, lo + n, pivot, at);
    while left <= right
      invariant Scanning(a[..], old(a[..]), lo, lo + n, pivot, left, right, above, below)
      decreases (lo + n - left) + (right - lo + 1)
    {
      left, right, above, below := PartitionStep(a, lo, lo + n, pivot, left, right, above, below, old(a[..]));
    }
  }

  /** Before the first round nothing has moved and both pointers are at the
      ends of the range; the pivot's own position stops both scans. */
  lemma ScanningStart(s: seq<DataT>, lo: nat, hi: nat, pivot: DataT, at: nat)
    requires lo <= at < hi <= |s| && s[at] == pivot
    ensures Scanning(s, s, lo, hi, pivot, lo, hi - 1, at, at)
  {
    PermRangeRefl(s, lo, hi);
    assert s[lo..lo] == [] && s[hi..hi] == [];
  }

  /** One round of the partition loop: both scans, then the exchange when the
      pointers have not crossed. */
  method PartitionStep(a: array<DataT>, lo: nat, hi: nat, pivot: DataT, left: nat, right: nat,
                       ghost above: nat, ghost below: nat, ghost orig: seq<DataT>)
    returns (left': int, right': int, ghost above': int, ghost below': int)
    requires left <= right && Scanning(a[..], orig, lo, hi, pivot, left, right, above, below)
    modifies a
    ensures Scanning(a[..], orig, lo, hi, pivot, left', right', above', below')
    ensures (hi - left') + (right' - lo) < (hi - left) + (right - lo)
  {
    left' := ScanUp(a, lo, hi, left, right, pivot, above);
    right' := ScanDown(a, lo, hi, left', right, pivot, below);
    above', below' := above, below;
    if left' <= right' {
      Swap(a, lo, hi, left', right', pivot, orig);
      above', below' := right', left';
      left' := left' + 1;
      right' := right' - 1;
    }
  }

  /** `while (*left < pivot) left++;`, stopped at the latest by the element
      `above`, which is not below the pivot. */
  method ScanUp(a: array<DataT>, lo: nat, hi: nat, left: nat, right: int, pivot: DataT, ghost above: nat)
    returns (l: nat)
    requires Split(a[..], lo, hi, left, right, pivot)
    requires left <= above < hi && pivot <= a[above]
    ensures Split(a[..], lo, hi, l, right, pivot)
    ensures left <= l <= above && pivot <= a[l]
  {
    l := left;
    while a[l] < pivot
      invariant left <= l <= above
      invariant Split(a[..], lo, hi, l, right, pivot)
      decreases above - l
    {
      GrowLow(a[..], lo, hi, l, right, pivot);
      l := l + 1;
    }
  }

  /** `while (*right > pivot) right--;`, stopped at the latest by the element
      `below`, which is not above the pivot. */
  method ScanDown(a: array<DataT>, lo: nat, hi: nat, left: nat, right: int, pivot: DataT, ghost below: nat)
    returns (r: int)
    requires Split(a[..], lo, hi, left, right, pivot)
    requires lo <= below <= right && a[below] <= pivot
    ensures Split(a[..], lo, hi, left, r, pivot)
    ensures below <= r <= right && a[r] <= pivot
  {
    r := right;
    while a[r] > pivot
      invariant below <= r <= right
      invariant Split(a[..], lo, hi, left, r, pivot)
      decreases r - below
    {
      GrowHigh(a[..], lo, hi, left, r, pivot);
      r := r - 1;
    }
  }

  /** Passing an element not above the pivot keeps the lower part in order. */
  lemma GrowLow(s: seq<DataT>, lo: int, hi: int, left: int, right: int, pivot: DataT)
    requires Split(s, lo, hi, left, right, pivot) && left < hi && s[left] <= pivot
    ensures Split(s, lo, hi, left + 1, right, pivot)
  {
    assert s[lo..left + 1] == s[lo..left] + [s[left]];
  }

  /** Passing an element not below the pivot keeps the upper part in order. */
  lemma GrowHigh(s: seq<DataT>, lo: int, hi: int, left: int, right: int, pivot: DataT)
    requires Split(s, lo, hi, left, right, pivot) && lo <= right && pivot <= s[right]
    ensures Split(s, lo, hi, left, right - 1, pivot)
  {
    assert s[right..hi] == [s[right]] + s[right + 1..hi];
  }

  /** Exchanging the element at `left`, not below the pivot, with the one at
      `right`, not above it, lets both pointers move on. */
  lemma SwapStep(s: seq<DataT>, lo: int, hi: int, left: int, right: int, pivot: DataT)
    requires Split(s, lo, hi, left, right, pivot) && left <= right < hi
    requires s[right] <= pivot <= s[left]
    ensures var t := s[left := s[right]][right := s[left]];
      Split(t, lo, hi, left + 1, right - 1, pivot) && t[left] <= pivot <= t[right]
  {
    var t := s[left := s[right]][right := s[left]];
    forall k | lo <= k <= left
      ensures t[k] <= pivot
    {
      if k < left {
        assert t[k] == s[k] == s[lo..left][k - lo];
      }
    }
    assert AllAtMost(t[lo..left + 1], pivot);
    forall k | right <= k < hi
      ensures pivot <= t[k]
    {
      if right < k {
        assert t[k] == s[k] == s[right + 1..hi][k - right - 1];
      }
    }
    assert AllAtLeast(t[right..hi], pivot);
  }

  /** The exchange of `*left` and `*right` through `temp`: the element at
      `left`, not below the pivot, and the one at `right`, not above it,
      change places, so both pointers can move on; a range that was a
      permutation of `orig` stays one. */
  method Swap(a: array<DataT>, lo: nat, hi: nat, left: nat, right: nat, pivot: DataT, ghost orig: seq<DataT>)
    requires Split(a[..], lo, hi, left, right, pivot) && left <= right < hi
    requires a[right] <= pivot <= a[left] && PermRange(orig, a[..], lo, hi)
    modifies a
    ensures Split(a[..], lo, hi, left + 1, right - 1, pivot) && a[left] <= pivot <= a[right]
    ensures PermRange(orig, a[..], lo, hi)
  {
    SwapPerm(a[..], left, right, lo, hi);
    SwapStep(a[..], lo, hi, left, right, pivot);
    var temp := a[left];
    a[left] := a[right];
    a[right] := temp;
    assert a[..] == old(a[..])[left := old(a[right])][right := old(a[left])];
    PermRangeTrans(orig, old(a[..]), a[..], lo, hi);
  }

  // ---------------------------------------------------------------------------
  // The recursion
  // ---------------------------------------------------------------------------

  /** The pivot as written, the smaller of the first and last elements of
      `s[lo .. lo + n)`, occurs in that range, which stops both scans of the
      partition. */
  lemma PivotOccurs(s: seq<DataT>, lo: nat, n: nat) returns (at: nat)
    requires 1 <= n && lo + n <= |s|
    ensures lo <= at < lo + n && s[at] == PivotAsWritten(s[lo + n / 2], s[lo], s[lo + n - 1])
  {
    PivotAsWrittenIsMinOfEnds(s[lo + n / 2], s[lo], s[lo + n - 1]);
    at := if s[lo] <= s[lo + n - 1] then lo else lo + n - 1;
  }

  /** The corrected pivot, the median of the middle, first and last elements,
      occurs in the range too, so the partition and the recursion, which are
      proved for any pivot that occurs in the range, sort with it as well. */
  lemma MedianOccurs(s: seq<DataT>, lo: nat, n: nat) returns (at: nat)
    requires 1 <= n && lo + n <= |s|
    ensures lo <= at < lo + n && s[at] == MedianOfThree(s[lo + n / 2], s[lo], s[lo + n - 1])
  {
    var p1, p2, p3 := s[lo + n / 2], s[lo], s[lo + n - 1];
    MedianOfThreeIsMedian(p1, p2, p3);
    var pivot := MedianOfThree(p1, p2, p3);
    at := if pivot == p1 then lo + n / 2 else if pivot == p2 then lo else lo + n - 1;
  }

  /** `quickSort(thread, n, a + lo)`, with the pivot as the source computes it. */
  method QuickSort(thread: int, a: array<DataT>, lo: nat, n: nat)
    requires lo + n <= a.Length
    modifies a
    ensures SortedRange(old(a[..]), a[..], lo, lo + n)
    decreases thread, 1
  {
    if n < 2 {
      PermRangeRefl(a[..], lo, lo + n);
      return;
    }
    if thread <= 0 {
      SortRange(a, lo, lo + n);
      return;
    }
    var pivot := PivotAsWritten(a[lo + n / 2], a[lo], a[lo + n - 1]);
    ghost var at := PivotOccurs(a[..], lo, n);
    var left, right := Partition(a, lo, n, pivot, at);
    SortParts(thread, a, lo, n, left, right, pivot, old(a[..]));
  }

  /** The two tasks that sort the parts left by the partition: the one up to
      `right` and the one from `left`. A range that was a permutation of
      `orig` ends as `orig` with the range sorted. */
  method SortParts(thread: int, a: array<DataT>, lo: nat, n: nat, left: int, right: int, pivot: DataT,
                   ghost orig: seq<DataT>)
    requires thread > 0 && lo + n <= a.Length
    requires PermRange(orig, a[..], lo, lo + n)
    requires Split(a[..], lo, lo + n, left, right, pivot) && right < left
    modifies a
    ensures SortedRange(orig, a[..], lo, lo + n)
    decreases thread, 0
  {
    ghost var a1 := a[..];
    assert lo + (right - lo + 1) == right + 1;
    QuickSort(thread - 1, a, lo, right - lo + 1);
    ghost var a2 := a[..];
    assert left + (lo + n - left) == lo + n;
    QuickSort(thread - 1, a, left, lo + n - left);
    PartsSorted(orig, a1, a2, a[..], lo, n, left, right, pivot);
  }

  /** After the partition and the sorts of both parts the range is sorted and
      permuted: the left part holds no element above the pivot, the right
      part none below it, and the elements between them equal the pivot. */
  lemma PartsSorted(a0: seq<DataT>, a1: seq<DataT>, a2: seq<DataT>, a3: seq<DataT>,
                    lo: nat, n: nat, left: int, right: int, pivot: DataT)
    requires lo <= left <= lo + n && lo - 1 <= right < lo + n && right < left
    requires PermRange(a0, a1, lo, lo + n)
    requires Split(a1, lo, lo + n, left, right, pivot)
    requires SortedRange(a1, a2, lo, right + 1) && SortedRange(a2, a3, left, lo + n)
    ensures SortedRange(a0, a3, lo, lo + n)
  {
    PartsPerm(a0, a1, a2, a3, lo, n, left, right);
    LeftPartBound(a1, a2, a3, lo, n, left, right, pivot);
    RightPartBound(a1, a2, a3, lo, n, left, right, pivot);
    BetweenIsPivot(a1, a2, a3, lo, n, left, right, pivot);
    SortedAround(a3, lo, right, left, lo + n, pivot);
  }

  /** The elements the pointers stepped over together, between `right` and
      `left`, are neither above nor below the pivot, and neither part's sort
      moves them. */
  lemma BetweenIsPivot(a1: seq<DataT>, a2: seq<DataT>, a3: seq<DataT>,
                       lo: nat, n: nat, left: int, right: int, pivot: DataT)
    requires right < left && Split(a1, lo, lo + n, left, right, pivot)
    requires PermRange(a1, a2, lo, right + 1) && PermRange(a2, a3, left, lo + n)
    ensures forall k :: right < k < left ==> a3[k] == pivot
  {
    forall k | right < k < left
      ensures a3[k] == pivot
    {
      assert a1[k] == a1[lo..left][k - lo] == a1[right + 1..lo + n][k - right - 1];
      PermRangeOutside(a1, a2, lo, right + 1, k);
      PermRangeOutside(a2, a3, left, lo + n, k);
    }
  }

  /** Permuting the range and then each part permutes the range. */
  lemma PartsPerm(a0: seq<DataT>, a1: seq<DataT>, a2: seq<DataT>, a3: seq<DataT>,
                  lo: nat, n: nat, left: int, right: int)
    requires lo <= left <= lo + n && lo - 1 <= right < lo + n
    requires PermRange(a0, a1, lo, lo + n)
    requires PermRange(a1, a2, lo, right + 1) && PermRange(a2, a3, left, lo + n)
    ensures PermRange(a0, a3, lo, lo + n)
  {
    var hi := lo + n;
    PermThenInner(a0, a1, a2, lo, hi, lo, right + 1);
    PermThenInner(a0, a2, a3, lo, hi, left, hi);
  }

  /** A permutation of a range followed by one of a sub-range permutes the range. */
  lemma PermThenInner(s: seq<DataT>, t: seq<DataT>, u: seq<DataT>, lo: int, hi: int, lo': int, hi': int)
    requires PermRange(s, t, lo, hi) && PermRange(t, u, lo', hi') && lo <= lo' && hi' <= hi
    ensures PermRange(s, u, lo, hi)
  {
    PermRangeWiden(t, u, lo', hi', lo, hi);
    PermRangeTrans(s, t, u, lo, hi);
  }

  /** Sorting the left part keeps it at most the pivot, and sorting the right
      part leaves it alone. */
  lemma LeftPartBound(a1: seq<DataT>, a2: seq<DataT>, a3: seq<DataT>,
                      lo: nat, n: nat, left: int, right: int, pivot: DataT)
    requires lo <= left <= lo + n && lo - 1 <= right < lo + n && right < left
    requires PermRange(a1, a2, lo, right + 1) && PermRange(a2, a3, left, lo + n)
    requires AllAtMost(a1[lo..left], pivot)
    ensures AllAtMost(a3[lo..right + 1], pivot)
    ensures a3[lo..right + 1] == a2[lo..right + 1]
  {
    forall k | lo <= k <= right
      ensures a1[k] <= pivot
    {
      assert a1[k] == a1[lo..left][k - lo];
    }
    assert AllAtMost(a1[lo..right + 1], pivot);
    AtMostPerm(a1[lo..right + 1], a2[lo..right + 1], pivot);
    forall k | lo <= k <= right
      ensures a3[k] == a2[k]
    {
      PermRangeOutside(a2, a3, left, lo + n, k);
    }
    assert a3[lo..right + 1] == a2[lo..right + 1];
  }

  /** Sorting the left part leaves the right part alone, and sorting the
      right part keeps it at least the pivot. */
  lemma RightPartBound(a1: seq<DataT>, a2: seq<DataT>, a3: seq<DataT>,
                       lo: nat, n: nat, left: int, right: int, pivot: DataT)
    requires lo <= left <= lo + n && lo - 1 <= right < lo + n && right < left
    requires PermRange(a1, a2, lo, right + 1) && PermRange(a2, a3, left, lo + n)
    requires AllAtLeast(a1[right + 1..lo + n], pivot)
    ensures AllAtLeast(a3[left..lo + n], pivot)
  {
    forall k | left <= k < lo + n
      ensures pivot <= a2[k]
    {
      PermRangeOutside(a1, a2, lo, right + 1, k);
      assert a1[k] == a1[right + 1..lo + n][k - right - 1];
    }
    assert AllAtLeast(a2[left..lo + n], pivot);
    AtLeastPerm(a2[left..lo + n], a3[left..lo + n], pivot);
  }

  /** A sorted part with no element above `pivot`, then copies of `pivot`,
      then a sorted part with no element below it, are sorted together. */
  lemma SortedAround(s: seq<DataT>, lo: int, right: int, left: int, hi: int, pivot: int)
    requires 0 <= lo <= right + 1 <= left <= hi <= |s|
    requires Sorted(s[lo..right + 1]) && AllAtMost(s[lo..right + 1], pivot)
    requires Sorted(s[left..hi]) && AllAtLeast(s[left..hi], pivot)
    requires forall k :: right < k < left ==> s[k] == pivot
    ensures Sorted(s[lo..hi])
  {
    forall i, j | lo <= i < j < hi
      ensures s[i] <= s[j]
    {
      if j <= right {
        assert s[i] == s[lo..right + 1][i - lo] && s[j] == s[lo..right + 1][j - lo];
      } else if left <= i {
        assert s[i] == s[left..hi][i - left] && s[j] == s[left..hi][j - left];
      } else {
        if i <= right {
          assert s[i] == s[lo..right + 1][i - lo];
        }
        if left <= j {
          assert s[j] == s[left..hi][j - left];
        }
      }
    }
  }

  /** `psort(n, data)`: the whole array ends sorted and permuted. */
  method PSort(a: array<DataT>, maxThreads: nat)
    requires maxThreads >= 1
    modifies a
    ensures multiset(a[..]) == multiset(old(a[..])) && Sorted(a[..])
  {
    QuickSort(Budget(maxThreads), a, 0, a.Length);
    assert a[..] == a[0..a.Length];
    assert old(a[..]) == old(a[..])[0..a.Length];
  }

  /** `static_cast<int>(std::log2(threads) * 2)`, the integer part of
      `2 log2(threads)`, which is the integer part of `log2(threads^2)`. */
  function Budget(threads: nat): (t: nat)
    requires threads >= 1
    ensures Pow2(t) <= threads * threads < 2 * Pow2(t)
  {
    Log2Floor(threads * threads)
  }
}
