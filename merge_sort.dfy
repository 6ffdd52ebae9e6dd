/** The merge sort of the `so4` exercise: a task-parallel recursion that
    halves the range until its task counter is used up, sorts the pieces with
    `std::sort` and merges them back with `std::inplace_merge`. The two tasks
    of a level act on disjoint halves and are waited for before the merge,
    so they are modelled as two calls in sequence. */
module MergeSortSo4 {
  import opened Sorting

  /** `(n + 1) / 2`: the left part holds the larger half. */
  function SplitPoint(n: nat): (p: nat)
    ensures p <= n && (2 * p == n || 2 * p == n + 1)
  {
    (n + 1) / 2
  }

  /** `mergeSort(taskCounter, n, a + lo)`. */
  method MergeSort(taskCounter: int, a: array<DataT>, lo: nat, n: nat)
    requires lo + n <= a.Length
    modifies a
    ensures PermRange(old(a[..]), a[..], lo, lo + n) && Sorted(a[lo..lo + n])
    decreases taskCounter, 1
  {
    if taskCounter <= 0 {
      SortRange(a, lo, lo + n);
      return;
    }
    var pivot := SplitPoint(n);
    ghost var a0 := a[..];
    SortHalves(taskCounter, a, lo, pivot, n);
    ghost var a2 := a[..];
    MergeRange(a, lo, lo + pivot, lo + n);
    PermRangeTrans(a0, a2, a[..], lo, lo + n);
  }

  /** The two tasks of one level: each sorts its half of the range with the
      task counter one lower, and both are waited for. */
  method SortHalves(taskCounter: int, a: array<DataT>, lo: nat, pivot: nat, n: nat)
    requires taskCounter > 0 && pivot <= n && lo + n <= a.Length
    modifies a
    ensures PermRange(old(a[..]), a[..], lo, lo + n)
    ensures Sorted(a[lo..lo + pivot]) && Sorted(a[lo + pivot..lo + n])
    decreases taskCounter, 0
  {
    ghost var a0 := a[..];
    MergeSort(taskCounter - 1, a, lo, pivot);
    ghost var a1 := a[..];
    MergeSort(taskCounter - 1, a, lo + pivot, n - pivot);
    HalvesKept(a1, a[..], lo, pivot, n);
    HalvesPermuted(a0, a1, a[..], lo, pivot, n);
  }

  /** Sorting the right half leaves the left half as it was. */
  lemma HalvesKept(a1: seq<DataT>, a2: seq<DataT>, lo: nat, pivot: nat, n: nat)
    requires pivot <= n && PermRange(a1, a2, lo + pivot, lo + n)
    ensures a2[lo..lo + pivot] == a1[lo..lo + pivot]
  {
    assert a2[lo..lo + pivot] == a2[..lo + pivot][lo..];
    assert a1[lo..lo + pivot] == a1[..lo + pivot][lo..];
  }

  /** Permuting the left half and then the right half permutes the whole range. */
  lemma HalvesPermuted(a0: seq<DataT>, a1: seq<DataT>, a2: seq<DataT>, lo: nat, pivot: nat, n: nat)
    requires pivot <= n
    requires PermRange(a0, a1, lo, lo + pivot) && PermRange(a1, a2, lo + pivot, lo + n)
    ensures PermRange(a0, a2, lo, lo + n)
  {
    PermRangeWiden(a0, a1, lo, lo + pivot, lo, lo + n);
    PermRangeWiden(a1, a2, lo + pivot, lo + n, lo, lo + n);
    PermRangeTrans(a0, a1, a2, lo, lo + n);
  }

  /** `psort(n, data)`, with the task counter computed from the thread count. */
  method PSort(a: array<DataT>, maxThreads: nat)
    requires maxThreads >= 1
    modifies a
    ensures multiset(a[..]) == multiset(old(a[..])) && Sorted(a[..])
  {
    MergeSort(TaskCounter(maxThreads), a, 0, a.Length);
    assert a[..] == a[0..a.Length];
    assert old(a[..]) == old(a[..])[0..a.Length];
  }

  /** `static_cast<int>(std::log2(threads)) * 2`. */
  function TaskCounter(threads: nat): (t: nat)
    requires threads >= 1
    ensures t % 2 == 0 && Pow2(t / 2) <= threads < 2 * Pow2(t / 2)
  {
    2 * Log2Floor(threads)
  }
}
