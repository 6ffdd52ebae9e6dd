/** The names under which the profiler knows its measurements (ppc::perf_counters):
    three clock keys every report carries without being asked for, two group-timing
    keys, and the 33 names that may be passed to `add_counter`. */
module PerfCounters {

  // Reported automatically, with or without perf_event_open.
  const WALL_CLOCK := "wall_clock_ns"
  const USR_CLOCK := "time_usr_ns"
  const SYS_CLOCK := "time_sys_ns"

  // Group timing reported alongside the leader's value.
  const TIME_ENABLED := "time_enabled_ns"
  const TIME_RUNNING := "time_running_ns"

  // Hardware events.
  const CYCLES := "cycles"
  const INSTRUCTIONS := "instructions"
  const CACHE_REFS := "cache_refs"
  const CACHE_MISSES := "cache_misses"
  const BRANCHES := "branches"
  const BRANCH_MISSES := "branch_misses"
  const BUS_CYCLES := "bus_cycles"
  const STALLED_FRONTEND := "stalled_frontend"
  const STALLED_BACKEND := "stalled_backend"
  const REF_CPU_CYCLES := "ref_cpu_cycles"

  // Software events.
  const SW_CPU_CLOCK := "cpu_clock"
  const SW_TASK_CLOCK := "task_clock"
  const PAGE_FAULTS := "page_faults"
  const CONTEXT_SWITCHES := "context_switches"
  const CPU_MIGRATIONS := "cpu_migrations"
  const PAGE_FAULTS_MIN := "minor_faults"
  const PAGE_FAULTS_MAJ := "major_faults"
  const ALIGNMENT_FAULTS := "alignment_faults"
  const EMULATION_FAULTS := "emulation_faults"
  const SW_DUMMY_EVENT := "sw_dummy_event"
  const BPF_OUTPUT := "bpf_output"

  // Cache events.
  const L1_READ_REF := "l1_read_refs"
  const L1_READ_MISS := "l1_read_misses"
  const L1_WRITE_REF := "l1_write_refs"
  const L1_WRITE_MISS := "l1_write_misses"
  const L1_PREFETCH_REF := "l1_prefetch_refs"
  const L1_PREFETCH_MISS := "l1_prefetch_misses"
  const L3_READ_REF := "l3_read_refs"
  const L3_READ_MISS := "l3_read_misses"
  const L3_WRITE_REF := "l3_write_refs"
  const L3_WRITE_MISS := "l3_write_misses"
  const L3_PREFETCH_REF := "l3_prefetch_refs"
  const L3_PREFETCH_MISS := "l3_prefetch_misses"

  /** The clock keys every report carries; they need no `add_counter`. */
  const ClockNames: seq<string> := [WALL_CLOCK, USR_CLOCK, SYS_CLOCK]

  /** The two group-timing keys. */
  const GroupTimingNames: seq<string> := [TIME_ENABLED, TIME_RUNNING]

  /** Every key a report may hold besides counter names. */
  const ReservedNames: seq<string> := [WALL_CLOCK, USR_CLOCK, SYS_CLOCK, TIME_ENABLED, TIME_RUNNING]

  const HardwareNames: seq<string> := [
    CYCLES, INSTRUCTIONS, CACHE_REFS, CACHE_MISSES, BRANCHES,
    BRANCH_MISSES, BUS_CYCLES, STALLED_FRONTEND, STALLED_BACKEND, REF_CPU_CYCLES
  ]

  const SoftwareNames: seq<string> := [
    SW_CPU_CLOCK, SW_TASK_CLOCK, PAGE_FAULTS, CONTEXT_SWITCHES, CPU_MIGRATIONS,
    PAGE_FAULTS_MIN, PAGE_FAULTS_MAJ, ALIGNMENT_FAULTS, EMULATION_FAULTS, SW_DUMMY_EVENT,
    BPF_OUTPUT
  ]

  const CacheNames: seq<string> := [
    L1_READ_REF, L1_READ_MISS, L1_WRITE_REF, L1_WRITE_MISS, L1_PREFETCH_REF, L1_PREFETCH_MISS,
    L3_READ_REF, L3_READ_MISS, L3_WRITE_REF, L3_WRITE_MISS, L3_PREFETCH_REF, L3_PREFETCH_MISS
  ]

  /** The names `add_counter` accepts, in declaration order. */
  const AddableNames: seq<string> := HardwareNames + SoftwareNames + CacheNames

  /** All 38 constants of the namespace, in declaration order. */
  const AllNames: seq<string> := ReservedNames + AddableNames

  /** The always-reported keys are exactly the three clock names, followed by the group-timing keys. */
  lemma ClockKeys()
    ensures ReservedNames == ClockNames + GroupTimingNames
    ensures ClockNames == ["wall_clock_ns", "time_usr_ns", "time_sys_ns"]
    ensures GroupTimingNames == ["time_enabled_ns", "time_running_ns"]
  {
  }

  // ---------------------------------------------------------------------------
  // Distinctness
  // ---------------------------------------------------------------------------

  predicate Distinct(s: seq<string>)
  {
    forall i, j :: 0 <= i < j < |s| ==> s[i] != s[j]
  }

  predicate Disjoint(a: seq<string>, b: seq<string>)
  {
    forall i, j :: 0 <= i < |a| && 0 <= j < |b| ==> a[i] != b[j]
  }

  lemma DistinctConcat(a: seq<string>, b: seq<string>)
    requires Distinct(a) && Distinct(b) && Disjoint(a, b)
    ensures Distinct(a + b)
  {
    forall i, j | 0 <= i < j < |a + b| ensures (a + b)[i] != (a + b)[j] {
      if j < |a| {
      } else if i >= |a| {
        assert (a + b)[i] == b[i - |a|] && (a + b)[j] == b[j - |a|];
      } else {
        assert (a + b)[i] == a[i] && (a + b)[j] == b[j - |a|];
      }
    }
  }

  lemma DisjointConcat(a: seq<string>, b: seq<string>, c: seq<string>)
    requires Disjoint(a, c) && Disjoint(b, c)
    ensures Disjoint(a + b, c)
  {
    forall i, j | 0 <= i < |a + b| && 0 <= j < |c| ensures (a + b)[i] != c[j] {
      if i >= |a| {
        assert (a + b)[i] == b[i - |a|];
      }
    }
  }

  lemma DisjointSymmetric(a: seq<string>, b: seq<string>)
    requires Disjoint(a, b)
    ensures Disjoint(b, a)
  {
  }

  /** A cheap fingerprint of a name: its length and two of its characters.
      Names with different fingerprints are different strings. */
  function Fingerprint(s: string): (int, char, char)
  {
    (|s|, CharAt(s, 1), CharAt(s, 6))
  }

  function CharAt(s: string, k: nat): char
  {
    if k < |s| then s[k] else ' '
  }

  lemma Fingerprints()
    ensures Fingerprint(WALL_CLOCK) == (13, 'a', 'l') &&
      Fingerprint(USR_CLOCK) == (11, 'i', 's') &&
      Fingerprint(SYS_CLOCK) == (11, 'i', 'y') &&
      Fingerprint(TIME_ENABLED) == (15, 'i', 'n') &&
      Fingerprint(TIME_RUNNING) == (15, 'i', 'u') &&
      Fingerprint(CYCLES) == (6, 'y', ' ') &&
      Fingerprint(INSTRUCTIONS) == (12, 'n', 'c') &&
      Fingerprint(CACHE_REFS) == (10, 'a', 'r') &&
      Fingerprint(CACHE_MISSES) == (12, 'a', 'm') &&
      Fingerprint(BRANCHES) == (8, 'r', 'e') &&
      Fingerprint(BRANCH_MISSES) == (13, 'r', '_') &&
      Fingerprint(BUS_CYCLES) == (10, 'u', 'c') &&
      Fingerprint(STALLED_FRONTEND) == (16, 't', 'd') &&
      Fingerprint(STALLED_BACKEND) == (15, 't', 'd') &&
      Fingerprint(REF_CPU_CYCLES) == (14, 'e', 'u') &&
      Fingerprint(SW_CPU_CLOCK) == (9, 'p', 'o') &&
      Fingerprint(SW_TASK_CLOCK) == (10, 'a', 'l') &&
      Fingerprint(PAGE_FAULTS) == (11, 'a', 'a') &&
      Fingerprint(CONTEXT_SWITCHES) == (16, 'o', 't') &&
      Fingerprint(CPU_MIGRATIONS) == (14, 'p', 'g') &&
      Fingerprint(PAGE_FAULTS_MIN) == (12, 'i', 'f') &&
      Fingerprint(PAGE_FAULTS_MAJ) == (12, 'a', 'f') &&
      Fingerprint(ALIGNMENT_FAULTS) == (16, 'l', 'e') &&
      Fingerprint(EMULATION_FAULTS) == (16, 'm', 'i') &&
      Fingerprint(SW_DUMMY_EVENT) == (14, 'w', 'm') &&
      Fingerprint(BPF_OUTPUT) == (10, 'p', 't') &&
      Fingerprint(L1_READ_REF) == (12, '1', 'd') &&
      Fingerprint(L1_READ_MISS) == (14, '1', 'd') &&
      Fingerprint(L1_WRITE_REF) == (13, '1', 't') &&
      Fingerprint(L1_WRITE_MISS) == (15, '1', 't') &&
      Fingerprint(L1_PREFETCH_REF) == (16, '1', 'f') &&
      Fingerprint(L1_PREFETCH_MISS) == (18, '1', 'f') &&
      Fingerprint(L3_READ_REF) == (12, '3', 'd') &&
      Fingerprint(L3_READ_MISS) == (14, '3', 'd') &&
      Fingerprint(L3_WRITE_REF) == (13, '3', 't') &&
      Fingerprint(L3_WRITE_MISS) == (15, '3', 't') &&
      Fingerprint(L3_PREFETCH_REF) == (16, '3', 'f') &&
      Fingerprint(L3_PREFETCH_MISS) == (18, '3', 'f')
  {
  }

  lemma ReservedNamesDistinct()
    ensures Distinct(ReservedNames)
  {
    Fingerprints();
  }

  lemma HardwareNamesDistinct()
    ensures Distinct(HardwareNames)
  {
    Fingerprints();
  }

  lemma SoftwareNamesDistinct()
    ensures Distinct(SoftwareNames)
  {
    Fingerprints();
  }

  lemma CacheNamesDistinct()
    ensures Distinct(CacheNames)
  {
    Fingerprints();
  }

  lemma ReservedVsHardware()
    ensures Disjoint(ReservedNames, HardwareNames)
  {
    Fingerprints();
  }

  lemma ReservedVsSoftware()
    ensures Disjoint(ReservedNames, SoftwareNames)
  {
    Fingerprints();
  }

  lemma ReservedVsCache()
    ensures Disjoint(ReservedNames, CacheNames)
  {
    Fingerprints();
  }

  lemma HardwareVsSoftware()
    ensures Disjoint(HardwareNames, SoftwareNames)
  {
    Fingerprints();
  }

  lemma HardwareVsCache()
    ensures Disjoint(HardwareNames, CacheNames)
  {
    Fingerprints();
  }

  lemma SoftwareVsCache()
    ensures Disjoint(SoftwareNames, CacheNames)
  {
    Fingerprints();
  }

  /** The 38 constants are pairwise distinct strings. */
  lemma AllNamesDistinct()
    ensures |AllNames| == 38 && |AddableNames| == 33
    ensures Distinct(AddableNames)
    ensures Distinct(AllNames)
  {
    ReservedNamesDistinct();
    HardwareNamesDistinct();
    SoftwareNamesDistinct();
    CacheNamesDistinct();
    HardwareVsSoftware();
    HardwareVsCache();
    SoftwareVsCache();
    ReservedVsHardware();
    ReservedVsSoftware();
    ReservedVsCache();
    DistinctConcat(HardwareNames, SoftwareNames);
    DisjointConcat(HardwareNames, SoftwareNames, CacheNames);
    DistinctConcat(HardwareNames + SoftwareNames, CacheNames);
    DisjointSymmetric(ReservedNames, HardwareNames);
    DisjointSymmetric(ReservedNames, SoftwareNames);
    DisjointSymmetric(ReservedNames, CacheNames);
    DisjointConcat(HardwareNames, SoftwareNames, ReservedNames);
    DisjointConcat(HardwareNames + SoftwareNames, CacheNames, ReservedNames);
    DisjointSymmetric(AddableNames, ReservedNames);
    DistinctConcat(ReservedNames, AddableNames);
  }

  /** No report key reserved for clocks or group timing is an addable counter name,
      so a counter value can never overwrite a clock entry in a report. */
  lemma ReservedNotAddable(name: string)
    requires name in ReservedNames
    ensures name !in AddableNames
  {
    AllNamesDistinct();
    var i :| 0 <= i < |ReservedNames| && ReservedNames[i] == name;
    forall j | 0 <= j < |AddableNames| ensures AddableNames[j] != name {
      assert AllNames[i] == name && AllNames[|ReservedNames| + j] == AddableNames[j];
    }
  }
}
