/** The event catalog (ppc::detail::get_event_info_mapping, get_event_info,
    FillInVisitor, fill_in): each addable counter name maps to a perf event
    type and a config value in the layout of the perf_event_open ABI. */
module EventMapping {
  import opened PerfCounters
  import opened LinuxPerf
  import opened CppErrors
  import opened Strs

  // perf_hw_id
  datatype HwId =
    | CpuCycles | Instructions | CacheReferences | CacheMisses | BranchInstructions
    | BranchMisses | BusCycles | StalledCyclesFrontend | StalledCyclesBackend | RefCpuCycles

  function HwCode(h: HwId): bv64
  {
    match h
    case CpuCycles => 0
    case Instructions => 1
    case CacheReferences => 2
    case CacheMisses => 3
    case BranchInstructions => 4
    case BranchMisses => 5
    case BusCycles => 6
    case StalledCyclesFrontend => 7
    case StalledCyclesBackend => 8
    case RefCpuCycles => 9
  }

  // perf_sw_ids
  datatype SwId =
    | CpuClock | TaskClock | PageFaults | ContextSwitches | CpuMigrations | PageFaultsMin
    | PageFaultsMaj | AlignmentFaults | EmulationFaults | Dummy | BpfOutput

  function SwCode(s: SwId): bv64
  {
    match s
    case CpuClock => 0
    case TaskClock => 1
    case PageFaults => 2
    case ContextSwitches => 3
    case CpuMigrations => 4
    case PageFaultsMin => 5
    case PageFaultsMaj => 6
    case AlignmentFaults => 7
    case EmulationFaults => 8
    case Dummy => 9
    case BpfOutput => 10
  }

  // perf_hw_cache_id, perf_hw_cache_op_id, perf_hw_cache_op_result_id
  datatype CacheId = L1D | L1I | LL | DTLB | ITLB | BPU | Node
  datatype CacheOp = OpRead | OpWrite | OpPrefetch
  datatype CacheResult = ResultAccess | ResultMiss

  function CacheCode(c: CacheId): bv64
  {
    match c
    case L1D => 0
    case L1I => 1
    case LL => 2
    case DTLB => 3
    case ITLB => 4
    case BPU => 5
    case Node => 6
  }

  function OpCode(o: CacheOp): bv64
  {
    match o
    case OpRead => 0
    case OpWrite => 1
    case OpPrefetch => 2
  }

  function ResultCode(r: CacheResult): bv64
  {
    match r
    case ResultAccess => 0
    case ResultMiss => 1
  }

  datatype CacheEventConfig = CacheEventConfig(cache: CacheId, op: CacheOp, result: CacheResult)

  /** The variant `std::variant<perf_hw_id, cache_event_config, perf_sw_ids>`. */
  datatype EventConfig = Hw(hw: HwId) | Cache(cache: CacheEventConfig) | Sw(sw: SwId)

  datatype EventInfo = EventInfo(type_: bv32, config: EventConfig)

  /** The variant alternative agrees with the event type. */
  predicate WellTyped(info: EventInfo)
  {
    match info.config
    case Hw(_) => info.type_ == PERF_TYPE_HARDWARE
    case Sw(_) => info.type_ == PERF_TYPE_SOFTWARE
    case Cache(_) => info.type_ == PERF_TYPE_HW_CACHE
  }

  function HwEvent(h: HwId): EventInfo { EventInfo(PERF_TYPE_HARDWARE, Hw(h)) }
  function SwEvent(s: SwId): EventInfo { EventInfo(PERF_TYPE_SOFTWARE, Sw(s)) }
  function CacheEvent(c: CacheId, o: CacheOp, r: CacheResult): EventInfo
  {
    EventInfo(PERF_TYPE_HW_CACHE, Cache(CacheEventConfig(c, o, r)))
  }

  datatype Entry = Entry(name: string, info: EventInfo)

  /** The hardware part of the catalog, in the order the source lists it. */
  const HardwareEvents: seq<Entry> := [
    Entry(CYCLES, HwEvent(CpuCycles)),
    Entry(INSTRUCTIONS, HwEvent(Instructions)),
    Entry(CACHE_REFS, HwEvent(CacheReferences)),
    Entry(CACHE_MISSES, HwEvent(CacheMisses)),
    Entry(BRANCHES, HwEvent(BranchInstructions)),
    Entry(BRANCH_MISSES, HwEvent(BranchMisses)),
    Entry(BUS_CYCLES, HwEvent(BusCycles)),
    Entry(STALLED_FRONTEND, HwEvent(StalledCyclesFrontend)),
    Entry(STALLED_BACKEND, HwEvent(StalledCyclesBackend)),
    Entry(REF_CPU_CYCLES, HwEvent(RefCpuCycles))
  ]

  /** The software part of the catalog. */
  const SoftwareEvents: seq<Entry> := [
    Entry(SW_CPU_CLOCK, SwEvent(CpuClock)),
    Entry(SW_TASK_CLOCK, SwEvent(TaskClock)),
    Entry(PAGE_FAULTS, SwEvent(PageFaults)),
    Entry(CONTEXT_SWITCHES, SwEvent(ContextSwitches)),
    Entry(CPU_MIGRATIONS, SwEvent(CpuMigrations)),
    Entry(PAGE_FAULTS_MIN, SwEvent(PageFaultsMin)),
    Entry(PAGE_FAULTS_MAJ, SwEvent(PageFaultsMaj)),
    Entry(ALIGNMENT_FAULTS, SwEvent(AlignmentFaults)),
    Entry(EMULATION_FAULTS, SwEvent(EmulationFaults)),
    Entry(SW_DUMMY_EVENT, SwEvent(Dummy)),
    Entry(BPF_OUTPUT, SwEvent(BpfOutput))
  ]

  /** The cache part of the catalog. */
  const CacheEvents: seq<Entry> := [
    Entry(L1_READ_REF, CacheEvent(L1D, OpRead, ResultAccess)),
    Entry(L1_READ_MISS, CacheEvent(L1D, OpRead, ResultMiss)),
    Entry(L1_WRITE_REF, CacheEvent(L1D, OpWrite, ResultAccess)),
    Entry(L1_WRITE_MISS, CacheEvent(L1D, OpWrite, ResultMiss)),
    Entry(L1_PREFETCH_REF, CacheEvent(L1D, OpPrefetch, ResultAccess)),
    Entry(L1_PREFETCH_MISS, CacheEvent(L1D, OpPrefetch, ResultMiss)),
    Entry(L3_READ_REF, CacheEvent(LL, OpRead, ResultAccess)),
    Entry(L3_READ_MISS, CacheEvent(LL, OpRead, ResultMiss)),
    Entry(L3_WRITE_REF, CacheEvent(LL, OpWrite, ResultAccess)),
    Entry(L3_WRITE_MISS, CacheEvent(LL, OpWrite, ResultMiss)),
    Entry(L3_PREFETCH_REF, CacheEvent(LL, OpPrefetch, ResultAccess)),
    Entry(L3_PREFETCH_MISS, CacheEvent(LL, OpPrefetch, ResultMiss))
  ]

  /** The catalog. */
  const Mapping: seq<Entry> := HardwareEvents + SoftwareEvents + CacheEvents

  function Names(table: seq<Entry>): (r: seq<string>)
    ensures |r| == |table|
    ensures forall i :: 0 <= i < |table| ==> r[i] == table[i].name
  {
    if table == [] then [] else [table[0].name] + Names(table[1..])
  }

  /** Number of catalog entries of the given event type. */
  function CountType(table: seq<Entry>, t: bv32): (n: nat)
    ensures n <= |table|
  {
    if table == [] then 0
    else (if table[0].info.type_ == t then 1 else 0) + CountType(table[1..], t)
  }

  lemma {:induction false} CountTypeConcat(a: seq<Entry>, b: seq<Entry>, t: bv32)
    ensures CountType(a + b, t) == CountType(a, t) + CountType(b, t)
    decreases |a|
  {
    if a == [] {
      assert a + b == b;
    } else {
      CountTypeConcat(a[1..], b, t);
      assert (a + b)[1..] == a[1..] + b;
    }
  }

  lemma {:induction false} CountTypeUniform(table: seq<Entry>, t: bv32, u: bv32)
    requires forall i :: 0 <= i < |table| ==> table[i].info.type_ == u
    ensures CountType(table, t) == if t == u then |table| else 0
    decreases |table|
  {
    if table != [] {
      CountTypeUniform(table[1..], t, u);
    }
  }

  lemma {:induction false} NamesConcat(a: seq<Entry>, b: seq<Entry>)
    ensures Names(a + b) == Names(a) + Names(b)
  {
  }

  lemma HardwareEventNames() ensures Names(HardwareEvents) == HardwareNames {}
  lemma SoftwareEventNames() ensures Names(SoftwareEvents) == SoftwareNames {}
  lemma CacheEventNames() ensures Names(CacheEvents) == CacheNames {}

  /** The keys of the catalog are exactly the addable counter names, in order. */
  lemma MappingNames()
    ensures |Mapping| == 33
    ensures Names(Mapping) == AddableNames
  {
    HardwareEventNames();
    SoftwareEventNames();
    CacheEventNames();
    NamesConcat(HardwareEvents, SoftwareEvents);
    NamesConcat(HardwareEvents + SoftwareEvents, CacheEvents);
  }

  /** Ten hardware events, eleven software events and twelve cache events. */
  lemma MappingTypeCounts()
    ensures CountType(Mapping, PERF_TYPE_HARDWARE) == 10
    ensures CountType(Mapping, PERF_TYPE_SOFTWARE) == 11
    ensures CountType(Mapping, PERF_TYPE_HW_CACHE) == 12
    ensures forall t :: t != PERF_TYPE_HARDWARE && t != PERF_TYPE_SOFTWARE && t != PERF_TYPE_HW_CACHE ==>
              CountType(Mapping, t) == 0
  {
    forall t: bv32 ensures CountType(Mapping, t) == CountType(HardwareEvents, t) + CountType(SoftwareEvents, t) + CountType(CacheEvents, t) {
      CountTypeConcat(HardwareEvents + SoftwareEvents, CacheEvents, t);
      CountTypeConcat(HardwareEvents, SoftwareEvents, t);
    }
    forall t: bv32 ensures CountType(HardwareEvents, t) == if t == PERF_TYPE_HARDWARE then 10 else 0 {
      CountTypeUniform(HardwareEvents, t, PERF_TYPE_HARDWARE);
    }
    forall t: bv32 ensures CountType(SoftwareEvents, t) == if t == PERF_TYPE_SOFTWARE then 11 else 0 {
      CountTypeUniform(SoftwareEvents, t, PERF_TYPE_SOFTWARE);
    }
    forall t: bv32 ensures CountType(CacheEvents, t) == if t == PERF_TYPE_HW_CACHE then 12 else 0 {
      CountTypeUniform(CacheEvents, t, PERF_TYPE_HW_CACHE);
    }
  }

  lemma PartsWellTyped()
    ensures forall i :: 0 <= i < |HardwareEvents| ==> WellTyped(HardwareEvents[i].info)
    ensures forall i :: 0 <= i < |SoftwareEvents| ==> WellTyped(SoftwareEvents[i].info)
    ensures forall i :: 0 <= i < |CacheEvents| ==> WellTyped(CacheEvents[i].info)
  {
  }

  /** Every catalog entry pairs its type with the matching variant alternative. */
  lemma MappingWellTyped()
    ensures forall i :: 0 <= i < |Mapping| ==> WellTyped(Mapping[i].info)
  {
    PartsWellTyped();
    var h, s := |HardwareEvents|, |HardwareEvents| + |SoftwareEvents|;
    forall i | 0 <= i < |Mapping| ensures WellTyped(Mapping[i].info) {
      if i < h {
        assert Mapping[i] == HardwareEvents[i];
      } else if i < s {
        assert Mapping[i] == SoftwareEvents[i - h];
      } else {
        assert Mapping[i] == CacheEvents[i - s];
      }
    }
  }

  /** First catalog entry with the given name (the catalog names are distinct,
      so it is the only one). */
  function Find(table: seq<Entry>, name: string): Option<EventInfo>
    decreases |table|
  {
    if table == [] then None
    else if table[0].name == name then Some(table[0].info)
    else Find(table[1..], name)
  }

  /** The lookup finds nothing exactly when the name is not a key, and
      otherwise an entry of the table. */
  lemma {:induction false} FindFound(table: seq<Entry>, name: string)
    ensures Find(table, name).None? <==> name !in Names(table)
    ensures Find(table, name).Some? ==> Entry(name, Find(table, name).value) in table
    decreases |table|
  {
    if table != [] && table[0].name != name {
      FindFound(table[1..], name);
      assert Names(table) == [table[0].name] + Names(table[1..]);
    }
  }

  /** Membership by a scan from the front; it agrees with `in` (ListedIsIn). */
  predicate Listed(names: seq<string>, name: string)
    decreases |names|
  {
    names != [] && (names[0] == name || Listed(names[1..], name))
  }

  lemma {:induction false} ListedIsIn(names: seq<string>, name: string)
    ensures Listed(names, name) <==> name in names
    decreases |names|
  {
    if names != [] {
      ListedIsIn(names[1..], name);
      assert names == [names[0]] + names[1..];
    }
  }

  /** `mapping.at(name)`: the entry of a known name; `std::out_of_range` otherwise. */
  function GetEventInfo(name: string): (r: Result<EventInfo>)
    ensures r.Ok? <==> Listed(AddableNames, name)
    ensures r.Ok? ==> Find(Mapping, name) == Some(r.value) && WellTyped(r.value)
    ensures r.Throw? ==> r.exc == OutOfRange
  {
    ListedIsIn(AddableNames, name);
    MappingNames();
    MappingWellTyped();
    FindFound(Mapping, name);
    match Find(Mapping, name)
    case Some(info) => Ok(info)
    case None => Throw(OutOfRange)
  }

  /** `cache | (op << 8) | (result << 16)`: the three ids occupy separate bytes. */
  function CacheConfig(c: CacheEventConfig): (x: bv64)
    ensures x == CacheCode(c.cache) + 256 * OpCode(c.op) + 65536 * ResultCode(c.result)
    ensures x & 0xff == CacheCode(c.cache)
    ensures (x >> 8) & 0xff == OpCode(c.op)
    ensures x >> 16 == ResultCode(c.result)
  {
    CacheCode(c.cache) | (OpCode(c.op) << 8) | (ResultCode(c.result) << 16)
  }

  /** FillInVisitor: the numeric config of each variant alternative. */
  function ConfigValue(config: EventConfig): bv64
  {
    match config
    case Hw(h) => HwCode(h)
    case Sw(s) => SwCode(s)
    case Cache(c) => CacheConfig(c)
  }

  // Inverse of the numeric id encodings, used to show that no information is lost.

  function HwFromCode(x: bv64): Option<HwId>
  {
    if x == 0 then Some(CpuCycles) else if x == 1 then Some(Instructions)
    else if x == 2 then Some(CacheReferences) else if x == 3 then Some(CacheMisses)
    else if x == 4 then Some(BranchInstructions) else if x == 5 then Some(BranchMisses)
    else if x == 6 then Some(BusCycles) else if x == 7 then Some(StalledCyclesFrontend)
    else if x == 8 then Some(StalledCyclesBackend) else if x == 9 then Some(RefCpuCycles)
    else None
  }

  function SwFromCode(x: bv64): Option<SwId>
  {
    if x == 0 then Some(CpuClock) else if x == 1 then Some(TaskClock)
    else if x == 2 then Some(PageFaults) else if x == 3 then Some(ContextSwitches)
    else if x == 4 then Some(CpuMigrations) else if x == 5 then Some(PageFaultsMin)
    else if x == 6 then Some(PageFaultsMaj) else if x == 7 then Some(AlignmentFaults)
    else if x == 8 then Some(EmulationFaults) else if x == 9 then Some(Dummy)
    else if x == 10 then Some(BpfOutput) else None
  }

  function CacheIdFromCode(x: bv64): Option<CacheId>
  {
    if x == 0 then Some(L1D) else if x == 1 then Some(L1I) else if x == 2 then Some(LL)
    else if x == 3 then Some(DTLB) else if x == 4 then Some(ITLB) else if x == 5 then Some(BPU)
    else if x == 6 then Some(Node) else None
  }

  function OpFromCode(x: bv64): Option<CacheOp>
  {
    if x == 0 then Some(OpRead) else if x == 1 then Some(OpWrite)
    else if x == 2 then Some(OpPrefetch) else None
  }

  function ResultFromCode(x: bv64): Option<CacheResult>
  {
    if x == 0 then Some(ResultAccess) else if x == 1 then Some(ResultMiss) else None
  }

  /** Reads the three bytes of a cache config back into its ids. */
  function DecodeCache(cache: bv64, op: bv64, result: bv64): Option<EventConfig>
  {
    match CacheIdFromCode(cache)
    case None => None
    case Some(c) =>
      match OpFromCode(op)
      case None => None
      case Some(o) =>
        match ResultFromCode(result)
        case None => None
        case Some(r) => Some(Cache(CacheEventConfig(c, o, r)))
  }

  /** Reads a (type, config) pair back into the catalog's variant. */
  function DecodeConfig(t: bv32, x: bv64): Option<EventConfig>
  {
    if t == PERF_TYPE_HARDWARE then
      match HwFromCode(x)
      case Some(h) => Some(Hw(h))
      case None => None
    else if t == PERF_TYPE_SOFTWARE then
      match SwFromCode(x)
      case Some(s) => Some(Sw(s))
      case None => None
    else if t == PERF_TYPE_HW_CACHE then DecodeCache(x & 0xff, (x >> 8) & 0xff, x >> 16)
    else None
  }

  /** The (type, config) pair FillInVisitor produces identifies the event: decoding
      it gives back the catalog's variant, so hardware and software ids pass through
      unchanged and the three cache ids are recovered from their bytes. */
  lemma DecodeConfigValue(info: EventInfo)
    requires WellTyped(info)
    ensures DecodeConfig(info.type_, ConfigValue(info.config)) == Some(info.config)
  {
    match info.config
    case Hw(h) => HwRoundTrip(h);
    case Sw(s) => SwRoundTrip(s);
    case Cache(c) => CacheRoundTrip(c);
  }

  lemma HwRoundTrip(h: HwId)
    ensures HwFromCode(HwCode(h)) == Some(h)
  {
  }

  lemma SwRoundTrip(s: SwId)
    ensures SwFromCode(SwCode(s)) == Some(s)
  {
  }

  lemma CacheRoundTrip(c: CacheEventConfig)
    ensures DecodeConfig(PERF_TYPE_HW_CACHE, CacheConfig(c)) == Some(Cache(c))
  {
    var x := CacheConfig(c);
    var a, b, d := x & 0xff, (x >> 8) & 0xff, x >> 16;
    assert CacheIdFromCode(a) == Some(c.cache);
    assert OpFromCode(b) == Some(c.op);
    assert ResultFromCode(d) == Some(c.result);
    assert DecodeCache(a, b, d) == Some(Cache(c));
  }

  /** Distinct events of one type get distinct configs. */
  lemma ConfigValueInjective(a: EventInfo, b: EventInfo)
    requires WellTyped(a) && WellTyped(b) && a.type_ == b.type_
    requires ConfigValue(a.config) == ConfigValue(b.config)
    ensures a == b
  {
    DecodeConfigValue(a);
    DecodeConfigValue(b);
  }

  /** The twelve cache entries have pairwise distinct configs: they cover
      {L1D, LL} x {read, write, prefetch} x {access, miss} once each. */
  lemma CacheConfigsDistinct()
    ensures forall i, j :: 0 <= i < j < |CacheEvents| ==>
              ConfigValue(CacheEvents[i].info.config) != ConfigValue(CacheEvents[j].info.config)
  {
    forall i, j | 0 <= i < j < |CacheEvents|
      ensures ConfigValue(CacheEvents[i].info.config) != ConfigValue(CacheEvents[j].info.config)
    {
      assert CacheEvents[i].info != CacheEvents[j].info;
      if ConfigValue(CacheEvents[i].info.config) == ConfigValue(CacheEvents[j].info.config) {
        ConfigValueInjective(CacheEvents[i].info, CacheEvents[j].info);
      }
    }
  }

  /** `fill_in(pe, event)`: sets `pe.type` and `pe.config` from the catalog and
      leaves every other field as it was; an unknown name throws `out_of_range`. */
  function FillIn(pe: PerfEventAttr, event: string): (r: Result<PerfEventAttr>)
    ensures r.Ok? <==> Listed(AddableNames, event)
    ensures r.Throw? ==> r.exc == OutOfRange
    ensures r.Ok? ==>
      DecodeConfig(r.value.type_, r.value.config).Some? &&
      Find(Mapping, event) == Some(EventInfo(r.value.type_, DecodeConfig(r.value.type_, r.value.config).value))
    ensures r.Ok? ==> r.value.(type_ := pe.type_, config := pe.config) == pe
  {
    match GetEventInfo(event)
    case Ok(info) =>
      DecodeConfigValue(info);
      Ok(pe.(type_ := info.type_, config := ConfigValue(info.config)))
    case Throw(e) => Throw(e)
  }
}
