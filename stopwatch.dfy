/** ppc::Stopwatch: the checked interface over a back end. It tracks whether a
    measurement is running, refuses calls made in the wrong phase with a
    logic_error, accumulates the wall time of every start/stop bracket, and
    relays everything else to the back end chosen by `make_stopwatch`. */
module Stopwatch {
  import opened CppErrors
  import opened LinuxPerf
  import opened CpuTime
  import opened StopwatchLinux
  import opened StopwatchFallback

  /** The implementation behind the interface: the perf-event back end on
      Linux, the clocks-only one elsewhere. */
  datatype Backend = OnLinux(linux: PerfCountersLinux) | Elsewhere(fallback: PerfCountersFallback)

  const AddWhileRunning := "Cannot add counters while measurements are running"
  const StartWhileRunning := "Cannot start performance counters; already running."
  const StopWhileIdle := "Trying to stop non-running performance counters"
  const CountsWhileRunning := "Cannot get counts while counters are active."

  /** One completed start/stop bracket, as steady-clock instants in nanoseconds. */
  datatype Lap = Lap(start: int, stop: int)

  /** The summed length of the brackets. */
  function LapTotal(laps: seq<Lap>): int
    decreases |laps|
  {
    if laps == [] then 0 else LapTotal(laps[..|laps| - 1]) + (laps[|laps| - 1].stop - laps[|laps| - 1].start)
  }

  /** Under a steady clock every bracket ends no earlier than it began, so the
      total is never negative. */
  lemma {:induction false} LapTotalNonNegative(laps: seq<Lap>)
    requires forall i :: 0 <= i < |laps| ==> laps[i].start <= laps[i].stop
    ensures LapTotal(laps) >= 0
    decreases |laps|
  {
    if laps != [] {
      LapTotalNonNegative(laps[..|laps| - 1]);
    }
  }

  /** A further bracket from a steady clock never decreases the wall time. */
  lemma WallTimeNeverDecreases(laps: seq<Lap>, lap: Lap)
    requires lap.start <= lap.stop
    ensures LapTotal(laps + [lap]) >= LapTotal(laps)
    ensures LapTotal(laps + [lap]) == LapTotal(laps) + (lap.stop - lap.start)
  {
    assert (laps + [lap])[..|laps|] == laps;
  }

  class Stopwatch {
    const backend: Backend
    var running: bool
    var elapsedWall: int
    var beginWall: int
    /** The completed brackets, oldest first. */
    ghost var laps: seq<Lap>

    /** The object holding the back end's fields. */
    function Impl(): object
    {
      match backend
      case OnLinux(l) => l
      case Elsewhere(f) => f
    }

    ghost predicate Valid()
      reads this, Impl()
    {
      elapsedWall == LapTotal(laps) &&
      (backend.OnLinux? ==> backend.linux.Valid())
    }

    /** `make_stopwatch()` on Linux: idle, no wall time, an empty counter set. */
    constructor Linux()
      ensures Valid() && fresh(Impl()) && backend.OnLinux?
      ensures !running && elapsedWall == 0 && laps == []
      ensures backend.linux.Abs() == Initial
    {
      var l := new PerfCountersLinux();
      backend := OnLinux(l);
      running := false;
      elapsedWall := 0;
      beginWall := 0;
      laps := [];
    }

    /** `make_stopwatch()` elsewhere: idle, no wall time, zero CPU totals. */
    constructor Fallback()
      ensures Valid() && fresh(Impl()) && backend.Elsewhere?
      ensures !running && elapsedWall == 0 && laps == []
      ensures backend.fallback.cpu == ZeroAccount
    {
      var f := new PerfCountersFallback();
      backend := Elsewhere(f);
      running := false;
      elapsedWall := 0;
      beginWall := 0;
      laps := [];
    }

    /** `wall_time()`: the summed length of the completed brackets. */
    function WallTime(): (t: int)
      reads this, Impl()
      requires Valid()
      ensures t == LapTotal(laps)
    {
      elapsedWall
    }

    /** `add_counter`: refused while running, without reaching the back end;
        otherwise the back end's `add_counter_imp` decides. */
    method AddCounter(name: string, os: Kernel) returns (r: Result<()>)
      requires Valid()
      modifies Impl(), os
      ensures Valid()
      ensures AddedCounter(this, name, os, r)
    {
      if running {
        return Throw(LogicError(AddWhileRunning));
      }
      match backend
      case OnLinux(l) =>
        r := l.AddCounterImp(name, os);
      case Elsewhere(f) =>
        r := f.AddCounterImp(name);
    }

    /** `start`, with `wallNow` the steady-clock instant and `usage` what
        `getrusage` reports: refused while running; otherwise records the begin
        instant, starts the back end and becomes running. */
    method Start(wallNow: int, usage: RUsage, os: Kernel) returns (r: Result<()>)
      requires Valid()
      modifies this, Impl(), os
      ensures Valid()
      ensures Started(this, wallNow, usage, os, r)
    {
      if running {
        return Throw(LogicError(StartWhileRunning));
      }
      beginWall := wallNow;
      match backend {
        case OnLinux(l) =>
          l.StartImp(GetCpuTime(usage), os);
        case Elsewhere(f) =>
          f.StartImp(GetCpuTime(usage));
      }
      running := true;
      r := Ok(());
    }

    /** `stop`, with `wallNow` the steady-clock instant and `usage` what
        `getrusage` reports: refused while idle; otherwise adds the bracket to
        the wall time, stops the back end and becomes idle. */
    method Stop(wallNow: int, usage: RUsage, os: Kernel) returns (r: Result<()>)
      requires Valid()
      modifies this, Impl(), os
      ensures Valid()
      ensures Stopped(this, wallNow, usage, os, r)
    {
      if !running {
        return Throw(LogicError(StopWhileIdle));
      }
      elapsedWall := elapsedWall + (wallNow - beginWall);
      laps := laps + [Lap(beginWall, wallNow)];
      assert laps[..|laps| - 1] == old(laps);
      match backend {
        case OnLinux(l) =>
          l.StopImp(GetCpuTime(usage), os);
        case Elsewhere(f) =>
          f.StopImp(GetCpuTime(usage));
      }
      running := false;
      r := Ok(());
    }

    /** `get_counters`: refused while running; otherwise the back end's report,
        with the accumulated wall time. */
    method GetCounters(os: Kernel) returns (r: Result<map<string, int>>)
      requires Valid()
      modifies os
      ensures Counted(this, os, r)
    {
      if running {
        return Throw(LogicError(CountsWhileRunning));
      }
      match backend
      case OnLinux(l) =>
        r := l.GetCountersImp(elapsedWall, os);
      case Elsewhere(f) =>
        var counts := f.GetCountersImp(elapsedWall);
        r := Ok(counts);
    }
  }

  /** What `add_counter` does: refused while running, without reaching the back
      end; otherwise the back end's `add_counter_imp` decides. */
  twostate predicate AddedCounter(sw: Stopwatch, name: string, os: Kernel, new r: Result<()>)
    reads sw, sw.Impl(), os
  {
    (sw.running ==> r == Throw(LogicError(AddWhileRunning)) && unchanged(sw.Impl(), os)) &&
    (!sw.running && sw.backend.OnLinux? ==>
      var st := StopwatchLinux.AddCounter(old(sw.backend.linux.Abs()), name, os.openAnswer, old(os.openLog));
      sw.backend.linux.Abs() == st.state && r == st.result &&
      os.openLog == st.openLog && os.closeLog == old(os.closeLog) + st.closed &&
      os.readLog == old(os.readLog) && os.ioctlLog == old(os.ioctlLog)) &&
    (!sw.running && sw.backend.Elsewhere? ==> r == FallbackAdd(name) && unchanged(sw.Impl(), os))
  }

  /** What `start` does, with `wallNow` the steady-clock instant and `usage` what
      `getrusage` reports: refused while running; otherwise it records the
      begin instant, starts the back end and becomes running. */
  twostate predicate Started(sw: Stopwatch, wallNow: int, usage: RUsage, os: Kernel, new r: Result<()>)
    reads sw, sw.Impl(), os
  {
    (old(sw.running) ==> r == Throw(LogicError(StartWhileRunning)) && unchanged(sw, sw.Impl(), os)) &&
    (!old(sw.running) ==>
      r == Ok(()) && sw.running && sw.beginWall == wallNow &&
      sw.elapsedWall == old(sw.elapsedWall) && sw.laps == old(sw.laps)) &&
    (!old(sw.running) && sw.backend.OnLinux? ==>
      var l := sw.backend.linux;
      l.Abs() == old(l.Abs()).(cpu := BeginBracket(old(l.cpu), GetCpuTime(usage))) &&
      os.ioctlLog == old(os.ioctlLog) + StartIoctls(old(l.Abs())) &&
      os.openLog == old(os.openLog) && os.readLog == old(os.readLog) && os.closeLog == old(os.closeLog)) &&
    (!old(sw.running) && sw.backend.Elsewhere? ==>
      sw.backend.fallback.cpu == BeginBracket(old(sw.backend.fallback.cpu), GetCpuTime(usage)) && unchanged(os))
  }

  /** What `stop` does, with `wallNow` the steady-clock instant and `usage` what
      `getrusage` reports: refused while idle; otherwise it adds the bracket to
      the wall time, stops the back end and becomes idle. */
  twostate predicate Stopped(sw: Stopwatch, wallNow: int, usage: RUsage, os: Kernel, new r: Result<()>)
    reads sw, sw.Impl(), os
  {
    (!old(sw.running) ==> r == Throw(LogicError(StopWhileIdle)) && unchanged(sw, sw.Impl(), os)) &&
    (old(sw.running) ==>
      r == Ok(()) && !sw.running &&
      sw.elapsedWall == old(sw.elapsedWall) + (wallNow - old(sw.beginWall)) &&
      sw.laps == old(sw.laps) + [Lap(old(sw.beginWall), wallNow)]) &&
    (old(sw.running) && sw.backend.OnLinux? ==>
      var l := sw.backend.linux;
      l.Abs() == old(l.Abs()).(cpu := EndBracket(old(l.cpu), GetCpuTime(usage))) &&
      os.ioctlLog == old(os.ioctlLog) + StopIoctls(old(l.Abs())) &&
      os.openLog == old(os.openLog) && os.readLog == old(os.readLog) && os.closeLog == old(os.closeLog)) &&
    (old(sw.running) && sw.backend.Elsewhere? ==>
      sw.backend.fallback.cpu == EndBracket(old(sw.backend.fallback.cpu), GetCpuTime(usage)) && unchanged(os))
  }

  /** What `get_counters` does: refused while running; otherwise the back end's
      report, with the accumulated wall time. */
  twostate predicate Counted(sw: Stopwatch, os: Kernel, new r: Result<map<string, int>>)
    reads sw, sw.Impl(), os
  {
    (sw.running ==> r == Throw(LogicError(CountsWhileRunning)) && unchanged(os)) &&
    (!sw.running && sw.backend.OnLinux? ==>
      ReportStep(r, os.readLog) == Report(sw.backend.linux.Abs(), sw.elapsedWall, os.readAnswer, old(os.readLog)) &&
      os.openLog == old(os.openLog) && os.closeLog == old(os.closeLog) && os.ioctlLog == old(os.ioctlLog)) &&
    (!sw.running && sw.backend.Elsewhere? ==>
      r == Ok(FallbackReport(sw.elapsedWall, sw.backend.fallback.cpu)) && unchanged(os))
  }
}
