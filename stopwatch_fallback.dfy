/** ppc::detail::PerfCountersFallback: the stopwatch back end for systems
    without perf events. Only the three clocks exist; user and system CPU time
    are bracketed with `get_cputime`. */
module StopwatchFallback {
  import opened CppErrors
  import opened PerfCounters
  import opened CpuTime

  /** The message `add_counter_imp` throws for a name it cannot count. */
  function UnsupportedMessage(name: string): string
  {
    "Performance counter '" + name + "' is currently not supported on this OS."
  }

  /** `add_counter_imp` as a decision: the clock names are accepted (they are
      always reported), everything else is a runtime_error. */
  function FallbackAdd(name: string): (r: Result<()>)
    ensures r.Ok? <==> name == WALL_CLOCK || name == USR_CLOCK || name == SYS_CLOCK
    ensures r.Throw? ==> r.exc == RuntimeError(UnsupportedMessage(name)) && IsRuntimeError(r.exc)
  {
    if name == WALL_CLOCK || name == USR_CLOCK || name == SYS_CLOCK then Ok(())
    else Throw(RuntimeError(UnsupportedMessage(name)))
  }

  /** No addable counter of the Linux catalog is available here. */
  lemma FallbackRejectsCatalog(name: string)
    requires name in AddableNames
    ensures FallbackAdd(name).Throw?
  {
    ReservedNotAddable(WALL_CLOCK);
    ReservedNotAddable(USR_CLOCK);
    ReservedNotAddable(SYS_CLOCK);
  }

  /** `get_counters_imp`: the wall time and the two CPU totals. */
  function FallbackReport(wall: int, cpu: CpuAccount): (r: map<string, int>)
    ensures r.Keys == {WALL_CLOCK, USR_CLOCK, SYS_CLOCK}
    ensures r[WALL_CLOCK] == wall && r[USR_CLOCK] == cpu.elapsedUsr && r[SYS_CLOCK] == cpu.elapsedSys
  {
    ReservedNamesDistinct();
    map[WALL_CLOCK := wall, USR_CLOCK := cpu.elapsedUsr, SYS_CLOCK := cpu.elapsedSys]
  }

  class PerfCountersFallback {
    var cpu: CpuAccount

    /** All four CPU-time fields start at zero. */
    constructor ()
      ensures cpu == ZeroAccount
    {
      cpu := ZeroAccount;
    }

    /** `add_counter_imp`: no state changes, whatever the outcome. */
    method AddCounterImp(name: string) returns (r: Result<()>)
      ensures r == FallbackAdd(name)
    {
      if name == WALL_CLOCK || name == USR_CLOCK || name == SYS_CLOCK {
        return Ok(());
      }
      r := Throw(RuntimeError(UnsupportedMessage(name)));
    }

    /** `start_imp`, with `now` the CPU times `get_cputime()` returns. */
    method StartImp(now: CpuTimes)
      modifies this
      ensures cpu == BeginBracket(old(cpu), now)
    {
      cpu := cpu.(beginUsr := now.usr, beginSys := now.sys);
    }

    /** `stop_imp`, with `now` the CPU times `get_cputime()` returns. */
    method StopImp(now: CpuTimes)
      modifies this
      ensures cpu == EndBracket(old(cpu), now)
    {
      var usr := cpu.elapsedUsr + (now.usr - cpu.beginUsr);
      var sys := cpu.elapsedSys + (now.sys - cpu.beginSys);
      cpu := cpu.(elapsedUsr := usr, elapsedSys := sys);
    }

    /** `get_counters_imp`, with `wall` what `wall_time()` returns. */
    method GetCountersImp(wall: int) returns (r: map<string, int>)
      ensures r == FallbackReport(wall, cpu)
    {
      r := map[];
      r := r[WALL_CLOCK := wall];
      r := r[USR_CLOCK := cpu.elapsedUsr];
      r := r[SYS_CLOCK := cpu.elapsedSys];
    }
  }
}
