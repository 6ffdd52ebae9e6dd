/** `get_cputime` and the user/system CPU-time bookkeeping that both stopwatch
    back ends share: `start_imp` records the begin instants, `stop_imp` adds
    end - begin to the elapsed totals. */
module CpuTime {

  /** `struct timeval`: seconds and microseconds. */
  datatype TimeVal = TimeVal(sec: int, usec: int)

  /** The two fields of `struct rusage` that are used. */
  datatype RUsage = RUsage(utime: TimeVal, stime: TimeVal)

  /** `cpu_time`: user and system time in nanoseconds. */
  datatype CpuTimes = CpuTimes(usr: int, sys: int)

  const NanosPerSecond: int := 1_000_000_000
  const NanosPerMicrosecond: int := 1_000

  /** `duration_cast<nanoseconds>(seconds(tv_sec) + microseconds(tv_usec))`. */
  function Nanos(t: TimeVal): int
  {
    t.sec * NanosPerSecond + t.usec * NanosPerMicrosecond
  }

  /** `get_cputime()` applied to what `getrusage` reported. */
  function GetCpuTime(ru: RUsage): (c: CpuTimes)
    ensures c.usr == Nanos(ru.utime) && c.sys == Nanos(ru.stime)
  {
    CpuTimes(Nanos(ru.utime), Nanos(ru.stime))
  }

  /** The conversion loses nothing: for a well-formed timeval (microseconds
      below one million) the nanosecond count gives back both fields. */
  lemma NanosRoundTrip(t: TimeVal)
    requires 0 <= t.usec < 1_000_000
    ensures Nanos(t) / NanosPerSecond == t.sec
    ensures (Nanos(t) % NanosPerSecond) / NanosPerMicrosecond == t.usec
    ensures Nanos(t) % NanosPerMicrosecond == 0
  {
    var n := Nanos(t);
    assert n == t.sec * NanosPerSecond + t.usec * NanosPerMicrosecond;
    assert 0 <= t.usec * NanosPerMicrosecond < NanosPerSecond;
    DivModUnique(n, NanosPerSecond, t.sec, t.usec * NanosPerMicrosecond);
    DivModUnique(t.usec * NanosPerMicrosecond, NanosPerMicrosecond, t.usec, 0);
    DivModUnique(n, NanosPerMicrosecond, t.sec * 1_000_000 + t.usec, 0);
  }

  lemma DivModUnique(n: int, d: int, q: int, r: int)
    requires d > 0 && 0 <= r < d && n == q * d + r
    ensures n / d == q && n % d == r
  {
    var q', r' := n / d, n % d;
    assert q' * d + r' == q * d + r;
    if q' != q {
      var k := q' - q;
      assert k * d == q' * d - q * d;
      assert k * d == r - r';
      if k > 0 {
        MulAtLeast(k, d);
      } else {
        MulAtLeast(-k, d);
      }
    }
  }

  lemma MulAtLeast(k: int, d: int)
    requires k >= 1 && d > 0
    ensures k * d >= d
  {
    assert k * d == (k - 1) * d + d;
    assert (k - 1) * d >= 0;
  }

  /** The four CPU-time fields of a stopwatch back end, in nanoseconds. */
  datatype CpuAccount = CpuAccount(elapsedUsr: int, beginUsr: int, elapsedSys: int, beginSys: int)

  /** All four fields start at zero. */
  const ZeroAccount := CpuAccount(0, 0, 0, 0)

  /** `start_imp`: record the current user and system time. */
  function BeginBracket(a: CpuAccount, now: CpuTimes): CpuAccount
  {
    a.(beginUsr := now.usr, beginSys := now.sys)
  }

  /** `stop_imp`: add end - begin to each total. */
  function EndBracket(a: CpuAccount, now: CpuTimes): CpuAccount
  {
    a.(elapsedUsr := a.elapsedUsr + (now.usr - a.beginUsr),
       elapsedSys := a.elapsedSys + (now.sys - a.beginSys))
  }

  /** One start/stop bracket: the CPU times read at start and at stop. */
  datatype Bracket = Bracket(start: CpuTimes, stop: CpuTimes)

  /** The account after running the given brackets in order. */
  function RunBrackets(a: CpuAccount, bs: seq<Bracket>): CpuAccount
    decreases |bs|
  {
    if bs == [] then a
    else RunBrackets(EndBracket(BeginBracket(a, bs[0].start), bs[0].stop), bs[1..])
  }

  function UsrTotal(bs: seq<Bracket>): int
    decreases |bs|
  {
    if bs == [] then 0 else (bs[0].stop.usr - bs[0].start.usr) + UsrTotal(bs[1..])
  }

  function SysTotal(bs: seq<Bracket>): int
    decreases |bs|
  {
    if bs == [] then 0 else (bs[0].stop.sys - bs[0].start.sys) + SysTotal(bs[1..])
  }

  /** Elapsed user and system time are the sums of their bracket lengths,
      each accumulated separately. */
  lemma {:induction false} RunBracketsTotals(a: CpuAccount, bs: seq<Bracket>)
    ensures RunBrackets(a, bs).elapsedUsr == a.elapsedUsr + UsrTotal(bs)
    ensures RunBrackets(a, bs).elapsedSys == a.elapsedSys + SysTotal(bs)
    decreases |bs|
  {
    if bs != [] {
      RunBracketsTotals(EndBracket(BeginBracket(a, bs[0].start), bs[0].stop), bs[1..]);
    }
  }
}
