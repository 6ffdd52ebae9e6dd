/** ppc::perf: the profiler facade of the exercises. It asks a stopwatch for the
    counters named by the `PPC_PERF` preset, reports failures to add them on
    standard error with a one-shot flag, and prints the stopwatch's report as
    `perf_<name>\t<value>` lines. */
module Perf {
  import opened Strs
  import opened CppErrors
  import opened LinuxPerf
  import opened PerfCounters
  import opened StopwatchLinux
  import opened StopwatchFallback
  import SW = Stopwatch

  // ---------------------------------------------------------------------------
  // Presets
  // ---------------------------------------------------------------------------

  /** The counters the constructor requests for the value of `PPC_PERF`, in
      order. `refAdded` and `missAdded` say whether the L3 read-reference and
      L3 read-miss counters could be added; each generic counter is requested
      only as the fallback for a failed L3 one. */
  function PresetRequests(cfg: Option<string>, refAdded: bool, missAdded: bool): (r: seq<string>)
    ensures cfg == None || cfg == Some("") ==> r == []
    ensures cfg == Some("default") ==> r == [CYCLES, INSTRUCTIONS, BRANCHES, BRANCH_MISSES]
    ensures cfg != Some("default") && cfg != Some("cache") ==> r == []
    ensures cfg == Some("cache") ==>
      |r| == 6 + (if refAdded then 0 else 1) + (if missAdded then 0 else 1) &&
      r[0] == INSTRUCTIONS && r[1] == L3_READ_REF && r[|r| - 3..] == [L1_READ_REF, L1_READ_MISS, PAGE_FAULTS]
    ensures CACHE_REFS in r <==> cfg == Some("cache") && !refAdded
    ensures CACHE_MISSES in r <==> cfg == Some("cache") && !missAdded
  {
    if cfg == None || cfg == Some("") then []
    else if cfg == Some("default") then [CYCLES, INSTRUCTIONS, BRANCHES, BRANCH_MISSES]
    else if cfg == Some("cache") then
      [INSTRUCTIONS, L3_READ_REF] + (if refAdded then [] else [CACHE_REFS]) +
      [L3_READ_MISS] + (if missAdded then [] else [CACHE_MISSES]) +
      [L1_READ_REF, L1_READ_MISS, PAGE_FAULTS]
    else []
  }

  /** One call of `add`: the name and whether it returned true. */
  datatype Request = Request(counter: string, added: bool)

  /** The names requested, in order. */
  function Names(requests: seq<Request>): seq<string>
  {
    seq(|requests|, i requires 0 <= i < |requests| => requests[i].counter)
  }

  /** The requests of a preset that decide a fallback: the L3 read-reference
      and read-miss requests, with the results the choice was made on. */
  ghost predicate FallbacksDecided(cfg: Option<string>, requests: seq<Request>, refAdded: bool, missAdded: bool)
  {
    cfg == Some("cache") ==>
      |requests| > 3 &&
      requests[1] == Request(L3_READ_REF, refAdded) &&
      requests[if refAdded then 2 else 3] == Request(L3_READ_MISS, missAdded)
  }

  /** The requests of the "cache" preset, assembled from its four steps: the
      instructions counter, the two L3 counters with their fallbacks, and the
      three counters at the end. */
  lemma CacheShape(first: seq<Request>, refs: seq<Request>, misses: seq<Request>, all: seq<Request>,
                   refAdded: bool, missAdded: bool)
    requires Names(first) == [INSTRUCTIONS]
    requires |refs| > |first| && refs[..|first| + 1] == first + [Request(L3_READ_REF, refAdded)]
    requires Names(refs) == Names(first) + [L3_READ_REF] + (if refAdded then [] else [CACHE_REFS])
    requires |misses| > |refs| && misses[..|refs| + 1] == refs + [Request(L3_READ_MISS, missAdded)]
    requires Names(misses) == Names(refs) + [L3_READ_MISS] + (if missAdded then [] else [CACHE_MISSES])
    requires |all| >= |misses| && all[..|misses|] == misses
    requires Names(all) == Names(misses) + [L1_READ_REF, L1_READ_MISS, PAGE_FAULTS]
    ensures Names(all) == PresetRequests(Some("cache"), refAdded, missAdded)
    ensures FallbacksDecided(Some("cache"), all, refAdded, missAdded)
  {
    assert |Names(first)| == 1;
    assert |refs| == if refAdded then 2 else 3;
    FallbackPositions(refs, misses, all, |refs|, refAdded, missAdded);
  }

  lemma FallbackPositions(refs: seq<Request>, misses: seq<Request>, all: seq<Request>, m: nat,
                          refAdded: bool, missAdded: bool)
    requires |refs| == m > 1 && refs[1] == Request(L3_READ_REF, refAdded)
    requires |misses| > m && misses[..m + 1] == refs + [Request(L3_READ_MISS, missAdded)]
    requires |all| > 3 && |all| >= |misses| && all[..|misses|] == misses
    ensures all[1] == Request(L3_READ_REF, refAdded) && all[m] == Request(L3_READ_MISS, missAdded)
  {
    assert all[1] == misses[1] == misses[..m + 1][1];
    assert all[m] == misses[m] == misses[..m + 1][m];
  }

  // ---------------------------------------------------------------------------
  // Error reporting in `add`
  // ---------------------------------------------------------------------------

  /** A message `add` writes to standard error. The text of `what()` for a
      system_error is the C library's and is kept as the exception itself. */
  datatype Diagnostic =
    | CouldNotAdd(counter: string, error: Exception)
    | PermissionHint
    | UnknownCounter(counter: string)

  /** What `add` makes of the outcome of `add_counter`: its result (or the
      exception it lets through), the new `error_shown` and the messages. */
  datatype Handling = Handling(result: Result<bool>, shown: bool, messages: seq<Diagnostic>)

  /** The catch clauses of `add`, tried in order: system_error, runtime_error,
      out_of_range. Any other exception propagates. */
  function HandleAdd(shown: bool, counter: string, outcome: Result<()>): (h: Handling)
    ensures h.result == Ok(true) <==> outcome.Ok?
    ensures h.result.Throw? <==> outcome.Throw? && !IsRuntimeError(outcome.exc) && outcome.exc != OutOfRange
    ensures h.result.Throw? ==> h.result.exc == outcome.exc
    ensures outcome.Ok? || h.result.Throw? ==> h.shown == shown && h.messages == []
    ensures shown ==> h.shown
    ensures shown ==> forall m :: m in h.messages ==> m.UnknownCounter?
  {
    match outcome
    case Ok(_) => Handling(Ok(true), shown, [])
    case Throw(SystemError(code)) =>
      if shown then Handling(Ok(false), true, [])
      else if code == EACCES then
        Handling(Ok(false), true, [CouldNotAdd(counter, SystemError(code)), PermissionHint])
      else Handling(Ok(false), false, [CouldNotAdd(counter, SystemError(code))])
    case Throw(RuntimeError(what)) =>
      if shown then Handling(Ok(false), true, [])
      else Handling(Ok(false), true, [CouldNotAdd(counter, RuntimeError(what))])
    case Throw(OutOfRange) => Handling(Ok(false), shown, [UnknownCounter(counter)])
    case Throw(e) => Handling(Throw(e), shown, [])
  }

  /** An unknown name is reported on every occurrence and never sets the flag. */
  lemma UnknownAlwaysReported(shown: bool, counter: string)
    ensures HandleAdd(shown, counter, Throw(OutOfRange)) == Handling(Ok(false), shown, [UnknownCounter(counter)])
  {
  }

  /** A runtime_error is reported only while the flag is clear, and sets it. */
  lemma RuntimeErrorGate(shown: bool, counter: string, what: string)
    ensures var h := HandleAdd(shown, counter, Throw(RuntimeError(what)));
      h.result == Ok(false) && h.shown &&
      h.messages == (if shown then [] else [CouldNotAdd(counter, RuntimeError(what))])
  {
  }

  /** A system_error is reported only while the flag is clear, and sets it only
      when the error is "permission denied", which also prints the hint. */
  lemma SystemErrorGate(shown: bool, counter: string, code: int)
    ensures var h := HandleAdd(shown, counter, Throw(SystemError(code)));
      h.result == Ok(false) &&
      h.shown == (shown || code == EACCES) &&
      (CouldNotAdd(counter, SystemError(code)) in h.messages <==> !shown) &&
      (PermissionHint in h.messages <==> !shown && code == EACCES)
  {
  }

  /** Once a non-permission system_error has been reported the flag stays
      clear, so the next one is reported too: only runtime_error and EACCES
      silence later reports. */
  lemma RepeatedSystemErrors(counter: string, code: int)
    requires code != EACCES
    ensures var h := HandleAdd(false, counter, Throw(SystemError(code)));
      !h.shown && HandleAdd(h.shown, counter, Throw(SystemError(code))).messages == h.messages
  {
  }

  // ---------------------------------------------------------------------------
  // print_to
  // ---------------------------------------------------------------------------

  /** The line `print_to` writes for one report entry. */
  function PerfLine(name: string, value: int): string
  {
    "perf_" + name + "\t" + IntText(value) + "\n"
  }

  /** The lines for the entries of `m`, in the order `keys` lists them. */
  function Listing(keys: seq<string>, m: map<string, int>): string
    requires forall i :: 0 <= i < |keys| ==> keys[i] in m
    decreases |keys|
  {
    if keys == [] then ""
    else Listing(keys[..|keys| - 1], m) + PerfLine(keys[|keys| - 1], m[keys[|keys| - 1]])
  }

  /** `order` lists every member of `keys` exactly once. */
  ghost predicate Enumerates(order: seq<string>, keys: set<string>)
  {
    Distinct(order) && forall k :: k in keys <==> k in order
  }

  // ---------------------------------------------------------------------------
  // The facade
  // ---------------------------------------------------------------------------

  class Perf {
    const stopwatch: SW.Stopwatch
    var errorShown: bool
    /** What `add` has written to standard error, oldest first. */
    var diagnostics: seq<Diagnostic>
    /** Every `add` call, oldest first. */
    ghost var requests: seq<Request>

    ghost predicate Valid()
      reads this, stopwatch, stopwatch.Impl()
    {
      stopwatch.Valid()
    }

    /** `perf()`, with `cfg` the value of `PPC_PERF` (None when unset) and
        `onLinux` the platform `make_stopwatch` was built for. */
    constructor (onLinux: bool, cfg: Option<string>, os: Kernel)
      modifies os
      ensures Valid() && fresh(stopwatch) && fresh(stopwatch.Impl())
      ensures stopwatch.backend.OnLinux? == onLinux
      ensures !stopwatch.running && stopwatch.elapsedWall == 0
      ensures exists refAdded, missAdded ::
        Names(requests) == PresetRequests(cfg, refAdded, missAdded) &&
        FallbacksDecided(cfg, requests, refAdded, missAdded)
    {
      if onLinux {
        stopwatch := new SW.Stopwatch.Linux();
      } else {
        stopwatch := new SW.Stopwatch.Fallback();
      }
      errorShown := false;
      diagnostics := [];
      requests := [];
      new;
      ghost var refAdded, missAdded := ApplyPreset(cfg, os);
    }

    /** The preset part of the constructor. */
    method ApplyPreset(cfg: Option<string>, os: Kernel) returns (ghost refAdded: bool, ghost missAdded: bool)
      requires Valid() && !stopwatch.running && requests == []
      modifies this, stopwatch.Impl(), os
      ensures Valid() && !stopwatch.running && stopwatch.elapsedWall == old(stopwatch.elapsedWall)
      ensures Names(requests) == PresetRequests(cfg, refAdded, missAdded)
      ensures FallbacksDecided(cfg, requests, refAdded, missAdded)
    {
      refAdded, missAdded := true, true;
      if cfg == None || cfg == Some("") {
        return;
      }
      if cfg == Some("default") {
        AddDefault(os);
      } else if cfg == Some("cache") {
        refAdded, missAdded := AddCache(os);
      }
    }

    /** The "default" preset. */
    method AddDefault(os: Kernel)
      requires Valid() && !stopwatch.running && requests == []
      modifies this, stopwatch.Impl(), os
      ensures Valid() && !stopwatch.running && stopwatch.elapsedWall == old(stopwatch.elapsedWall)
      ensures Names(requests) == [CYCLES, INSTRUCTIONS, BRANCHES, BRANCH_MISSES]
    {
      var _ := AddIdle(CYCLES, os);
      var _ := AddIdle(INSTRUCTIONS, os);
      var _ := AddIdle(BRANCHES, os);
      var _ := AddIdle(BRANCH_MISSES, os);
    }

    /** The "cache" preset: each L3 counter falls back to the generic one. */
    method AddCache(os: Kernel) returns (refAdded: bool, missAdded: bool)
      requires Valid() && !stopwatch.running && requests == []
      modifies this, stopwatch.Impl(), os
      ensures Valid() && !stopwatch.running && stopwatch.elapsedWall == old(stopwatch.elapsedWall)
      ensures Names(requests) == PresetRequests(Some("cache"), refAdded, missAdded)
      ensures FallbacksDecided(Some("cache"), requests, refAdded, missAdded)
    {
      var _ := AddIdle(INSTRUCTIONS, os);
      ghost var first := requests;
      refAdded := AddWithFallback(L3_READ_REF, CACHE_REFS, os);
      ghost var refs := requests;
      missAdded := AddWithFallback(L3_READ_MISS, CACHE_MISSES, os);
      ghost var misses := requests;
      var _ := AddIdle(L1_READ_REF, os);
      var _ := AddIdle(L1_READ_MISS, os);
      var _ := AddIdle(PAGE_FAULTS, os);
      CacheShape(first, refs, misses, requests, refAdded, missAdded);
    }

    /** `if (!add(preferred)) add(fallback);` */
    method AddWithFallback(preferred: string, fallback: string, os: Kernel) returns (added: bool)
      requires Valid() && !stopwatch.running
      modifies this, stopwatch.Impl(), os
      ensures Valid() && !stopwatch.running && stopwatch.elapsedWall == old(stopwatch.elapsedWall)
      ensures |requests| > |old(requests)| && requests[..|old(requests)| + 1] == old(requests) + [Request(preferred, added)]
      ensures Names(requests) == Names(old(requests)) + [preferred] + (if added then [] else [fallback])
    {
      added := AddIdle(preferred, os);
      if !added {
        var _ := AddIdle(fallback, os);
      }
    }

    /** `add` on an idle stopwatch, where nothing propagates. */
    method AddIdle(counter: string, os: Kernel) returns (added: bool)
      requires Valid() && !stopwatch.running
      modifies this, stopwatch.Impl(), os
      ensures Valid() && !stopwatch.running && stopwatch.elapsedWall == old(stopwatch.elapsedWall)
      ensures requests == old(requests) + [Request(counter, added)]
      ensures Names(requests) == Names(old(requests)) + [counter]
    {
      var r, outcome := Add(counter, os);
      added := r.value;
    }

    /** `add`: true iff `add_counter` did not throw; the failures caught are
        reported as `HandleAdd` says, and a logic_error propagates. */
    method Add(counter: string, os: Kernel) returns (r: Result<bool>, ghost outcome: Result<()>)
      requires Valid()
      modifies this, stopwatch.Impl(), os
      ensures Valid()
      ensures SW.AddedCounter(stopwatch, counter, os, outcome)
      ensures var h := HandleAdd(old(errorShown), counter, outcome);
        r == h.result && errorShown == h.shown && diagnostics == old(diagnostics) + h.messages
      ensures requests == old(requests) + [Request(counter, r == Ok(true))]
      ensures !stopwatch.running ==> r.Ok?
    {
      ghost var s := if stopwatch.backend.OnLinux? then stopwatch.backend.linux.Abs() else Initial;
      ghost var openLog := os.openLog;
      var res := stopwatch.AddCounter(counter, os);
      outcome := res;
      if !stopwatch.running && stopwatch.backend.OnLinux? {
        AddCounterThrows(s, counter, os.openAnswer, openLog);
      }
      r := Catch(counter, res);
      requests := requests + [Request(counter, r == Ok(true))];
    }

    /** The catch clauses of `add`, applied to what `add_counter` did. */
    method Catch(counter: string, outcome: Result<()>) returns (r: Result<bool>)
      modifies this
      ensures var h := HandleAdd(old(errorShown), counter, outcome);
        r == h.result && errorShown == h.shown && diagnostics == old(diagnostics) + h.messages
      ensures requests == old(requests)
    {
      match outcome {
        case Ok(_) =>
          r := Ok(true);
        case Throw(SystemError(code)) =>
          if !errorShown {
            diagnostics := diagnostics + [CouldNotAdd(counter, SystemError(code))];
            if code == EACCES {
              diagnostics := diagnostics + [PermissionHint];
              errorShown := true;
            }
          }
          r := Ok(false);
        case Throw(RuntimeError(what)) =>
          if !errorShown {
            diagnostics := diagnostics + [CouldNotAdd(counter, RuntimeError(what))];
            errorShown := true;
          }
          r := Ok(false);
        case Throw(OutOfRange) =>
          diagnostics := diagnostics + [UnknownCounter(counter)];
          r := Ok(false);
        case Throw(e) =>
          r := Throw(e);
      }
    }

    /** `start`, relayed to the stopwatch. */
    method Start(wallNow: int, usage: CpuTime.RUsage, os: Kernel) returns (r: Result<()>)
      requires Valid()
      modifies stopwatch, stopwatch.Impl(), os
      ensures Valid()
      ensures SW.Started(stopwatch, wallNow, usage, os, r)
    {
      r := stopwatch.Start(wallNow, usage, os);
    }

    /** `stop`, relayed to the stopwatch. */
    method Stop(wallNow: int, usage: CpuTime.RUsage, os: Kernel) returns (r: Result<()>)
      requires Valid()
      modifies stopwatch, stopwatch.Impl(), os
      ensures Valid()
      ensures SW.Stopped(stopwatch, wallNow, usage, os, r)
    {
      r := stopwatch.Stop(wallNow, usage, os);
    }

    /** `print_to`: the text written to the stream, one `PerfLine` per report
        entry. The report is an unordered map, so the order of the lines is
        whatever `order` the iteration happens to take. */
    method PrintTo(os: Kernel) returns (r: Result<string>, ghost counts: Result<map<string, int>>, ghost order: seq<string>)
      requires Valid()
      modifies os
      ensures SW.Counted(stopwatch, os, counts)
      ensures counts.Throw? ==> r == Throw(counts.exc)
      ensures counts.Ok? ==> r.Ok? && Enumerates(order, counts.value.Keys) &&
                             (forall k :: k in order ==> k in counts.value) &&
                             r.value == Listing(order, counts.value)
    {
      var results := stopwatch.GetCounters(os);
      counts := results;
      order := [];
      if results.Throw? {
        return Throw(results.exc), counts, order;
      }
      var m := results.value;
      var remaining := m.Keys;
      var text := "";
      while remaining != {}
        invariant remaining <= m.Keys
        invariant Distinct(order)
        invariant forall k :: k in m.Keys <==> k in remaining || k in order
        invariant forall k :: k in order ==> k !in remaining
        invariant forall k :: k in order ==> k in m
        invariant text == Listing(order, m)
        decreases |remaining|
      {
        var k :| k in remaining;
        ghost var listed := order;
        text := text + PerfLine(k, m[k]);
        order := order + [k];
        assert order[..|order| - 1] == listed;
        remaining := remaining - {k};
      }
      r := Ok(text);
    }
  }
}
