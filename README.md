# ppcgrader core, modelled in Dafny

This project models the core of the ppc programming-course tooling (ppcgrader) in Dafny and proves properties of that model. The core has four parts.

- **The performance-measurement library** (`ppc::perf` and what sits under it):
  - the counter names;
  - the event catalog that maps each name to a Linux `perf_event_open` type and config;
  - the move-only owner of one counter file descriptor and its four-way read;
  - the `Stopwatch` checked interface, which enforces the running/idle call order and accumulates wall time;
  - its two back ends: the perf-event one, with a pinned group leader and an `exclude_kernel` retry on `EACCES`, and the clock-only fallback;
  - the `ppc::perf` facade, which turns the `PPC_PERF` preset into `add` requests, reports failures once per kind and prints `perf_<name>\t<value>` lines.
- **The integer helpers of `ppc.h`:**
  - the range-mapped random integers;
  - the `CHECK_READ`/`CHECK_END` input checks;
  - the `print_matrix` layout.
- **The two sorting exercises.** The `so4` merge sort and the `so5` quicksort are modelled as sequential recursions over an array.
- **The Python helpers of ppcgrader:**
  - command macros and command availability;
  - the `--x`/`--no-x` option action;
  - test globs, time limits and the "no tests" message;
  - the memcheck test collection and the compiler checks;
  - where a setting's value comes from, and the configuration files;
  - how an HTTP error answer is read;
  - the `so` exercise's reader of the tester's tab-separated report.

How the operating system and the environment appear in the model:

- The operating system is an oracle. `LinuxPerf.Kernel` answers `perf_event_open`, `read`, `close` and `ioctl` and logs every call.
- `getrusage` and the steady clock are parameters.
- The file system, `os.getenv`, `glob.glob` and `os.path.expanduser` are function-valued parameters.
- A C++ exception is a `Throw` result whose exception class keeps the standard library's hierarchy.
- A Python exception is an error value of the reader or the handler that raises it.

Each class method is proved against a specification function of its inputs and old state. The lemmas state what those functions guarantee.

## Model

| member | source | states |
|---|---|---|
| PerfCounters.ClockKeys | mf2/.ppc/ppcgrader/include/perf/counters.h:8-16 | the keys reported without `add_counter` are exactly wall_clock_ns, time_usr_ns and time_sys_ns, followed by the group timings time_enabled_ns and time_running_ns |
| PerfCounters.AllNamesDistinct | mf2/.ppc/ppcgrader/include/perf/counters.h:10-53 | the 38 name constants are pairwise distinct strings, 33 of them addable |
| PerfCounters.ReservedNotAddable | mf2/.ppc/ppcgrader/include/perf/counters.h:10-53 | no clock or group-timing key is an addable counter name, so a counter entry never overwrites a clock entry of a report |
| EventMapping.MappingNames | cp4/.ppc/ppcgrader/include/perf/event_mapping.h:33-78 | the catalog has 33 entries and its keys are exactly the addable counter names, in order |
| EventMapping.MappingTypeCounts | cp4/.ppc/ppcgrader/include/perf/event_mapping.h:37-74 | ten hardware, eleven software and twelve cache events, and no entry of any other type |
| EventMapping.MappingWellTyped | cp4/.ppc/ppcgrader/include/perf/event_mapping.h:20-31 | every entry pairs its event type with the matching alternative of the config variant |
| EventMapping.FindFound | cp4/.ppc/ppcgrader/include/perf/event_mapping.h:82-85 | the lookup finds nothing exactly when the name is not a key, and otherwise an entry of the table |
| EventMapping.ListedIsIn | cp4/.ppc/ppcgrader/include/perf/event_mapping.h:82-85 | the scan used for lookup agrees with membership |
| EventMapping.GetEventInfo | cp4/.ppc/ppcgrader/include/perf/event_mapping.h:82-85 | `mapping.at(name)` succeeds exactly for the addable names, with the catalog's well-typed entry, and throws out_of_range otherwise |
| EventMapping.CacheConfig | cp4/.ppc/ppcgrader/include/perf/event_mapping.h:96-100 | the cache id, operation and result occupy the low three bytes of the config, one byte each |
| EventMapping.DecodeConfigValue | cp4/.ppc/ppcgrader/include/perf/event_mapping.h:87-101 | the numeric config FillInVisitor produces decodes back to the variant it came from |
| EventMapping.ConfigValueInjective | cp4/.ppc/ppcgrader/include/perf/event_mapping.h:87-101 | two well-typed events with equal type and config are the same event |
| EventMapping.CacheConfigsDistinct | cp4/.ppc/ppcgrader/include/perf/event_mapping.h:63-74 | the twelve cache events have pairwise distinct configs |
| EventMapping.FillIn | cp4/.ppc/ppcgrader/include/perf/event_mapping.h:103-109 | `fill_in` succeeds exactly for catalog names, sets type and config from the catalog and leaves every other field of the attribute block as it was; unknown names throw out_of_range |
| EventFd.ReadOutcomeCases | cp1/.ppc/ppcgrader/include/perf/event_fd.h:54-77 | a read of zero bytes is "not collected", a full read (24 bytes for the leader, 8 otherwise) a value, a negative count a system_error with errno, any other count a runtime_error |
| EventFd.EventFileDescriptor.constructor | cp1/.ppc/ppcgrader/include/perf/event_fd.h:21 | the handle holds the given descriptor and leader flag |
| EventFd.EventFileDescriptor.Empty | cp1/.ppc/ppcgrader/include/perf/event_fd.h:21 | a default handle holds -1, is not a leader and is invalid |
| EventFd.EventFileDescriptor.MoveFrom | cp1/.ppc/ppcgrader/include/perf/event_fd.h:31-33 | move construction takes descriptor and flag and leaves the source holding -1 |
| EventFd.EventFileDescriptor.Close | cp1/.ppc/ppcgrader/include/perf/event_fd.h:84-88 | the descriptor is closed exactly when the handle is valid; nothing else reaches the kernel |
| EventFd.EventFileDescriptor.Destroy | cp1/.ppc/ppcgrader/include/perf/event_fd.h:23 | the destructor closes a valid descriptor once |
| EventFd.EventFileDescriptor.MoveAssign | cp1/.ppc/ppcgrader/include/perf/event_fd.h:35-41 | move assignment closes the old descriptor first, then takes the other's descriptor and flag and leaves the other holding -1 |
| EventFd.EventFileDescriptor.ReadValue | cp1/.ppc/ppcgrader/include/perf/event_fd.h:54-77 | an invalid handle throws logic_error without reading; otherwise one read of the expected size is issued and its answer classified as in ReadOutcome |
| EventFd.ReadHandle | cp1/.ppc/ppcgrader/include/perf/event_fd.h:54-77 | the body of read_value on a handle's fields, with the same specification |
| EventFd.MoveThenDestroy | cp1/.ppc/ppcgrader/include/perf/event_fd.h:23-41 | moving a descriptor through two handles and destroying both closes it exactly once |
| EventFd.ApplyOwnership | cp1/.ppc/ppcgrader/include/perf/event_fd.h:23-41 | one move construction, move assignment (self-assignment included) or destruction closes at most one descriptor, one that was held and is held no more, and keeps every other descriptor held by exactly one handle |
| EventFd.RunOwnership | cp1/.ppc/ppcgrader/include/perf/event_fd.h:23-41 | after any sequence of moves and destructions the descriptors are still held by one handle each, and no descriptor has been closed twice; each closed one was held at the start and is held no more |
| EventFd.ClosedExactlyOnce | cp1/.ppc/ppcgrader/include/perf/event_fd.h:23-41 | after any moves, destroying every handle, including those the moves created, closes each descriptor held at the start exactly once and nothing else |
| EventFd.DestroyFromEmpties | cp1/.ppc/ppcgrader/include/perf/event_fd.h:23 | once every handle is destroyed no descriptor is held |
| CpuTime.GetCpuTime | mf1/.ppc/ppcgrader/include/perf/stopwatch.h:77-84 | user and system time are each the timeval converted to nanoseconds |
| CpuTime.NanosRoundTrip | mf1/.ppc/ppcgrader/include/perf/stopwatch.h:81-83 | the conversion of a well-formed timeval loses nothing: seconds and microseconds can be read back from the nanoseconds |
| CpuTime.RunBracketsTotals | so4/.ppc/ppcgrader/include/perf/stopwatch_linux.h:83-94 | after any sequence of start/stop brackets, elapsed user and system time are the sums of the bracket lengths |
| Stopwatch.LapTotalNonNegative | mf1/.ppc/ppcgrader/include/perf/stopwatch.h:37-45 | with a steady clock the summed wall time is never negative |
| Stopwatch.WallTimeNeverDecreases | mf1/.ppc/ppcgrader/include/perf/stopwatch.h:41-42 | a further bracket adds its length to the wall time and never decreases it |
| Stopwatch.Stopwatch.Linux | so4/.ppc/ppcgrader/include/perf/stopwatch_linux.h:151-153 | `make_stopwatch()` on Linux: idle, zero wall time, the perf back end in its initial state |
| Stopwatch.Stopwatch.Fallback | so4/.ppc/ppcgrader/include/perf/stopwatch_fallback.h:57-59 | `make_stopwatch()` elsewhere: idle, zero wall time, zero CPU totals |
| Stopwatch.Stopwatch.WallTime | mf1/.ppc/ppcgrader/include/perf/stopwatch.h:54-56 | `wall_time()` is the summed length of the completed brackets |
| Stopwatch.Stopwatch.AddCounter | mf1/.ppc/ppcgrader/include/perf/stopwatch.h:22-27 | refused with logic_error while running, without reaching the back end; otherwise the back end's add_counter_imp |
| Stopwatch.Stopwatch.Start | mf1/.ppc/ppcgrader/include/perf/stopwatch.h:29-36 | refused with logic_error while running; otherwise records the begin instant, runs start_imp and becomes running |
| Stopwatch.Stopwatch.Stop | mf1/.ppc/ppcgrader/include/perf/stopwatch.h:37-45 | refused with logic_error while idle; otherwise adds the bracket to the wall time, runs stop_imp and becomes idle |
| Stopwatch.Stopwatch.GetCounters | mf1/.ppc/ppcgrader/include/perf/stopwatch.h:47-52 | refused with logic_error while running; otherwise the back end's report |
| StopwatchFallback.FallbackAdd | so4/.ppc/ppcgrader/include/perf/stopwatch_fallback.h:18-25 | exactly the three clock names are accepted; any other name throws runtime_error with the "not supported on this OS" message |
| StopwatchFallback.FallbackRejectsCatalog | so4/.ppc/ppcgrader/include/perf/stopwatch_fallback.h:18-25 | no counter of the Linux catalog can be added on the fallback |
| StopwatchFallback.FallbackReport | so4/.ppc/ppcgrader/include/perf/stopwatch_fallback.h:39-46 | the report holds exactly the wall, user and system times |
| StopwatchFallback.PerfCountersFallback.constructor | so4/.ppc/ppcgrader/include/perf/stopwatch_fallback.h:11-15 | all four CPU-time fields start at zero |
| StopwatchFallback.PerfCountersFallback.AddCounterImp | so4/.ppc/ppcgrader/include/perf/stopwatch_fallback.h:18-25 | the decision of FallbackAdd, without any state change |
| StopwatchFallback.PerfCountersFallback.StartImp | so4/.ppc/ppcgrader/include/perf/stopwatch_fallback.h:27-31 | records the current user and system time |
| StopwatchFallback.PerfCountersFallback.StopImp | so4/.ppc/ppcgrader/include/perf/stopwatch_fallback.h:33-37 | adds the time spent since the start to each total |
| StopwatchFallback.PerfCountersFallback.GetCountersImp | so4/.ppc/ppcgrader/include/perf/stopwatch_fallback.h:39-46 | returns FallbackReport of the wall time and the current totals |
| StopwatchLinux.InitialInv | so4/.ppc/ppcgrader/include/perf/stopwatch_linux.h:28-33 | the initial state (no counters, no leader) satisfies the leader invariant |
| StopwatchLinux.SettleInv | so4/.ppc/ppcgrader/include/perf/stopwatch_linux.h:71-75 | storing a descriptor keeps the invariant: the first entry becomes the flagged leader, later ones join unflagged and the leader stays |
| StopwatchLinux.SettleEffects | so4/.ppc/ppcgrader/include/perf/stopwatch_linux.h:72 | storing a descriptor adds exactly its key and keeps every other entry |
| StopwatchLinux.AddCounterInv | so4/.ppc/ppcgrader/include/perf/stopwatch_linux.h:37-77 | add_counter_imp keeps the leader invariant |
| StopwatchLinux.AddCounterUnknown | so4/.ppc/ppcgrader/include/perf/stopwatch_linux.h:59 | an unknown name throws out_of_range from fill_in before any open request and changes nothing |
| StopwatchLinux.AddCounterRequests | so4/.ppc/ppcgrader/include/perf/stopwatch_linux.h:38-68 | every open request carries the attribute block for the current emptiness and kernel flag, pid 0, cpu -1, no flags and the leader's group; a second request is made only after EACCES with kernel counting still on |
| StopwatchLinux.AddFirstCounter | so4/.ppc/ppcgrader/include/perf/stopwatch_linux.h:42-45 | while the map is empty the request is pinned, disabled, with the time-enabled/running read format and no group, and a success makes the new entry the leader |
| StopwatchLinux.AddLaterCounter | so4/.ppc/ppcgrader/include/perf/stopwatch_linux.h:46-51 | later counters join the leader's group, enabled and unpinned, without read format, and the leader does not change |
| StopwatchLinux.AddCounterFails | so4/.ppc/ppcgrader/include/perf/stopwatch_linux.h:61-69 | a failed call leaves counters and leader unchanged and closes nothing |
| StopwatchLinux.AddCounterSucceeds | so4/.ppc/ppcgrader/include/perf/stopwatch_linux.h:70-76 | a successful call was for a catalog name, adds exactly that key, keeps the other entries and closes only the descriptor a re-added name held |
| StopwatchLinux.AddCounterCatalogKeys | so4/.ppc/ppcgrader/include/perf/stopwatch_linux.h:59-72 | counter keys remain catalog names |
| StopwatchLinux.AddCounterThrows | so4/.ppc/ppcgrader/include/perf/stopwatch_linux.h:59-69 | add_counter_imp throws only out_of_range or system_error |
| StopwatchLinux.IoctlsTargetLeader | so4/.ppc/ppcgrader/include/perf/stopwatch_linux.h:79-95 | start and stop issue one ioctl each, enable and disable, to the leader, and none without a leader |
| StopwatchLinux.Followers | so4/.ppc/ppcgrader/include/perf/stopwatch_linux.h:116-119 | the loop's keys are the counter keys other than the leader's |
| StopwatchLinux.ReadFollowersKeys | so4/.ppc/ppcgrader/include/perf/stopwatch_linux.h:116-124 | the follower loop adds exactly one entry per follower and keeps every other entry |
| StopwatchLinux.ReadFollowersReads | so4/.ppc/ppcgrader/include/perf/stopwatch_linux.h:116-124 | the follower loop only appends 8-byte reads of follower descriptors to the read log |
| StopwatchLinux.ReadFollowersCount | so4/.ppc/ppcgrader/include/perf/stopwatch_linux.h:116-124 | with distinct keys the loop reads each follower exactly once |
| StopwatchLinux.ReportKeysSeparate | so4/.ppc/ppcgrader/include/perf/stopwatch_linux.h:98-114 | the report's own keys and the group-timing keys never collide with a counter name |
| StopwatchLinux.ExcludeKernelNotAddable | so4/.ppc/ppcgrader/include/perf/stopwatch_linux.h:102 | the exclude_kernel key is not an addable counter name |
| StopwatchLinux.SortedCounterKeys | so4/.ppc/ppcgrader/include/perf/stopwatch_linux.h:116-131 | the map's key order lists each counter key exactly once |
| StopwatchLinux.ReportLeaderRead | so4/.ppc/ppcgrader/include/perf/stopwatch_linux.h:104-125 | after a full leader read the report holds the group timings, the leader's value and then the followers |
| StopwatchLinux.FollowersOfCounters | so4/.ppc/ppcgrader/include/perf/stopwatch_linux.h:116-119 | the followers plus the leader are all counters |
| StopwatchLinux.LeaderPathKeepsBase | so4/.ppc/ppcgrader/include/perf/stopwatch_linux.h:99-124 | the follower loop never overwrites the base entries or the group timings |
| StopwatchLinux.LeaderPathKeys | so4/.ppc/ppcgrader/include/perf/stopwatch_linux.h:99-124 | after the follower loop the report's keys are the base keys, the timings and every counter |
| StopwatchLinux.ReportBaseEntries | so4/.ppc/ppcgrader/include/perf/stopwatch_linux.h:98-102 | every report holds wall, user and system time and the exclude-kernel flag with their values |
| StopwatchLinux.ReportKeys | so4/.ppc/ppcgrader/include/perf/stopwatch_linux.h:97-128 | without a leader, or when the leader read returns no data, the report succeeds with only the base keys; when the leader read returns the whole read format, a successful report also holds the two group timings and every counter; no other leader read gives a report |
| StopwatchLinux.PerfCountersLinux.constructor | so4/.ppc/ppcgrader/include/perf/stopwatch_linux.h:28-33 | no counters, no leader, kernel counted, all CPU times zero |
| StopwatchLinux.PerfCountersLinux.GetLeader | so4/.ppc/ppcgrader/include/perf/stopwatch_linux.h:140-144 | the leader's descriptor, or -1 when there is no leader |
| StopwatchLinux.PerfCountersLinux.AddCounterImp | so4/.ppc/ppcgrader/include/perf/stopwatch_linux.h:37-77 | moves the state as AddCounter says and issues exactly its open requests and closes |
| StopwatchLinux.PerfCountersLinux.AddPass | so4/.ppc/ppcgrader/include/perf/stopwatch_linux.h:38-60 | one pass up to the recursive call, as AddAttempt says |
| StopwatchLinux.PerfCountersLinux.OpenPass | so4/.ppc/ppcgrader/include/perf/stopwatch_linux.h:60-76 | the open request and its consequences, as OpenStep says |
| StopwatchLinux.PerfCountersLinux.StoreCounter | so4/.ppc/ppcgrader/include/perf/stopwatch_linux.h:72-75 | the new state is Settle of the old one, and only a replaced descriptor is closed |
| StopwatchLinux.PerfCountersLinux.StartImp | so4/.ppc/ppcgrader/include/perf/stopwatch_linux.h:79-86 | enables the leader, if any, and records the CPU times |
| StopwatchLinux.PerfCountersLinux.StopImp | so4/.ppc/ppcgrader/include/perf/stopwatch_linux.h:88-95 | disables the leader, if any, and adds the CPU time spent since the start |
| StopwatchLinux.PerfCountersLinux.GetCountersImp | so4/.ppc/ppcgrader/include/perf/stopwatch_linux.h:97-128 | the report and the reads are those of Report |
| StopwatchLinux.ReadFollowerValues | so4/.ppc/ppcgrader/include/perf/stopwatch_linux.h:116-124 | the loop over the map in key order reads every follower, as ReadFollowers says |
| StopwatchLinux.AddAttempt | so4/.ppc/ppcgrader/include/perf/stopwatch_linux.h:38-68 | one pass of add_counter_imp asks for a retry only while the kernel is still counted, and the retry changes nothing but the exclude_kernel flag |
| StopwatchLinux.OpenStep | so4/.ppc/ppcgrader/include/perf/stopwatch_linux.h:60-76 | after the open request, a retry only sets the exclude_kernel flag, and only when it was clear |
| LinuxPerf.Kernel.PerfEventOpen | so4/.ppc/ppcgrader/include/perf/stopwatch_linux.h:21-24 | the syscall logs its five arguments and returns the kernel's answer to the request history; the other logs stay as they were |
| Perf.PresetRequests | cp1/.ppc/ppcgrader/include/perf.h:18-40 | unset or empty PPC_PERF requests nothing; "default" the four cycle, instruction and branch counters; "cache" instructions, L3 reference and miss, each followed by its generic fallback exactly when it failed, then L1 reference, L1 miss and page faults; any other value nothing |
| Perf.CacheShape | cp1/.ppc/ppcgrader/include/perf.h:27-39 | the four steps of the cache preset together request what PresetRequests says, and the fallback choices rest on the L3 requests' own results |
| Perf.HandleAdd | cp1/.ppc/ppcgrader/include/perf.h:43-66 | `add` returns true exactly when add_counter did not throw; system_error, runtime_error and out_of_range are caught and give false; anything else propagates unchanged; a set flag is never cleared and then silences everything but the unknown-counter message |
| Perf.UnknownAlwaysReported | cp1/.ppc/ppcgrader/include/perf.h:62-64 | an unknown counter is reported every time and leaves the flag alone |
| Perf.RuntimeErrorGate | cp1/.ppc/ppcgrader/include/perf.h:57-61 | a runtime_error is reported only while the flag is clear, and sets it |
| Perf.SystemErrorGate | cp1/.ppc/ppcgrader/include/perf.h:47-56 | a system_error is reported only while the flag is clear; the permission hint is printed and the flag set exactly for EACCES |
| Perf.RepeatedSystemErrors | cp1/.ppc/ppcgrader/include/perf.h:47-56 | a system_error other than EACCES leaves the flag clear, so the same error is reported again next time |
| Perf.Perf.constructor | cp1/.ppc/ppcgrader/include/perf.h:17-41 | a fresh idle stopwatch for the platform, and the names requested are those of PresetRequests for some outcome of the two L3 requests |
| Perf.Perf.ApplyPreset | cp1/.ppc/ppcgrader/include/perf.h:18-40 | the requests made are PresetRequests of the setting, with the fallbacks decided by the L3 results |
| Perf.Perf.AddDefault | cp1/.ppc/ppcgrader/include/perf.h:22-26 | requests exactly cycles, instructions, branches and branch misses, in that order |
| Perf.Perf.AddCache | cp1/.ppc/ppcgrader/include/perf.h:27-39 | requests exactly PresetRequests for "cache" with the L3 results it observed |
| Perf.Perf.AddWithFallback | cp1/.ppc/ppcgrader/include/perf.h:30-35 | the fallback counter is requested exactly when the preferred one was not added |
| Perf.Perf.AddIdle | cp1/.ppc/ppcgrader/include/perf.h:43-66 | on an idle stopwatch `add` records one request and its result, and nothing propagates |
| Perf.Perf.Add | cp1/.ppc/ppcgrader/include/perf.h:43-66 | add_counter runs on the stopwatch; the result, the flag and the messages are those of HandleAdd on its outcome; on an idle stopwatch nothing propagates |
| Perf.Perf.Catch | cp1/.ppc/ppcgrader/include/perf.h:47-65 | the catch clauses, statement by statement, agree with HandleAdd |
| Perf.Perf.Start | cp1/.ppc/ppcgrader/include/perf.h:68-70 | relays to the stopwatch's start |
| Perf.Perf.Stop | cp1/.ppc/ppcgrader/include/perf.h:72-74 | relays to the stopwatch's stop |
| Perf.Perf.PrintTo | cp1/.ppc/ppcgrader/include/perf.h:76-81 | a failing get_counters propagates; otherwise one `perf_<name>\t<value>` line for every report entry, each exactly once, in the map's iteration order |
| PpcRandom.WrapIsMod | so4/.ppc/ppcgrader/include/ppc.h:135-142 | the case-wise uint64_t wrap-around agrees with reduction modulo 2^64 |
| PpcRandom.Combine | so4/.ppc/ppcgrader/include/ppc.h:132-137 | two 32-bit engine outputs, the left call's as the high word, form a value below 2^64 (the call order C++ leaves open is fixed, see Left out) |
| PpcRandom.Limit | so4/.ppc/ppcgrader/include/ppc.h:135-143 | the largest multiple of the range length that fits in 64 bits lies less than one length below 2^64 |
| PpcRandom.AcceptedIffComplete | so4/.ppc/ppcgrader/include/ppc.h:138-141 | the overflow test `begin <= begin + (length - 1)` accepts a draw exactly when its whole bucket lies below 2^64 |
| PpcRandom.AcceptedIffBelowLimit | so4/.ppc/ppcgrader/include/ppc.h:138-141 | the rejection loop accepts exactly the draws below the largest multiple of the length, so each residue comes from equally many draws |
| PpcRandom.Pick | so4/.ppc/ppcgrader/include/ppc.h:142 | `a + bits % length` lies in [a, b] |
| PpcRandom.UInt64SpecInRange | so4/.ppc/ppcgrader/include/ppc.h:129-145 | every value get_uint64(a, b) returns lies in [a, b] |
| PpcRandom.UInt64SpecConsumes | so4/.ppc/ppcgrader/include/ppc.h:129-145 | a call only consumes engine outputs: what is left is a suffix of the stream |
| PpcRandom.FullRangeDraw | so4/.ppc/ppcgrader/include/ppc.h:131-133 | over the full range the result is the two outputs combined, with no rejection |
| PpcRandom.Shift | so4/.ppc/ppcgrader/include/ppc.h:150-155 | the offset int64 value is a uint64 value |
| PpcRandom.ShiftOrder | so4/.ppc/ppcgrader/include/ppc.h:149-156 | adding the offset 2^63 maps int64 onto uint64 preserving order, and `c - offset` converted back to int64 undoes it |
| PpcRandom.UnshiftShift | so4/.ppc/ppcgrader/include/ppc.h:156 | converting back and offsetting again gives the uint64 value, which is the int64 value plus 2^63 |
| PpcRandom.Int64SpecInRange | so4/.ppc/ppcgrader/include/ppc.h:147-160 | the closing asserts of get_int64 hold: the value lies in [a, b] |
| PpcRandom.NarrowUnsigned | so4/.ppc/ppcgrader/include/ppc.h:162-164 | the narrowing to uint32_t leaves a value below 2^32 as it was |
| PpcRandom.NarrowSigned | so4/.ppc/ppcgrader/include/ppc.h:166-168 | the two's-complement narrowing to int32_t leaves a value in the int32 range as it was |
| PpcRandom.Random.constructor | so4/.ppc/ppcgrader/include/ppc.h:73-76 | the generator holds the engine outputs it will produce next |
| PpcRandom.Random.GetUInt64 | so4/.ppc/ppcgrader/include/ppc.h:129-145 | the loop returns and consumes exactly what UInt64Spec says |
| PpcRandom.Random.GetInt64 | so4/.ppc/ppcgrader/include/ppc.h:147-160 | returns Int64Spec's value, which lies in [a, b] |
| PpcRandom.Random.GetUInt32 | so4/.ppc/ppcgrader/include/ppc.h:162-164 | the 64-bit draw between a and b, unchanged by the narrowing, within [a, b] |
| PpcRandom.Random.GetInt32 | so4/.ppc/ppcgrader/include/ppc.h:166-168 | the signed 64-bit draw between a and b, unchanged by the narrowing, within [a, b] |
| PpcIo.CheckRead | so4/.ppc/ppcgrader/include/ppc.h:28-33 | the tester continues exactly when the read succeeded, and otherwise exits with status 1 |
| PpcIo.ExtractsWordIff | so4/.ppc/ppcgrader/include/ppc.h:37-38 | extracting a string succeeds exactly when some unread character is not white space |
| PpcIo.CheckEnd | so4/.ppc/ppcgrader/include/ppc.h:35-41 | the tester exits with status 1 exactly when a good stream still holds a non-white-space character |
| PpcIo.RowTexts | so4/.ppc/ppcgrader/include/ppc.h:229-236 | one text per row, each the row's elements with a space before each |
| PpcIo.Row | so4/.ppc/ppcgrader/include/ppc.h:230-231 | row elements are taken from `data[j + i * nx]`, nx of them |
| PpcIo.Cells | so4/.ppc/ppcgrader/include/ppc.h:227-236 | ny rows of nx formatted elements each |
| PpcIo.RowStart | so4/.ppc/ppcgrader/include/ppc.h:231-236 | every index `j + i * nx` with i < ny and j < nx lies within the ny * nx elements |
| PpcIo.TerminatedJoin | so4/.ppc/ppcgrader/include/ppc.h:229-236 | the rows written with ";" after each but the last, then the last row, are the rows joined by ";" |
| PpcIo.WriteRow | so4/.ppc/ppcgrader/include/ppc.h:230-236 | the inner loop writes RowText of the row's elements |
| PpcIo.PrintMatrix | so4/.ppc/ppcgrader/include/ppc.h:227-239 | the stream receives "[", the rows separated by ";", each element preceded by a space, then " ]" |
| Sorting.SortSeqCorrect | so4/so.cc:9 | the reference for `std::sort` returns a sorted permutation of its input |
| Sorting.MergePerm | so4/so.cc:22 | the reference for `std::inplace_merge` keeps exactly the elements of both halves |
| Sorting.MergeSorted | so4/so.cc:22 | merging two sorted halves gives a sorted sequence |
| Sorting.SortRange | so4/so.cc:9 | `std::sort(data, data + n)` leaves the range sorted, permuted, and everything outside it unchanged |
| Sorting.MergeRange | so4/so.cc:22 | `std::inplace_merge` on two sorted adjacent ranges leaves the whole range sorted, permuted, and everything outside it unchanged |
| Sorting.Log2Floor | so4/so.cc:26 | the integer part of the binary logarithm: 2^k <= t < 2^(k+1) |
| MergeSortSo4.SplitPoint | so4/so.cc:13 | `(n + 1) / 2` splits n into halves, the left one the larger |
| MergeSortSo4.MergeSort | so4/so.cc:7-23 | for every task counter the range ends sorted and a permutation of what it was, with the rest of the array unchanged |
| MergeSortSo4.SortHalves | so4/so.cc:15-21 | after both tasks of a level are waited for, each half is sorted and the range is a permutation of what it was |
| MergeSortSo4.HalvesKept | so4/so.cc:15-19 | sorting the right half leaves the left half as it was |
| MergeSortSo4.HalvesPermuted | so4/so.cc:15-19 | permuting the left half and then the right half permutes the whole range |
| MergeSortSo4.PSort | so4/so.cc:25-35 | the whole array ends sorted and a permutation of its old contents |
| MergeSortSo4.TaskCounter | so4/so.cc:26 | the task counter is twice the integer binary logarithm of the thread count |
| QuickSortSo5.PivotAsWrittenIsMinOfEnds | so5/so.cc:19-23 | the pivot as written is the smaller of the first and last elements, whatever the middle one is, with the 64-bit wrap-arounds cancelling |
| QuickSortSo5.SumExact | so5/so.cc:23 | three additions and subtractions in unsigned 64-bit arithmetic give the exact result when it is representable |
| QuickSortSo5.PivotAsWrittenIsNotMedian | so5/so.cc:19-23 | on data [1, 5, 3] the pivot as written is 1, which is not the median 3 |
| QuickSortSo5.MedianOfThreeIsMedian | so5/so.cc:18-23 | the corrected pivot is a median of the middle, first and last elements |
| QuickSortSo5.PivotOccurs | so5/so.cc:19-23 | the pivot as written is one of the elements of the range (the first or the last), which stops both scans of the partition |
| QuickSortSo5.MedianOccurs | so5/so.cc:18-23 | the corrected pivot, the median of the three samples, is also an element of the range, so the partition and recursion proofs, which hold for any pivot occurring in the range, cover it too |
| QuickSortSo5.Partition | so5/so.cc:25-42 | the loop permutes the range and ends with the pointers crossed, nothing before `left` above the pivot and nothing after `right` below it |
| QuickSortSo5.PartitionStep | so5/so.cc:29-41 | one round keeps the loop invariant and moves the pointers towards each other |
| QuickSortSo5.ScanUp | so5/so.cc:30-31 | the upward scan stops within the range at an element not below the pivot |
| QuickSortSo5.ScanDown | so5/so.cc:32-33 | the downward scan stops within the range at an element not above the pivot |
| QuickSortSo5.GrowLow | so5/so.cc:30-31 | stepping over an element not above the pivot keeps the lower part in order |
| QuickSortSo5.GrowHigh | so5/so.cc:32-33 | stepping over an element not below the pivot keeps the upper part in order |
| QuickSortSo5.SwapStep | so5/so.cc:34-41 | the exchange lets both pointers move past the exchanged elements |
| QuickSortSo5.Swap | so5/so.cc:36-38 | the three-assignment exchange keeps the permutation and the partition order |
| QuickSortSo5.QuickSort | so5/so.cc:7-47 | with the pivot as written, for every budget the range ends sorted and a permutation of what it was, with the rest of the array unchanged |
| QuickSortSo5.SortParts | so5/so.cc:43-46 | sorting the part up to `right` and the part from `left` sorts the whole partitioned range |
| QuickSortSo5.PartsSorted | so5/so.cc:43-46 | after the partition and both sorts the range is sorted and permuted |
| QuickSortSo5.BetweenIsPivot | so5/so.cc:28-46 | the elements between the crossed pointers equal the pivot and neither recursive sort moves them |
| QuickSortSo5.PartsPerm | so5/so.cc:43-46 | permuting the range and then each part permutes the range |
| QuickSortSo5.LeftPartBound | so5/so.cc:43-44 | the sorted left part stays at most the pivot, and the right sort leaves it alone |
| QuickSortSo5.RightPartBound | so5/so.cc:45-46 | the sorted right part stays at least the pivot |
| QuickSortSo5.SortedAround | so5/so.cc:43-46 | a sorted low part, copies of the pivot, then a sorted high part are sorted together |
| QuickSortSo5.PSort | so5/so.cc:49-58 | the whole array ends sorted and a permutation of its old contents |
| QuickSortSo5.Budget | so5/so.cc:51 | the budget is the integer part of twice the binary logarithm of the thread count |
| Commands.GpuCommands | cp1/.ppc/ppcgrader/commands.py:149-205 | a command is GPU-flavoured exactly when it belongs to the memcheck family |
| Commands.CpuCommands | cp1/.ppc/ppcgrader/commands.py:208-212 | test-uninit is the only CPU-flavoured command |
| Commands.LocalCommands | cp1/.ppc/ppcgrader/commands.py:430-471 | only compile-demo and demo refuse remote execution |
| Commands.ExpandGlob | cp1/.ppc/ppcgrader/commands.py:516-527 | the loop returns the expansion of the given patterns, or of the defaults when none are given |
| Commands.ExpansionAppend | cp1/.ppc/ppcgrader/commands.py:521-525 | the result follows the pattern order: expanding two lists in turn is expanding their concatenation |
| Commands.PatternHitsMembers | cp1/.ppc/ppcgrader/commands.py:522-525 | a pattern contributes itself when it is an existing path, and otherwise exactly its glob matches |
| Commands.ExpansionHas | cp1/.ppc/ppcgrader/commands.py:516-527 | every test a pattern contributes is in the expansion |
| Commands.ExpansionSource | cp1/.ppc/ppcgrader/commands.py:516-527 | every test in the expansion comes from some pattern |
| Commands.ParseTimeout | cp1/.ppc/ppcgrader/commands.py:501-513 | no limit with no_timeout; a non-zero command-line timeout wins; otherwise the file's first line decides: its second space-separated word when the first is "timeout" and there are two (an IndexError exactly when there is none), else no limit |
| Commands.TimeoutLine | cp1/.ppc/ppcgrader/commands.py:509-511 | a first line "timeout X" gives X (with its line break) as the limit |
| Commands.Quote | cp1/.ppc/ppcgrader/commands.py:532-534 | each test is wrapped in double quotes |
| Commands.NoTestsErrorQuotes | cp1/.ppc/ppcgrader/commands.py:531-535 | the message about given tests starts with "The specified tests " and quotes every one of them |
| Commands.NoTestsErrorTail | cp1/.ppc/ppcgrader/commands.py:537-547 | the message about default tests ends with "its contents?" for one folder and "their contents?" for several |
| Commands.NoTestsErrorDirs | cp1/.ppc/ppcgrader/commands.py:537-547 | the message about default tests names every folder |
| Commands.DirNamesHas | cp1/.ppc/ppcgrader/commands.py:538-543 | the folder list ("a, b or c") contains every folder |
| Commands.CollectTests | cp1/.ppc/ppcgrader/commands.py:51-55 | (likewise at lines 108-112 and 317-321, with other patterns) the expansion when it is non-empty, otherwise the exit with no_tests_error's message |
| Commands.CollectMemcheckTests | cp1/.ppc/ppcgrader/commands.py:156-161 | the memcheck tests, the medium tests only when there are none, and the exit naming "tests" when both are empty |
| Commands.MemcheckUserTests | cp1/.ppc/ppcgrader/commands.py:156-158 | with tests on the command line both expansions are that of the given tests |
| Commands.GccCheck | cp1/.ppc/ppcgrader/commands.py:214-216 | an answer only for a GCC, true exactly from major version 12 |
| Commands.ClangCheck | cp1/.ppc/ppcgrader/commands.py:218-220 | an answer only for a Clang, true exactly from major version 8 |
| Commands.FindCompiler | cp1/.ppc/ppcgrader/commands.py:42-47 | exits with "I'm sorry, I could not find a suitable compiler." exactly when no compiler is given and the configuration finds none; otherwise the given compiler, else the configured one |
| Commands.FindUninitCompiler | cp1/.ppc/ppcgrader/commands.py:222-249 | exits exactly when the configuration finds no compiler, even when a compatible one was given; otherwise a given compiler is kept exactly when it supports pattern initialisation, with none given, the GCC found if it passes, else the Clang found if it passes, else none; whatever is returned supports it |
| Args.ExpandMacro | mf2/.ppc/ppcgrader/args.py:11-35 | the dictionary built step by step yields MacroExpansion |
| Args.ExpansionShape | mf2/.ppc/ppcgrader/args.py:11-35 | a macro never expands to nothing; a name that is not a macro, and test-memcheck off GPU, stands for itself; racecheck is never part of a macro |
| Args.TableEntries | mf2/.ppc/ppcgrader/args.py:38-50 | the dictionary comprehension holds a name exactly when some kept command has it, and maps it to such a command |
| Args.CommandFromName | mf2/.ppc/ppcgrader/args.py:38-50 | a name resolves exactly when a command has it and, off GPU, is not GPU-flavoured; otherwise ArgumentError "Unknown command" plus the name |
| Args.MacroNames | mf2/.ppc/ppcgrader/args.py:11-35 | the names of a macro's commands are its expansion |
| Args.MacrosResolve | mf2/.ppc/ppcgrader/args.py:11-50 | every command a macro stands for resolves on the kind of exercise it was expanded for |
| Args.Negation | mf2/.ppc/ppcgrader/args.py:153-154 | the twin of a long option starts with "--no-" |
| Args.TwinOptions | mf2/.ppc/ppcgrader/args.py:149-155 | the loop registers Twinned of the options |
| Args.TwinnedAppend | mf2/.ppc/ppcgrader/args.py:149-155 | the registration of two lists in turn is that of their concatenation |
| Args.TwinnedLayout | mf2/.ppc/ppcgrader/args.py:149-155 | every option is registered in its order, each long one immediately followed by its "--no-" twin |
| Args.HelpText | mf2/.ppc/ppcgrader/args.py:157-158 | " (default: ...)" is appended exactly when both a help and a default are given |
| Args.TwinPolarity | mf2/.ppc/ppcgrader/args.py:170-173 | a long option that is not a negation stores true and its twin stores false |
| Args.BooleanOptionalAction.constructor | mf2/.ppc/ppcgrader/args.py:139-168 | the action registers the twinned option strings with the help text and default |
| Args.BooleanOptionalAction.Invoke | mf2/.ppc/ppcgrader/args.py:170-173 | a registered option string stores its setting under dest; anything else changes nothing |
| PpcSo.PyIntText | so4/.ppc/ppcso/__init__.py:50 | int() of the decimal text of an integer gives that integer back |
| PpcSo.SplitLines | so4/.ppc/ppcso/__init__.py:34 | splitlines() yields lines without line breaks |
| PpcSo.LinesOfText | so4/.ppc/ppcso/__init__.py:34 | splitlines() of text written line by line gives exactly those lines |
| PpcSo.Ints | so4/.ppc/ppcso/__init__.py:31 | a row whose tokens all convert gives one integer per token |
| PpcSo.ParseMatrix | so4/.ppc/ppcso/__init__.py:27-32 | a parsed matrix always has at least one row, since split always yields a piece |
| PpcSo.IntsOfTexts | so4/.ppc/ppcso/__init__.py:31 | converting the printed elements of a row gives the row back |
| PpcSo.StripJoined | so4/.ppc/ppcso/__init__.py:29 | stripping white space around a printed row leaves its elements joined by single spaces |
| PpcSo.TokensOfRow | so4/.ppc/ppcso/__init__.py:30-31 | splitting a printed row on spaces and dropping the empty pieces gives its element texts |
| PpcSo.ParseMatrixRoundTrip | so4/.ppc/ppcso/__init__.py:27-32 | parse_matrix reads the text print_matrix writes for an integer matrix with at least one row back as that matrix |
| PpcSo.CellsAreTexts | so4/.ppc/ppcso/__init__.py:52-56 | the elements print_matrix writes for a row-major integer array are the decimal texts of its rows |
| PpcSo.Finish | so4/.ppc/ppcso/__init__.py:60 | the return raises an unbound-local error for time before errors, and returns exactly when both were bound and no line raised |
| PpcSo.RaisedStays | so4/.ppc/ppcso/__init__.py:34-58 | once a line raises, the whole reading raises that exception |
| PpcSo.ParseOutput | so4/.ppc/ppcso/__init__.py:12-60 | the loop over the lines gives the outcome of reading every line in order and then returning |
| PpcSo.TwoFields | so4/.ppc/ppcso/__init__.py:35 | a key and a value without tabs split back into those two fields |
| PpcSo.ResultLine | so4/.ppc/ppcso/__init__.py:36-41 | fail sets errors to True, pass and done set it to False, and any other value raises KeyError |
| PpcSo.TimeLine | so4/.ppc/ppcso/__init__.py:42-43 | a time line binds time to the text it converts |
| PpcSo.PerfLineStored | so4/.ppc/ppcso/__init__.py:44-48 | a perf_ line stores its integer value under its key; the wall-clock line also binds time to its nanoseconds |
| PpcSo.PerfLines | so4/.ppc/ppcso/__init__.py:47-48 | the profiler writes one line per counter |
| PpcSo.ListingLines | so4/.ppc/ppcso/__init__.py:34 | the profiler's listing is its perf_ lines, each ended by a line break |
| PpcSo.RunPerfLines | so4/.ppc/ppcso/__init__.py:47-48 | reading the profiler's lines stores every counter's value, whatever state came before |
| PpcSo.ListingStatistics | so4/.ppc/ppcso/__init__.py:34-48 | reading the profiler's listing gives statistics["perf_<name>"] equal to each counter's value |
| PpcSo.MatrixField | so4/.ppc/ppcso/__init__.py:52-56 | the field after the key of a line with a printed one-row matrix parses back to that row |
| PpcSo.OutputLine | so4/.ppc/ppcso/__init__.py:53-54 | an output line sets the result to the first row of its matrix |
| PpcSo.InputLine | so4/.ppc/ppcso/__init__.py:51-52 | an input line sets the input data to the first row of its matrix |
| PpcSo.CorrectLine | so4/.ppc/ppcso/__init__.py:55-56 | a correct line sets the expected output to the first row of its matrix |
| PpcSo.NLine | so4/.ppc/ppcso/__init__.py:49-50 | an n line stores its value as an integer |
| PpcSo.ErrorTypeLine | so4/.ppc/ppcso/__init__.py:57-58 | an error_type line stores its value as an integer |
| PpcSo.LaterOutputWins | so4/.ppc/ppcso/__init__.py:53-54 | of two output lines, the later one gives the result |
| PpcSo.OtherLine | so4/.ppc/ppcso/__init__.py:34-58 | a line whose key is none of the known ones changes nothing |
| PpcSo.ErrorsStayUnbound | so4/.ppc/ppcso/__init__.py:36-41 | without a result line, errors stays unbound |
| PpcSo.TimeStaysUnbound | so4/.ppc/ppcso/__init__.py:42-46 | without a time line or a wall-clock line, time stays unbound |
| PpcSo.NoTimeRaises | so4/.ppc/ppcso/__init__.py:60 | a report without a time or wall-clock line raises an unbound-local error for time unless an earlier line raised |
| PpcSo.NoResultRaises | so4/.ppc/ppcso/__init__.py:60 | a report without a result line never returns |
| ApiTools.EnvProperty.constructor | cp2c/.ppc/ppcgrader/api_tools.py:11-28 | the property keeps its settings and its value is the one collected from the enabled sources |
| ApiTools.EnvProperty.Chosen | cp2c/.ppc/ppcgrader/api_tools.py:30-42 | the value is unset exactly when no enabled source holds one, and otherwise comes from one of the enabled sources, the environment variable first |
| ApiTools.EnvProperty.Collect | cp2c/.ppc/ppcgrader/api_tools.py:30-42 | the successive overwrites leave the value of the last enabled source in the order defaults, home file, current-directory file, environment |
| ApiTools.EnvProperty.Explain | cp2c/.ppc/ppcgrader/api_tools.py:53-77 | the list of methods built step by step gives the explanation text |
| ApiTools.EnvProperty.GetRequired | cp2c/.ppc/ppcgrader/api_tools.py:44-48 | a set value is returned; an unset one exits with the "not configured" explanation |
| ApiTools.EnvProperty.EnvOffered | cp2c/.ppc/ppcgrader/api_tools.py:55-56 | the explanation offers the environment variable exactly when the property has one |
| ApiTools.EnvProperty.FileOffered | cp2c/.ppc/ppcgrader/api_tools.py:57-70 | the explanation offers a config.json file exactly when the current-directory or the home file is enabled |
| ApiTools.EnvProperty.ExplanationHead | cp2c/.ppc/ppcgrader/api_tools.py:74 | the explanation starts with the human name and the status |
| ApiTools.EnvProperty.ExplanationLists | cp2c/.ppc/ppcgrader/api_tools.py:72-77 | every offered method appears in the explanation |
| ApiTools.EnvProperty.LocationNamesHome | cp2c/.ppc/ppcgrader/api_tools.py:58-63 | when the home file is enabled, the location names the home path |
| ApiTools.EnvProperty.LocationNamesHere | cp2c/.ppc/ppcgrader/api_tools.py:58-61 | when the current-directory file is enabled, the location names the current directory |
| ApiTools.PathJoin | cp2c/.ppc/ppcgrader/api_tools.py:83 | os.path.join ends with its second part, and a relative second part follows the first with at most one separating slash |
| ApiTools.HomeConfigPath | cp2c/.ppc/ppcgrader/api_tools.py:80-89 | XDG_CONFIG_HOME, when set, is extended with ppc/; otherwise the macOS or the Linux user path is expanded |
| ApiTools.Present | cp2c/.ppc/ppcgrader/api_tools.py:98 | the comprehension keeps exactly the entries whose value is not null |
| ApiTools.Strings | cp2c/.ppc/ppcgrader/api_tools.py:99-100 | when every kept value is a string, the configuration maps each key to that string |
| ApiTools.LoadJsonConfig | cp2c/.ppc/ppcgrader/api_tools.py:92-107 | a missing file gives no settings; an undecodable file, a non-object or a non-string value exits with the file named; otherwise the non-null entries are loaded |
| ApiTools.ApiUrl | cp2c/.ppc/ppcgrader/api_tools.py:123 | the URL loses exactly its trailing slashes |
| ApiTools.ApiUrlIdempotent | cp2c/.ppc/ppcgrader/api_tools.py:123 | trimming a trimmed URL changes nothing |
| ApiTools.Fallback | cp2c/.ppc/ppcgrader/api_tools.py:158-161 | an unreadable error body gives the HTTP status, no reason, and unexpected exactly for statuses from 500 up |
| ApiTools.ReadErrorBody | cp2c/.ppc/ppcgrader/api_tools.py:151-155 | a body read in full carries a reason; a missing field is one the object lacks; a body that is not a JSON object is unreadable |
| ApiTools.ErrorFromResponse | cp2c/.ppc/ppcgrader/api_tools.py:149-162 | the handler as written: a non-object body falls back to the status, and a KeyError escapes exactly when a field is missing |
| ApiTools.EmptyObjectEscapes | cp2c/.ppc/ppcgrader/api_tools.py:149-162 | an empty JSON object sent with a 404 raises KeyError instead of APIError |
| ApiTools.ErrorFromResponseCaught | cp2c/.ppc/ppcgrader/api_tools.py:149-162 | with KeyError caught too, every body not read in full falls back to the HTTP status |
| ApiTools.CaughtAgrees | cp2c/.ppc/ppcgrader/api_tools.py:149-162 | the corrected handler raises the same APIError as the written one whenever that one raises an APIError, and the status fallback when it lets a KeyError escape |
| Strs.Split | so4/.ppc/ppcso/__init__.py:35 | str.split on one character gives at least one piece, and no piece holds the separator |
| Strs.SplitJoin | so4/.ppc/ppcso/__init__.py:35 | splitting pieces joined by a separator they do not hold gives the pieces back |
| Strs.LStrip | so4/.ppc/ppcso/__init__.py:28-29 | lstrip leaves a suffix of the text that does not start with a stripped character |
| Strs.RStrip | cp2c/.ppc/ppcgrader/api_tools.py:123 | rstrip leaves a prefix of the text that does not end with a stripped character, having removed only stripped characters |
| Strs.SortStrings | cp1/.ppc/ppcgrader/commands.py:525 | sorted() gives the same strings in ascending order |
| Strs.ParseInt | so4/.ppc/ppcso/__init__.py:50 | only non-empty text parses, and a run of digits parses to its decimal value |
| Strs.IntTextRoundTrip | so4/.ppc/ppcso/__init__.py:50 | the decimal text of an integer parses back to that integer |
| Strs.SortedKeys | so4/.ppc/ppcgrader/include/perf/stopwatch_linux.h:116 | a std::map is visited in ascending key order, each key once |

## Left out

- System calls and clocks. `perf_event_open`, `ioctl`, `read`, `close`, `getrusage` and `std::chrono::steady_clock` are answered by the `LinuxPerf.Kernel` oracle or passed in as values. Their numeric constants are written in with the values of the Linux ABI; `linux/perf_event.h` is not part of this model.
- The text of `std::system_error::what()` and of `strerror`. A diagnostic keeps the counter name and the exception, not the rendered message.
- OpenMP. The two tasks of each level act on disjoint parts and are waited for, so they are modelled as two calls in sequence. `omp_get_max_threads` is a parameter. The floating-point `std::log2` is computed exactly on integers, which assumes it rounds exact results correctly.
- `std::sort` and `std::inplace_merge`. They are given by value-level reference definitions (sorted permutation; merge of two sorted runs), not by their library algorithms.
- The `mt19937` engine. It is a finite sequence of 32-bit draws. When the sequence runs out before a draw is accepted, the result is `None`, because the rejection loop cannot be shown to end for an arbitrary engine.
- The other parts of `ppc.h`:
  - the floating-point and normal-distribution generators;
  - `timer`;
  - `fdostream`;
  - the CUDA hooks.
- `std::scientific` formatting in `print_matrix`. The element formatter is a parameter; the round trip with the report reader is proved for integer elements, which it leaves as decimal text.
- `PpcSo.ParseOutput`:
  - the `float()` and `/ 1e9` conversions of the time are not modelled. The time is kept as its text or as integer nanoseconds.
  - `splitlines` is modelled for `\n` line breaks only.
  - `int()` is modelled for an optional sign and decimal digits inside surrounding white space; digit-group underscores and non-ASCII digits are left out.
  - White space, for `strip()` and `int()`, is the ASCII set of C's `isspace`; the separators `\x1c` to `\x1f`, `\x85`, `\xa0` and the other non-ASCII spaces Python also treats as white space are left out.
- `Commands.ParseTimeout`: `float(first_line[1])` is not evaluated. `FromFile(text)` keeps the text, so the `ValueError` of a text that is not a number is left out.
- `PpcRandom.Combine`: C++ leaves unspecified which of the two `rng()` calls in `((uint64_t)rng() << 32) | (uint64_t)rng()` runs first. The model fixes the left call first, so the first engine output becomes the high word; a compiler may do the reverse.
- `Perf.Perf.PrintTo`: the iteration order of the `std::unordered_map` is unspecified. The model lets any enumeration of the keys be chosen.
- The Base64 encoding of the API token and of the HTTP basic-auth credentials in `API.__init__`. Only the URL trimming is modelled.
- `API.make_json_request`: the request itself (headers, JSON encoding of the body, the network) is left out. Only the reading of an HTTP error answer is modelled, from the decoded body, the status code and `str(e)`. `str()` of a JSON value that is not a string is the parameter `repr`.
- `EnvProperty.get_optional`: it only returns the collected value, which the model's `value` field already is.
- `load_json_config`: JSON numbers are integers in the model, and a file that exists but cannot be opened is left out. `os.path.abspath` is given as a parameter.
- argparse. `parse_args`, `prepare_parser` and the help formatting are left out; only the option strings and help text of `BooleanOptionalAction` and its `__call__` are modelled.
- Python dictionary order. Dictionaries are maps, so the model does not fix their order.

## Findings

| source | as written | input that shows it | evidently intended | confidence | as-written member | corrected member |
|---|---|---|---|---|---|---|
| so5/so.cc:19-23 | the pivot `p1 + p2 + p3 - max(p1, max(p2, p3)) - min(p1, max(p2, p3))` always equals `min(p2, p3)`, the smaller of the first and last elements | data = [1, 5, 3]: the pivot is 1, while the median of the three samples is 3 | the median of the middle, first and last elements ("choosing a better pivot") | not executed | QuickSortSo5.PivotAsWrittenIsNotMedian | QuickSortSo5.MedianOfThreeIsMedian |
| cp2c/.ppc/ppcgrader/api_tools.py:149-161 | the handler catches JSONDecodeError, TypeError, IndexError and ValueError but not KeyError, so a JSON object lacking one of the four fields escapes as KeyError | an HTTP 404 whose body is `{}` raises KeyError('status') instead of APIError | every HTTP error becomes an APIError, falling back to the HTTP status when the body cannot be read | not executed | ApiTools.EmptyObjectEscapes | ApiTools.CaughtAgrees |

The quicksort model (`QuickSortSo5.QuickSort`, `QuickSortSo5.PSort`) sorts with the pivot as written. The defect costs the balance of the partition, not the result: the partition and the recursion are proved for any pivot that occurs in the range, and `QuickSortSo5.MedianOccurs` shows that the corrected pivot occurs there as well.
