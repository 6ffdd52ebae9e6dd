/** ppc::detail::PerfCountersLinux: the perf_event_open back end of the
    stopwatch. Its state is described by a `LinuxState` value; each method of
    the class is proved to move that value as the matching specification
    function says, and the lemmas state what those functions guarantee. */
module StopwatchLinux {
  import opened Strs
  import opened CppErrors
  import opened LinuxPerf
  import opened PerfCounters
  import opened EventMapping
  import opened EventFd
  import opened CpuTime

  /** Report key of the exclude-kernel flag. */
  const EXCLUDE_KERNEL := "exclude_kernel"

  /** Abstract state: the counter map (name to descriptor state), the name of the
      leader entry (the `m_Leader` iterator), the kernel-exclusion flag and the
      CPU-time fields. */
  datatype LinuxState = LinuxState(
    counters: map<string, FdState>,
    leader: Option<string>,
    excludeKernel: bool,
    cpu: CpuAccount)

  const Initial := LinuxState(map[], None, false, ZeroAccount)

  /** What every reachable state satisfies: the leader exists iff some counter
      does and names one of them; every stored descriptor is open; only the
      leader entry can carry the leader flag. */
  predicate Inv(s: LinuxState)
  {
    (s.leader.None? <==> s.counters == map[]) &&
    (s.leader.Some? ==> s.leader.value in s.counters) &&
    (forall k :: k in s.counters ==> s.counters[k].fd >= 0) &&
    (forall k :: k in s.counters && s.counters[k].leader ==> s.leader == Some(k))
  }

  /** Every counter key is a name of the event catalog. */
  predicate CatalogKeys(s: LinuxState)
  {
    forall k :: k in s.counters ==> Listed(AddableNames, k)
  }

  lemma InitialInv()
    ensures Inv(Initial) && CatalogKeys(Initial)
  {
  }

  /** `get_leader()`: the leader's descriptor, or -1 when there is no leader. */
  function LeaderFd(s: LinuxState): int
  {
    if s.leader.Some? && s.leader.value in s.counters then s.counters[s.leader.value].fd else -1
  }

  /** The `group_fd` argument: -1 while the map is empty, else the leader's fd. */
  function GroupFd(s: LinuxState): int
  {
    if s.counters == map[] then -1 else LeaderFd(s)
  }

  /** The attribute block before `fill_in`: the first counter is pinned, disabled
      and reads the group timings; later ones are neither. All of them exclude the
      hypervisor, are inherited, and take `exclude_kernel` from the flag. */
  function RequestAttr(first: bool, excludeKernel: bool): PerfEventAttr
  {
    var pe :=
      if first then
        ZeroAttr.(pinned := true, disabled := true,
                  readFormat := PERF_FORMAT_TOTAL_TIME_ENABLED | PERF_FORMAT_TOTAL_TIME_RUNNING)
      else ZeroAttr.(disabled := false, pinned := false, readFormat := 0);
    pe.(excludeKernel := excludeKernel, excludeHv := true, inherit := true)
  }

  /** Result of `add_counter_imp`: new state, outcome, the open-request log after
      the call and the descriptors it closed. */
  datatype AddStep = AddStep(state: LinuxState, result: Result<()>, openLog: seq<OpenRequest>, closed: seq<int>)

  /** `m_Counters[name] = EventFileDescriptor{fd, group_fd == -1}`, then, when
      `get_leader()` on the updated map finds no leader, the new entry becomes the
      leader (`m_Counters.begin()`, which is that entry: the map held nothing else). */
  function Settle(s: LinuxState, name: string, fd: nat): LinuxState
  {
    var t := s.(counters := s.counters[name := FdState(fd, GroupFd(s) == -1)]);
    t.(leader := if LeaderFd(t) == -1 then Some(name) else t.leader)
  }

  /** The descriptor the assignment in `Settle` closes: the one a re-added name held. */
  function ClosedBy(s: LinuxState, name: string): seq<int>
  {
    if name in s.counters && s.counters[name].fd != -1 then [s.counters[name].fd] else []
  }

  /** One pass of `add_counter_imp` up to its recursive call: it either finishes
      or asks for a retry with `exclude_kernel` set. */
  datatype Attempt = Done(step: AddStep) | Retry(state: LinuxState, log: seq<OpenRequest>)

  /** A pass of `add_counter_imp(name)`, given the kernel's open answers and the
      requests made before. A retry happens only while the kernel is still
      counted, and it sets the flag and changes nothing else. */
  function AddAttempt(s: LinuxState, name: string, answer: seq<OpenRequest> -> OpenAnswer,
                      log: seq<OpenRequest>): (r: Attempt)
    ensures r.Retry? ==> !s.excludeKernel && r.state == s.(excludeKernel := true)
  {
    match FillIn(RequestAttr(s.counters == map[], s.excludeKernel), name)
    case Throw(e) => Done(AddStep(s, Throw(e), log, []))
    case Ok(pe) => OpenStep(s, name, pe, answer, log)
  }

  /** The rest of a pass once `pe` is filled in: one open request in the
      leader's group, then store, throw `system_error`, or retry on EACCES. */
  function OpenStep(s: LinuxState, name: string, pe: PerfEventAttr, answer: seq<OpenRequest> -> OpenAnswer,
                    log: seq<OpenRequest>): (r: Attempt)
    ensures r.Retry? ==> !s.excludeKernel && r.state == s.(excludeKernel := true)
  {
    var log' := log + [OpenRequest(pe, 0, -1, GroupFd(s), 0)];
    match answer(log')
    case OpenFailed(errno) =>
      if !s.excludeKernel && errno == EACCES then Retry(s.(excludeKernel := true), log')
      else Done(AddStep(s, Throw(SystemError(errno)), log', []))
    case Opened(fd) => Done(AddStep(Settle(s, name, fd), Ok(()), log', ClosedBy(s, name)))
  }

  /** `add_counter_imp(name)`: passes until one finishes (at most two). */
  function AddCounter(s: LinuxState, name: string, answer: seq<OpenRequest> -> OpenAnswer,
                      log: seq<OpenRequest>): AddStep
    decreases if s.excludeKernel then 0 else 1
  {
    match AddAttempt(s, name, answer, log)
    case Done(st) => st
    case Retry(s', log') => AddCounter(s', name, answer, log')
  }

  /** Storing a new descriptor keeps the invariant: the first entry becomes the
      flagged leader, later entries join unflagged, and the leader stays. */
  lemma SettleInv(s: LinuxState, name: string, fd: nat)
    requires Inv(s)
    ensures Inv(Settle(s, name, fd))
    ensures s.counters == map[] ==>
              Settle(s, name, fd).counters == map[name := FdState(fd, true)] && Settle(s, name, fd).leader == Some(name)
    ensures s.counters != map[] ==>
              Settle(s, name, fd).counters == s.counters[name := FdState(fd, false)] && Settle(s, name, fd).leader == s.leader
  {
    var t := Settle(s, name, fd);
    forall k | k in t.counters && t.counters[k].leader ensures t.leader == Some(k) {
      if k == name {
        assert GroupFd(s) == -1;
      }
    }
  }

  /** Storing a descriptor adds exactly its key and keeps every other entry. */
  lemma SettleEffects(s: LinuxState, name: string, fd: nat)
    ensures Settle(s, name, fd).counters.Keys == s.counters.Keys + {name}
    ensures forall k :: k in s.counters && k != name ==> Settle(s, name, fd).counters[k] == s.counters[k]
  {
  }

  /** Adding a counter keeps the invariant. */
  lemma {:induction false} AddCounterInv(s: LinuxState, name: string, answer: seq<OpenRequest> -> OpenAnswer,
                                         log: seq<OpenRequest>)
    requires Inv(s)
    ensures Inv(AddCounter(s, name, answer, log).state)
    decreases if s.excludeKernel then 0 else 1
  {
    var f := FillIn(RequestAttr(s.counters == map[], s.excludeKernel), name);
    if f.Ok? {
      var log' := log + [OpenRequest(f.value, 0, -1, GroupFd(s), 0)];
      var a := answer(log');
      if a.OpenFailed? && !s.excludeKernel && a.errno == EACCES {
        AddCounterInv(s.(excludeKernel := true), name, answer, log');
      } else if a.Opened? {
        SettleInv(s, name, a.fd);
      }
    }
  }

  /** An unknown name throws out_of_range from fill_in before any open request,
      and nothing changes. */
  lemma AddCounterUnknown(s: LinuxState, name: string, answer: seq<OpenRequest> -> OpenAnswer,
                          log: seq<OpenRequest>)
    requires name !in AddableNames
    ensures AddCounter(s, name, answer, log) == AddStep(s, Throw(OutOfRange), log, [])
  {
    ListedIsIn(AddableNames, name);
  }

  /** Every request of one call: the attribute is `RequestAttr` for the current
      emptiness and kernel flag, filled in for `name`; pid 0, any cpu, no flags,
      and the group is the leader's (or -1 for the first counter). At most two
      requests are made, the second only after EACCES with the kernel still
      included, and then with `exclude_kernel` set for good. */
  lemma {:induction false} AddCounterRequests(s: LinuxState, name: string, answer: seq<OpenRequest> -> OpenAnswer,
                                              log: seq<OpenRequest>)
    requires name in AddableNames
    ensures (ListedIsIn(AddableNames, name);
      var st := AddCounter(s, name, answer, log);
      var first := OpenRequest(FillIn(RequestAttr(s.counters == map[], s.excludeKernel), name).value,
                               0, -1, GroupFd(s), 0);
      var retry := !s.excludeKernel && answer(log + [first]) == OpenFailed(EACCES);
      var second := OpenRequest(FillIn(RequestAttr(s.counters == map[], true), name).value,
                                0, -1, GroupFd(s), 0);
      st.openLog == log + [first] + (if retry then [second] else []) &&
      st.state.excludeKernel == (s.excludeKernel || retry) &&
      (st.result.Ok? <==> answer(st.openLog).Opened?) &&
      (st.result.Throw? ==> st.result.exc == SystemError(answer(st.openLog).errno)))
    decreases if s.excludeKernel then 0 else 1
  {
    ListedIsIn(AddableNames, name);
    var first := OpenRequest(FillIn(RequestAttr(s.counters == map[], s.excludeKernel), name).value,
                             0, -1, GroupFd(s), 0);
    if !s.excludeKernel && answer(log + [first]) == OpenFailed(EACCES) {
      var s1 := s.(excludeKernel := true);
      AddCounterRequests(s1, name, answer, log + [first]);
      assert GroupFd(s1) == GroupFd(s);
    }
  }

  /** While the map is empty, the requests go without a group, pinned and
      disabled, with the time-enabled/running read format, and a success makes
      the new entry the flagged leader. */
  lemma {:induction false} AddFirstCounter(s: LinuxState, name: string, answer: seq<OpenRequest> -> OpenAnswer,
                                           log: seq<OpenRequest>)
    requires Inv(s) && s.counters == map[] && name in AddableNames
    ensures var st := AddCounter(s, name, answer, log);
      (forall i :: |log| <= i < |st.openLog| ==>
         st.openLog[i].groupFd == -1 && st.openLog[i].attr.pinned && st.openLog[i].attr.disabled &&
         st.openLog[i].attr.readFormat == PERF_FORMAT_TOTAL_TIME_ENABLED | PERF_FORMAT_TOTAL_TIME_RUNNING) &&
      (st.result.Ok? ==>
         answer(st.openLog).Opened? &&
         st.state.leader == Some(name) &&
         st.state.counters == map[name := FdState(answer(st.openLog).fd, true)])
  {
    AddCounterRequests(s, name, answer, log);
    FilledAttr(true, s.excludeKernel, name);
    FilledAttr(true, true, name);
    AddCounterStored(s, name, answer, log);
  }

  /** `fill_in` changes only the type and config of the attribute block, so
      the pinned, disabled and read-format settings of `RequestAttr` survive it. */
  lemma FilledAttr(first: bool, excludeKernel: bool, name: string)
    ensures var f := FillIn(RequestAttr(first, excludeKernel), name);
      f.Ok? ==>
        f.value.pinned == first && f.value.disabled == first &&
        f.value.readFormat == if first then PERF_FORMAT_TOTAL_TIME_ENABLED | PERF_FORMAT_TOTAL_TIME_RUNNING else 0
  {
    var pe := RequestAttr(first, excludeKernel);
    var f := FillIn(pe, name);
    if f.Ok? {
      assert f.value.(type_ := pe.type_, config := pe.config) == pe;
    }
  }

  /** A successful call stores the descriptor its last request opened, as
      `Settle` says, on the state with the kernel flag as the call left it. */
  lemma AddCounterStored(s: LinuxState, name: string, answer: seq<OpenRequest> -> OpenAnswer,
                         log: seq<OpenRequest>)
    requires Inv(s) && name in AddableNames
    ensures var st := AddCounter(s, name, answer, log);
      st.result.Ok? ==>
        answer(st.openLog).Opened? && Inv(st.state) &&
        st.state.counters == s.counters[name := FdState(answer(st.openLog).fd, s.counters == map[])] &&
        st.state.leader == if s.counters == map[] then Some(name) else s.leader
  {
    AddCounterRequests(s, name, answer, log);
    var st := AddCounter(s, name, answer, log);
    if st.result.Ok? {
      SettleInv(s.(excludeKernel := st.state.excludeKernel), name, answer(st.openLog).fd);
    }
  }

  /** Once a leader exists it never changes: later counters join its group,
      enabled and unpinned, without timing read format, and are stored without
      the leader flag. */
  lemma {:induction false} AddLaterCounter(s: LinuxState, name: string, answer: seq<OpenRequest> -> OpenAnswer,
                                           log: seq<OpenRequest>)
    requires Inv(s) && s.counters != map[]
    ensures var st := AddCounter(s, name, answer, log);
      st.state.leader == s.leader &&
      (forall i :: |log| <= i < |st.openLog| ==>
         st.openLog[i].groupFd == LeaderFd(s) && !st.openLog[i].attr.pinned &&
         !st.openLog[i].attr.disabled && st.openLog[i].attr.readFormat == 0) &&
      (st.result.Ok? ==>
         answer(st.openLog).Opened? &&
         st.state.counters == s.counters[name := FdState(answer(st.openLog).fd, false)])
  {
    ListedIsIn(AddableNames, name);
    if name in AddableNames {
      AddCounterRequests(s, name, answer, log);
      FilledAttr(false, s.excludeKernel, name);
      FilledAttr(false, true, name);
      AddCounterStored(s, name, answer, log);
      AddCounterFails(s, name, answer, log);
    } else {
      AddCounterUnknown(s, name, answer, log);
    }
  }

  /** A failed call leaves the counters and the leader as they were, and closes
      nothing. */
  lemma {:induction false} AddCounterFails(s: LinuxState, name: string, answer: seq<OpenRequest> -> OpenAnswer,
                                           log: seq<OpenRequest>)
    ensures var st := AddCounter(s, name, answer, log);
      st.result.Throw? ==> st.state.counters == s.counters && st.state.leader == s.leader && st.closed == []
    decreases if s.excludeKernel then 0 else 1
  {
    var f := FillIn(RequestAttr(s.counters == map[], s.excludeKernel), name);
    if f.Ok? {
      var log' := log + [OpenRequest(f.value, 0, -1, GroupFd(s), 0)];
      var a := answer(log');
      if a.OpenFailed? && !s.excludeKernel && a.errno == EACCES {
        AddCounterFails(s.(excludeKernel := true), name, answer, log');
      }
    }
  }

  /** A successful call was for a catalog name; it adds exactly that key, keeps
      every other entry, and closes exactly the descriptor a re-added name held. */
  lemma {:induction false} AddCounterSucceeds(s: LinuxState, name: string, answer: seq<OpenRequest> -> OpenAnswer,
                                              log: seq<OpenRequest>)
    ensures var st := AddCounter(s, name, answer, log);
      st.result.Ok? ==>
        Listed(AddableNames, name) &&
        st.state.counters.Keys == s.counters.Keys + {name} &&
        (forall k :: k in s.counters && k != name ==> st.state.counters[k] == s.counters[k]) &&
        st.closed == ClosedBy(s, name)
    decreases if s.excludeKernel then 0 else 1
  {
    var f := FillIn(RequestAttr(s.counters == map[], s.excludeKernel), name);
    if f.Ok? {
      var log' := log + [OpenRequest(f.value, 0, -1, GroupFd(s), 0)];
      var a := answer(log');
      if a.OpenFailed? && !s.excludeKernel && a.errno == EACCES {
        AddCounterSucceeds(s.(excludeKernel := true), name, answer, log');
      } else if a.Opened? {
        SettleEffects(s, name, a.fd);
      }
    }
  }

  /** Counter keys stay catalog names. */
  lemma AddCounterCatalogKeys(s: LinuxState, name: string, answer: seq<OpenRequest> -> OpenAnswer,
                              log: seq<OpenRequest>)
    requires CatalogKeys(s)
    ensures CatalogKeys(AddCounter(s, name, answer, log).state)
  {
    AddCounterFails(s, name, answer, log);
    AddCounterSucceeds(s, name, answer, log);
    ListedIsIn(AddableNames, name);
  }

  /** `add_counter_imp` throws only out_of_range (an unknown name) or
      system_error (a failed open). */
  lemma {:induction false} AddCounterThrows(s: LinuxState, name: string, answer: seq<OpenRequest> -> OpenAnswer,
                                            log: seq<OpenRequest>)
    ensures var r := AddCounter(s, name, answer, log).result;
      r.Throw? ==> r.exc == OutOfRange || r.exc.SystemError?
    decreases if s.excludeKernel then 0 else 1
  {
    var f := FillIn(RequestAttr(s.counters == map[], s.excludeKernel), name);
    if f.Ok? {
      var log' := log + [OpenRequest(f.value, 0, -1, GroupFd(s), 0)];
      var a := answer(log');
      if a.OpenFailed? && !s.excludeKernel && a.errno == EACCES {
        AddCounterThrows(s.(excludeKernel := true), name, answer, log');
      }
    }
  }

  // ---------------------------------------------------------------------------
  // start_imp / stop_imp
  // ---------------------------------------------------------------------------

  /** `start_imp`: the ioctl it issues (enable the leader, if any) and the new state. */
  function StartIoctls(s: LinuxState): seq<IoctlRequest>
  {
    if LeaderFd(s) != -1 then [IoctlRequest(LeaderFd(s), Enable)] else []
  }

  function StopIoctls(s: LinuxState): seq<IoctlRequest>
  {
    if LeaderFd(s) != -1 then [IoctlRequest(LeaderFd(s), Disable)] else []
  }

  /** Only the leader is ever enabled or disabled, and only when there is one. */
  lemma IoctlsTargetLeader(s: LinuxState)
    requires Inv(s)
    ensures |StartIoctls(s)| == |StopIoctls(s)| == (if s.leader.Some? then 1 else 0)
    ensures forall r :: r in StartIoctls(s) + StopIoctls(s) ==>
              s.leader.Some? && r.fd == s.counters[s.leader.value].fd
  {
  }

  // ---------------------------------------------------------------------------
  // get_counters_imp
  // ---------------------------------------------------------------------------

  /** The entries every report has: wall, user and system time, and the flag. */
  function BaseReport(s: LinuxState, wall: int): map<string, int>
  {
    map[WALL_CLOCK := wall, USR_CLOCK := s.cpu.elapsedUsr, SYS_CLOCK := s.cpu.elapsedSys,
        EXCLUDE_KERNEL := if s.excludeKernel then 1 else 0]
  }

  datatype ReportStep = ReportStep(result: Result<map<string, int>>, log: seq<ReadRequest>)

  /** The keys of `keys` other than the leader's. */
  function Followers(keys: seq<string>, leader: Option<string>): (r: set<string>)
    ensures forall k :: k in r <==> k in keys && leader != Some(k)
    decreases |keys|
  {
    if keys == [] then {}
    else
      var rest := Followers(keys[1..], leader);
      assert forall k :: k in keys <==> k == keys[0] || k in keys[1..];
      (if leader == Some(keys[0]) then {} else {keys[0]}) + rest
  }

  /** The loop over the counter map, in key order, skipping the leader; every
      other entry must read as a plain value (`std::get<long long>`). */
  function ReadFollowers(keys: seq<string>, s: LinuxState, answer: seq<ReadRequest> -> ReadAnswer,
                         log: seq<ReadRequest>, acc: map<string, int>): ReportStep
    requires forall i :: 0 <= i < |keys| ==> keys[i] in s.counters
    decreases |keys|
  {
    if keys == [] then ReportStep(Ok(acc), log)
    else if s.leader == Some(keys[0]) then ReadFollowers(keys[1..], s, answer, log, acc)
    else
      var st := ReadValueSpec(s.counters[keys[0]], answer, log);
      match st.outcome
      case Throw(e) => ReportStep(Throw(e), st.log)
      case Ok(Value(v)) => ReadFollowers(keys[1..], s, answer, st.log, acc[keys[0] := v])
      case Ok(_) => ReportStep(Throw(BadVariantAccess), st.log)
  }

  /** `get_counters_imp()`, given the elapsed wall time, the kernel's read
      answers and the reads made before. */
  function Report(s: LinuxState, wall: int, answer: seq<ReadRequest> -> ReadAnswer,
                  log: seq<ReadRequest>): ReportStep
  {
    var base := BaseReport(s, wall);
    if LeaderFd(s) == -1 then ReportStep(Ok(base), log)
    else
      var name := s.leader.value;
      var st := ReadValueSpec(s.counters[name], answer, log);
      match st.outcome
      case Throw(e) => ReportStep(Throw(e), st.log)
      case Ok(NotCollected) => ReportStep(Ok(base), st.log)
      case Ok(Format(f)) =>
        ReadFollowers(SortedKeys(s.counters.Keys), s, answer, st.log, LeaderEntries(base, name, f))
      case Ok(Value(_)) => ReportStep(Throw(BadVariantAccess), st.log)
  }

  /** The entries a full leader read adds: the group timings and the leader's value. */
  function LeaderEntries(base: map<string, int>, name: string, f: ReadFormat): map<string, int>
  {
    base[TIME_ENABLED := f.timeEnabled][TIME_RUNNING := f.timeRunning][name := f.value]
  }

  /** The follower loop adds exactly one entry per follower key, and leaves every
      entry whose key is not in the loop as it was. */
  lemma {:induction false} ReadFollowersKeys(keys: seq<string>, s: LinuxState,
                                             answer: seq<ReadRequest> -> ReadAnswer,
                                             log: seq<ReadRequest>, acc: map<string, int>)
    requires forall i :: 0 <= i < |keys| ==> keys[i] in s.counters
    ensures var st := ReadFollowers(keys, s, answer, log, acc);
      st.result.Ok? ==>
        st.result.value.Keys == acc.Keys + Followers(keys, s.leader) &&
        (forall k :: k in acc && k !in keys ==> st.result.value[k] == acc[k])
    decreases |keys|
  {
    if keys != [] {
      if s.leader == Some(keys[0]) {
        ReadFollowersKeys(keys[1..], s, answer, log, acc);
      } else {
        var st := ReadValueSpec(s.counters[keys[0]], answer, log);
        if st.outcome.Ok? && st.outcome.value.Value? {
          ReadFollowersKeys(keys[1..], s, answer, st.log, acc[keys[0] := st.outcome.value.value]);
        }
      }
    }
  }

  /** The follower loop only appends to the read log: one 8-byte read per
      follower, each of which returned all 8 bytes when the loop succeeds. */
  lemma {:induction false} ReadFollowersReads(keys: seq<string>, s: LinuxState,
                                              answer: seq<ReadRequest> -> ReadAnswer,
                                              log: seq<ReadRequest>, acc: map<string, int>)
    requires Inv(s)
    requires forall i :: 0 <= i < |keys| ==> keys[i] in s.counters
    ensures var st := ReadFollowers(keys, s, answer, log, acc);
      |st.log| >= |log| && st.log[..|log|] == log &&
      (st.result.Ok? ==>
         forall i :: |log| <= i < |st.log| ==> st.log[i].count == 8 && answer(st.log[..i + 1]).result == 8)
    decreases |keys|
  {
    if keys != [] {
      if s.leader == Some(keys[0]) {
        ReadFollowersReads(keys[1..], s, answer, log, acc);
      } else {
        var st := ReadValueSpec(s.counters[keys[0]], answer, log);
        assert !s.counters[keys[0]].leader;
        assert st.log == log + [ReadRequest(s.counters[keys[0]].fd, 8)];
        if st.outcome.Ok? && st.outcome.value.Value? {
          var acc' := acc[keys[0] := st.outcome.value.value];
          ReadFollowersReads(keys[1..], s, answer, st.log, acc');
          var fin := ReadFollowers(keys[1..], s, answer, st.log, acc');
          assert answer(st.log).result == 8;
          assert fin.log[..|log|] == fin.log[..|st.log|][..|log|];
          if fin.result.Ok? {
            forall i | |log| <= i < |fin.log| ensures fin.log[i].count == 8 && answer(fin.log[..i + 1]).result == 8 {
              if i == |log| {
                assert fin.log[..i + 1] == st.log;
              }
            }
          }
        }
      }
    }
  }

  /** With distinct keys, the loop issues exactly one read per follower. */
  lemma {:induction false} ReadFollowersCount(keys: seq<string>, s: LinuxState,
                                              answer: seq<ReadRequest> -> ReadAnswer,
                                              log: seq<ReadRequest>, acc: map<string, int>)
    requires forall i :: 0 <= i < |keys| ==> keys[i] in s.counters
    requires forall i, j :: 0 <= i < j < |keys| ==> keys[i] != keys[j]
    ensures var st := ReadFollowers(keys, s, answer, log, acc);
      st.result.Ok? ==> |st.log| == |log| + |Followers(keys, s.leader)|
    decreases |keys|
  {
    if keys != [] {
      var rest := Followers(keys[1..], s.leader);
      assert keys[0] !in rest;
      if s.leader == Some(keys[0]) {
        ReadFollowersCount(keys[1..], s, answer, log, acc);
      } else {
        var st := ReadValueSpec(s.counters[keys[0]], answer, log);
        if st.outcome.Ok? && st.outcome.value.Value? {
          ReadFollowersCount(keys[1..], s, answer, st.log, acc[keys[0] := st.outcome.value.value]);
        }
      }
    }
  }

  /** None of the report's own keys is a counter name. */
  lemma ReportKeysSeparate(s: LinuxState, wall: int)
    requires CatalogKeys(s)
    ensures forall k :: k in BaseReport(s, wall) ==> k !in s.counters
    ensures forall k :: k in BaseReport(s, wall) ==> k != TIME_ENABLED && k != TIME_RUNNING
    ensures TIME_ENABLED !in s.counters && TIME_RUNNING !in s.counters && TIME_ENABLED != TIME_RUNNING
  {
    ExcludeKernelNotAddable();
    ClockKeys();
    Fingerprints();
    forall k | k in ReservedNames ensures k !in s.counters {
      ReservedNotAddable(k);
      if k in s.counters {
        ListedIsIn(AddableNames, k);
      }
    }
    if EXCLUDE_KERNEL in s.counters {
      ListedIsIn(AddableNames, EXCLUDE_KERNEL);
    }
    assert Fingerprint(EXCLUDE_KERNEL) == (14, 'x', 'e');
  }

  lemma ExcludeKernelNotAddable()
    ensures EXCLUDE_KERNEL !in AddableNames
  {
    Fingerprints();
    assert Fingerprint(EXCLUDE_KERNEL) == (14, 'x', 'e');
    forall i | 0 <= i < |AddableNames| ensures AddableNames[i] != EXCLUDE_KERNEL {
      if i < 10 {
        assert AddableNames[i] == HardwareNames[i];
      } else if i < 21 {
        assert AddableNames[i] == SoftwareNames[i - 10];
      } else {
        assert AddableNames[i] == CacheNames[i - 21];
      }
    }
  }

  /** Sorted keys are distinct and are exactly the counter keys. */
  lemma SortedCounterKeys(s: LinuxState)
    ensures var keys := SortedKeys(s.counters.Keys);
      (forall i :: 0 <= i < |keys| ==> keys[i] in s.counters) &&
      (forall i, j :: 0 <= i < j < |keys| ==> keys[i] != keys[j])
  {
    var keys := SortedKeys(s.counters.Keys);
    forall i, j | 0 <= i < j < |keys| ensures keys[i] != keys[j] {
      LexIrreflexive(keys[i]);
    }
  }

  /** When the leader read returns the whole `read_format`, the report is what
      the follower loop makes of the base entries plus the leader's entries. */
  lemma ReportLeaderRead(s: LinuxState, wall: int, answer: seq<ReadRequest> -> ReadAnswer, log: seq<ReadRequest>)
    requires Inv(s) && LeaderFd(s) != -1
    ensures var st := ReadValueSpec(s.counters[s.leader.value], answer, log);
      st.outcome.Ok? && st.outcome.value.Format? ==>
        Report(s, wall, answer, log) ==
        ReadFollowers(SortedKeys(s.counters.Keys), s, answer, st.log,
                      LeaderEntries(BaseReport(s, wall), s.leader.value, st.outcome.value.format))
  {
    SortedCounterKeys(s);
  }

  /** The followers of the sorted counter keys are all counters but the leader. */
  lemma FollowersOfCounters(s: LinuxState)
    requires Inv(s) && s.leader.Some?
    ensures Followers(SortedKeys(s.counters.Keys), s.leader) + {s.leader.value} == s.counters.Keys
  {
  }

  /** The follower loop, started from the leader's entries, keeps every base
      entry whose key is neither a counter nor a group timing. */
  lemma LeaderPathKeepsBase(keys: seq<string>, s: LinuxState, answer: seq<ReadRequest> -> ReadAnswer,
                            log: seq<ReadRequest>, base: map<string, int>, name: string, f: ReadFormat)
    requires forall i :: 0 <= i < |keys| ==> keys[i] in s.counters
    requires name in s.counters
    requires forall k :: k in base ==> k !in s.counters && k != TIME_ENABLED && k != TIME_RUNNING
    ensures var r := ReadFollowers(keys, s, answer, log, LeaderEntries(base, name, f)).result;
      r.Ok? ==> forall k :: k in base ==> k in r.value && r.value[k] == base[k]
  {
    var acc := LeaderEntries(base, name, f);
    ReadFollowersKeys(keys, s, answer, log, acc);
    forall k | k in base ensures k in acc && k !in keys && acc[k] == base[k] {
      assert k != name;
    }
  }

  /** The follower loop, started from the leader's entries, ends with the base
      keys, the two group timings and every counter key. */
  lemma LeaderPathKeys(keys: seq<string>, s: LinuxState, answer: seq<ReadRequest> -> ReadAnswer,
                       log: seq<ReadRequest>, base: map<string, int>, name: string, f: ReadFormat)
    requires forall i :: 0 <= i < |keys| ==> keys[i] in s.counters
    requires Followers(keys, s.leader) + {name} == s.counters.Keys
    ensures var r := ReadFollowers(keys, s, answer, log, LeaderEntries(base, name, f)).result;
      r.Ok? ==> r.value.Keys == base.Keys + {TIME_ENABLED, TIME_RUNNING} + s.counters.Keys
  {
    var acc := LeaderEntries(base, name, f);
    ReadFollowersKeys(keys, s, answer, log, acc);
    assert acc.Keys == base.Keys + {TIME_ENABLED, TIME_RUNNING} + {name};
  }

  /** Every report holds wall, user and system time and the exclude-kernel flag,
      with their values, whatever else it holds. */
  lemma ReportBaseEntries(s: LinuxState, wall: int, answer: seq<ReadRequest> -> ReadAnswer, log: seq<ReadRequest>)
    requires Inv(s) && CatalogKeys(s)
    ensures var r := Report(s, wall, answer, log).result;
      r.Ok? ==> forall k :: k in BaseReport(s, wall) ==> k in r.value && r.value[k] == BaseReport(s, wall)[k]
  {
    if LeaderFd(s) != -1 {
      var st := ReadValueSpec(s.counters[s.leader.value], answer, log);
      if st.outcome.Ok? && st.outcome.value.Format? {
        ReportLeaderRead(s, wall, answer, log);
        SortedCounterKeys(s);
        ReportKeysSeparate(s, wall);
        LeaderPathKeepsBase(SortedKeys(s.counters.Keys), s, answer, st.log, BaseReport(s, wall),
                            s.leader.value, st.outcome.value.format);
      }
    }
  }

  /** The keys of a report: only the four base entries when there is no leader
      or the leader read returned no data (and the report then succeeds);
      also the two group timings and every counter when the leader read
      returned the whole `read_format`. A report succeeds only in these cases. */
  lemma ReportKeys(s: LinuxState, wall: int, answer: seq<ReadRequest> -> ReadAnswer, log: seq<ReadRequest>)
    requires Inv(s)
    ensures var r := Report(s, wall, answer, log).result;
      LeaderFd(s) == -1 ==> r.Ok? && r.value.Keys == BaseReport(s, wall).Keys
    ensures LeaderFd(s) != -1 ==>
      var r := Report(s, wall, answer, log).result;
      var outcome := ReadValueSpec(s.counters[s.leader.value], answer, log).outcome;
      (outcome == Ok(NotCollected) ==> r.Ok? && r.value.Keys == BaseReport(s, wall).Keys) &&
      (outcome.Ok? && outcome.value.Format? && r.Ok? ==>
         r.value.Keys == BaseReport(s, wall).Keys + {TIME_ENABLED, TIME_RUNNING} + s.counters.Keys) &&
      (r.Ok? ==> outcome == Ok(NotCollected) || (outcome.Ok? && outcome.value.Format?))
  {
    if LeaderFd(s) != -1 {
      var st := ReadValueSpec(s.counters[s.leader.value], answer, log);
      if st.outcome.Ok? && st.outcome.value.Format? {
        ReportLeaderRead(s, wall, answer, log);
        SortedCounterKeys(s);
        FollowersOfCounters(s);
        LeaderPathKeys(SortedKeys(s.counters.Keys), s, answer, st.log, BaseReport(s, wall),
                       s.leader.value, st.outcome.value.format);
      }
    }
  }

  // ---------------------------------------------------------------------------
  // The class
  // ---------------------------------------------------------------------------

  /** The counter map stores its handles by value (`std::map<std::string,
      EventFileDescriptor>`), so the class keeps each entry's two fields. */
  class PerfCountersLinux {
    var counters: map<string, FdState>
    var leader: Option<string>
    var excludeKernel: bool
    var cpu: CpuAccount

    /** The state the fields describe. */
    function Abs(): LinuxState
      reads this
    {
      LinuxState(counters, leader, excludeKernel, cpu)
    }

    ghost predicate Valid()
      reads this
    {
      Inv(Abs()) && CatalogKeys(Abs())
    }

    /** No counters, no leader, kernel counted, all CPU times zero. */
    constructor ()
      ensures Valid() && Abs() == Initial
    {
      counters := map[];
      leader := None;
      excludeKernel := false;
      cpu := ZeroAccount;
    }

    /** `get_leader()`. */
    function GetLeader(): (fd: int)
      reads this
      ensures fd == LeaderFd(Abs())
    {
      if leader.Some? && leader.value in counters then counters[leader.value].fd else -1
    }

    /** `add_counter_imp(name)`: moves the state as `AddCounter` says, issues its
        open requests and closes the descriptors it names. */
    method AddCounterImp(name: string, os: Kernel) returns (r: Result<()>)
      requires Valid()
      modifies this, os
      ensures Valid()
      ensures var st := AddCounter(old(Abs()), name, os.openAnswer, old(os.openLog));
        Abs() == st.state && r == st.result && os.openLog == st.openLog &&
        os.closeLog == old(os.closeLog) + st.closed
      ensures os.readLog == old(os.readLog) && os.ioctlLog == old(os.ioctlLog)
      decreases if excludeKernel then 0 else 1
    {
      var retry;
      retry, r := AddPass(name, os);
      if retry {
        r := AddCounterImp(name, os);
      }
    }

    /** One pass of `add_counter_imp`: `fill_in` (which may throw), then the open. */
    method AddPass(name: string, os: Kernel) returns (retry: bool, r: Result<()>)
      requires Valid()
      modifies this, os
      ensures Valid()
      ensures var a := AddAttempt(old(Abs()), name, os.openAnswer, old(os.openLog));
        (retry <==> a.Retry?) &&
        (a.Retry? ==> Abs() == a.state && os.openLog == a.log && os.closeLog == old(os.closeLog)) &&
        (a.Done? ==> Abs() == a.step.state && r == a.step.result && os.openLog == a.step.openLog &&
                     os.closeLog == old(os.closeLog) + a.step.closed)
      ensures os.readLog == old(os.readLog) && os.ioctlLog == old(os.ioctlLog)
    {
      var filled := FillIn(RequestAttr(counters == map[], excludeKernel), name);
      if filled.Throw? {
        return false, Throw(filled.exc);
      }
      retry, r := OpenPass(name, filled.value, os);
    }

    /** The open request and what follows it: on success the new handle is
        stored under `name`; on EACCES with the kernel still counted the flag is
        set for a retry; otherwise `system_error(errno)` is thrown. */
    method OpenPass(name: string, pe: PerfEventAttr, os: Kernel) returns (retry: bool, r: Result<()>)
      requires Valid() && Listed(AddableNames, name)
      modifies this, os
      ensures Valid()
      ensures var a := OpenStep(old(Abs()), name, pe, os.openAnswer, old(os.openLog));
        (retry <==> a.Retry?) &&
        (a.Retry? ==> Abs() == a.state && os.openLog == a.log && os.closeLog == old(os.closeLog)) &&
        (a.Done? ==> Abs() == a.step.state && r == a.step.result && os.openLog == a.step.openLog &&
                     os.closeLog == old(os.closeLog) + a.step.closed)
      ensures os.readLog == old(os.readLog) && os.ioctlLog == old(os.ioctlLog)
    {
      var groupFd := if counters == map[] then -1 else GetLeader();
      var a := os.PerfEventOpen(pe, 0, -1, groupFd, 0);
      if a.OpenFailed? {
        if !excludeKernel && a.errno == EACCES {
          excludeKernel := true;
          return true, Ok(());
        }
        return false, Throw(SystemError(a.errno));
      }
      StoreCounter(name, a.fd, groupFd, os);
      return false, Ok(());
    }

    /** `m_Counters[name] = EventFileDescriptor{fd, group_fd == -1}`, then the
        leader check. */
    method StoreCounter(name: string, fd: nat, groupFd: int, os: Kernel)
      requires Valid() && Listed(AddableNames, name) && groupFd == GroupFd(Abs())
      modifies this, os
      ensures Valid()
      ensures Abs() == Settle(old(Abs()), name, fd)
      ensures os.closeLog == old(os.closeLog) + ClosedBy(old(Abs()), name)
      ensures os.openLog == old(os.openLog) && os.readLog == old(os.readLog) && os.ioctlLog == old(os.ioctlLog)
    {
      ghost var s := Abs();
      // `m_Counters[name]` default-constructs a missing slot (fd -1); the move
      // assignment closes what the slot held and takes the temporary's fields;
      // the moved-from temporary then holds -1 and its destructor closes nothing.
      var slot := if name in counters then counters[name] else FdState(-1, false);
      if slot.fd != -1 {
        os.Close(slot.fd);
      }
      counters := counters[name := FdState(fd, groupFd == -1)];
      if GetLeader() == -1 {
        leader := Some(name);
      }
      SettleInv(s, name, fd);
    }

    /** `start_imp`: enable the leader, if any, then record the CPU times `now`
        (what `get_cputime()` returns at this instant). */
    method StartImp(now: CpuTimes, os: Kernel)
      requires Valid()
      modifies this, os
      ensures Valid()
      ensures Abs() == old(Abs()).(cpu := BeginBracket(old(cpu), now))
      ensures os.ioctlLog == old(os.ioctlLog) + StartIoctls(old(Abs()))
      ensures os.openLog == old(os.openLog) && os.readLog == old(os.readLog) && os.closeLog == old(os.closeLog)
    {
      if GetLeader() != -1 {
        os.Ioctl(GetLeader(), Enable);
      }
      cpu := BeginBracket(cpu, now);
    }

    /** `stop_imp`: disable the leader, if any, then add the CPU time spent since
        `start_imp` to the totals. */
    method StopImp(now: CpuTimes, os: Kernel)
      requires Valid()
      modifies this, os
      ensures Valid()
      ensures Abs() == old(Abs()).(cpu := EndBracket(old(cpu), now))
      ensures os.ioctlLog == old(os.ioctlLog) + StopIoctls(old(Abs()))
      ensures os.openLog == old(os.openLog) && os.readLog == old(os.readLog) && os.closeLog == old(os.closeLog)
    {
      if GetLeader() != -1 {
        os.Ioctl(GetLeader(), Disable);
      }
      cpu := EndBracket(cpu, now);
    }

    /** `get_counters_imp()`, with the stopwatch's elapsed wall time `wall`: the
        result and the reads issued are those `Report` describes. */
    method GetCountersImp(wall: int, os: Kernel) returns (r: Result<map<string, int>>)
      requires Valid()
      modifies os
      ensures ReportStep(r, os.readLog) == Report(Abs(), wall, os.readAnswer, old(os.readLog))
      ensures os.openLog == old(os.openLog) && os.closeLog == old(os.closeLog) && os.ioctlLog == old(os.ioctlLog)
    {
      var results := map[];
      results := results[WALL_CLOCK := wall];
      results := results[USR_CLOCK := cpu.elapsedUsr];
      results := results[SYS_CLOCK := cpu.elapsedSys];
      results := results[EXCLUDE_KERNEL := if excludeKernel then 1 else 0];
      assert results == BaseReport(Abs(), wall);
      if GetLeader() == -1 {
        return Ok(results);
      }
      var name := leader.value;
      var value := ReadHandle(counters[name], os);
      if value.Throw? {
        return Throw(value.exc);
      }
      match value.value
      case NotCollected =>
        return Ok(results);
      case Value(_) =>
        return Throw(BadVariantAccess);
      case Format(data) =>
        results := results[TIME_ENABLED := data.timeEnabled];
        results := results[TIME_RUNNING := data.timeRunning];
        results := results[name := data.value];
        r := ReadFollowerValues(Abs(), name, results, os);
    }
  }

  /** The loop of `get_counters_imp` over the counter map in key order, skipping
      the leader; each other entry must hold a plain value. */
  method ReadFollowerValues(s: LinuxState, name: string, acc: map<string, int>, os: Kernel)
    returns (r: Result<map<string, int>>)
    requires s.leader == Some(name)
    modifies os
    ensures ReportStep(r, os.readLog) ==
            ReadFollowers(SortedKeys(s.counters.Keys), s, os.readAnswer, old(os.readLog), acc)
    ensures os.openLog == old(os.openLog) && os.closeLog == old(os.closeLog) && os.ioctlLog == old(os.ioctlLog)
  {
    SortedCounterKeys(s);
    var rest := SortedKeys(s.counters.Keys);
    var results := acc;
    while rest != []
      invariant forall i :: 0 <= i < |rest| ==> rest[i] in s.counters
      invariant ReadFollowers(rest, s, os.readAnswer, os.readLog, results) ==
                ReadFollowers(SortedKeys(s.counters.Keys), s, os.readAnswer, old(os.readLog), acc)
      invariant os.openLog == old(os.openLog) && os.closeLog == old(os.closeLog) && os.ioctlLog == old(os.ioctlLog)
      decreases |rest|
    {
      var key := rest[0];
      if key != name {
        var value := ReadHandle(s.counters[key], os);
        if value.Throw? {
          return Throw(value.exc);
        }
        if !value.value.Value? {
          return Throw(BadVariantAccess);
        }
        results := results[key := value.value.value];
      }
      rest := rest[1..];
    }
    return Ok(results);
  }
}
