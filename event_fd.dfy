/** ppc::detail::EventFileDescriptor: the move-only owner of one perf counter
    file descriptor, and its `read_value` with the four-way outcome. */
module EventFd {
  import opened LinuxPerf
  import opened CppErrors

  /** `std::variant<long long, read_format, NotCollected>`. */
  datatype CounterValue = Value(value: int) | Format(format: ReadFormat) | NotCollected

  /** Snapshot of a handle's two fields. */
  datatype FdState = FdState(fd: int, leader: bool)

  /** A leader reads the whole `read_format` (three 8-byte words); any other
      counter reads only its value. */
  function ExpectedBytes(leader: bool): int
  {
    if leader then 24 else 8
  }

  /** How `read_value` turns the answer of `::read` into a value or an exception. */
  function ReadOutcome(leader: bool, a: ReadAnswer): Result<CounterValue>
  {
    if a.result == ExpectedBytes(leader) then
      if leader then Ok(Format(a.buffer)) else Ok(Value(a.buffer.value))
    else if a.result == 0 then Ok(NotCollected)
    else if a.result < 0 then Throw(SystemError(a.errno))
    else Throw(RuntimeError("Could not read the expected number of bytes"))
  }

  /** The outcome is decided by the byte count alone: a full read gives the
      alternative that matches the role, 0 bytes gives NotCollected, a negative
      count a system_error with errno, any other count a runtime_error. */
  lemma ReadOutcomeCases(leader: bool, a: ReadAnswer)
    ensures ReadOutcome(leader, a) == Ok(NotCollected) <==> a.result == 0
    ensures ReadOutcome(leader, a).Ok? <==> a.result == 0 || a.result == ExpectedBytes(leader)
    ensures ReadOutcome(leader, a).Ok? && a.result != 0 ==>
              (leader <==> ReadOutcome(leader, a).value.Format?) &&
              (ReadOutcome(leader, a).value.Format? ==> ReadOutcome(leader, a).value.format == a.buffer) &&
              (ReadOutcome(leader, a).value.Value? ==> ReadOutcome(leader, a).value.value == a.buffer.value)
    ensures ReadOutcome(leader, a) == Throw(SystemError(a.errno)) <==> a.result < 0
    ensures ReadOutcome(leader, a).Throw? && ReadOutcome(leader, a).exc.RuntimeError? <==>
              a.result > 0 && a.result != ExpectedBytes(leader)
  {
  }

  datatype ReadStep = ReadStep(outcome: Result<CounterValue>, log: seq<ReadRequest>)

  const InvalidReadMessage := "Trying to read from an invalid file descriptor."

  /** `read_value` on a handle in state `h`, given the kernel's read answers and
      the reads issued before: an invalid handle throws logic_error without
      reading; otherwise one read of `ExpectedBytes(h.leader)` bytes is issued. */
  function ReadValueSpec(h: FdState, answer: seq<ReadRequest> -> ReadAnswer, log: seq<ReadRequest>): ReadStep
  {
    if h.fd == -1 then ReadStep(Throw(LogicError(InvalidReadMessage)), log)
    else
      var l := log + [ReadRequest(h.fd, ExpectedBytes(h.leader))];
      ReadStep(ReadOutcome(h.leader, answer(l)), l)
  }

  class EventFileDescriptor {
    var fd: int
    var leader: bool

    /** `explicit EventFileDescriptor(int d = -1, bool leader = false)`. */
    constructor (d: int, leader: bool)
      ensures fd == d && this.leader == leader
    {
      fd := d;
      this.leader := leader;
    }

    /** A default-constructed handle holds no descriptor and is not a leader. */
    constructor Empty()
      ensures fd == -1 && !leader && !IsValid()
    {
      fd := -1;
      leader := false;
    }

    predicate IsValid()
      reads this
    {
      fd != -1
    }

    function State(): FdState
      reads this
    {
      FdState(fd, leader)
    }

    /** Move construction: takes the descriptor and the flag, leaves the source invalid. */
    constructor MoveFrom(other: EventFileDescriptor)
      modifies other
      ensures fd == old(other.fd) && leader == old(other.leader)
      ensures other.fd == -1 && other.leader == old(other.leader)
    {
      fd := other.fd;
      leader := other.leader;
      other.fd := -1;
    }

    /** Releases the descriptor if the handle holds one. The field keeps its value. */
    method Close(os: Kernel)
      modifies os
      ensures os.closeLog == old(os.closeLog) + (if IsValid() then [fd] else [])
      ensures os.openLog == old(os.openLog) && os.readLog == old(os.readLog) && os.ioctlLog == old(os.ioctlLog)
    {
      if IsValid() {
        os.Close(fd);
      }
    }

    /** The destructor. */
    method Destroy(os: Kernel)
      modifies os
      ensures os.closeLog == old(os.closeLog) + (if IsValid() then [fd] else [])
      ensures os.openLog == old(os.openLog) && os.readLog == old(os.readLog) && os.ioctlLog == old(os.ioctlLog)
    {
      Close(os);
    }

    /** Move assignment: closes this handle's own descriptor first, then takes the
        source's descriptor and flag and invalidates the source. Assigning a handle
        to itself therefore leaves it closed and invalid. */
    method MoveAssign(other: EventFileDescriptor, os: Kernel)
      modifies this, other, os
      ensures os.closeLog == old(os.closeLog) + (if old(IsValid()) then [old(fd)] else [])
      ensures os.openLog == old(os.openLog) && os.readLog == old(os.readLog) && os.ioctlLog == old(os.ioctlLog)
      ensures other != this ==> fd == old(other.fd) && leader == old(other.leader)
      ensures other.fd == -1 && other.leader == old(other.leader)
    {
      Close(os);
      fd := other.fd;
      leader := other.leader;
      other.fd := -1;
    }

    /** `read_value`: an invalid handle throws logic_error before reading; otherwise
        one read of `ExpectedBytes(leader)` bytes decides the outcome. */
    method ReadValue(os: Kernel) returns (r: Result<CounterValue>)
      modifies os
      ensures ReadStep(r, os.readLog) == ReadValueSpec(State(), os.readAnswer, old(os.readLog))
      ensures os.openLog == old(os.openLog) && os.closeLog == old(os.closeLog) && os.ioctlLog == old(os.ioctlLog)
    {
      r := ReadHandle(State(), os);
    }
  }

  /** The body of `read_value` for a handle whose fields are `h`. */
  method ReadHandle(h: FdState, os: Kernel) returns (r: Result<CounterValue>)
    modifies os
    ensures ReadStep(r, os.readLog) == ReadValueSpec(h, os.readAnswer, old(os.readLog))
    ensures os.openLog == old(os.openLog) && os.closeLog == old(os.closeLog) && os.ioctlLog == old(os.ioctlLog)
  {
    if h.fd == -1 {
      return Throw(LogicError(InvalidReadMessage));
    }
    var wanted := ExpectedBytes(h.leader);
    var a := os.Read(h.fd, wanted);
    if a.result == wanted {
      if h.leader {
        r := Ok(Format(a.buffer));
      } else {
        r := Ok(Value(a.buffer.value));
      }
    } else if a.result == 0 {
      r := Ok(NotCollected);
    } else if a.result < 0 {
      r := Throw(SystemError(a.errno));
    } else {
      r := Throw(RuntimeError("Could not read the expected number of bytes"));
    }
  }

  /** Moving a descriptor through a chain of handles and destroying all of them
      closes it exactly once: only the last owner still holds it. */
  method MoveThenDestroy(d: nat, leader: bool, os: Kernel) returns (a: EventFileDescriptor, b: EventFileDescriptor)
    modifies os
    ensures fresh(a) && fresh(b)
    ensures os.closeLog == old(os.closeLog) + [d]
  {
    a := new EventFileDescriptor(d, leader);
    b := new EventFileDescriptor.MoveFrom(a);
    a.Destroy(os);
    b.Destroy(os);
  }

  // ---------------------------------------------------------------------------
  // Ownership across moves and destruction
  // ---------------------------------------------------------------------------

  /** One step on a table of handles, by position: move construction appends
      a new handle taken from `src`, move assignment makes `dst` take `src`'s
      descriptor, and destruction ends handle `h`, which keeps its position
      with no descriptor. A step naming a position outside the table does
      nothing. */
  datatype HandleOp = MoveConstruct(src: nat) | MoveAssign(dst: nat, src: nat) | Destroy(h: nat)

  /** What a handle closes when it lets go of its descriptor. */
  function Closing(h: FdState): seq<int>
  {
    if h.fd != -1 then [h.fd] else []
  }

  function Invalidated(h: FdState): FdState
  {
    h.(fd := -1)
  }

  /** The handles after one step and the descriptors it closes, as the
      contracts of `MoveFrom`, `MoveAssign` (self-assignment included) and
      `Destroy` state them. */
  function Apply(hs: seq<FdState>, op: HandleOp): (seq<FdState>, seq<int>)
  {
    match op
    case MoveConstruct(src) =>
      if src < |hs| then (hs[src := Invalidated(hs[src])] + [hs[src]], []) else (hs, [])
    case MoveAssign(dst, src) =>
      if dst < |hs| && src < |hs| then
        (if dst == src then hs[dst := Invalidated(hs[dst])]
         else hs[dst := hs[src]][src := Invalidated(hs[src])],
         Closing(hs[dst]))
      else (hs, [])
    case Destroy(h) =>
      if h < |hs| then (hs[h := Invalidated(hs[h])], Closing(hs[h])) else (hs, [])
  }

  /** The handles after a sequence of steps, and every descriptor closed on
      the way, in order. */
  function Run(hs: seq<FdState>, ops: seq<HandleOp>): (seq<FdState>, seq<int>)
    decreases |ops|
  {
    if ops == [] then (hs, [])
    else
      var step := Apply(hs, ops[0]);
      var rest := Run(step.0, ops[1..]);
      (rest.0, step.1 + rest.1)
  }

  /** The descriptors the handles hold. */
  function Held(hs: seq<FdState>): set<int>
  {
    set i | 0 <= i < |hs| && hs[i].fd != -1 :: hs[i].fd
  }

  /** No descriptor is held by two handles. */
  predicate Exclusive(hs: seq<FdState>)
  {
    forall i, j :: 0 <= i < |hs| && 0 <= j < |hs| && i != j && hs[i].fd != -1 ==> hs[i].fd != hs[j].fd
  }

  predicate NoRepeats(c: seq<int>)
  {
    forall i, j :: 0 <= i < j < |c| ==> c[i] != c[j]
  }

  /** The ownership a step keeps: it closes at most one descriptor, one that
      was held and is held no more, and every other descriptor stays held by
      exactly one handle. */
  lemma ApplyOwnership(hs: seq<FdState>, op: HandleOp)
    requires Exclusive(hs)
    ensures var (hs', closed) := Apply(hs, op);
      Exclusive(hs') && |closed| <= 1 &&
      (forall x :: x in Held(hs') <==> x in Held(hs) && x !in closed)
  {
    var (hs', closed) := Apply(hs, op);
    forall x | x in Held(hs') ensures x in Held(hs) && x !in closed {
      var i :| 0 <= i < |hs'| && hs'[i].fd != -1 && hs'[i].fd == x;
      var j := Origin(hs, op, i);
      assert hs[j].fd == x;
    }
    forall x | x in Held(hs) && x !in closed ensures x in Held(hs') {
      var j :| 0 <= j < |hs| && hs[j].fd != -1 && hs[j].fd == x;
      var i := Destination(hs, op, j);
      assert hs'[i].fd == x;
    }
  }

  /** Where a descriptor held after a step was held before it. */
  lemma Origin(hs: seq<FdState>, op: HandleOp, i: nat) returns (j: nat)
    requires Exclusive(hs)
    requires i < |Apply(hs, op).0| && Apply(hs, op).0[i].fd != -1
    ensures j < |hs| && hs[j].fd == Apply(hs, op).0[i].fd
    ensures Apply(hs, op).0[i].fd !in Apply(hs, op).1
    ensures forall k :: 0 <= k < |Apply(hs, op).0| && k != i ==> Apply(hs, op).0[k].fd != Apply(hs, op).0[i].fd
  {
    var hs' := Apply(hs, op).0;
    match op
    case MoveConstruct(src) =>
      j := if src < |hs| && i == |hs| then src else i;
    case MoveAssign(dst, src) =>
      j := if dst < |hs| && src < |hs| && i == dst then src else i;
    case Destroy(h) =>
      j := i;
  }

  /** Where a descriptor held before a step and not closed by it is held after it. */
  lemma Destination(hs: seq<FdState>, op: HandleOp, j: nat) returns (i: nat)
    requires j < |hs| && hs[j].fd != -1 && hs[j].fd !in Apply(hs, op).1
    ensures i < |Apply(hs, op).0| && Apply(hs, op).0[i].fd == hs[j].fd
  {
    match op
    case MoveConstruct(src) =>
      i := if src < |hs| && j == src then |hs| else j;
    case MoveAssign(dst, src) =>
      i := if dst < |hs| && src < |hs| && j == src then dst else j;
    case Destroy(h) =>
      i := j;
  }

  /** Whatever the moves and destructions, the descriptors stay held by one
      handle each, and no descriptor is closed twice: each one closed was held
      at the start and is held by no handle afterwards. */
  lemma {:induction false} RunOwnership(hs: seq<FdState>, ops: seq<HandleOp>)
    requires Exclusive(hs)
    ensures var (hs', closed) := Run(hs, ops);
      Exclusive(hs') && NoRepeats(closed) &&
      (forall x :: x in closed ==> x in Held(hs) && x !in Held(hs')) &&
      (forall x :: x in Held(hs') <==> x in Held(hs) && x !in closed)
    decreases |ops|
  {
    if ops != [] {
      var (h1, c1) := Apply(hs, ops[0]);
      ApplyOwnership(hs, ops[0]);
      RunOwnership(h1, ops[1..]);
      var (h2, c2) := Run(h1, ops[1..]);
      assert Run(hs, ops) == (h2, c1 + c2);
      forall i, j | 0 <= i < j < |c1 + c2| ensures (c1 + c2)[i] != (c1 + c2)[j] {
        if i < |c1| && j >= |c1| {
          assert (c1 + c2)[j] in c2;
        }
      }
    }
  }

  /** Destroying the handles from position `from` on, one after the other. */
  function DestroyFrom(from: nat, n: nat): seq<HandleOp>
    decreases n - from
  {
    if from >= n then [] else [Destroy(from)] + DestroyFrom(from + 1, n)
  }

  /** Once every handle is destroyed, no descriptor is held. */
  lemma {:induction false} DestroyFromEmpties(hs: seq<FdState>, from: nat)
    requires forall j :: 0 <= j < from && j < |hs| ==> hs[j].fd == -1
    ensures Held(Run(hs, DestroyFrom(from, |hs|)).0) == {}
    decreases |hs| - from
  {
    if from < |hs| {
      var h1 := Apply(hs, Destroy(from)).0;
      assert DestroyFrom(from, |hs|)[1..] == DestroyFrom(from + 1, |h1|);
      DestroyFromEmpties(h1, from + 1);
    } else {
      assert forall x :: x !in Held(hs);
    }
  }

  /** Every descriptor the handles hold is closed exactly once by the time
      all of them, including those that moves created, are destroyed. */
  lemma ClosedExactlyOnce(hs: seq<FdState>, ops: seq<HandleOp>)
    requires Exclusive(hs)
    ensures var mid := Run(hs, ops);
      var end := Run(mid.0, DestroyFrom(0, |mid.0|));
      NoRepeats(mid.1 + end.1) && (forall x :: x in mid.1 + end.1 <==> x in Held(hs))
  {
    var mid := Run(hs, ops);
    var end := Run(mid.0, DestroyFrom(0, |mid.0|));
    RunOwnership(hs, ops);
    RunOwnership(mid.0, DestroyFrom(0, |mid.0|));
    DestroyFromEmpties(mid.0, 0);
    var c1, c2 := mid.1, end.1;
    forall i, j | 0 <= i < j < |c1 + c2| ensures (c1 + c2)[i] != (c1 + c2)[j] {
      if i < |c1| && j >= |c1| {
        assert (c1 + c2)[j] in c2;
      }
    }
  }
}
