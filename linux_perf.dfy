/** How C++ exceptions surface in the model: an operation that may throw returns
    a `Result`, and the exception classes keep the standard library's hierarchy
    (`system_error` is a `runtime_error`; `out_of_range` is a `logic_error`). */
module CppErrors {

  datatype Exception =
    | LogicError(what: string)
    | RuntimeError(what: string)
    | SystemError(code: int)
    | OutOfRange
    | BadVariantAccess

  /** `catch (std::runtime_error &)` catches these. */
  predicate IsRuntimeError(e: Exception)
  {
    e.RuntimeError? || e.SystemError?
  }

  /** `catch (std::logic_error &)` catches these. */
  predicate IsLogicError(e: Exception)
  {
    e.LogicError? || e.OutOfRange?
  }

  datatype Result<T> = Ok(value: T) | Throw(exc: Exception)
}

/** The part of the Linux perf_event ABI the profiler uses, and the kernel as an
    oracle: `perf_event_open`, `read`, `close` and `ioctl` are answered by two
    fixed functions of the request history, and every call is logged. */
module LinuxPerf {

  // perf_type_id
  const PERF_TYPE_HARDWARE: bv32 := 0
  const PERF_TYPE_SOFTWARE: bv32 := 1
  const PERF_TYPE_HW_CACHE: bv32 := 3

  // perf_event_read_format bits
  const PERF_FORMAT_TOTAL_TIME_ENABLED: bv64 := 1
  const PERF_FORMAT_TOTAL_TIME_RUNNING: bv64 := 2

  /** errno value of "permission denied" (std::errc::permission_denied). */
  const EACCES: int := 13

  /** The fields of `struct perf_event_attr` the profiler sets; everything else
      stays as `memset` left it. The `size` field, set to `sizeof(pe)`, is the
      same constant of the kernel headers in every request, so it is omitted. */
  datatype PerfEventAttr = PerfEventAttr(
    type_: bv32,
    config: bv64,
    readFormat: bv64,
    disabled: bool,
    pinned: bool,
    inherit: bool,
    excludeKernel: bool,
    excludeHv: bool)

  /** An attribute block after `memset(&pe, 0, sizeof(pe))`. */
  const ZeroAttr := PerfEventAttr(0, 0, 0, false, false, false, false, false)

  /** One `perf_event_open(attr, pid, cpu, group_fd, flags)` call. */
  datatype OpenRequest = OpenRequest(attr: PerfEventAttr, pid: int, cpu: int, groupFd: int, flags: nat)

  /** The syscall returns a new descriptor, or -1 with `errno` set. */
  datatype OpenAnswer = Opened(fd: nat) | OpenFailed(errno: int)

  /** `struct read_format`: the counter value and the group timings. */
  datatype ReadFormat = ReadFormat(value: int, timeEnabled: int, timeRunning: int)

  /** One `::read(fd, &buf, count)` call. */
  datatype ReadRequest = ReadRequest(fd: int, count: int)

  /** What `::read` returns (a byte count, or a negative number with `errno` set)
      and what it left in the buffer. */
  datatype ReadAnswer = ReadAnswer(result: int, errno: int, buffer: ReadFormat)

  datatype IoctlCmd = Enable | Disable

  datatype IoctlRequest = IoctlRequest(fd: int, cmd: IoctlCmd)

  class Kernel {
    /** Answer to the last open request, given every open request so far. */
    const openAnswer: seq<OpenRequest> -> OpenAnswer
    /** Answer to the last read request, given every read request so far. */
    const readAnswer: seq<ReadRequest> -> ReadAnswer

    var openLog: seq<OpenRequest>
    var readLog: seq<ReadRequest>
    var closeLog: seq<int>
    var ioctlLog: seq<IoctlRequest>

    constructor (openAnswer: seq<OpenRequest> -> OpenAnswer, readAnswer: seq<ReadRequest> -> ReadAnswer)
      ensures this.openAnswer == openAnswer && this.readAnswer == readAnswer
      ensures openLog == [] && readLog == [] && closeLog == [] && ioctlLog == []
    {
      this.openAnswer := openAnswer;
      this.readAnswer := readAnswer;
      openLog := [];
      readLog := [];
      closeLog := [];
      ioctlLog := [];
    }

    method PerfEventOpen(attr: PerfEventAttr, pid: int, cpu: int, groupFd: int, flags: nat) returns (r: OpenAnswer)
      modifies this
      ensures openLog == old(openLog) + [OpenRequest(attr, pid, cpu, groupFd, flags)]
      ensures r == openAnswer(openLog)
      ensures readLog == old(readLog) && closeLog == old(closeLog) && ioctlLog == old(ioctlLog)
    {
      openLog := openLog + [OpenRequest(attr, pid, cpu, groupFd, flags)];
      r := openAnswer(openLog);
    }

    method Read(fd: int, count: int) returns (r: ReadAnswer)
      modifies this
      ensures readLog == old(readLog) + [ReadRequest(fd, count)]
      ensures r == readAnswer(readLog)
      ensures openLog == old(openLog) && closeLog == old(closeLog) && ioctlLog == old(ioctlLog)
    {
      readLog := readLog + [ReadRequest(fd, count)];
      r := readAnswer(readLog);
    }

    method Close(fd: int)
      modifies this
      ensures closeLog == old(closeLog) + [fd]
      ensures openLog == old(openLog) && readLog == old(readLog) && ioctlLog == old(ioctlLog)
    {
      closeLog := closeLog + [fd];
    }

    method Ioctl(fd: int, cmd: IoctlCmd)
      modifies this
      ensures ioctlLog == old(ioctlLog) + [IoctlRequest(fd, cmd)]
      ensures openLog == old(openLog) && readLog == old(readLog) && closeLog == old(closeLog)
    {
      ioctlLog := ioctlLog + [IoctlRequest(fd, cmd)];
    }
  }
}
