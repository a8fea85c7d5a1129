/** Per-process and per-thread metrics (crates/linux-metrics/src/process.rs). */
module ProcessMetrics {
  import opened Wrappers
  import opened Integers
  import opened Framework
  import opened Names
  import opened Samples
  import opened Units
  import StatFile
  import StatusFile

  /** `/proc/<pid>/io`. */
  datatype Io = Io(
    rchar: u64, wchar: u64, syscr: u64, syscw: u64, readBytes: u64, writeBytes: u64, cancelledWriteBytes: u64)

  /**
   The directory `/proc/<pid>` of a process by the outcome of each read; every file is read at most once in a
   cycle.  `taskDir` is the listing of its `task` directory: for a task only the id comes from there, its files
   are those of `/proc/<tid>` (crates/procfs/src/process/task.rs:27), not of `/proc/<pid>/task/<tid>`.
   */
  datatype Process = Process(
    pid: i32,
    comm: Option<string>,
    io: Option<Io>,
    status: Option<StatusFile.Status>,
    stat: Option<StatFile.Stat>,
    taskDir: Option<seq<Process>>)

  /** The listing without the leader itself (`get_process_tasks` with `ppid`). */
  function WithoutLeader(pid: i32, listed: seq<Process>): seq<Process> {
    if listed == [] then []
    else
      var last := listed[|listed| - 1];
      WithoutLeader(pid, listed[..|listed| - 1]) + if last.pid == pid then [] else [last]
  }

  datatype ProcessFilter = ProcessFilter(comms: Option<string -> bool>, thread: bool) {
    /** The gate: the name can be read and, if there are patterns, one of them matches it. */
    predicate AdmitsName(comm: Option<string>) {
      comm.Some? && (comms.Some? ==> comms.value(comm.value))
    }

    predicate Admits(p: Process) {
      AdmitsName(p.comm)
    }
  }

  // ------------------------------------------------------------------ the values of one process

  const IO_METRICS: seq<Metric> := [
    ProcessIoRcharTotal, ProcessIoWcharTotal, ProcessIoSyscrTotal, ProcessIoSyscwTotal,
    ProcessIoReadBytesTotal, ProcessIoWriteBytesTotal, ProcessIoCancelledWriteBytesTotal
  ]

  const STATUS_METRICS: seq<Metric> := [
    ProcessMemVirtBytes, ProcessMemRssBytes, ProcessMemHwmBytes, ProcessMemSharedBytes, ProcessMemSwapBytes,
    ProcessMemHugetlbBytes, ProcessFdSize, ProcessThreads, ProcessCtxtSwitchesVoluntaryTotal,
    ProcessCtxtSwitchesNonvoluntaryTotal
  ]

  const TIME_METRICS: seq<Metric> := [ProcessCpuUserSecondsTotal, ProcessCpuSystemSecondsTotal]

  function IoNumber(io: Io, m: Metric): Number {
    match m
    case ProcessIoRcharTotal => U64(io.rchar)
    case ProcessIoWcharTotal => U64(io.wchar)
    case ProcessIoSyscrTotal => U64(io.syscr)
    case ProcessIoSyscwTotal => U64(io.syscw)
    case ProcessIoReadBytesTotal => U64(io.readBytes)
    case ProcessIoWriteBytesTotal => U64(io.writeBytes)
    case ProcessIoCancelledWriteBytesTotal => U64(io.cancelledWriteBytes)
    case _ => U64(0)
  }

  function StatusNumber(s: StatusFile.Status, m: Metric): Number {
    match m
    case ProcessMemVirtBytes => U64(WrappingMul(s.vmSizeKb, BYTES_PER_KB))
    case ProcessMemRssBytes => U64(WrappingMul(s.vmRssKb, BYTES_PER_KB))
    case ProcessMemHwmBytes => U64(WrappingMul(s.vmHwmKb, BYTES_PER_KB))
    case ProcessMemSharedBytes => U64(WrappingMul(SaturatingAdd(s.rssFileKb, s.rssShmemKb), BYTES_PER_KB))
    case ProcessMemSwapBytes => U64(WrappingMul(s.vmSwapKb, BYTES_PER_KB))
    case ProcessMemHugetlbBytes => U64(WrappingMul(s.hugetlbPagesKb, BYTES_PER_KB))
    case ProcessFdSize => U64(s.fdSize)
    case ProcessThreads => U64(s.threads)
    case ProcessCtxtSwitchesVoluntaryTotal => U64(s.voluntaryCtxtSwitches)
    case ProcessCtxtSwitchesNonvoluntaryTotal => U64(s.nonvoluntaryCtxtSwitches)
    case _ => U64(0)
  }

  function TimeNumber(t: StatFile.Stat, m: Metric): Number {
    match m
    case ProcessCpuUserSecondsTotal => F64(t.utimeTicks as real / USER_HZ)
    case ProcessCpuSystemSecondsTotal => F64(t.stimeTicks as real / USER_HZ)
    case _ => F64(0.0)
  }

  function IoNumbers(io: Io): Metric -> Number { m => IoNumber(io, m) }

  function StatusNumbers(s: StatusFile.Status): Metric -> Number { m => StatusNumber(s, m) }

  function TimeNumbers(t: StatFile.Stat): Metric -> Number { m => TimeNumber(t, m) }

  /** What is pushed of an io file, in order. */
  ghost predicate IoTable(io: Io, ms: seq<Metric>, f: Metric -> Number) {
    && |ms| == 7
    && IsAt(ms, 0, f, ProcessIoRcharTotal, U64(io.rchar))
    && IsAt(ms, 1, f, ProcessIoWcharTotal, U64(io.wchar))
    && IsAt(ms, 2, f, ProcessIoSyscrTotal, U64(io.syscr))
    && IsAt(ms, 3, f, ProcessIoSyscwTotal, U64(io.syscw))
    && IsAt(ms, 4, f, ProcessIoReadBytesTotal, U64(io.readBytes))
    && IsAt(ms, 5, f, ProcessIoWriteBytesTotal, U64(io.writeBytes))
    && IsAt(ms, 6, f, ProcessIoCancelledWriteBytesTotal, U64(io.cancelledWriteBytes))
  }

  method PushIo(group: SampleGroup, io: Io, ghost ms: seq<Metric>, ghost f: Metric -> Number)
    returns (grown: SampleGroup)
    requires IoTable(io, ms, f)
    ensures grown.attrs == group.attrs && grown.values == group.values + Values(ms, f)
  {
    NothingReported(group.values, ms, f);
    grown := Push(group, group.values, ms, 0, 1, f, ProcessIoRcharTotal, U64(io.rchar));
    grown := Push(grown, group.values, ms, 1, 2, f, ProcessIoWcharTotal, U64(io.wchar));
    grown := Push(grown, group.values, ms, 2, 3, f, ProcessIoSyscrTotal, U64(io.syscr));
    grown := Push(grown, group.values, ms, 3, 4, f, ProcessIoSyscwTotal, U64(io.syscw));
    grown := Push(grown, group.values, ms, 4, 5, f, ProcessIoReadBytesTotal, U64(io.readBytes));
    grown := Push(grown, group.values, ms, 5, 6, f, ProcessIoWriteBytesTotal, U64(io.writeBytes));
    grown := Push(grown, group.values, ms, 6, 7, f, ProcessIoCancelledWriteBytesTotal, U64(io.cancelledWriteBytes));
    AllReported(grown.values, group.values, ms, 7, f);
  }

  /** `collect_io_metrics`. */
  method CollectIoMetrics(group: SampleGroup, io: Io) returns (grown: SampleGroup, emitted: bool)
    ensures grown.attrs == group.attrs && grown.values == group.values + Values(IO_METRICS, IoNumbers(io))
    ensures emitted
  {
    grown := PushIo(group, io, IO_METRICS, IoNumbers(io));
    emitted := true;
  }

  /** What is pushed of a status file first, in order. */
  ghost predicate StatusSizes(s: StatusFile.Status, ms: seq<Metric>, f: Metric -> Number) {
    && |ms| == 10
    && IsAt(ms, 0, f, ProcessMemVirtBytes, U64(WrappingMul(s.vmSizeKb, BYTES_PER_KB)))
    && IsAt(ms, 1, f, ProcessMemRssBytes, U64(WrappingMul(s.vmRssKb, BYTES_PER_KB)))
    && IsAt(ms, 2, f, ProcessMemHwmBytes, U64(WrappingMul(s.vmHwmKb, BYTES_PER_KB)))
    && IsAt(ms, 3, f, ProcessMemSharedBytes, U64(WrappingMul(SaturatingAdd(s.rssFileKb, s.rssShmemKb), BYTES_PER_KB)))
  }

  /** Then. */
  ghost predicate StatusReserves(s: StatusFile.Status, ms: seq<Metric>, f: Metric -> Number) {
    && |ms| == 10
    && IsAt(ms, 4, f, ProcessMemSwapBytes, U64(WrappingMul(s.vmSwapKb, BYTES_PER_KB)))
    && IsAt(ms, 5, f, ProcessMemHugetlbBytes, U64(WrappingMul(s.hugetlbPagesKb, BYTES_PER_KB)))
  }

  /** And last. */
  ghost predicate StatusCounts(s: StatusFile.Status, ms: seq<Metric>, f: Metric -> Number) {
    && |ms| == 10
    && IsAt(ms, 6, f, ProcessFdSize, U64(s.fdSize))
    && IsAt(ms, 7, f, ProcessThreads, U64(s.threads))
    && IsAt(ms, 8, f, ProcessCtxtSwitchesVoluntaryTotal, U64(s.voluntaryCtxtSwitches))
    && IsAt(ms, 9, f, ProcessCtxtSwitchesNonvoluntaryTotal, U64(s.nonvoluntaryCtxtSwitches))
  }

  method PushStatus(group: SampleGroup, s: StatusFile.Status, ghost ms: seq<Metric>, ghost f: Metric -> Number)
    returns (grown: SampleGroup)
    requires StatusSizes(s, ms, f) && StatusReserves(s, ms, f) && StatusCounts(s, ms, f)
    ensures grown.attrs == group.attrs && grown.values == group.values + Values(ms, f)
  {
    NothingReported(group.values, ms, f);
    grown := Push(group, group.values, ms, 0, 1, f, ProcessMemVirtBytes, U64(WrappingMul(s.vmSizeKb, BYTES_PER_KB)));
    grown := Push(grown, group.values, ms, 1, 2, f, ProcessMemRssBytes, U64(WrappingMul(s.vmRssKb, BYTES_PER_KB)));
    grown := Push(grown, group.values, ms, 2, 3, f, ProcessMemHwmBytes, U64(WrappingMul(s.vmHwmKb, BYTES_PER_KB)));
    grown := Push(
      grown, group.values, ms, 3, 4, f, ProcessMemSharedBytes,
      U64(WrappingMul(SaturatingAdd(s.rssFileKb, s.rssShmemKb), BYTES_PER_KB)));
    grown := Push(grown, group.values, ms, 4, 5, f, ProcessMemSwapBytes, U64(WrappingMul(s.vmSwapKb, BYTES_PER_KB)));
    grown := Push(
      grown, group.values, ms, 5, 6, f, ProcessMemHugetlbBytes,
      U64(WrappingMul(s.hugetlbPagesKb, BYTES_PER_KB)));
    grown := Push(grown, group.values, ms, 6, 7, f, ProcessFdSize, U64(s.fdSize));
    grown := Push(grown, group.values, ms, 7, 8, f, ProcessThreads, U64(s.threads));
    grown := Push(grown, group.values, ms, 8, 9, f, ProcessCtxtSwitchesVoluntaryTotal, U64(s.voluntaryCtxtSwitches));
    grown := Push(
      grown, group.values, ms, 9, 10, f, ProcessCtxtSwitchesNonvoluntaryTotal,
      U64(s.nonvoluntaryCtxtSwitches));
    AllReported(grown.values, group.values, ms, 10, f);
  }

  lemma StatusSizesInOrder(s: StatusFile.Status)
    ensures StatusSizes(s, STATUS_METRICS, StatusNumbers(s))
  {
  }

  lemma StatusReservesInOrder(s: StatusFile.Status)
    ensures StatusReserves(s, STATUS_METRICS, StatusNumbers(s))
  {
  }

  lemma StatusCountsInOrder(s: StatusFile.Status)
    ensures StatusCounts(s, STATUS_METRICS, StatusNumbers(s))
  {
  }

  /** `collect_status_metrics`. */
  method CollectStatusMetrics(group: SampleGroup, s: StatusFile.Status) returns (grown: SampleGroup, emitted: bool)
    ensures grown.attrs == group.attrs && grown.values == group.values + Values(STATUS_METRICS, StatusNumbers(s))
    ensures emitted
  {
    StatusSizesInOrder(s);
    StatusReservesInOrder(s);
    StatusCountsInOrder(s);
    grown := PushStatus(group, s, STATUS_METRICS, StatusNumbers(s));
    emitted := true;
  }

  /** `collect_cpu_time_metrics`. */
  method CollectCpuTimeMetrics(group: SampleGroup, t: StatFile.Stat) returns (grown: SampleGroup, emitted: bool)
    ensures grown.attrs == group.attrs && grown.values == group.values + Values(TIME_METRICS, TimeNumbers(t))
    ensures emitted
  {
    ghost var base, ms, f := group.values, TIME_METRICS, TimeNumbers(t);
    NothingReported(base, ms, f);
    grown := Push(group, base, ms, 0, 1, f, ProcessCpuUserSecondsTotal, F64(t.utimeTicks as real / USER_HZ));
    grown := Push(grown, base, ms, 1, 2, f, ProcessCpuSystemSecondsTotal, F64(t.stimeTicks as real / USER_HZ));
    AllReported(grown.values, base, ms, |ms|, f);
    emitted := true;
  }

  // ------------------------------------------------------------------ the walk

  function AttrsOf(host: KeyValue, pid: i32, comm: string, thread: bool): seq<KeyValue> {
    [host, KeyValue("pid", I64(pid)), KeyValue("comm", Str(comm)), KeyValue("thread", Bool(thread))]
  }

  function Attrs(host: KeyValue, p: Process, thread: bool): seq<KeyValue>
    requires p.comm.Some?
  {
    AttrsOf(host, p.pid, p.comm.value, thread)
  }

  /** The metrics a row has: those of the files that could be read. */
  function MetricsOf(p: Process): seq<Metric> {
    (if p.io.Some? then IO_METRICS else [])
    + (if p.status.Some? then STATUS_METRICS else [])
    + (if p.stat.Some? then TIME_METRICS else [])
  }

  /** What each process metric reports, for a process whose file it comes from was read. */
  function NumberOf(p: Process, m: Metric): Number {
    if m in IO_METRICS && p.io.Some? then IoNumber(p.io.value, m)
    else if m in STATUS_METRICS && p.status.Some? then StatusNumber(p.status.value, m)
    else if m in TIME_METRICS && p.stat.Some? then TimeNumber(p.stat.value, m)
    else U64(0)
  }

  function Numbers(p: Process): Metric -> Number { m => NumberOf(p, m) }

  /** The one row of an admitted process, if any of its three files can be read. */
  function Row(host: KeyValue, filter: ProcessFilter, p: Process, thread: bool): Snapshot {
    if filter.Admits(p) && (p.io.Some? || p.status.Some? || p.stat.Some?)
    then [SampleGroup(Attrs(host, p, thread), Values(MetricsOf(p), Numbers(p)))]
    else []
  }

  function TaskRow(host: KeyValue, filter: ProcessFilter): Process -> Snapshot {
    t => Row(host, filter, t, true)
  }

  /** The rows of a leader's other tasks, if threads are wanted and the leader is admitted. */
  function TaskRows(host: KeyValue, filter: ProcessFilter, p: Process): Snapshot {
    if filter.thread && filter.Admits(p) && p.taskDir.Some?
    then Flat(TaskRow(host, filter), WithoutLeader(p.pid, p.taskDir.value))
    else []
  }

  function ProcessRows(host: KeyValue, filter: ProcessFilter, p: Process): Snapshot {
    Row(host, filter, p, false) + TaskRows(host, filter, p)
  }

  /** What one element of the walked list contributes. */
  function RowsOf(host: KeyValue, filter: ProcessFilter, thread: bool, p: Process): Snapshot {
    if thread then Row(host, filter, p, true) else ProcessRows(host, filter, p)
  }

  function RowsOfEach(host: KeyValue, filter: ProcessFilter, thread: bool): Process -> Snapshot {
    p => RowsOf(host, filter, thread, p)
  }

  /** The rows of a list of processes, or of tasks. */
  function Rows(host: KeyValue, filter: ProcessFilter, processes: seq<Process>, thread: bool): Snapshot {
    Flat(RowsOfEach(host, filter, thread), processes)
  }

  lemma RowsSnoc(host: KeyValue, filter: ProcessFilter, processes: seq<Process>, i: nat, thread: bool)
    requires i < |processes|
    ensures Rows(host, filter, processes[..i + 1], thread)
         == Rows(host, filter, processes[..i], thread) + RowsOf(host, filter, thread, processes[i])
  {
    FlatSnoc(RowsOfEach(host, filter, thread), processes, i);
  }

  /** The values of each file, if it was read. */
  function IoPart(p: Process): seq<SampleValue> {
    match p.io case Some(io) => Values(IO_METRICS, IoNumbers(io)) case None => []
  }

  function StatusPart(p: Process): seq<SampleValue> {
    match p.status case Some(status) => Values(STATUS_METRICS, StatusNumbers(status)) case None => []
  }

  function TimePart(p: Process): seq<SampleValue> {
    match p.stat case Some(stat) => Values(TIME_METRICS, TimeNumbers(stat)) case None => []
  }

  method ReadIo(p: Process, group: SampleGroup, emitted: bool) returns (grown: SampleGroup, some: bool)
    ensures grown.attrs == group.attrs && grown.values == group.values + IoPart(p)
    ensures some == (emitted || p.io.Some?)
  {
    grown, some := group, emitted;
    match p.io {
      case Some(io) =>
        var read: bool;
        grown, read := CollectIoMetrics(group, io);
        some := some || read;
      case None =>
    }
  }

  method ReadStatus(p: Process, group: SampleGroup, emitted: bool) returns (grown: SampleGroup, some: bool)
    ensures grown.attrs == group.attrs && grown.values == group.values + StatusPart(p)
    ensures some == (emitted || p.status.Some?)
  {
    grown, some := group, emitted;
    match p.status {
      case Some(status) =>
        var read: bool;
        grown, read := CollectStatusMetrics(group, status);
        some := some || read;
      case None =>
    }
  }

  method ReadStat(p: Process, group: SampleGroup, emitted: bool) returns (grown: SampleGroup, some: bool)
    ensures grown.attrs == group.attrs && grown.values == group.values + TimePart(p)
    ensures some == (emitted || p.stat.Some?)
  {
    grown, some := group, emitted;
    match p.stat {
      case Some(stat) =>
        var read: bool;
        grown, read := CollectCpuTimeMetrics(group, stat);
        some := some || read;
      case None =>
    }
  }

  /** Before it is decided whether the row is pushed: the group, and whether anything was read. */
  method ReadRow(host: KeyValue, p: Process, thread: bool) returns (group: SampleGroup, emitted: bool)
    requires p.comm.Some?
    ensures emitted <==> p.io.Some? || p.status.Some? || p.stat.Some?
    ensures group == SampleGroup(Attrs(host, p, thread), Values(MetricsOf(p), Numbers(p)))
  {
    group := SampleGroup(
      [host, KeyValue("pid", I64(p.pid)), KeyValue("comm", Str(p.comm.value)), KeyValue("thread", Bool(thread))],
      []);
    group, emitted := ReadIo(p, group, false);
    group, emitted := ReadStatus(p, group, emitted);
    group, emitted := ReadStat(p, group, emitted);
    PartsAreTheRow(p);
  }

  lemma PartsAreTheRow(p: Process)
    ensures [] + IoPart(p) + StatusPart(p) + TimePart(p) == Values(MetricsOf(p), Numbers(p))
  {
    var io := if p.io.Some? then IO_METRICS else [];
    var status := if p.status.Some? then STATUS_METRICS else [];
    var time := if p.stat.Some? then TIME_METRICS else [];
    ValuesConcat(io, status, Numbers(p));
    ValuesConcat(io + status, time, Numbers(p));
    IoPartAgrees(p);
    StatusPartAgrees(p);
    TimePartAgrees(p);
  }

  lemma IoPartAgrees(p: Process)
    ensures IoPart(p) == Values(if p.io.Some? then IO_METRICS else [], Numbers(p))
  {
    if p.io.Some? {
      ValuesAgree(IO_METRICS, IoNumbers(p.io.value), Numbers(p));
    }
  }

  lemma StatusPartAgrees(p: Process)
    ensures StatusPart(p) == Values(if p.status.Some? then STATUS_METRICS else [], Numbers(p))
  {
    if p.status.Some? {
      StatusNumbersAgree(p);
    }
  }

  lemma TimePartAgrees(p: Process)
    ensures TimePart(p) == Values(if p.stat.Some? then TIME_METRICS else [], Numbers(p))
  {
    if p.stat.Some? {
      TimeNumbersAgree(p);
    }
  }

  lemma StatusNumbersAgree(p: Process)
    requires p.status.Some?
    ensures Values(STATUS_METRICS, StatusNumbers(p.status.value)) == Values(STATUS_METRICS, Numbers(p))
  {
    assert forall m <- STATUS_METRICS :: m !in IO_METRICS;
    ValuesAgree(STATUS_METRICS, StatusNumbers(p.status.value), Numbers(p));
  }

  lemma TimeNumbersAgree(p: Process)
    requires p.stat.Some?
    ensures Values(TIME_METRICS, TimeNumbers(p.stat.value)) == Values(TIME_METRICS, Numbers(p))
  {
    assert forall m <- TIME_METRICS :: m !in IO_METRICS && m !in STATUS_METRICS;
    ValuesAgree(TIME_METRICS, TimeNumbers(p.stat.value), Numbers(p));
  }

  /** The row of a process that passed the gate. */
  method CollectRow(host: KeyValue, filter: ProcessFilter, p: Process, thread: bool, out: Buffer)
    requires filter.Admits(p)
    modifies out
    ensures out.groups == old(out.groups) + Row(host, filter, p, thread)
  {
    var group, emitted := ReadRow(host, p, thread);
    if emitted {
      out.Push(group);
    }
  }

  /** The body of the loop of `collect_process`. */
  method CollectOne(host: KeyValue, filter: ProcessFilter, p: Process, thread: bool, out: Buffer)
    modifies out
    ensures out.groups == old(out.groups) + RowsOfEach(host, filter, thread)(p)
    decreases if thread then 0 else 1, 0
  {
    if p.comm.None? {
      return;
    }
    if filter.comms.Some? && !filter.comms.value(p.comm.value) {
      return;
    }
    CollectRow(host, filter, p, thread, out);
    if filter.thread && !thread {
      if p.taskDir.None? {
        return;
      }
      var tasks := WithoutLeader(p.pid, p.taskDir.value);
      CollectProcess(host, filter, tasks, true, out);
      TasksAreTheirRows(host, filter, tasks);
    }
  }

  lemma {:induction false} TasksAreTheirRows(host: KeyValue, filter: ProcessFilter, tasks: seq<Process>)
    ensures Rows(host, filter, tasks, true) == Flat(TaskRow(host, filter), tasks)
  {
    if tasks != [] {
      TasksAreTheirRows(host, filter, tasks[..|tasks| - 1]);
    }
  }

  /** `collect_process`: rows are appended to `out`; tasks are walked right after their leader. */
  method CollectProcess(host: KeyValue, filter: ProcessFilter, processes: seq<Process>, thread: bool, out: Buffer)
    modifies out
    ensures out.groups == old(out.groups) + Rows(host, filter, processes, thread)
    decreases if thread then 0 else 1, 1
  {
    ghost var rowsOf := RowsOfEach(host, filter, thread);
    for i := 0 to |processes|
      invariant out.groups == old(out.groups) + Flat(rowsOf, processes[..i])
    {
      CollectOne(host, filter, processes[i], thread, out);
      FlatSnoc(rowsOf, processes, i);
      Appended(old(out.groups), Flat(rowsOf, processes[..i]), rowsOf(processes[i]), out.groups);
    }
    assert processes[..|processes|] == processes;
  }

  function Read(host: KeyValue, filter: ProcessFilter, processes: Option<seq<Process>>): Snapshot {
    match processes case None => [] case Some(list) => Rows(host, filter, list, false)
  }

  /** `collect_process_metrics`: nothing if `/proc` cannot be listed. */
  method CollectProcessMetrics(host: KeyValue, filter: ProcessFilter, processes: Option<seq<Process>>, out: Buffer)
    modifies out
    ensures out.groups == old(out.groups) + Read(host, filter, processes)
  {
    if processes.None? {
      return;
    }
    CollectProcess(host, filter, processes.value, false, out);
  }
}
