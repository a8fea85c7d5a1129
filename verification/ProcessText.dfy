/** From the files under `/proc/<pid>` to what the process instruments are told. */
module ProcessText {
  import opened Wrappers
  import opened Integers
  import opened Text
  import opened KeyedLines
  import opened Framework
  import opened Names
  import opened Samples
  import opened ProcessMetrics
  import Conservation
  import StatFile
  import StatusFile
  import Uniqueness

  /** A directory of processes or tasks. */
  datatype Directory = Unreadable | Listed(list: seq<Files>)

  /** A process or task by the content of its files, as far as they can be read. */
  datatype Files = Files(
    pid: i32,
    comm: Option<string>,
    io: Option<Io>,
    status: Option<Bytes>,
    stat: Option<Bytes>,
    taskDir: Directory)

  function ReadStatus(content: Option<Bytes>): Option<StatusFile.Status> {
    match content case None => None case Some(c) => StatusFile.Reading(StatusFile.Fields(c))
  }

  function ReadStat(content: Option<Bytes>): Option<StatFile.Stat> {
    match content case None => None case Some(c) => StatFile.ParseStat(c)
  }

  /** What the collector makes of the files. */
  function Parsed(p: Files): Process {
    Process(
      p.pid, p.comm, p.io, ReadStatus(p.status), ReadStat(p.stat), ParsedDirectory(p.taskDir))
  }

  function ParsedDirectory(d: Directory): Option<seq<Process>> {
    match d case Unreadable => None case Listed(list) => Some(ParsedAll(list))
  }

  function ParsedAll(list: seq<Files>): (ps: seq<Process>)
    ensures |ps| == |list|
    ensures forall i :: 0 <= i < |list| ==> ps[i] == Parsed(list[i])
  {
    seq(|list|, i requires 0 <= i < |list| => Parsed(list[i]))
  }

  // ------------------------------------------------------------------ one row

  const MEM_METRICS: seq<Metric> := [
    ProcessMemVirtBytes, ProcessMemRssBytes, ProcessMemHwmBytes, ProcessMemSharedBytes, ProcessMemSwapBytes,
    ProcessMemHugetlbBytes
  ]

  /** The key of `/proc/<pid>/status` behind each metric that is one key. */
  function StatusKey(m: Metric): StatusFile.Key {
    match m
    case ProcessMemVirtBytes => StatusFile.VmSize
    case ProcessMemRssBytes => StatusFile.VmRSS
    case ProcessMemHwmBytes => StatusFile.VmHWM
    case ProcessMemSwapBytes => StatusFile.VmSwap
    case ProcessMemHugetlbBytes => StatusFile.HugetlbPages
    case ProcessFdSize => StatusFile.FDSize
    case ProcessThreads => StatusFile.Threads
    case ProcessCtxtSwitchesVoluntaryTotal => StatusFile.VoluntaryCtxtSwitches
    case ProcessCtxtSwitchesNonvoluntaryTotal => StatusFile.NonvoluntaryCtxtSwitches
    case _ => StatusFile.Unknown
  }

  function StatusUnit(m: Metric): u64 {
    if m in MEM_METRICS then 1024 else 1
  }

  /** What shared memory stands for: the sum of the last values of its two keys, as far as it fits. */
  function SharedKb(fields: seq<Field<StatusFile.Key>>): u64 {
    SaturatingAdd(
      LastU64(StatusFile.Of(fields, StatusFile.RssFile)), LastU64(StatusFile.Of(fields, StatusFile.RssShmem)))
  }

  /** What a status file is worth to a metric: the last value of its key, in its unit. */
  function StatusValue(fields: seq<Field<StatusFile.Key>>, m: Metric): u64 {
    if m == ProcessMemSharedBytes then WrappingMul(SharedKb(fields), 1024)
    else WrappingMul(LastU64(StatusFile.Of(fields, StatusKey(m))), StatusUnit(m))
  }

  /** The seconds of one of the two times of a stat file. */
  function TimeValue(t: StatFile.Stat, m: Metric): real {
    (if m == ProcessCpuUserSecondsTotal then t.utimeTicks else t.stimeTicks) as real / 100.0
  }

  /** The value of a metric, if the file it comes from can be read and parsed. */
  function ValueOf(p: Files, m: Metric): Option<Number> {
    if m in IO_METRICS then
      match p.io case None => None case Some(io) => Some(IoNumber(io, m))
    else if m in STATUS_METRICS then
      if ReadStatus(p.status).None? then None else Some(U64(StatusValue(StatusFile.Fields(p.status.value), m)))
    else
      match ReadStat(p.stat) case None => None case Some(t) => Some(F64(TimeValue(t, m)))
  }

  /** The name can be read and matches a pattern; without patterns any name will do. */
  predicate Passes(filter: ProcessFilter, comm: Option<string>) {
    comm.Some? && (filter.comms.None? || filter.comms.value(comm.value))
  }

  /** What a process or task is worth to the instrument of a process metric. */
  function RowReport(host: KeyValue, filter: ProcessFilter, m: Metric, thread: bool, p: Files): seq<Observation> {
    if !Passes(filter, p.comm) then []
    else
      match ValueOf(p, m)
      case None => []
      case Some(n) =>
        [Observation(
           Name(m), n,
           [host, KeyValue("pid", I64(p.pid)), KeyValue("comm", Str(p.comm.value)), KeyValue("thread", Bool(thread))])]
  }

  /** What the callback of a process metric sees of one row: its one value, if the file was read. */
  lemma RowObserved(host: KeyValue, filter: ProcessFilter, p: Process, thread: bool, m: Metric)
    requires FamilyOf(m) == Processes
    ensures Observed(Row(host, filter, p, thread), Name(m), RowType(m))
         == if filter.Admits(p) && m in MetricsOf(p)
            then [Observation(Name(m), NumberOf(p, m), Attrs(host, p, thread))]
            else []
  {
    Uniqueness.ProcessMetricsNoRepeat(p);
    if filter.Admits(p) {
      ObservedOfGroup(Attrs(host, p, thread), MetricsOf(p), Numbers(p), m, RowType(m));
      if m in MetricsOf(p) {
        Conservation.ProcessTypes(p, m);
      }
    }
    assert All([]) == [];
  }

  lemma StatusNumberIsField(s: StatusFile.Status, m: Metric)
    requires m in STATUS_METRICS && m != ProcessMemSharedBytes
    ensures StatusKey(m) != StatusFile.PPid && StatusKey(m) != StatusFile.State && StatusKey(m) != StatusFile.Unknown
    ensures StatusNumber(s, m) == U64(WrappingMul(StatusFile.Number(s, StatusKey(m)), StatusUnit(m)))
  {
    WrappingMulExact(StatusFile.Number(s, StatusKey(m)), 1);
  }

  lemma SharedNumberIsSum(s: StatusFile.Status)
    ensures StatusNumber(s, ProcessMemSharedBytes)
         == U64(WrappingMul(
                  SaturatingAdd(StatusFile.Number(s, StatusFile.RssFile), StatusFile.Number(s, StatusFile.RssShmem)),
                  1024))
  {
  }

  lemma StatusNumberIsValue(fields: seq<Field<StatusFile.Key>>, m: Metric)
    requires m in STATUS_METRICS
    ensures StatusNumber(StatusFile.StatusOf(fields), m) == U64(StatusValue(fields, m))
  {
    var s := StatusFile.StatusOf(fields);
    if m == ProcessMemSharedBytes {
      SharedNumberIsSum(s);
      StatusFile.NumberIsLast(fields, StatusFile.RssFile);
      StatusFile.NumberIsLast(fields, StatusFile.RssShmem);
    } else {
      StatusNumberIsField(s, m);
      StatusFile.NumberIsLast(fields, StatusKey(m));
    }
  }

  lemma OneOfThree(m: Metric)
    requires FamilyOf(m) == Processes
    ensures m in IO_METRICS || m in STATUS_METRICS || m in TIME_METRICS
  {
  }

  lemma Disjoint(m: Metric)
    ensures m in IO_METRICS ==> m !in STATUS_METRICS && m !in TIME_METRICS
    ensures m in STATUS_METRICS ==> m !in TIME_METRICS
  {
  }

  /** A row has a metric if the file the metric comes from was read. */
  lemma HasMetric(p: Process, m: Metric)
    ensures m in MetricsOf(p) <==>
              || (m in IO_METRICS && p.io.Some?)
              || (m in STATUS_METRICS && p.status.Some?)
              || (m in TIME_METRICS && p.stat.Some?)
  {
    MemberOfThree(
      if p.io.Some? then IO_METRICS else [], if p.status.Some? then STATUS_METRICS else [],
      if p.stat.Some? then TIME_METRICS else [], m);
  }

  lemma MemberOfThree(a: seq<Metric>, b: seq<Metric>, c: seq<Metric>, m: Metric)
    ensures m in a + b + c <==> m in a || m in b || m in c
  {
  }

  lemma TimeNumberIsValue(t: StatFile.Stat, m: Metric)
    requires m in TIME_METRICS
    ensures TimeNumber(t, m) == F64(TimeValue(t, m))
  {
  }

  /** The row of the files has this value for the metric, or none. */
  predicate HasValue(p: Files, m: Metric, value: Option<Number>) {
    && (m in MetricsOf(Parsed(p)) <==> value.Some?)
    && (value.Some? ==> NumberOf(Parsed(p), m) == value.value)
  }

  lemma IoIsValue(p: Files, m: Metric)
    requires m in IO_METRICS
    ensures HasValue(p, m, ValueOf(p, m))
  {
    HasMetric(Parsed(p), m);
    Disjoint(m);
  }

  lemma StatusIsValue(p: Files, m: Metric)
    requires m in STATUS_METRICS
    ensures HasValue(p, m, ValueOf(p, m))
  {
    HasMetric(Parsed(p), m);
    Disjoint(m);
    if ReadStatus(p.status).Some? {
      StatusNumberIsValue(StatusFile.Fields(p.status.value), m);
    }
  }

  lemma TimeIsValue(p: Files, m: Metric)
    requires m in TIME_METRICS
    ensures HasValue(p, m, ValueOf(p, m))
  {
    HasMetric(Parsed(p), m);
    Disjoint(m);
    if ReadStat(p.stat).Some? {
      TimeNumberIsValue(ReadStat(p.stat).value, m);
    }
  }

  lemma NumberIsValue(p: Files, m: Metric)
    requires FamilyOf(m) == Processes
    ensures m in MetricsOf(Parsed(p)) <==> ValueOf(p, m).Some?
    ensures ValueOf(p, m).Some? ==> NumberOf(Parsed(p), m) == ValueOf(p, m).value
  {
    OneOfThree(m);
    if m in IO_METRICS {
      IoIsValue(p, m);
    } else if m in STATUS_METRICS {
      StatusIsValue(p, m);
    } else {
      TimeIsValue(p, m);
    }
  }

  lemma RowOfFiles(host: KeyValue, filter: ProcessFilter, m: Metric, thread: bool, p: Files)
    requires FamilyOf(m) == Processes
    ensures Observed(Row(host, filter, Parsed(p), thread), Name(m), RowType(m)) == RowReport(host, filter, m, thread, p)
  {
    RowObserved(host, filter, Parsed(p), thread, m);
    NumberIsValue(p, m);
  }

  /** What the names of the seven I/O counters stand for. */
  lemma IoWritten(attrs: seq<KeyValue>, io: Io)
    ensures All([SampleGroup(attrs, Values(IO_METRICS, IoNumbers(io)))])
         == [
              Observation("process_io_rchar_total", U64(io.rchar), attrs),
              Observation("process_io_wchar_total", U64(io.wchar), attrs),
              Observation("process_io_syscr_total", U64(io.syscr), attrs),
              Observation("process_io_syscw_total", U64(io.syscw), attrs),
              Observation("process_io_read_bytes_total", U64(io.readBytes), attrs),
              Observation("process_io_write_bytes_total", U64(io.writeBytes), attrs),
              Observation("process_io_cancelled_write_bytes_total", U64(io.cancelledWriteBytes), attrs)
            ]
  {
    AllOfValues(attrs, IO_METRICS, IoNumbers(io));
  }

  /** What the names of the ten values of a status file stand for. */
  lemma StatusWritten(attrs: seq<KeyValue>, s: StatusFile.Status)
    ensures All([SampleGroup(attrs, Values(STATUS_METRICS, StatusNumbers(s)))])
         == [
              Observation("process_mem_virt_bytes", U64(WrappingMul(s.vmSizeKb, 1024)), attrs),
              Observation("process_mem_rss_bytes", U64(WrappingMul(s.vmRssKb, 1024)), attrs),
              Observation("process_mem_hwm_bytes", U64(WrappingMul(s.vmHwmKb, 1024)), attrs),
              Observation("process_mem_shared_bytes", U64(WrappingMul(SaturatingAdd(s.rssFileKb, s.rssShmemKb), 1024)), attrs),
              Observation("process_mem_swap_bytes", U64(WrappingMul(s.vmSwapKb, 1024)), attrs),
              Observation("process_mem_hugetlb_bytes", U64(WrappingMul(s.hugetlbPagesKb, 1024)), attrs),
              Observation("process_fd_size", U64(s.fdSize), attrs),
              Observation("process_threads", U64(s.threads), attrs),
              Observation("process_ctxt_switches_voluntary_total", U64(s.voluntaryCtxtSwitches), attrs),
              Observation("process_ctxt_switches_nonvoluntary_total", U64(s.nonvoluntaryCtxtSwitches), attrs)
            ]
  {
    AllOfValues(attrs, STATUS_METRICS, StatusNumbers(s));
  }

  /** What the names of the two times stand for. */
  lemma TimesWritten(attrs: seq<KeyValue>, t: StatFile.Stat)
    ensures All([SampleGroup(attrs, Values(TIME_METRICS, TimeNumbers(t)))])
         == [
              Observation("process_cpu_user_seconds_total", F64(t.utimeTicks as real / 100.0), attrs),
              Observation("process_cpu_system_seconds_total", F64(t.stimeTicks as real / 100.0), attrs)
            ]
  {
    AllOfValues(attrs, TIME_METRICS, TimeNumbers(t));
  }

  // ------------------------------------------------------------------ the walk

  /** What a task of a leader is worth; the leader itself is listed but not reported again. */
  function TaskReport(
    host: KeyValue, filter: ProcessFilter, m: Metric, leader: i32): Files -> seq<Observation> {
    (t: Files) => if t.pid == leader then [] else RowReport(host, filter, m, true, t)
  }

  /** What the tasks of a process are worth, if they are wanted and can be listed. */
  function TasksReport(host: KeyValue, filter: ProcessFilter, m: Metric, p: Files): seq<Observation> {
    if filter.thread && Passes(filter, p.comm) && p.taskDir.Listed?
    then Series(TaskReport(host, filter, m, p.pid), p.taskDir.list) else []
  }

  /** What a process and its tasks are worth. */
  function LeaderReport(host: KeyValue, filter: ProcessFilter, m: Metric): Files -> seq<Observation> {
    (p: Files) => RowReport(host, filter, m, false, p) + TasksReport(host, filter, m, p)
  }

  function Report(host: KeyValue, filter: ProcessFilter, m: Metric, processes: Directory): seq<Observation> {
    match processes case Unreadable => [] case Listed(list) => Series(LeaderReport(host, filter, m), list)
  }

  /** What is observed of rows. */
  function Seen<T>(groupsOf: T -> Snapshot, m: Metric): T -> seq<Observation> {
    t => Observed(groupsOf(t), Name(m), RowType(m))
  }

  lemma {:induction false} TasksOfFiles(host: KeyValue, filter: ProcessFilter, m: Metric, leader: i32, list: seq<Files>)
    requires FamilyOf(m) == Processes
    ensures Series(Seen(TaskRow(host, filter), m), WithoutLeader(leader, ParsedAll(list)))
         == Series(TaskReport(host, filter, m, leader), list)
  {
    if list != [] {
      var n := |list| - 1;
      TasksOfFiles(host, filter, m, leader, list[..n]);
      assert ParsedAll(list)[..n] == ParsedAll(list[..n]);
      var before := WithoutLeader(leader, ParsedAll(list[..n]));
      if list[n].pid == leader {
        assert WithoutLeader(leader, ParsedAll(list)) == before;
      } else {
        RowOfFiles(host, filter, m, true, list[n]);
        SeriesSnoc(Seen(TaskRow(host, filter), m), before, Parsed(list[n]));
      }
    }
  }

  lemma TaskRowsOfFiles(host: KeyValue, filter: ProcessFilter, m: Metric, p: Files)
    requires FamilyOf(m) == Processes
    ensures Observed(TaskRows(host, filter, Parsed(p)), Name(m), RowType(m)) == TasksReport(host, filter, m, p)
  {
    if filter.thread && Passes(filter, p.comm) && p.taskDir.Listed? {
      TasksOfFiles(host, filter, m, p.pid, p.taskDir.list);
      ObservedOfFlat(
        TaskRow(host, filter), WithoutLeader(p.pid, ParsedAll(p.taskDir.list)), Name(m), RowType(m),
        Seen(TaskRow(host, filter), m));
    } else {
      assert All([]) == [];
    }
  }

  lemma LeaderOfFiles(host: KeyValue, filter: ProcessFilter, m: Metric, p: Files)
    requires FamilyOf(m) == Processes
    ensures Observed(ProcessRows(host, filter, Parsed(p)), Name(m), RowType(m)) == LeaderReport(host, filter, m)(p)
  {
    var q := Parsed(p);
    RowOfFiles(host, filter, m, false, p);
    ObservedConcat(Row(host, filter, q, false), TaskRows(host, filter, q), Name(m), RowType(m));
    TaskRowsOfFiles(host, filter, m, p);
  }

  lemma {:induction false} LeadersOfFiles(host: KeyValue, filter: ProcessFilter, m: Metric, list: seq<Files>)
    requires FamilyOf(m) == Processes
    ensures Series(Seen(RowsOfEach(host, filter, false), m), ParsedAll(list))
         == Series(LeaderReport(host, filter, m), list)
  {
    if list != [] {
      var n := |list| - 1;
      LeadersOfFiles(host, filter, m, list[..n]);
      assert ParsedAll(list)[..n] == ParsedAll(list[..n]);
      LeaderOfFiles(host, filter, m, list[n]);
    }
  }

  /**
   Whatever the files of the processes contain: each process instrument is told, process by process and directly
   after each its tasks if they are wanted, the value of its metric from the text of its file, for everything
   that is admitted and whose file could be read and parsed.
   */
  lemma TextToObservation(host: KeyValue, filter: ProcessFilter, processes: Directory, m: Metric)
    requires FamilyOf(m) == Processes
    ensures Observed(Read(host, filter, ParsedDirectory(processes)), Name(m), RowType(m))
         == Report(host, filter, m, processes)
  {
    match processes
    case Unreadable => assert All([]) == [];
    case Listed(list) =>
      LeadersOfFiles(host, filter, m, list);
      ObservedOfFlat(
        RowsOfEach(host, filter, false), ParsedAll(list), Name(m), RowType(m), Seen(RowsOfEach(host, filter, false), m));
  }

  // ------------------------------------------------------------------ exactness

  /** The KiB a memory metric of a process stands for; shared memory is a sum of two keys. */
  function StatusKb(s: StatusFile.Status, m: Metric): nat {
    match m
    case ProcessMemVirtBytes => s.vmSizeKb
    case ProcessMemRssBytes => s.vmRssKb
    case ProcessMemHwmBytes => s.vmHwmKb
    case ProcessMemSharedBytes => s.rssFileKb + s.rssShmemKb
    case ProcessMemSwapBytes => s.vmSwapKb
    case ProcessMemHugetlbBytes => s.hugetlbPagesKb
    case _ => 0
  }

  /**
   A memory metric of a process is exact, the saturating sum included, if and only if its value in bytes
   fits 64 bits.
   */
  lemma StatusBytesExact(s: StatusFile.Status, m: Metric)
    requires m in MEM_METRICS
    ensures StatusNumber(s, m).U64?
    ensures StatusNumber(s, m).u == StatusKb(s, m) * 1024 <==> StatusKb(s, m) * 1024 < U64_LIMIT
  {
    if m == ProcessMemSharedBytes {
      WrappingMulExact(SaturatingAdd(s.rssFileKb, s.rssShmemKb), 1024);
    } else {
      WrappingMulExact(StatusKb(s, m), 1024);
    }
  }

  lemma TimeOfStatText(
    p: Files, pid: nat, comm: Bytes, gaps: seq<Bytes>, fields: seq<Bytes>, utime: u64, stime: u64, m: Metric)
    requires StatFile.HasTimes(gaps, fields, utime, stime)
    requires p.stat == Some(StatFile.PrintStat(pid, comm, gaps, fields)) && m in TIME_METRICS
    ensures ValueOf(p, m) == Some(F64((if m == ProcessCpuUserSecondsTotal then utime else stime) as real / 100.0))
  {
    StatFile.StatRoundTrip(pid, comm, gaps, fields, utime, stime);
    Disjoint(m);
  }

  /** From a stat text with any command name: fields 14 and 15 in seconds. */
  lemma StatTextToObservation(
    host: KeyValue, filter: ProcessFilter, p: Files, thread: bool,
    pid: nat, comm: Bytes, gaps: seq<Bytes>, fields: seq<Bytes>, utime: u64, stime: u64, m: Metric)
    requires StatFile.HasTimes(gaps, fields, utime, stime)
    requires p.stat == Some(StatFile.PrintStat(pid, comm, gaps, fields))
    requires Passes(filter, p.comm) && m in TIME_METRICS
    ensures var ticks := if m == ProcessCpuUserSecondsTotal then utime else stime;
            RowReport(host, filter, m, thread, p)
            == [Observation(Name(m), F64(ticks as real / 100.0), AttrsOf(host, p.pid, p.comm.value, thread))]
  {
    TimeOfStatText(p, pid, comm, gaps, fields, utime, stime, m);
  }
}
