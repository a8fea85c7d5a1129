/** The metric contract: the constants of names.rs and the `ITEMS` table of host.rs. */
module Names {
  import opened Framework

  /** The name constants; every name a collector pushes and every name it registers is one of them. */
  datatype Metric =
    | Uptime
    | Loadavg1m | Loadavg5m | Loadavg15m | LoadavgRunningTasks | LoadavgTotalTasks
    | CpuSecondsTotal
    | ProcessIoRcharTotal | ProcessIoWcharTotal | ProcessIoReadBytesTotal | ProcessIoWriteBytesTotal
    | ProcessIoCancelledWriteBytesTotal | ProcessIoSyscrTotal | ProcessIoSyscwTotal | ProcessMemVirtBytes
    | ProcessMemRssBytes | ProcessMemHwmBytes | ProcessMemSharedBytes | ProcessMemSwapBytes
    | ProcessMemHugetlbBytes | ProcessFdSize | ProcessThreads | ProcessCtxtSwitchesVoluntaryTotal
    | ProcessCtxtSwitchesNonvoluntaryTotal | ProcessCpuUserSecondsTotal | ProcessCpuSystemSecondsTotal
    | IfaceRxBytesTotal | IfaceRxPacketsTotal | IfaceRxErrsTotal | IfaceRxDropTotal | IfaceTxBytesTotal
    | IfaceTxPacketsTotal | IfaceTxErrsTotal | IfaceTxDropTotal
    | DiskReadBytesTotal | DiskReadsCompletedTotal | DiskReadsMergedTotal | DiskReadTimeMsTotal
    | DiskWriteBytesTotal | DiskWritesCompletedTotal | DiskWritesMergedTotal | DiskWriteTimeMsTotal
    | DiskIoInProgress | DiskIoTimeMsTotal | DiskIoTimeWeightedMsTotal | DiskDiscardBytesTotal
    | DiskDiscardsCompletedTotal | DiskDiscardsMergedTotal | DiskDiscardTimeMsTotal | DiskFlushRequestsTotal
    | DiskFlushTimeMsTotal
    | MemTotalBytes | MemFreeBytes | MemAvailableBytes | SwapTotalBytes | SwapFreeBytes | HugePagesTotalBytes
    | HugePagesFreeBytes

  function Name(m: Metric): string {
    match m
    case Uptime | Loadavg1m | Loadavg5m | Loadavg15m | LoadavgRunningTasks | LoadavgTotalTasks |
       CpuSecondsTotal => HostName(m)
    case ProcessIoRcharTotal | ProcessIoWcharTotal | ProcessIoReadBytesTotal | ProcessIoWriteBytesTotal |
       ProcessIoCancelledWriteBytesTotal | ProcessIoSyscrTotal | ProcessIoSyscwTotal => ProcessIoName(m)
    case ProcessCpuUserSecondsTotal | ProcessCpuSystemSecondsTotal | ProcessFdSize | ProcessThreads |
       ProcessCtxtSwitchesVoluntaryTotal | ProcessCtxtSwitchesNonvoluntaryTotal => ProcessOtherName(m)
    case ProcessMemVirtBytes | ProcessMemRssBytes | ProcessMemHwmBytes | ProcessMemSharedBytes |
       ProcessMemSwapBytes | ProcessMemHugetlbBytes => ProcessMemName(m)
    case IfaceRxBytesTotal | IfaceRxPacketsTotal | IfaceRxErrsTotal | IfaceRxDropTotal | IfaceTxBytesTotal |
       IfaceTxPacketsTotal | IfaceTxErrsTotal | IfaceTxDropTotal => IfaceName(m)
    case DiskReadBytesTotal | DiskReadsCompletedTotal | DiskReadsMergedTotal | DiskReadTimeMsTotal |
       DiskWriteBytesTotal | DiskWritesCompletedTotal | DiskWritesMergedTotal |
       DiskWriteTimeMsTotal => DiskTransferName(m)
    case DiskIoInProgress | DiskIoTimeMsTotal | DiskIoTimeWeightedMsTotal | DiskDiscardBytesTotal |
       DiskDiscardsCompletedTotal | DiskDiscardsMergedTotal | DiskDiscardTimeMsTotal | DiskFlushRequestsTotal |
       DiskFlushTimeMsTotal => DiskOtherName(m)
    case MemTotalBytes | MemFreeBytes | MemAvailableBytes | SwapTotalBytes | SwapFreeBytes |
       HugePagesTotalBytes | HugePagesFreeBytes => MemName(m)
  }

  /** The names of uptime, load and cpu. */
  function HostName(m: Metric): string {
    match m
    case Uptime => "uptime"
    case Loadavg1m => "loadavg_1m"
    case Loadavg5m => "loadavg_5m"
    case Loadavg15m => "loadavg_15m"
    case LoadavgRunningTasks => "loadavg_running_tasks"
    case LoadavgTotalTasks => "loadavg_total_tasks"
    case _ => "cpu_seconds_total"
  }

  /** The names of process I/O. */
  function ProcessIoName(m: Metric): string {
    match m
    case ProcessIoRcharTotal => "process_io_rchar_total"
    case ProcessIoWcharTotal => "process_io_wchar_total"
    case ProcessIoReadBytesTotal => "process_io_read_bytes_total"
    case ProcessIoWriteBytesTotal => "process_io_write_bytes_total"
    case ProcessIoCancelledWriteBytesTotal => "process_io_cancelled_write_bytes_total"
    case ProcessIoSyscrTotal => "process_io_syscr_total"
    case _ => "process_io_syscw_total"
  }

  /** The names of process tasks and times. */
  function ProcessOtherName(m: Metric): string {
    match m
    case ProcessCpuUserSecondsTotal => "process_cpu_user_seconds_total"
    case ProcessCpuSystemSecondsTotal => "process_cpu_system_seconds_total"
    case ProcessFdSize => "process_fd_size"
    case ProcessThreads => "process_threads"
    case ProcessCtxtSwitchesVoluntaryTotal => "process_ctxt_switches_voluntary_total"
    case _ => "process_ctxt_switches_nonvoluntary_total"
  }

  /** The names of process memory. */
  function ProcessMemName(m: Metric): string {
    match m
    case ProcessMemVirtBytes => "process_mem_virt_bytes"
    case ProcessMemRssBytes => "process_mem_rss_bytes"
    case ProcessMemHwmBytes => "process_mem_hwm_bytes"
    case ProcessMemSharedBytes => "process_mem_shared_bytes"
    case ProcessMemSwapBytes => "process_mem_swap_bytes"
    case _ => "process_mem_hugetlb_bytes"
  }

  /** The names of interfaces. */
  function IfaceName(m: Metric): string {
    match m
    case IfaceRxBytesTotal => "iface_rx_bytes_total"
    case IfaceRxPacketsTotal => "iface_rx_packets_total"
    case IfaceRxErrsTotal => "iface_rx_errs_total"
    case IfaceRxDropTotal => "iface_rx_drop_total"
    case IfaceTxBytesTotal => "iface_tx_bytes_total"
    case IfaceTxPacketsTotal => "iface_tx_packets_total"
    case IfaceTxErrsTotal => "iface_tx_errs_total"
    case _ => "iface_tx_drop_total"
  }

  /** The names of disk reads and writes. */
  function DiskTransferName(m: Metric): string {
    match m
    case DiskReadBytesTotal => "disk_read_bytes_total"
    case DiskReadsCompletedTotal => "disk_reads_completed_total"
    case DiskReadsMergedTotal => "disk_reads_merged_total"
    case DiskReadTimeMsTotal => "disk_read_time_ms_total"
    case DiskWriteBytesTotal => "disk_write_bytes_total"
    case DiskWritesCompletedTotal => "disk_writes_completed_total"
    case DiskWritesMergedTotal => "disk_writes_merged_total"
    case _ => "disk_write_time_ms_total"
  }

  /** The names of other disk activity. */
  function DiskOtherName(m: Metric): string {
    match m
    case DiskIoInProgress => "disk_io_in_progress"
    case DiskIoTimeMsTotal => "disk_io_time_ms_total"
    case DiskIoTimeWeightedMsTotal => "disk_io_time_weighted_ms_total"
    case DiskDiscardBytesTotal => "disk_discard_bytes_total"
    case DiskDiscardsCompletedTotal => "disk_discards_completed_total"
    case DiskDiscardsMergedTotal => "disk_discards_merged_total"
    case DiskDiscardTimeMsTotal => "disk_discard_time_ms_total"
    case DiskFlushRequestsTotal => "disk_flush_requests_total"
    case _ => "disk_flush_time_ms_total"
  }

  /** The names of host memory. */
  function MemName(m: Metric): string {
    match m
    case MemTotalBytes => "mem_total_bytes"
    case MemFreeBytes => "mem_free_bytes"
    case MemAvailableBytes => "mem_available_bytes"
    case SwapTotalBytes => "swap_total_bytes"
    case SwapFreeBytes => "swap_free_bytes"
    case HugePagesTotalBytes => "huge_pages_total_bytes"
    case _ => "huge_pages_free_bytes"
  }

  /** The item types of the table. */
  datatype Family = Uptimes | Loadavgs | Processes | Interfaces | Cpus | Disks | Memory

  /** The numbers of `MetricItemType`. */
  function ItemType(f: Family): nat {
    match f
    case Uptimes => 0
    case Loadavgs => 1
    case Processes => 2
    case Interfaces => 3
    case Cpus => 4
    case Disks => 5
    case Memory => 6
  }

  function FamilyOf(m: Metric): Family {
    match m
    case Uptime => Uptimes
    case Loadavg1m | Loadavg5m | Loadavg15m | LoadavgRunningTasks | LoadavgTotalTasks => Loadavgs
    case CpuSecondsTotal => Cpus
    case IfaceRxBytesTotal | IfaceRxPacketsTotal | IfaceRxErrsTotal | IfaceRxDropTotal | IfaceTxBytesTotal |
       IfaceTxPacketsTotal | IfaceTxErrsTotal | IfaceTxDropTotal => Interfaces
    case DiskReadBytesTotal | DiskReadsCompletedTotal | DiskReadsMergedTotal | DiskReadTimeMsTotal |
       DiskWriteBytesTotal | DiskWritesCompletedTotal | DiskWritesMergedTotal | DiskWriteTimeMsTotal |
       DiskIoInProgress | DiskIoTimeMsTotal | DiskIoTimeWeightedMsTotal | DiskDiscardBytesTotal |
       DiskDiscardsCompletedTotal | DiskDiscardsMergedTotal | DiskDiscardTimeMsTotal |
       DiskFlushRequestsTotal | DiskFlushTimeMsTotal => Disks
    case MemTotalBytes | MemFreeBytes | MemAvailableBytes | SwapTotalBytes | SwapFreeBytes |
       HugePagesTotalBytes | HugePagesFreeBytes => Memory
    case _ => Processes
  }

  function Kind(m: Metric): ItemKind {
    match m
    case Uptime | Loadavg1m | Loadavg5m | Loadavg15m => GaugeF64
    case CpuSecondsTotal | ProcessCpuUserSecondsTotal | ProcessCpuSystemSecondsTotal => CounterF64
    case LoadavgRunningTasks | LoadavgTotalTasks | ProcessMemVirtBytes | ProcessMemRssBytes |
       ProcessMemHwmBytes | ProcessMemSharedBytes | ProcessMemSwapBytes | ProcessMemHugetlbBytes |
       ProcessFdSize | ProcessThreads | DiskIoInProgress | MemTotalBytes | MemFreeBytes | MemAvailableBytes |
       SwapTotalBytes | SwapFreeBytes | HugePagesTotalBytes | HugePagesFreeBytes => GaugeU64
    case _ => CounterU64
  }

  // ------------------------------------------------------------------ the table

  /** The rows of one item type, in table order. */
  function RowsOf(f: Family): seq<Metric> {
    match f
    case Uptimes =>
      [Uptime]
    case Loadavgs =>
      [Loadavg1m, Loadavg5m, Loadavg15m, LoadavgRunningTasks, LoadavgTotalTasks]
    case Cpus =>
      [CpuSecondsTotal]
    case Processes =>
      [ProcessIoRcharTotal, ProcessIoWcharTotal, ProcessIoReadBytesTotal, ProcessIoWriteBytesTotal,
       ProcessIoCancelledWriteBytesTotal, ProcessIoSyscrTotal, ProcessIoSyscwTotal, ProcessMemVirtBytes,
       ProcessMemRssBytes, ProcessMemHwmBytes, ProcessMemSharedBytes, ProcessMemSwapBytes,
       ProcessMemHugetlbBytes, ProcessFdSize, ProcessThreads, ProcessCtxtSwitchesVoluntaryTotal,
       ProcessCtxtSwitchesNonvoluntaryTotal, ProcessCpuUserSecondsTotal, ProcessCpuSystemSecondsTotal]
    case Interfaces =>
      [IfaceRxBytesTotal, IfaceRxPacketsTotal, IfaceRxErrsTotal, IfaceRxDropTotal, IfaceTxBytesTotal,
       IfaceTxPacketsTotal, IfaceTxErrsTotal, IfaceTxDropTotal]
    case Disks =>
      [DiskReadBytesTotal, DiskReadsCompletedTotal, DiskReadsMergedTotal, DiskReadTimeMsTotal,
       DiskWriteBytesTotal, DiskWritesCompletedTotal, DiskWritesMergedTotal, DiskWriteTimeMsTotal,
       DiskIoInProgress, DiskIoTimeMsTotal, DiskIoTimeWeightedMsTotal, DiskDiscardBytesTotal,
       DiskDiscardsCompletedTotal, DiskDiscardsMergedTotal, DiskDiscardTimeMsTotal, DiskFlushRequestsTotal,
       DiskFlushTimeMsTotal]
    case Memory =>
      [MemTotalBytes, MemFreeBytes, MemAvailableBytes, SwapTotalBytes, SwapFreeBytes, HugePagesTotalBytes,
       HugePagesFreeBytes]
  }

  /** `ITEMS`. */
  function Items(): seq<Metric> {
    RowsOf(Uptimes) + RowsOf(Loadavgs) + RowsOf(Cpus) + RowsOf(Processes)
    + RowsOf(Interfaces) + RowsOf(Disks) + RowsOf(Memory)
  }

  /** The place of a metric among the rows of its item type. */
  function Rank(m: Metric): nat {
    match m
    case Uptime => 0 case Loadavg1m => 0 case Loadavg5m => 1 case Loadavg15m => 2 case LoadavgRunningTasks => 3
    case LoadavgTotalTasks => 4 case CpuSecondsTotal => 0 case ProcessIoRcharTotal => 0
    case ProcessIoWcharTotal => 1 case ProcessIoReadBytesTotal => 2 case ProcessIoWriteBytesTotal => 3
    case ProcessIoCancelledWriteBytesTotal => 4 case ProcessIoSyscrTotal => 5 case ProcessIoSyscwTotal => 6
    case ProcessMemVirtBytes => 7 case ProcessMemRssBytes => 8 case ProcessMemHwmBytes => 9
    case ProcessMemSharedBytes => 10 case ProcessMemSwapBytes => 11 case ProcessMemHugetlbBytes => 12
    case ProcessFdSize => 13 case ProcessThreads => 14 case ProcessCtxtSwitchesVoluntaryTotal => 15
    case ProcessCtxtSwitchesNonvoluntaryTotal => 16 case ProcessCpuUserSecondsTotal => 17
    case ProcessCpuSystemSecondsTotal => 18 case IfaceRxBytesTotal => 0 case IfaceRxPacketsTotal => 1
    case IfaceRxErrsTotal => 2 case IfaceRxDropTotal => 3 case IfaceTxBytesTotal => 4
    case IfaceTxPacketsTotal => 5 case IfaceTxErrsTotal => 6 case IfaceTxDropTotal => 7
    case DiskReadBytesTotal => 0 case DiskReadsCompletedTotal => 1 case DiskReadsMergedTotal => 2
    case DiskReadTimeMsTotal => 3 case DiskWriteBytesTotal => 4 case DiskWritesCompletedTotal => 5
    case DiskWritesMergedTotal => 6 case DiskWriteTimeMsTotal => 7 case DiskIoInProgress => 8
    case DiskIoTimeMsTotal => 9 case DiskIoTimeWeightedMsTotal => 10 case DiskDiscardBytesTotal => 11
    case DiskDiscardsCompletedTotal => 12 case DiskDiscardsMergedTotal => 13 case DiskDiscardTimeMsTotal => 14
    case DiskFlushRequestsTotal => 15 case DiskFlushTimeMsTotal => 16 case MemTotalBytes => 0
    case MemFreeBytes => 1 case MemAvailableBytes => 2 case SwapTotalBytes => 3 case SwapFreeBytes => 4
    case HugePagesTotalBytes => 5 case HugePagesFreeBytes => 6
  }

  /** Every metric has a row among those of its item type. */
  lemma RowsAreComplete(m: Metric)
    ensures Rank(m) < |RowsOf(FamilyOf(m))| && RowsOf(FamilyOf(m))[Rank(m)] == m
  {
    match FamilyOf(m) {
      case Processes => ProcessRowOf(m);
      case Disks => DiskRowOf(m);
      case Interfaces => IfaceRowOf(m);
      case _ => SmallRowOf(m);
    }
  }

  lemma ProcessRowOf(m: Metric)
    requires FamilyOf(m) == Processes
    ensures Rank(m) < |RowsOf(Processes)| && RowsOf(Processes)[Rank(m)] == m
  {
  }

  lemma DiskRowOf(m: Metric)
    requires FamilyOf(m) == Disks
    ensures Rank(m) < |RowsOf(Disks)| && RowsOf(Disks)[Rank(m)] == m
  {
  }

  lemma IfaceRowOf(m: Metric)
    requires FamilyOf(m) == Interfaces
    ensures Rank(m) < |RowsOf(Interfaces)| && RowsOf(Interfaces)[Rank(m)] == m
  {
  }

  lemma SmallRowOf(m: Metric)
    requires FamilyOf(m) != Processes && FamilyOf(m) != Disks && FamilyOf(m) != Interfaces
    ensures Rank(m) < |RowsOf(FamilyOf(m))| && RowsOf(FamilyOf(m))[Rank(m)] == m
  {
  }

  lemma RowsContain(m: Metric)
    ensures m in RowsOf(FamilyOf(m))
  {
    RowsAreComplete(m);
  }

  /** No row is there twice, or under a wrong item type. */
  lemma RowsAreDistinct(f: Family, i: nat)
    requires i < |RowsOf(f)|
    ensures FamilyOf(RowsOf(f)[i]) == f && Rank(RowsOf(f)[i]) == i
  {
    match f {
      case Processes => ProcessRow(i);
      case Disks => DiskRow(i);
      case Interfaces => IfaceRow(i);
      case _ => SmallFamilyRow(f, i);
    }
  }

  lemma ProcessRow(i: nat)
    requires i < |RowsOf(Processes)|
    ensures FamilyOf(RowsOf(Processes)[i]) == Processes && Rank(RowsOf(Processes)[i]) == i
  {
    assert i == 0 || i == 1 || i == 2 || i == 3 || i == 4 || i == 5 || i == 6 || i == 7 || i == 8 || i == 9
           || i == 10 || i == 11 || i == 12 || i == 13 || i == 14 || i == 15 || i == 16 || i == 17 || i == 18;
  }

  lemma DiskRow(i: nat)
    requires i < |RowsOf(Disks)|
    ensures FamilyOf(RowsOf(Disks)[i]) == Disks && Rank(RowsOf(Disks)[i]) == i
  {
    if i < 9 {
      FirstDiskRow(i);
    } else {
      LastDiskRow(i);
    }
  }

  lemma FirstDiskRow(i: nat)
    requires i < 9
    ensures FamilyOf(RowsOf(Disks)[i]) == Disks && Rank(RowsOf(Disks)[i]) == i
  {
    assert i == 0 || i == 1 || i == 2 || i == 3 || i == 4 || i == 5 || i == 6 || i == 7 || i == 8;
  }

  lemma LastDiskRow(i: nat)
    requires 9 <= i < 17
    ensures FamilyOf(RowsOf(Disks)[i]) == Disks && Rank(RowsOf(Disks)[i]) == i
  {
    assert i == 9 || i == 10 || i == 11 || i == 12 || i == 13 || i == 14 || i == 15 || i == 16;
  }

  lemma IfaceRow(i: nat)
    requires i < |RowsOf(Interfaces)|
    ensures FamilyOf(RowsOf(Interfaces)[i]) == Interfaces && Rank(RowsOf(Interfaces)[i]) == i
  {
    assert i == 0 || i == 1 || i == 2 || i == 3 || i == 4 || i == 5 || i == 6 || i == 7;
  }

  lemma SmallFamilyRow(f: Family, i: nat)
    requires i < |RowsOf(f)| && f != Processes && f != Disks && f != Interfaces
    ensures FamilyOf(RowsOf(f)[i]) == f && Rank(RowsOf(f)[i]) == i
  {
    assert i == 0 || i == 1 || i == 2 || i == 3 || i == 4 || i == 5 || i == 6;
  }

  // ------------------------------------------------------------------ names tell metrics apart

  /** The i-th letter of a name. */
  function Letter(s: string, i: nat): char {
    if i < |s| then s[i] else ' '
  }

  function FamilyByName(s: string): Family {
    match Letter(s, 0)
    case 'u' => Uptimes
    case 'l' => Loadavgs
    case 'p' => Processes
    case 'i' => Interfaces
    case 'c' => Cpus
    case 'd' => Disks
    case _ => Memory
  }

  /** The place of a metric among the rows of its item type, read off a few letters of its name. */
  function RankByName(f: Family, s: string): nat {
    match f
    case Uptimes | Cpus => 0
    case Loadavgs => LoadavgRank(s)
    case Processes => ProcessRank(s)
    case Interfaces => IfaceRank(s)
    case Disks => DiskRank(s)
    case Memory => MemRank(s)
  }

  function LoadavgRank(s: string): nat {
    match Letter(s, 8)
    case '1' => if Letter(s, 9) == 'm' then 0 else 2
    case '5' => 1
    case 'r' => 3
    case _ => 4
  }

  function ProcessRank(s: string): nat {
    match |s|
    case 15 => if s[8] == 'f' then 13 else 14
    case 21 => if s[12] == 'r' then 8 else 9
    case 22 =>
      if s[8] == 'm' then (if s[12] == 'v' then 7 else 11)
      else if s[11] == 'r' then 0
      else if s[11] == 'w' then 1
      else if s[15] == 'r' then 5
      else 6
    case 24 => 10
    case 25 => 12
    case 27 => 2
    case 28 => 3
    case 30 => 17
    case 32 => 18
    case 37 => 15
    case 38 => 4
    case _ => 16
  }

  function IfaceRank(s: string): nat {
    (match Letter(s, 9) case 'b' => 0 case 'p' => 1 case 'e' => 2 case _ => 3)
    + if Letter(s, 6) == 'r' then 0 else 4
  }

  function DiskRank(s: string): nat {
    match Letter(s, 5)
    case 'r' => (match Letter(s, 15) case '_' => 0 case 'l' => 1 case 'e' => 2 case _ => 3)
    case 'w' => (match Letter(s, 15) case 's' => 4 case 'p' => 5 case 'g' => 6 case _ => 7)
    case 'i' => (match Letter(s, 15) case 'r' => 8 case '_' => 9 case _ => 10)
    case 'd' => (match Letter(s, 15) case 't' => 11 case 'o' => 12 case 'e' => 13 case _ => 14)
    case _ => if Letter(s, 15) == 'e' then 15 else 16
  }

  function MemRank(s: string): nat {
    match Letter(s, 0)
    case 'm' => (match Letter(s, 4) case 't' => 0 case 'f' => 1 case _ => 2)
    case 's' => if Letter(s, 5) == 't' then 3 else 4
    case _ => if Letter(s, 11) == 't' then 5 else 6
  }

  /** A name tells the item type and the place in the table. */
  predicate Tells(s: string, f: Family, rank: nat) {
    FamilyByName(s) == f && RankByName(f, s) == rank
  }

  lemma NameTells(m: Metric)
    ensures Tells(Name(m), FamilyOf(m), Rank(m))
  {
    match FamilyOf(m) {
      case Processes =>
        if Rank(m) < 7 {
          ProcessIoTells(m);
        } else if Rank(m) < 13 {
          ProcessMemTells(m);
        } else {
          ProcessOtherTells(m);
        }
      case Disks =>
        if Rank(m) < 8 {
          DiskTransferTells(m);
        } else {
          DiskOtherTells(m);
        }
      case Interfaces => IfaceTells(m);
      case Memory => MemTells(m);
      case _ => HostTells(m);
    }
  }

  lemma ProcessIoLetters(m: Metric)
    requires FamilyOf(m) == Processes && Rank(m) < 7
    ensures Tells(ProcessIoName(m), Processes, Rank(m))
  {
    if Rank(m) < 4 {
      FirstProcessIoLetters(m);
    } else {
      LastProcessIoLetters(m);
    }
  }

  lemma FirstProcessIoLetters(m: Metric)
    requires FamilyOf(m) == Processes && Rank(m) < 7 && Rank(m) < 4
    ensures Tells(ProcessIoName(m), Processes, Rank(m))
  {
  }

  lemma LastProcessIoLetters(m: Metric)
    requires FamilyOf(m) == Processes && Rank(m) < 7 && 4 <= Rank(m)
    ensures Tells(ProcessIoName(m), Processes, Rank(m))
  {
  }

  lemma ProcessIoTells(m: Metric)
    requires FamilyOf(m) == Processes && Rank(m) < 7
    ensures Tells(Name(m), Processes, Rank(m))
  {
    ProcessIoLetters(m);
  }

  lemma ProcessMemLetters(m: Metric)
    requires FamilyOf(m) == Processes && 7 <= Rank(m) < 13
    ensures Tells(ProcessMemName(m), Processes, Rank(m))
  {
  }

  lemma ProcessMemTells(m: Metric)
    requires FamilyOf(m) == Processes && 7 <= Rank(m) < 13
    ensures Tells(Name(m), Processes, Rank(m))
  {
    ProcessMemLetters(m);
  }

  lemma ProcessOtherLetters(m: Metric)
    requires FamilyOf(m) == Processes && 13 <= Rank(m)
    ensures Tells(ProcessOtherName(m), Processes, Rank(m))
  {
    if Rank(m) < 16 {
      FirstProcessOtherLetters(m);
    } else {
      LastProcessOtherLetters(m);
    }
  }

  lemma FirstProcessOtherLetters(m: Metric)
    requires FamilyOf(m) == Processes && 13 <= Rank(m) && Rank(m) < 16
    ensures Tells(ProcessOtherName(m), Processes, Rank(m))
  {
  }

  lemma LastProcessOtherLetters(m: Metric)
    requires FamilyOf(m) == Processes && 13 <= Rank(m) && 16 <= Rank(m)
    ensures Tells(ProcessOtherName(m), Processes, Rank(m))
  {
  }

  lemma ProcessOtherTells(m: Metric)
    requires FamilyOf(m) == Processes && 13 <= Rank(m)
    ensures Tells(Name(m), Processes, Rank(m))
  {
    ProcessOtherLetters(m);
  }

  lemma DiskTransferLetters(m: Metric)
    requires FamilyOf(m) == Disks && Rank(m) < 8
    ensures Tells(DiskTransferName(m), Disks, Rank(m))
  {
  }

  lemma DiskTransferTells(m: Metric)
    requires FamilyOf(m) == Disks && Rank(m) < 8
    ensures Tells(Name(m), Disks, Rank(m))
  {
    DiskTransferLetters(m);
  }

  lemma DiskOtherLetters(m: Metric)
    requires FamilyOf(m) == Disks && 8 <= Rank(m)
    ensures Tells(DiskOtherName(m), Disks, Rank(m))
  {
    if Rank(m) < 12 {
      FirstDiskOtherLetters(m);
    } else {
      LastDiskOtherLetters(m);
    }
  }

  lemma FirstDiskOtherLetters(m: Metric)
    requires FamilyOf(m) == Disks && 8 <= Rank(m) && Rank(m) < 12
    ensures Tells(DiskOtherName(m), Disks, Rank(m))
  {
  }

  lemma LastDiskOtherLetters(m: Metric)
    requires FamilyOf(m) == Disks && 8 <= Rank(m) && 12 <= Rank(m)
    ensures Tells(DiskOtherName(m), Disks, Rank(m))
  {
  }

  lemma DiskOtherTells(m: Metric)
    requires FamilyOf(m) == Disks && 8 <= Rank(m)
    ensures Tells(Name(m), Disks, Rank(m))
  {
    DiskOtherLetters(m);
  }

  lemma IfaceLetters(m: Metric)
    requires FamilyOf(m) == Interfaces
    ensures Tells(IfaceName(m), Interfaces, Rank(m))
  {
  }

  lemma IfaceTells(m: Metric)
    requires FamilyOf(m) == Interfaces
    ensures Tells(Name(m), Interfaces, Rank(m))
  {
    IfaceLetters(m);
  }

  lemma MemLetters(m: Metric)
    requires FamilyOf(m) == Memory
    ensures Tells(MemName(m), Memory, Rank(m))
  {
  }

  lemma MemTells(m: Metric)
    requires FamilyOf(m) == Memory
    ensures Tells(Name(m), Memory, Rank(m))
  {
    MemLetters(m);
  }

  lemma HostLetters(m: Metric)
    requires FamilyOf(m) == Uptimes || FamilyOf(m) == Loadavgs || FamilyOf(m) == Cpus
    ensures Tells(HostName(m), FamilyOf(m), Rank(m))
  {
  }

  lemma HostTells(m: Metric)
    requires FamilyOf(m) == Uptimes || FamilyOf(m) == Loadavgs || FamilyOf(m) == Cpus
    ensures Tells(Name(m), FamilyOf(m), Rank(m))
  {
    HostLetters(m);
  }

  /** No two metrics share a name. */
  lemma NamesAreDistinct(a: Metric, b: Metric)
    ensures Name(a) == Name(b) <==> a == b
  {
    if Name(a) == Name(b) {
      NameTells(a);
      NameTells(b);
      RowsAreComplete(a);
      RowsAreComplete(b);
    }
  }
}
