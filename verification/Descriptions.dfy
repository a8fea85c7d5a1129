/** The units and descriptions of the `ITEMS` table (crates/linux-metrics/src/host.rs). */
module Descriptions {
  import opened Names

  function Unit(m: Metric): string {
    match m
    case Uptime | CpuSecondsTotal | ProcessCpuUserSecondsTotal | ProcessCpuSystemSecondsTotal => "s"
    case Loadavg1m | Loadavg5m | Loadavg15m => ""
    case LoadavgRunningTasks | LoadavgTotalTasks => "{tasks}"
    case ProcessIoSyscrTotal | ProcessIoSyscwTotal | DiskIoInProgress => "{operations}"
    case ProcessFdSize => "{slots}"
    case ProcessThreads => "{threads}"
    case ProcessCtxtSwitchesVoluntaryTotal | ProcessCtxtSwitchesNonvoluntaryTotal => "{switches}"
    case IfaceRxPacketsTotal | IfaceRxErrsTotal | IfaceRxDropTotal | IfaceTxPacketsTotal | IfaceTxErrsTotal |
       IfaceTxDropTotal | DiskReadsCompletedTotal | DiskReadsMergedTotal | DiskWritesCompletedTotal |
       DiskWritesMergedTotal | DiskDiscardsCompletedTotal | DiskDiscardsMergedTotal |
       DiskFlushRequestsTotal => "{count}"
    case DiskReadTimeMsTotal | DiskWriteTimeMsTotal | DiskIoTimeMsTotal | DiskIoTimeWeightedMsTotal |
       DiskDiscardTimeMsTotal | DiskFlushTimeMsTotal => "ms"
    case _ => "By"
  }

  function Description(m: Metric): string {
    match m
    case Uptime | Loadavg1m | Loadavg5m | Loadavg15m | LoadavgRunningTasks | LoadavgTotalTasks |
       CpuSecondsTotal | MemTotalBytes | MemFreeBytes | MemAvailableBytes | SwapTotalBytes | SwapFreeBytes |
       HugePagesTotalBytes | HugePagesFreeBytes => HostText(m)
    case ProcessIoRcharTotal | ProcessIoWcharTotal | ProcessIoReadBytesTotal | ProcessIoWriteBytesTotal |
       ProcessIoCancelledWriteBytesTotal | ProcessIoSyscrTotal | ProcessIoSyscwTotal => ProcessIoText(m)
    case ProcessMemVirtBytes | ProcessMemRssBytes | ProcessMemHwmBytes | ProcessMemSharedBytes |
       ProcessMemSwapBytes | ProcessMemHugetlbBytes | ProcessFdSize | ProcessThreads |
       ProcessCtxtSwitchesVoluntaryTotal | ProcessCtxtSwitchesNonvoluntaryTotal | ProcessCpuUserSecondsTotal |
       ProcessCpuSystemSecondsTotal => ProcessText(m)
    case IfaceRxBytesTotal | IfaceRxPacketsTotal | IfaceRxErrsTotal | IfaceRxDropTotal | IfaceTxBytesTotal |
       IfaceTxPacketsTotal | IfaceTxErrsTotal | IfaceTxDropTotal => IfaceText(m)
    case DiskReadBytesTotal | DiskReadsCompletedTotal | DiskReadsMergedTotal | DiskReadTimeMsTotal |
       DiskWriteBytesTotal | DiskWritesCompletedTotal | DiskWritesMergedTotal | DiskWriteTimeMsTotal |
       DiskIoInProgress | DiskIoTimeMsTotal | DiskIoTimeWeightedMsTotal | DiskDiscardBytesTotal |
       DiskDiscardsCompletedTotal | DiskDiscardsMergedTotal | DiskDiscardTimeMsTotal | DiskFlushRequestsTotal |
       DiskFlushTimeMsTotal => DiskText(m)
  }

  /** The descriptions of the host. */
  function HostText(m: Metric): string {
    match m
    case Uptime => "System uptime"
    case Loadavg1m => "1m load average"
    case Loadavg5m => "5m load average"
    case Loadavg15m => "15m load average"
    case LoadavgRunningTasks => "Number of currently running tasks"
    case LoadavgTotalTasks => "Total number of tasks"
    case CpuSecondsTotal => "Seconds the CPUs spent in each mode"
    case MemTotalBytes => "Total usable system memory"
    case MemFreeBytes => "Free system memory"
    case MemAvailableBytes => "Estimated memory available for starting new applications"
    case SwapTotalBytes => "Total swap space"
    case SwapFreeBytes => "Free swap space"
    case HugePagesTotalBytes => "Total hugepage memory"
    case _ => "Free hugepage memory"
  }

  /** The descriptions of process I/O. */
  function ProcessIoText(m: Metric): string {
    match m
    case ProcessIoRcharTotal => "Number of bytes the process has read (rchar)"
    case ProcessIoWcharTotal => "Number of bytes the process has written (wchar)"
    case ProcessIoReadBytesTotal => "Bytes of read(2) I/O for the process"
    case ProcessIoWriteBytesTotal => "Bytes of write(2) I/O for the process"
    case ProcessIoCancelledWriteBytesTotal => "Bytes of cancelled write(2) I/O for the process"
    case ProcessIoSyscrTotal => "Number of read(2) syscalls for the process"
    case _ => "Number of write(2) syscalls for the process"
  }

  /** The descriptions of processes. */
  function ProcessText(m: Metric): string {
    match m
    case ProcessMemVirtBytes => "Process virtual memory size (VmSize)"
    case ProcessMemRssBytes => "Process resident memory size (VmRSS)"
    case ProcessMemHwmBytes => "Historical peak resident memory of the process (VmHWM)"
    case ProcessMemSharedBytes => "Shared resident memory of the process, RssFile + RssShmem"
    case ProcessMemSwapBytes => "Swapped-out memory of the process (VmSwap)"
    case ProcessMemHugetlbBytes => "Huge pages resident memory of the process (HugetlbPages)"
    case ProcessFdSize => "File descriptor slots currently allocated to the process"
    case ProcessThreads => "Number of threads in the process"
    case ProcessCtxtSwitchesVoluntaryTotal => "Voluntary context switches of the process"
    case ProcessCtxtSwitchesNonvoluntaryTotal => "Non-voluntary context switches of the process"
    case ProcessCpuUserSecondsTotal => "User mode CPU time of the process"
    case _ => "System mode CPU time of the process"
  }

  /** The descriptions of interfaces. */
  function IfaceText(m: Metric): string {
    match m
    case IfaceRxBytesTotal => "Number of bytes received by the network interface"
    case IfaceRxPacketsTotal => "Number of packets received by the network interface"
    case IfaceRxErrsTotal => "Number of receive errors on the network interface"
    case IfaceRxDropTotal => "Number of received packets dropped by the network interface"
    case IfaceTxBytesTotal => "Number of bytes transmitted by the network interface"
    case IfaceTxPacketsTotal => "Number of packets transmitted by the network interface"
    case IfaceTxErrsTotal => "Number of transmit errors on the network interface"
    case _ => "Number of transmitted packets dropped by the network interface"
  }

  /** The descriptions of disks. */
  function DiskText(m: Metric): string {
    match m
    case DiskReadBytesTotal => "Number of bytes read from the block device"
    case DiskReadsCompletedTotal => "Number of reads completed successfully by the block device"
    case DiskReadsMergedTotal => "Number of reads merged by the block device"
    case DiskReadTimeMsTotal => "Time spent reading from the block device"
    case DiskWriteBytesTotal => "Number of bytes written to the block device"
    case DiskWritesCompletedTotal => "Number of writes completed successfully by the block device"
    case DiskWritesMergedTotal => "Number of writes merged by the block device"
    case DiskWriteTimeMsTotal => "Time spent writing to the block device"
    case DiskIoInProgress => "Number of I/Os currently in progress on the block device"
    case DiskIoTimeMsTotal => "Time spent doing I/Os on the block device"
    case DiskIoTimeWeightedMsTotal => "Weighted time spent doing I/Os on the block device"
    case DiskDiscardBytesTotal => "Number of bytes discarded from the block device"
    case DiskDiscardsCompletedTotal => "Number of discards completed successfully by the block device"
    case DiskDiscardsMergedTotal => "Number of discards merged by the block device"
    case DiskDiscardTimeMsTotal => "Time spent discarding on the block device"
    case DiskFlushRequestsTotal => "Number of flush requests completed successfully by the block device"
    case _ => "Time spent flushing the block device"
  }
}
