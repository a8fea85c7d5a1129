/** Memory, swap and huge-page metrics (crates/linux-metrics/src/mem.rs). */
module MemMetrics {
  import opened Wrappers
  import opened Integers
  import opened Framework
  import opened Names
  import opened Samples
  import opened Units
  import opened MemInfoFile

  /** Bytes of a number of huge pages: two wrapping products, in the order of the source. */
  function HugeBytes(pages: u64, pageSizeKb: u64): u64 {
    WrappingMul(WrappingMul(pages, pageSizeKb), BYTES_PER_KB)
  }

  /** What each memory metric reports. */
  function NumberOf(mem: MemInfo, m: Metric): Number {
    match m
    case MemTotalBytes => U64(WrappingMul(mem.memTotalKb, BYTES_PER_KB))
    case MemFreeBytes => U64(WrappingMul(mem.memFreeKb, BYTES_PER_KB))
    case MemAvailableBytes => U64(WrappingMul(mem.memAvailableKb, BYTES_PER_KB))
    case SwapTotalBytes => U64(WrappingMul(mem.swapTotalKb, BYTES_PER_KB))
    case SwapFreeBytes => U64(WrappingMul(mem.swapFreeKb, BYTES_PER_KB))
    case HugePagesTotalBytes => U64(HugeBytes(mem.hugePagesTotal, mem.hugePageSizeKb))
    case HugePagesFreeBytes => U64(HugeBytes(mem.hugePagesFree, mem.hugePageSizeKb))
    case _ => U64(0)
  }

  function Numbers(mem: MemInfo): Metric -> Number {
    m => NumberOf(mem, m)
  }

  function Group(host: KeyValue, mem: MemInfo): SampleGroup {
    SampleGroup([host], Values(RowsOf(Memory), Numbers(mem)))
  }

  /** What is pushed first, in order. */
  ghost predicate MemorySizes(mem: MemInfo, ms: seq<Metric>, f: Metric -> Number) {
    && |ms| == 7
    && IsAt(ms, 0, f, MemTotalBytes, U64(WrappingMul(mem.memTotalKb, BYTES_PER_KB)))
    && IsAt(ms, 1, f, MemFreeBytes, U64(WrappingMul(mem.memFreeKb, BYTES_PER_KB)))
    && IsAt(ms, 2, f, MemAvailableBytes, U64(WrappingMul(mem.memAvailableKb, BYTES_PER_KB)))
  }

  /** Then swap. */
  ghost predicate SwapSizes(mem: MemInfo, ms: seq<Metric>, f: Metric -> Number) {
    && |ms| == 7
    && IsAt(ms, 3, f, SwapTotalBytes, U64(WrappingMul(mem.swapTotalKb, BYTES_PER_KB)))
    && IsAt(ms, 4, f, SwapFreeBytes, U64(WrappingMul(mem.swapFreeKb, BYTES_PER_KB)))
  }

  /** Then huge pages. */
  ghost predicate HugePages(mem: MemInfo, ms: seq<Metric>, f: Metric -> Number) {
    && |ms| == 7
    && IsAt(ms, 5, f, HugePagesTotalBytes, U64(HugeBytes(mem.hugePagesTotal, mem.hugePageSizeKb)))
    && IsAt(ms, 6, f, HugePagesFreeBytes, U64(HugeBytes(mem.hugePagesFree, mem.hugePageSizeKb)))
  }

  method PushAll(group: SampleGroup, mem: MemInfo, ghost ms: seq<Metric>, ghost f: Metric -> Number)
    returns (grown: SampleGroup)
    requires group.values == [] && MemorySizes(mem, ms, f) && SwapSizes(mem, ms, f) && HugePages(mem, ms, f)
    ensures grown == SampleGroup(group.attrs, Values(ms, f))
  {
    NothingReported([], ms, f);
    grown := Push(group, [], ms, 0, 1, f, MemTotalBytes, U64(WrappingMul(mem.memTotalKb, BYTES_PER_KB)));
    grown := Push(grown, [], ms, 1, 2, f, MemFreeBytes, U64(WrappingMul(mem.memFreeKb, BYTES_PER_KB)));
    grown := Push(grown, [], ms, 2, 3, f, MemAvailableBytes, U64(WrappingMul(mem.memAvailableKb, BYTES_PER_KB)));
    grown := Push(grown, [], ms, 3, 4, f, SwapTotalBytes, U64(WrappingMul(mem.swapTotalKb, BYTES_PER_KB)));
    grown := Push(grown, [], ms, 4, 5, f, SwapFreeBytes, U64(WrappingMul(mem.swapFreeKb, BYTES_PER_KB)));
    grown := Push(grown, [], ms, 5, 6, f, HugePagesTotalBytes, U64(HugeBytes(mem.hugePagesTotal, mem.hugePageSizeKb)));
    grown := Push(grown, [], ms, 6, 7, f, HugePagesFreeBytes, U64(HugeBytes(mem.hugePagesFree, mem.hugePageSizeKb)));
    AllReported(grown.values, [], ms, 7, f);
  }

  lemma MemoryInOrder(mem: MemInfo)
    ensures MemorySizes(mem, RowsOf(Memory), Numbers(mem))
  {
  }

  lemma SwapInOrder(mem: MemInfo)
    ensures SwapSizes(mem, RowsOf(Memory), Numbers(mem))
  {
  }

  lemma HugePagesInOrder(mem: MemInfo)
    ensures HugePages(mem, RowsOf(Memory), Numbers(mem))
  {
  }

  /** `collect_mem_values`. */
  method CollectMemValues(host: KeyValue, mem: MemInfo, out: Buffer)
    modifies out
    ensures out.groups == old(out.groups) + [Group(host, mem)]
  {
    MemoryInOrder(mem);
    SwapInOrder(mem);
    HugePagesInOrder(mem);
    var group := PushAll(SampleGroup([host], []), mem, RowsOf(Memory), Numbers(mem));
    out.Push(group);
  }

  function Read(host: KeyValue, mem: Option<MemInfo>): Snapshot {
    match mem case None => [] case Some(m) => [Group(host, m)]
  }

  /** `collect_mem_metrics`: nothing if the file cannot be read or parsed. */
  method CollectMemMetrics(host: KeyValue, mem: Option<MemInfo>, out: Buffer)
    modifies out
    ensures out.groups == old(out.groups) + Read(host, mem)
  {
    if mem.None? {
      return;
    }
    CollectMemValues(host, mem.value, out);
  }
}
