/** CPU time metrics (crates/linux-metrics/src/cpu.rs). */
module CpuMetrics {
  import opened Wrappers
  import opened Integers
  import opened Framework
  import opened Names
  import opened Samples
  import opened Units
  import opened CpuStat

  /** The k-th time of a cpu line is spent in the k-th of these. */
  const MODES: seq<string> :=
    ["user", "nice", "system", "idle", "iowait", "irq", "softirq", "steal", "guest", "guest_nice"]

  function Seconds(ticks: u64): Number {
    F64(ticks as real / USER_HZ)
  }

  /** The ticks of each mode. */
  function TicksOf(entry: CpuTimes): (ticks: seq<u64>)
    ensures |ticks| == |MODES|
  {
    [entry.user, entry.nice, entry.system, entry.idle, entry.iowait,
     entry.irq, entry.softirq, entry.steal, entry.guest, entry.guestNice]
  }

  function Attrs(host: KeyValue, cpu: string, mode: string): seq<KeyValue> {
    [host, KeyValue("cpu", Str(cpu)), KeyValue("mode", Str(mode))]
  }

  function ModeNumber(ticks: u64): Metric -> Number {
    m => Seconds(ticks)
  }

  function ModeGroup(host: KeyValue, entry: CpuTimes, k: nat): SampleGroup
    requires k < |MODES|
  {
    SampleGroup(Attrs(host, entry.name, MODES[k]), Values([CpuSecondsTotal], ModeNumber(TicksOf(entry)[k])))
  }

  /** The first n mode groups of a cpu. */
  function ModeGroups(host: KeyValue, entry: CpuTimes, n: nat): (groups: Snapshot)
    requires n <= |MODES|
    ensures |groups| == n
    ensures forall k :: 0 <= k < n ==> groups[k] == ModeGroup(host, entry, k)
  {
    seq(n, k requires 0 <= k < n => ModeGroup(host, entry, k))
  }

  lemma ModeGroupsSnoc(host: KeyValue, entry: CpuTimes, k: nat)
    requires k < |MODES|
    ensures ModeGroups(host, entry, k + 1) == ModeGroups(host, entry, k) + [ModeGroup(host, entry, k)]
  {
  }

  predicate Keeps(perCore: bool, entry: CpuTimes) {
    entry.name == "cpu" || perCore
  }

  function GroupsOf(host: KeyValue, perCore: bool, entry: CpuTimes): Snapshot {
    if Keeps(perCore, entry) then ModeGroups(host, entry, |MODES|) else []
  }

  function Groups(host: KeyValue, perCore: bool, cpus: seq<CpuTimes>): Snapshot {
    Flat(c => GroupsOf(host, perCore, c), cpus)
  }

  /** The inner loop: one group for each mode of one cpu. */
  method PushModes(host: KeyValue, entry: CpuTimes, out: Buffer)
    modifies out
    ensures out.groups == old(out.groups) + ModeGroups(host, entry, |MODES|)
  {
    var cpuAttr := KeyValue("cpu", Str(entry.name));
    var times := TicksOf(entry);
    for k := 0 to |MODES|
      invariant out.groups == old(out.groups) + ModeGroups(host, entry, k)
    {
      var group := SampleGroup([host, cpuAttr, KeyValue("mode", Str(MODES[k]))], []);
      ghost var number := ModeNumber(times[k]);
      NothingReported([], [CpuSecondsTotal], number);
      group := Push(group, [], [CpuSecondsTotal], 0, 1, number, CpuSecondsTotal, F64(times[k] as real / USER_HZ));
      AllReported(group.values, [], [CpuSecondsTotal], 1, number);
      out.Push(group);
      ModeGroupsSnoc(host, entry, k);
    }
  }

  /** `collect_cpu_times`. */
  method CollectCpuTimes(host: KeyValue, perCore: bool, cpus: seq<CpuTimes>, out: Buffer)
    modifies out
    ensures out.groups == old(out.groups) + Groups(host, perCore, cpus)
  {
    ghost var groupsOf := c => GroupsOf(host, perCore, c);
    for i := 0 to |cpus|
      invariant out.groups == old(out.groups) + Flat(groupsOf, cpus[..i])
    {
      FlatSnoc(groupsOf, cpus, i);
      var entry := cpus[i];
      if entry.name != "cpu" && !perCore {
        continue;
      }
      PushModes(host, entry, out);
    }
    assert cpus[..|cpus|] == cpus;
  }

  function Read(host: KeyValue, perCore: bool, cpus: Option<seq<CpuTimes>>): Snapshot {
    match cpus case None => [] case Some(list) => Groups(host, perCore, list)
  }

  /** `collect_cpu_metrics`: nothing if the file cannot be read. */
  method CollectCpuMetrics(host: KeyValue, perCore: bool, cpus: Option<seq<CpuTimes>>, out: Buffer)
    modifies out
    ensures out.groups == old(out.groups) + Read(host, perCore, cpus)
  {
    if cpus.None? {
      return;
    }
    CollectCpuTimes(host, perCore, cpus.value, out);
  }
}
