/** Network interface metrics (crates/linux-metrics/src/net.rs). */
module NetMetrics {
  import opened Wrappers
  import opened Framework
  import opened Names
  import opened Samples
  import opened NetDev

  /** The filter: a set of interface names, or none. */
  datatype NetFilter = NetFilter(ifaces: Option<set<string>>) {
    predicate Keeps(name: string) {
      ifaces.Some? ==> name in ifaces.value
    }
  }

  function Attrs(host: KeyValue, name: string): seq<KeyValue> {
    [host, KeyValue("iface", Str(name))]
  }

  /** What each interface metric reports. */
  function NumberOf(stats: IfaceStats, m: Metric): Number {
    match m
    case IfaceRxBytesTotal => U64(stats.rxBytes)
    case IfaceRxPacketsTotal => U64(stats.rxPackets)
    case IfaceRxErrsTotal => U64(stats.rxErrs)
    case IfaceRxDropTotal => U64(stats.rxDrop)
    case IfaceTxBytesTotal => U64(stats.txBytes)
    case IfaceTxPacketsTotal => U64(stats.txPackets)
    case IfaceTxErrsTotal => U64(stats.txErrs)
    case IfaceTxDropTotal => U64(stats.txDrop)
    case _ => U64(0)
  }

  function Numbers(stats: IfaceStats): Metric -> Number {
    m => NumberOf(stats, m)
  }

  function Group(host: KeyValue, stats: IfaceStats): SampleGroup {
    SampleGroup(Attrs(host, stats.name), Values(RowsOf(Interfaces), Numbers(stats)))
  }

  function GroupsOf(host: KeyValue, filter: NetFilter, stats: IfaceStats): Snapshot {
    if filter.Keeps(stats.name) then [Group(host, stats)] else []
  }

  function Groups(host: KeyValue, filter: NetFilter, interfaces: seq<IfaceStats>): Snapshot {
    Flat(s => GroupsOf(host, filter, s), interfaces)
  }

  /** What is pushed first, in order. */
  ghost predicate Received(stats: IfaceStats, ms: seq<Metric>, f: Metric -> Number) {
    && |ms| == 8
    && IsAt(ms, 0, f, IfaceRxBytesTotal, U64(stats.rxBytes))
    && IsAt(ms, 1, f, IfaceRxPacketsTotal, U64(stats.rxPackets))
    && IsAt(ms, 2, f, IfaceRxErrsTotal, U64(stats.rxErrs))
    && IsAt(ms, 3, f, IfaceRxDropTotal, U64(stats.rxDrop))
  }

  /** Then the same of what is sent. */
  ghost predicate Sent(stats: IfaceStats, ms: seq<Metric>, f: Metric -> Number) {
    && |ms| == 8
    && IsAt(ms, 4, f, IfaceTxBytesTotal, U64(stats.txBytes))
    && IsAt(ms, 5, f, IfaceTxPacketsTotal, U64(stats.txPackets))
    && IsAt(ms, 6, f, IfaceTxErrsTotal, U64(stats.txErrs))
    && IsAt(ms, 7, f, IfaceTxDropTotal, U64(stats.txDrop))
  }

  method PushAll(group: SampleGroup, stats: IfaceStats, ghost ms: seq<Metric>, ghost f: Metric -> Number)
    returns (grown: SampleGroup)
    requires group.values == [] && Received(stats, ms, f) && Sent(stats, ms, f)
    ensures grown == SampleGroup(group.attrs, Values(ms, f))
  {
    NothingReported([], ms, f);
    grown := Push(group, [], ms, 0, 1, f, IfaceRxBytesTotal, U64(stats.rxBytes));
    grown := Push(grown, [], ms, 1, 2, f, IfaceRxPacketsTotal, U64(stats.rxPackets));
    grown := Push(grown, [], ms, 2, 3, f, IfaceRxErrsTotal, U64(stats.rxErrs));
    grown := Push(grown, [], ms, 3, 4, f, IfaceRxDropTotal, U64(stats.rxDrop));
    grown := Push(grown, [], ms, 4, 5, f, IfaceTxBytesTotal, U64(stats.txBytes));
    grown := Push(grown, [], ms, 5, 6, f, IfaceTxPacketsTotal, U64(stats.txPackets));
    grown := Push(grown, [], ms, 6, 7, f, IfaceTxErrsTotal, U64(stats.txErrs));
    grown := Push(grown, [], ms, 7, 8, f, IfaceTxDropTotal, U64(stats.txDrop));
    AllReported(grown.values, [], ms, 8, f);
  }

  lemma ReceivedInOrder(stats: IfaceStats)
    ensures Received(stats, RowsOf(Interfaces), Numbers(stats))
  {
  }

  lemma SentInOrder(stats: IfaceStats)
    ensures Sent(stats, RowsOf(Interfaces), Numbers(stats))
  {
  }

  method Fill(host: KeyValue, stats: IfaceStats) returns (group: SampleGroup)
    ensures group == Group(host, stats)
  {
    ReceivedInOrder(stats);
    SentInOrder(stats);
    group := SampleGroup([host, KeyValue("iface", Str(stats.name))], []);
    group := PushAll(group, stats, RowsOf(Interfaces), Numbers(stats));
  }

  /** `collect_net_devices`. */
  method CollectNetDevices(host: KeyValue, filter: NetFilter, interfaces: seq<IfaceStats>, out: Buffer)
    modifies out
    ensures out.groups == old(out.groups) + Groups(host, filter, interfaces)
  {
    ghost var groupsOf := s => GroupsOf(host, filter, s);
    for i := 0 to |interfaces|
      invariant out.groups == old(out.groups) + Flat(groupsOf, interfaces[..i])
    {
      FlatSnoc(groupsOf, interfaces, i);
      var stats := interfaces[i];
      if filter.ifaces.Some? && stats.name !in filter.ifaces.value {
        continue;
      }
      var group := Fill(host, stats);
      out.Push(group);
    }
    assert interfaces[..|interfaces|] == interfaces;
  }

  function Read(host: KeyValue, filter: NetFilter, interfaces: Option<seq<IfaceStats>>): Snapshot {
    match interfaces case None => [] case Some(list) => Groups(host, filter, list)
  }

  /** `collect_net_metrics`: nothing if the file cannot be read. */
  method CollectNetMetrics(host: KeyValue, filter: NetFilter, interfaces: Option<seq<IfaceStats>>, out: Buffer)
    modifies out
    ensures out.groups == old(out.groups) + Read(host, filter, interfaces)
  {
    if interfaces.None? {
      return;
    }
    CollectNetDevices(host, filter, interfaces.value, out);
  }
}
