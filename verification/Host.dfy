/** The host collector (crates/linux-metrics/src/host.rs). */
module Host {
  import opened Wrappers
  import opened Integers
  import opened Framework
  import opened Names
  import opened Samples
  import CpuStat
  import Descriptions
  import DiskStats
  import NetDev
  import MemInfoFile
  import CpuMetrics
  import DiskMetrics
  import NetMetrics
  import MemMetrics
  import ProcessMetrics

  datatype HostCollectorCfg = HostCollectorCfg(
    process: bool,
    processFilter: ProcessMetrics.ProcessFilter,
    net: bool,
    netFilter: NetMetrics.NetFilter,
    cpu: bool,
    perCore: bool,
    disk: bool,
    diskFilter: DiskMetrics.DiskFilter,
    mem: bool)

  datatype LoadAvg = LoadAvg(load1: real, load5: real, load15: real, running: u64, total: u64)

  /** What one pass over `/proc` yields: each file parsed, or not readable. */
  datatype ProcFs = ProcFs(
    uptime: Option<real>,
    loadavg: Option<LoadAvg>,
    cpus: Option<seq<CpuStat.CpuTimes>>,
    processes: Option<seq<ProcessMetrics.Process>>,
    interfaces: Option<seq<NetDev.IfaceStats>>,
    disks: Option<seq<DiskStats.DiskStat>>,
    mem: Option<MemInfoFile.MemInfo>)

  // ------------------------------------------------------------------ items

  /** A row of the table. */
  function Item(m: Metric): MetricItem {
    MetricItem(ItemType(FamilyOf(m)), Name(m), Kind(m), Descriptions.Unit(m), Descriptions.Description(m))
  }

  predicate Enabled(cfg: HostCollectorCfg, f: Family) {
    match f
    case Uptimes | Loadavgs => true
    case Cpus => cfg.cpu
    case Processes => cfg.process
    case Interfaces => cfg.net
    case Disks => cfg.disk
    case Memory => cfg.mem
  }

  /** What the kept ones of some rows stand for, in order. */
  function Chosen<T>(keep: Metric -> bool, item: Metric -> T, rows: seq<Metric>): seq<T> {
    if rows == [] then []
    else
      var last := rows[|rows| - 1];
      Chosen(keep, item, rows[..|rows| - 1]) + if keep(last) then [item(last)] else []
  }

  function Keep(cfg: HostCollectorCfg): Metric -> bool {
    m => Enabled(cfg, FamilyOf(m))
  }

  function ItemOf(): Metric -> MetricItem {
    m => Item(m)
  }

  /** The enabled ones among some rows of the table. */
  function EnabledItems(cfg: HostCollectorCfg, rows: seq<Metric>): seq<MetricItem> {
    Chosen(Keep(cfg), ItemOf(), rows)
  }

  lemma EnabledNext(cfg: HostCollectorCfg, rows: seq<Metric>, i: nat)
    requires i < |rows|
    ensures EnabledItems(cfg, rows[..i + 1])
         == EnabledItems(cfg, rows[..i]) + if Enabled(cfg, FamilyOf(rows[i])) then [Item(rows[i])] else []
  {
    assert rows[..i + 1][..i] == rows[..i];
  }

  // ------------------------------------------------------------------ the snapshot

  function LoadavgNumber(l: LoadAvg, m: Metric): Number {
    match m
    case Loadavg1m => F64(l.load1)
    case Loadavg5m => F64(l.load5)
    case Loadavg15m => F64(l.load15)
    case LoadavgRunningTasks => U64(l.running)
    case LoadavgTotalTasks => U64(l.total)
    case _ => U64(0)
  }

  function LoadavgNumbers(l: LoadAvg): Metric -> Number {
    m => LoadavgNumber(l, m)
  }

  function UptimeNumber(uptime: real): Metric -> Number {
    m => F64(uptime)
  }

  function UptimeGroups(host: KeyValue, uptime: Option<real>): Snapshot {
    match uptime
    case None => []
    case Some(u) => [SampleGroup([host], Values(RowsOf(Uptimes), UptimeNumber(u)))]
  }

  function LoadavgGroups(host: KeyValue, loadavg: Option<LoadAvg>): Snapshot {
    match loadavg
    case None => []
    case Some(l) => [SampleGroup([host], Values(RowsOf(Loadavgs), LoadavgNumbers(l)))]
  }

  /** The groups of one item type in the snapshot of one pass. */
  function Section(cfg: HostCollectorCfg, host: KeyValue, p: ProcFs, f: Family): Snapshot {
    if !Enabled(cfg, f) then []
    else
      match f
      case Uptimes => UptimeGroups(host, p.uptime)
      case Loadavgs => LoadavgGroups(host, p.loadavg)
      case Cpus => CpuMetrics.Read(host, cfg.perCore, p.cpus)
      case Processes => ProcessMetrics.Read(host, cfg.processFilter, p.processes)
      case Interfaces => NetMetrics.Read(host, cfg.netFilter, p.interfaces)
      case Disks => DiskMetrics.Read(host, cfg.diskFilter, p.disks)
      case Memory => MemMetrics.Read(host, p.mem)
  }

  function HostAndProcesses(cfg: HostCollectorCfg, host: KeyValue, p: ProcFs): Snapshot {
    Section(cfg, host, p, Uptimes) + Section(cfg, host, p, Loadavgs) + Section(cfg, host, p, Cpus)
    + Section(cfg, host, p, Processes)
  }

  function DevicesAndMemory(cfg: HostCollectorCfg, host: KeyValue, p: ProcFs): Snapshot {
    Section(cfg, host, p, Interfaces) + Section(cfg, host, p, Disks) + Section(cfg, host, p, Memory)
  }

  /** The snapshot of one pass. */
  function HostSnapshot(cfg: HostCollectorCfg, host: KeyValue, p: ProcFs): Snapshot {
    HostAndProcesses(cfg, host, p) + DevicesAndMemory(cfg, host, p)
  }

  // ------------------------------------------------------------------ the collector

  /** The uptime part of `collect`. */
  method CollectUptime(host: KeyValue, uptime: Option<real>, out: Buffer)
    modifies out
    ensures out.groups == old(out.groups) + UptimeGroups(host, uptime)
  {
    if uptime.Some? {
      var group := SampleGroup([host], []);
      ghost var ms, f := RowsOf(Uptimes), UptimeNumber(uptime.value);
      NothingReported([], ms, f);
      group := Push(group, [], ms, 0, 1, f, Uptime, F64(uptime.value));
      AllReported(group.values, [], ms, 1, f);
      out.Push(group);
    }
  }

  /** What is pushed of a loadavg file, in order. */
  ghost predicate LoadavgTable(l: LoadAvg, ms: seq<Metric>, f: Metric -> Number) {
    && |ms| == 5
    && IsAt(ms, 0, f, Loadavg1m, F64(l.load1))
    && IsAt(ms, 1, f, Loadavg5m, F64(l.load5))
    && IsAt(ms, 2, f, Loadavg15m, F64(l.load15))
    && IsAt(ms, 3, f, LoadavgRunningTasks, U64(l.running))
    && IsAt(ms, 4, f, LoadavgTotalTasks, U64(l.total))
  }

  method PushLoadavg(group: SampleGroup, l: LoadAvg, ghost ms: seq<Metric>, ghost f: Metric -> Number)
    returns (grown: SampleGroup)
    requires group.values == [] && LoadavgTable(l, ms, f)
    ensures grown == SampleGroup(group.attrs, Values(ms, f))
  {
    NothingReported([], ms, f);
    grown := Push(group, [], ms, 0, 1, f, Loadavg1m, F64(l.load1));
    grown := Push(grown, [], ms, 1, 2, f, Loadavg5m, F64(l.load5));
    grown := Push(grown, [], ms, 2, 3, f, Loadavg15m, F64(l.load15));
    grown := Push(grown, [], ms, 3, 4, f, LoadavgRunningTasks, U64(l.running));
    grown := Push(grown, [], ms, 4, 5, f, LoadavgTotalTasks, U64(l.total));
    AllReported(grown.values, [], ms, 5, f);
  }

  lemma LoadavgRowsInOrder(l: LoadAvg)
    ensures LoadavgTable(l, RowsOf(Loadavgs), LoadavgNumbers(l))
  {
  }

  method FillLoadavg(host: KeyValue, l: LoadAvg) returns (group: SampleGroup)
    ensures group == SampleGroup([host], Values(RowsOf(Loadavgs), LoadavgNumbers(l)))
  {
    LoadavgRowsInOrder(l);
    group := PushLoadavg(SampleGroup([host], []), l, RowsOf(Loadavgs), LoadavgNumbers(l));
  }

  /** `collect_loadavg_metrics`. */
  method CollectLoadavgMetrics(host: KeyValue, l: LoadAvg, out: Buffer)
    modifies out
    ensures out.groups == old(out.groups) + LoadavgGroups(host, Some(l))
  {
    var group := FillLoadavg(host, l);
    out.Push(group);
  }

  class HostCollector {
    const cfg: HostCollectorCfg
    const hostname: KeyValue

    constructor (cfg: HostCollectorCfg, hostname: string)
      ensures this.cfg == cfg && this.hostname == KeyValue("host", Str(hostname))
    {
      this.cfg := cfg;
      this.hostname := KeyValue("host", Str(hostname));
    }

    /** `items`. */
    method EnabledRows() returns (items: seq<MetricItem>)
      ensures items == EnabledItems(cfg, Items())
    {
      items := EnabledAmong(Items());
    }

    /** The loop of `items` over the rows of the table. */
    method EnabledAmong(rows: seq<Metric>) returns (items: seq<MetricItem>)
      ensures items == EnabledItems(cfg, rows)
    {
      items := [];
      for i := 0 to |rows|
        invariant items == EnabledItems(cfg, rows[..i])
      {
        var row := rows[i];
        EnabledNext(cfg, rows, i);
        match FamilyOf(row) {
          case Uptimes => items := items + [Item(row)];
          case Loadavgs => items := items + [Item(row)];
          case Cpus => if cfg.cpu { items := items + [Item(row)]; }
          case Processes => if cfg.process { items := items + [Item(row)]; }
          case Interfaces => if cfg.net { items := items + [Item(row)]; }
          case Disks => if cfg.disk { items := items + [Item(row)]; }
          case Memory => if cfg.mem { items := items + [Item(row)]; }
        }
      }
      assert rows[..|rows|] == rows;
    }

    /** The first half of `collect`: the host itself, its cpus and its processes. */
    method CollectHostAndProcesses(p: ProcFs, out: Buffer)
      modifies out
      ensures out.groups == old(out.groups) + HostAndProcesses(cfg, hostname, p)
    {
      ghost var before := out.groups;
      CollectUptime(hostname, p.uptime, out);
      ghost var sofar := Section(cfg, hostname, p, Uptimes);
      if p.loadavg.Some? {
        CollectLoadavgMetrics(hostname, p.loadavg.value, out);
      }
      Appended(before, sofar, Section(cfg, hostname, p, Loadavgs), out.groups);
      sofar := sofar + Section(cfg, hostname, p, Loadavgs);
      if cfg.cpu {
        CpuMetrics.CollectCpuMetrics(hostname, cfg.perCore, p.cpus, out);
      }
      Appended(before, sofar, Section(cfg, hostname, p, Cpus), out.groups);
      sofar := sofar + Section(cfg, hostname, p, Cpus);
      if cfg.process {
        ProcessMetrics.CollectProcessMetrics(hostname, cfg.processFilter, p.processes, out);
      }
      Appended(before, sofar, Section(cfg, hostname, p, Processes), out.groups);
    }

    /** The second half of `collect`: devices and memory. */
    method CollectDevicesAndMemory(p: ProcFs, out: Buffer)
      modifies out
      ensures out.groups == old(out.groups) + DevicesAndMemory(cfg, hostname, p)
    {
      ghost var before := out.groups;
      if cfg.net {
        NetMetrics.CollectNetMetrics(hostname, cfg.netFilter, p.interfaces, out);
      }
      ghost var sofar := Section(cfg, hostname, p, Interfaces);
      assert out.groups == before + sofar;
      if cfg.disk {
        DiskMetrics.CollectDiskMetrics(hostname, cfg.diskFilter, p.disks, out);
      }
      Appended(before, sofar, Section(cfg, hostname, p, Disks), out.groups);
      sofar := sofar + Section(cfg, hostname, p, Disks);
      if cfg.mem {
        MemMetrics.CollectMemMetrics(hostname, p.mem, out);
      }
      Appended(before, sofar, Section(cfg, hostname, p, Memory), out.groups);
    }

    /** `collect`: each enabled source that can be read appends its groups. */
    method Collect(p: ProcFs, out: Buffer)
      modifies out
      ensures out.groups == old(out.groups) + HostSnapshot(cfg, hostname, p)
    {
      ghost var before := out.groups;
      CollectHostAndProcesses(p, out);
      CollectDevicesAndMemory(p, out);
      Appended(
        before, HostAndProcesses(cfg, hostname, p), DevicesAndMemory(cfg, hostname, p), out.groups);
    }
  }
}
