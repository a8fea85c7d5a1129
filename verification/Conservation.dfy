/** Nothing the host collector samples is lost on the way out, and nothing is exported twice. */
module Conservation {
  import opened Wrappers
  import opened Framework
  import opened Names
  import opened Samples
  import opened Host
  import CpuStat
  import DiskStats
  import NetDev
  import MemInfoFile
  import CpuMetrics
  import DiskMetrics
  import NetMetrics
  import MemMetrics
  import ProcessMetrics
  import StatFile
  import StatusFile

  // ------------------------------------------------------------------ the table

  lemma NoRepeatConcat(a: seq<Metric>, b: seq<Metric>)
    requires NoRepeat(a) && NoRepeat(b) && forall m <- a :: m !in b
    ensures NoRepeat(a + b)
  {
    forall i, j | 0 <= i < j < |a + b|
      ensures (a + b)[i] != (a + b)[j]
    {
      if i < |a| <= j {
        assert a[i] in a && b[j - |a|] in b;
      }
    }
  }

  /** The names of the table are pairwise distinct, whatever part of it is enabled. */
  lemma TableHasDistinctNames(cfg: HostCollectorCfg)
    ensures DistinctNames(EnabledItems(cfg, Items()))
  {
    TableHasNoRepeats();
    EnabledAreDistinct(cfg, Items());
  }

  lemma TableHasNoRepeats()
    ensures NoRepeat(Items())
  {
    FamilyBlock([], Uptimes, {});
    assert [] + RowsOf(Uptimes) == RowsOf(Uptimes);
    FamilyBlock(RowsOf(Uptimes), Loadavgs, {Uptimes});
    var a := RowsOf(Uptimes) + RowsOf(Loadavgs);
    FamilyBlock(a, Cpus, {Uptimes, Loadavgs});
    var b := a + RowsOf(Cpus);
    FamilyBlock(b, Processes, {Uptimes, Loadavgs, Cpus});
    var c := b + RowsOf(Processes);
    FamilyBlock(c, Interfaces, {Uptimes, Loadavgs, Cpus, Processes});
    var d := c + RowsOf(Interfaces);
    FamilyBlock(d, Disks, {Uptimes, Loadavgs, Cpus, Processes, Interfaces});
    FamilyBlock(d + RowsOf(Disks), Memory, {Uptimes, Loadavgs, Cpus, Processes, Interfaces, Disks});
  }

  lemma FamilyBlock(before: seq<Metric>, f: Family, families: set<Family>)
    requires NoRepeat(before) && (forall m <- before :: FamilyOf(m) in families) && f !in families
    ensures NoRepeat(before + RowsOf(f))
    ensures forall m <- before + RowsOf(f) :: FamilyOf(m) in families + {f}
  {
    RowsNoRepeat(f);
    NoRepeatConcat(before, RowsOf(f));
  }

  lemma {:induction false} EnabledAreDistinct(cfg: HostCollectorCfg, rows: seq<Metric>)
    requires NoRepeat(rows)
    ensures DistinctNames(EnabledItems(cfg, rows))
  {
    if rows != [] {
      var front, last := rows[..|rows| - 1], rows[|rows| - 1];
      EnabledAreDistinct(cfg, front);
      forall item | item in EnabledItems(cfg, front)
        ensures item.name != Name(last)
      {
        var m := ChosenComesFrom(Keep(cfg), ItemOf(), front, item);
        NamesAreDistinct(m, last);
      }
    }
  }

  lemma {:induction false} ChosenComesFrom<T>(keep: Metric -> bool, item: Metric -> T, rows: seq<Metric>, x: T)
    returns (m: Metric)
    requires x in Chosen(keep, item, rows)
    ensures m in rows && x == item(m)
  {
    var front, last := rows[..|rows| - 1], rows[|rows| - 1];
    if x in Chosen(keep, item, front) {
      m := ChosenComesFrom(keep, item, front, x);
    } else {
      m := last;
    }
  }

  lemma {:induction false} ChosenHas<T>(keep: Metric -> bool, item: Metric -> T, rows: seq<Metric>, m: Metric)
    requires m in rows && keep(m)
    ensures item(m) in Chosen(keep, item, rows)
  {
    var front, last := rows[..|rows| - 1], rows[|rows| - 1];
    assert rows == front + [last];
    if m != last {
      ChosenHas(keep, item, front, m);
    }
  }

  lemma InTable(m: Metric)
    ensures m in Items()
  {
    RowsAreComplete(m);
    assert m in RowsOf(FamilyOf(m));
  }

  // ------------------------------------------------------------------ kinds agree with the table

  lemma DiskTypes(stat: DiskStats.DiskStat, m: Metric)
    requires FamilyOf(m) == Disks
    ensures TypeOf(DiskMetrics.NumberOf(stat, m)) == RowType(m)
  {
  }

  lemma NetTypes(stats: NetDev.IfaceStats, m: Metric)
    requires FamilyOf(m) == Interfaces
    ensures TypeOf(NetMetrics.NumberOf(stats, m)) == RowType(m)
  {
  }

  lemma MemTypes(mem: MemInfoFile.MemInfo, m: Metric)
    requires FamilyOf(m) == Memory
    ensures TypeOf(MemMetrics.NumberOf(mem, m)) == RowType(m)
  {
  }

  lemma LoadavgTypes(l: LoadAvg, m: Metric)
    requires FamilyOf(m) == Loadavgs
    ensures TypeOf(LoadavgNumber(l, m)) == RowType(m)
  {
  }

  lemma IoTypes(io: ProcessMetrics.Io, m: Metric)
    requires m in ProcessMetrics.IO_METRICS
    ensures FamilyOf(m) == Processes && TypeOf(ProcessMetrics.IoNumber(io, m)) == RowType(m)
  {
  }

  lemma StatusTypes(s: StatusFile.Status, m: Metric)
    requires m in ProcessMetrics.STATUS_METRICS
    ensures FamilyOf(m) == Processes && TypeOf(ProcessMetrics.StatusNumber(s, m)) == RowType(m)
  {
  }

  lemma TimeTypes(t: StatFile.Stat, m: Metric)
    requires m in ProcessMetrics.TIME_METRICS
    ensures FamilyOf(m) == Processes && TypeOf(ProcessMetrics.TimeNumber(t, m)) == RowType(m)
  {
  }

  lemma ProcessTypes(p: ProcessMetrics.Process, m: Metric)
    requires m in ProcessMetrics.MetricsOf(p)
    ensures FamilyOf(m) == Processes && TypeOf(ProcessMetrics.NumberOf(p, m)) == RowType(m)
  {
    if m in ProcessMetrics.IO_METRICS && p.io.Some? {
      IoTypes(p.io.value, m);
    } else if m in ProcessMetrics.STATUS_METRICS && p.status.Some? {
      StatusTypes(p.status.value, m);
    } else {
      TimeTypes(p.stat.value, m);
    }
  }

  // ------------------------------------------------------------------ every section is in the table

  lemma RowsOfFamily(f: Family, m: Metric)
    requires m in RowsOf(f)
    ensures FamilyOf(m) == f
  {
    RowsNoRepeat(f);
  }

  lemma DiskSection(host: KeyValue, filter: DiskMetrics.DiskFilter, disks: seq<DiskStats.DiskStat>)
    ensures Registered(Disks, DiskMetrics.Groups(host, filter, disks))
  {
    forall d | d in disks
      ensures Registered(Disks, DiskMetrics.GroupsOf(host, filter, d))
    {
      forall m | m in RowsOf(Disks)
        ensures FamilyOf(m) == Disks && TypeOf(DiskMetrics.Numbers(d)(m)) == RowType(m)
      {
        RowsOfFamily(Disks, m);
        DiskTypes(d, m);
      }
      ValuesRegistered(Disks, DiskMetrics.Attrs(host, d.name), RowsOf(Disks), DiskMetrics.Numbers(d));
    }
    FlatRegistered(Disks, d => DiskMetrics.GroupsOf(host, filter, d), disks);
  }

  lemma NetSection(host: KeyValue, filter: NetMetrics.NetFilter, interfaces: seq<NetDev.IfaceStats>)
    ensures Registered(Interfaces, NetMetrics.Groups(host, filter, interfaces))
  {
    forall s | s in interfaces
      ensures Registered(Interfaces, NetMetrics.GroupsOf(host, filter, s))
    {
      forall m | m in RowsOf(Interfaces)
        ensures FamilyOf(m) == Interfaces && TypeOf(NetMetrics.Numbers(s)(m)) == RowType(m)
      {
        RowsOfFamily(Interfaces, m);
        NetTypes(s, m);
      }
      ValuesRegistered(Interfaces, NetMetrics.Attrs(host, s.name), RowsOf(Interfaces), NetMetrics.Numbers(s));
    }
    FlatRegistered(Interfaces, s => NetMetrics.GroupsOf(host, filter, s), interfaces);
  }

  lemma CpuSection(host: KeyValue, perCore: bool, cpus: seq<CpuStat.CpuTimes>)
    ensures Registered(Cpus, CpuMetrics.Groups(host, perCore, cpus))
  {
    forall c | c in cpus
      ensures Registered(Cpus, CpuMetrics.GroupsOf(host, perCore, c))
    {
      forall k | 0 <= k < |CpuMetrics.MODES|
        ensures Registered(Cpus, [CpuMetrics.ModeGroup(host, c, k)])
      {
        ValuesRegistered(
          Cpus, CpuMetrics.Attrs(host, c.name, CpuMetrics.MODES[k]), [CpuSecondsTotal],
          CpuMetrics.ModeNumber(CpuMetrics.TicksOf(c)[k]));
      }
      forall g | g in CpuMetrics.GroupsOf(host, perCore, c)
        ensures Registered(Cpus, [g])
      {
        var k :| 0 <= k < |CpuMetrics.MODES| && g == CpuMetrics.ModeGroup(host, c, k);
      }
      RegisteredOneByOne(Cpus, CpuMetrics.GroupsOf(host, perCore, c));
    }
    FlatRegistered(Cpus, c => CpuMetrics.GroupsOf(host, perCore, c), cpus);
  }

  lemma RegisteredOneByOne(f: Family, snapshot: Snapshot)
    requires forall g <- snapshot :: Registered(f, [g])
    ensures Registered(f, snapshot)
  {
    forall g, v | g in snapshot && v in g.values
      ensures OfRow(f, v)
    {
      assert Registered(f, [g]) && g in [g];
    }
  }

  lemma ProcessRow(host: KeyValue, filter: ProcessMetrics.ProcessFilter, p: ProcessMetrics.Process, thread: bool)
    ensures Registered(Processes, ProcessMetrics.Row(host, filter, p, thread))
  {
    forall m | m in ProcessMetrics.MetricsOf(p)
      ensures FamilyOf(m) == Processes && TypeOf(ProcessMetrics.Numbers(p)(m)) == RowType(m)
    {
      ProcessTypes(p, m);
    }
    if filter.Admits(p) {
      ValuesRegistered(
        Processes, ProcessMetrics.Attrs(host, p, thread), ProcessMetrics.MetricsOf(p), ProcessMetrics.Numbers(p));
    }
  }

  lemma TaskSection(host: KeyValue, filter: ProcessMetrics.ProcessFilter, tasks: seq<ProcessMetrics.Process>)
    ensures Registered(Processes, Flat(t => ProcessMetrics.Row(host, filter, t, true), tasks))
  {
    forall t | t in tasks
      ensures Registered(Processes, ProcessMetrics.Row(host, filter, t, true))
    {
      ProcessRow(host, filter, t, true);
    }
    FlatRegistered(Processes, t => ProcessMetrics.Row(host, filter, t, true), tasks);
  }

  lemma ProcessSection(host: KeyValue, filter: ProcessMetrics.ProcessFilter, processes: seq<ProcessMetrics.Process>)
    ensures Registered(Processes, ProcessMetrics.Rows(host, filter, processes, false))
  {
    forall p | p in processes
      ensures Registered(Processes, ProcessMetrics.RowsOf(host, filter, false, p))
    {
      ProcessRow(host, filter, p, false);
      if p.taskDir.Some? {
        TaskSection(host, filter, ProcessMetrics.WithoutLeader(p.pid, p.taskDir.value));
      }
    }
    FlatRegistered(Processes, p => ProcessMetrics.RowsOf(host, filter, false, p), processes);
  }

  lemma MemSection(host: KeyValue, mem: MemInfoFile.MemInfo)
    ensures Registered(Memory, [MemMetrics.Group(host, mem)])
  {
    forall m | m in RowsOf(Memory)
      ensures FamilyOf(m) == Memory && TypeOf(MemMetrics.Numbers(mem)(m)) == RowType(m)
    {
      RowsOfFamily(Memory, m);
      MemTypes(mem, m);
    }
    ValuesRegistered(Memory, [host], RowsOf(Memory), MemMetrics.Numbers(mem));
  }

  lemma LoadavgSection(host: KeyValue, l: LoadAvg)
    ensures Registered(Loadavgs, LoadavgGroups(host, Some(l)))
  {
    forall m | m in RowsOf(Loadavgs)
      ensures FamilyOf(m) == Loadavgs && TypeOf(LoadavgNumbers(l)(m)) == RowType(m)
    {
      RowsOfFamily(Loadavgs, m);
      LoadavgTypes(l, m);
    }
    ValuesRegistered(Loadavgs, [host], RowsOf(Loadavgs), LoadavgNumbers(l));
  }

  lemma UptimeSection(host: KeyValue, uptime: real)
    ensures Registered(Uptimes, UptimeGroups(host, Some(uptime)))
  {
    ValuesRegistered(Uptimes, [host], RowsOf(Uptimes), UptimeNumber(uptime));
  }

  /** Each section pushes only metrics of its own item type, with the number type they are registered for. */
  lemma SectionRegistered(cfg: HostCollectorCfg, host: KeyValue, p: ProcFs, f: Family)
    ensures Registered(f, Section(cfg, host, p, f))
  {
    match f {
      case Uptimes => if p.uptime.Some? { UptimeSection(host, p.uptime.value); }
      case Loadavgs => if p.loadavg.Some? { LoadavgSection(host, p.loadavg.value); }
      case Cpus => if p.cpus.Some? { CpuSection(host, cfg.perCore, p.cpus.value); }
      case Processes => if p.processes.Some? { ProcessSection(host, cfg.processFilter, p.processes.value); }
      case Interfaces => if p.interfaces.Some? { NetSection(host, cfg.netFilter, p.interfaces.value); }
      case Disks => if p.disks.Some? { DiskSection(host, cfg.diskFilter, p.disks.value); }
      case Memory => if p.mem.Some? { MemSection(host, p.mem.value); }
    }
  }

  // ------------------------------------------------------------------ conservation

  lemma {:induction false} InAll(snapshot: Snapshot, o: Observation) returns (g: SampleGroup, v: SampleValue)
    requires o in All(snapshot)
    ensures g in snapshot && v in g.values && o == Observation(v.name, v.value, g.attrs)
  {
    var front, last := snapshot[..|snapshot| - 1], snapshot[|snapshot| - 1];
    if o in All(front) {
      g, v := InAll(front, o);
    } else {
      var k :| 0 <= k < |last.values| && o == OfGroup(last.attrs, last.values)[k];
      g, v := last, last.values[k];
    }
  }

  /** A value of an enabled section has an instrument among the enabled items. */
  lemma SectionHasInstruments(cfg: HostCollectorCfg, host: KeyValue, p: ProcFs, f: Family, o: Observation)
    requires o in All(Section(cfg, host, p, f))
    ensures HasInstrument(EnabledItems(cfg, Items()), o)
  {
    SectionRegistered(cfg, host, p, f);
    var g, v := InAll(Section(cfg, host, p, f), o);
    assert OfRow(f, v);
    var m: Metric :| FamilyOf(m) == f && v.name == Name(m) && TypeOf(v.value) == RowType(m);
    InTable(m);
    assert Enabled(cfg, f);
    ChosenHas(Keep(cfg), ItemOf(), Items(), m);
    assert IsFor(o, Item(m).name, ValueType(Item(m).kind));
  }

  /** What there is to observe, section by section. */
  lemma AllOfHost(cfg: HostCollectorCfg, host: KeyValue, p: ProcFs)
    ensures All(HostSnapshot(cfg, host, p))
         == All(Section(cfg, host, p, Uptimes)) + All(Section(cfg, host, p, Loadavgs))
            + All(Section(cfg, host, p, Cpus)) + All(Section(cfg, host, p, Processes))
            + All(Section(cfg, host, p, Interfaces)) + All(Section(cfg, host, p, Disks))
            + All(Section(cfg, host, p, Memory))
  {
    var u, l, c := Section(cfg, host, p, Uptimes), Section(cfg, host, p, Loadavgs), Section(cfg, host, p, Cpus);
    var i, d := Section(cfg, host, p, Interfaces), Section(cfg, host, p, Disks);
    AllOfThree(u, l, c);
    AllConcat(u + l + c, Section(cfg, host, p, Processes));
    AllOfThree(i, d, Section(cfg, host, p, Memory));
    AllConcat(HostAndProcesses(cfg, host, p), DevicesAndMemory(cfg, host, p));
    Regrouped(All(HostAndProcesses(cfg, host, p)), All(i), All(d), All(Section(cfg, host, p, Memory)));
  }

  lemma AllOfThree(a: Snapshot, b: Snapshot, c: Snapshot)
    ensures All(a + b + c) == All(a) + All(b) + All(c)
  {
    AllConcat(a, b);
    AllConcat(a + b, c);
  }

  lemma Regrouped(x: seq<Observation>, a: seq<Observation>, b: seq<Observation>, c: seq<Observation>)
    ensures x + (a + b + c) == x + a + b + c
  {
  }

  lemma SectionOf(cfg: HostCollectorCfg, host: KeyValue, p: ProcFs, o: Observation) returns (f: Family)
    requires o in All(HostSnapshot(cfg, host, p))
    ensures o in All(Section(cfg, host, p, f))
  {
    AllOfHost(cfg, host, p);
    f :| o in All(Section(cfg, host, p, f));
  }

  /**
   For every configuration and every content of `/proc`: one export over a snapshot of the host collector
   reports exactly the values of the snapshot with their attributes, each of them once.
   */
  lemma HostExportConserves(cfg: HostCollectorCfg, host: KeyValue, p: ProcFs)
    ensures var all := All(HostSnapshot(cfg, host, p));
            multiset(Exported(EnabledItems(cfg, Items()), all)) == multiset(all)
  {
    var all := All(HostSnapshot(cfg, host, p));
    TableHasDistinctNames(cfg);
    forall o | o in all
      ensures HasInstrument(EnabledItems(cfg, Items()), o)
    {
      var f := SectionOf(cfg, host, p, o);
      SectionHasInstruments(cfg, host, p, f, o);
    }
    ExportConserves(EnabledItems(cfg, Items()), all);
  }

  /** One tick of the host collector into a cache, as `sample_once` does it. */
  method SampleHost(collector: HostCollector, p: ProcFs, cache: Buffer)
    modifies cache
    ensures cache.groups == HostSnapshot(collector.cfg, collector.hostname, p)
  {
    var scratch := new Buffer();
    collector.Collect(p, scratch);
    assert scratch.groups == [] + HostSnapshot(collector.cfg, collector.hostname, p);
    cache.groups, scratch.groups := scratch.groups, cache.groups;
  }

  /** Registration and one tick, whatever else the registry and the meter have. */
  method RegisterAndSample(collector: HostCollector, p: ProcFs, registry: Registry, meter: Meter, thread: nat)
    requires registry.Valid()
    modifies registry, meter
    ensures Told(meter.instruments)
         == old(Told(meter.instruments))
            + Exported(
                EnabledItems(collector.cfg, Items()), All(HostSnapshot(collector.cfg, collector.hostname, p)))
  {
    ghost var others := meter.instruments;
    var items := collector.EnabledRows();
    var ok, cache := registry.Add(items, meter, Some(thread));
    SampleHost(collector, p, cache);
    ToldIsFramed(others);
    ToldConcat(others, Registrations(items, cache));
    ToldOfItems(items, cache);
  }

  /**
   Registration, one tick and one export, end to end: after what the other instruments of the meter report,
   each value of the snapshot exactly once.
   */
  method RegisterSampleExport(collector: HostCollector, p: ProcFs, registry: Registry, meter: Meter, thread: nat)
    returns (inst: Instrument)
    requires registry.Valid()
    modifies registry, meter
    ensures old(Told(meter.instruments)) <= inst.observed
    ensures multiset(inst.observed[|old(Told(meter.instruments))|..])
         == multiset(All(HostSnapshot(collector.cfg, collector.hostname, p)))
  {
    ghost var before := Told(meter.instruments);
    ghost var all := All(HostSnapshot(collector.cfg, collector.hostname, p));
    ghost var own := Exported(EnabledItems(collector.cfg, Items()), all);
    inst := new Instrument();
    assert Told(meter.instruments) == before by {
      ToldIsFramed(meter.instruments);
    }
    RegisterAndSample(collector, p, registry, meter, thread);
    meter.Export(inst);
    assert inst.observed == [] + (before + own) == before + own;
    SuffixOf(before, own);
    HostExportConserves(collector.cfg, collector.hostname, p);
  }

  lemma SuffixOf(a: seq<Observation>, b: seq<Observation>)
    ensures a <= a + b && (a + b)[|a|..] == b
  {
  }
}
