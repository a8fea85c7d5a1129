/** What the switches of the configuration do, in terms of names and attributes (crates/linux-metrics/src/host.rs). */
module Switches {
  import opened Framework
  import opened Names
  import opened NameScheme
  import opened Samples
  import opened Host
  import Conservation
  import CpuMetrics
  import DiskMetrics
  import NetMetrics
  import ProcessMetrics

  datatype Switch = Net | Disk | Cpu | Process | Mem

  function With(cfg: HostCollectorCfg, switch: Switch, on: bool): HostCollectorCfg {
    match switch
    case Net => cfg.(net := on)
    case Disk => cfg.(disk := on)
    case Cpu => cfg.(cpu := on)
    case Process => cfg.(process := on)
    case Mem => cfg.(mem := on)
  }

  predicate IsOn(cfg: HostCollectorCfg, switch: Switch) {
    match switch
    case Net => cfg.net
    case Disk => cfg.disk
    case Cpu => cfg.cpu
    case Process => cfg.process
    case Mem => cfg.mem
  }

  /** The names a switch is for. */
  predicate Covers(switch: Switch, name: string) {
    match switch
    case Net => "iface_" <= name
    case Disk => "disk_" <= name
    case Cpu => "cpu_" <= name
    case Process => "process_" <= name
    case Mem => "mem_" <= name || "swap_" <= name || "huge_pages_" <= name
  }

  /** No switch that is for this name is off. */
  predicate Wanted(cfg: HostCollectorCfg, name: string) {
    forall switch: Switch :: Covers(switch, name) ==> IsOn(cfg, switch)
  }

  function FamilyOfSwitch(switch: Switch): Family {
    match switch
    case Net => Interfaces
    case Disk => Disks
    case Cpu => Cpus
    case Process => Processes
    case Mem => Memory
  }

  lemma CoversIff(switch: Switch, m: Metric)
    ensures Covers(switch, Name(m)) <==> FamilyOf(m) == FamilyOfSwitch(switch)
  {
    PrefixTellsFamily(m, FamilyOfSwitch(switch));
  }

  lemma SwitchIsEnabled(cfg: HostCollectorCfg, switch: Switch)
    ensures IsOn(cfg, switch) == Enabled(cfg, FamilyOfSwitch(switch))
  {
  }

  /** A metric is collected if and only if no switch that is for its name is off. */
  lemma WantedIff(cfg: HostCollectorCfg, m: Metric)
    ensures Wanted(cfg, Name(m)) <==> Enabled(cfg, FamilyOf(m))
  {
    forall switch: Switch
      ensures Covers(switch, Name(m)) <==> FamilyOf(m) == FamilyOfSwitch(switch)
      ensures IsOn(cfg, switch) == Enabled(cfg, FamilyOfSwitch(switch))
    {
      CoversIff(switch, m);
      SwitchIsEnabled(cfg, switch);
    }
    match FamilyOf(m) {
      case Interfaces => assert Covers(Net, Name(m));
      case Disks => assert Covers(Disk, Name(m));
      case Cpus => assert Covers(Cpu, Name(m));
      case Processes => assert Covers(Process, Name(m));
      case Memory => assert Covers(Mem, Name(m));
      case Uptimes | Loadavgs =>
    }
  }

  // ------------------------------------------------------------------ items

  /** The items a switch is not for. */
  function ItemsWithout(switch: Switch, items: seq<MetricItem>): seq<MetricItem> {
    if items == [] then []
    else
      var last := items[|items| - 1];
      ItemsWithout(switch, items[..|items| - 1]) + if Covers(switch, last.name) then [] else [last]
  }

  lemma ItemsWithoutSnoc(switch: Switch, items: seq<MetricItem>, last: MetricItem)
    ensures ItemsWithout(switch, items + [last])
         == ItemsWithout(switch, items) + if Covers(switch, last.name) then [] else [last]
  {
    assert (items + [last])[..|items|] == items;
  }

  lemma SwitchTakesRow(cfg: HostCollectorCfg, switch: Switch, m: Metric)
    ensures Enabled(With(cfg, switch, false), FamilyOf(m))
        <==> Enabled(With(cfg, switch, true), FamilyOf(m)) && !Covers(switch, Name(m))
  {
    CoversIff(switch, m);
  }

  lemma {:induction false} SwitchTakesAmong(
    switch: Switch, on: Metric -> bool, off: Metric -> bool, rows: seq<Metric>)
    requires forall m: Metric :: off(m) <==> on(m) && !Covers(switch, Name(m))
    ensures Chosen(off, ItemOf(), rows) == ItemsWithout(switch, Chosen(on, ItemOf(), rows))
  {
    if rows != [] {
      var front, last := rows[..|rows| - 1], rows[|rows| - 1];
      SwitchTakesAmong(switch, on, off, front);
      if on(last) {
        ItemsWithoutSnoc(switch, Chosen(on, ItemOf(), front), ItemOf()(last));
      } else {
        assert Chosen(on, ItemOf(), rows) == Chosen(on, ItemOf(), front);
      }
    }
  }

  /**
   Whatever the other switches: turning one off takes from the items exactly those whose names it is for, such
   as `net` those that begin with `iface_`.
   */
  lemma SwitchTakesItems(cfg: HostCollectorCfg, switch: Switch)
    ensures EnabledItems(With(cfg, switch, false), Items())
         == ItemsWithout(switch, EnabledItems(With(cfg, switch, true), Items()))
  {
    var on, off := Keep(With(cfg, switch, true)), Keep(With(cfg, switch, false));
    forall m: Metric
      ensures off(m) <==> on(m) && !Covers(switch, Name(m))
    {
      SwitchTakesRow(cfg, switch, m);
    }
    SwitchTakesAmong(switch, on, off, Items());
  }

  lemma {:induction false} AllAmong(keep: Metric -> bool, rows: seq<Metric>)
    requires forall m: Metric :: keep(m)
    ensures Chosen(keep, ItemOf(), rows) == Mapped(rows, ItemOf())
  {
    if rows != [] {
      var front, last := rows[..|rows| - 1], rows[|rows| - 1];
      assert rows == front + [last];
      AllAmong(keep, front);
      MappedConcat(front, [last], ItemOf());
    }
  }

  /** With every switch on the items are the whole table. */
  lemma AllOnIsWholeTable(cfg: HostCollectorCfg)
    requires forall switch: Switch :: IsOn(cfg, switch)
    ensures EnabledItems(cfg, Items()) == Mapped(Items(), ItemOf())
  {
    forall m: Metric
      ensures Keep(cfg)(m)
    {
      WantedIff(cfg, m);
    }
    AllAmong(Keep(cfg), Items());
  }

  // ------------------------------------------------------------------ groups

  predicate HasKey(g: SampleGroup, key: string) {
    exists kv <- g.attrs :: kv.key == key
  }

  /** The groups a switch is for, by an attribute only they have; those of memory, by their values. */
  predicate CoversGroup(switch: Switch, g: SampleGroup) {
    match switch
    case Net => HasKey(g, "iface")
    case Disk => HasKey(g, "device")
    case Cpu => HasKey(g, "mode")
    case Process => HasKey(g, "pid")
    case Mem => exists v <- g.values :: Covers(Mem, v.name)
  }

  /** The groups a switch is not for. */
  function GroupsWithout(switch: Switch, groups: Snapshot): Snapshot {
    if groups == [] then []
    else
      var last := groups[|groups| - 1];
      GroupsWithout(switch, groups[..|groups| - 1]) + if CoversGroup(switch, last) then [] else [last]
  }

  lemma {:induction false} GroupsWithoutConcat(switch: Switch, a: Snapshot, b: Snapshot)
    ensures GroupsWithout(switch, a + b) == GroupsWithout(switch, a) + GroupsWithout(switch, b)
  {
    if b == [] {
      assert a + b == a;
    } else {
      assert (a + b)[..|a + b| - 1] == a + b[..|b| - 1];
      GroupsWithoutConcat(switch, a, b[..|b| - 1]);
    }
  }

  lemma {:induction false} AllOrNothing(switch: Switch, groups: Snapshot)
    ensures (forall g <- groups :: CoversGroup(switch, g)) ==> GroupsWithout(switch, groups) == []
    ensures (forall g <- groups :: !CoversGroup(switch, g)) ==> GroupsWithout(switch, groups) == groups
  {
    if groups != [] {
      AllOrNothing(switch, groups[..|groups| - 1]);
      assert groups == groups[..|groups| - 1] + [groups[|groups| - 1]];
    }
  }

  /** The keys of the attributes in the groups of each item type. */
  function KeysOf(f: Family): seq<string> {
    match f
    case Uptimes | Loadavgs | Memory => ["host"]
    case Cpus => ["host", "cpu", "mode"]
    case Processes => ["host", "pid", "comm", "thread"]
    case Interfaces => ["host", "iface"]
    case Disks => ["host", "device"]
  }

  predicate HasKeys(g: SampleGroup, keys: seq<string>) {
    |g.attrs| == |keys| && forall i :: 0 <= i < |keys| ==> g.attrs[i].key == keys[i]
  }

  ghost predicate AllHaveKeys(groups: Snapshot, keys: seq<string>) {
    forall g <- groups :: HasKeys(g, keys)
  }

  lemma {:induction false} FlatHasKeys<T>(groupsOf: T -> Snapshot, records: seq<T>, keys: seq<string>)
    requires forall r <- records :: AllHaveKeys(groupsOf(r), keys)
    ensures AllHaveKeys(Flat(groupsOf, records), keys)
  {
    if records != [] {
      FlatHasKeys(groupsOf, records[..|records| - 1], keys);
      assert records[|records| - 1] in records;
    }
  }

  lemma RowHasKeys(host: KeyValue, filter: ProcessMetrics.ProcessFilter, p: ProcessMetrics.Process, thread: bool)
    requires host.key == "host"
    ensures AllHaveKeys(ProcessMetrics.Row(host, filter, p, thread), KeysOf(Processes))
  {
  }

  lemma RowsOfEachHaveKeys(host: KeyValue, filter: ProcessMetrics.ProcessFilter, p: ProcessMetrics.Process)
    requires host.key == "host"
    ensures AllHaveKeys(ProcessMetrics.ProcessRows(host, filter, p), KeysOf(Processes))
  {
    RowHasKeys(host, filter, p, false);
    if filter.thread && filter.Admits(p) && p.taskDir.Some? {
      var tasks := ProcessMetrics.WithoutLeader(p.pid, p.taskDir.value);
      forall t | t in tasks
        ensures AllHaveKeys(ProcessMetrics.TaskRow(host, filter)(t), KeysOf(Processes))
      {
        RowHasKeys(host, filter, t, true);
      }
      FlatHasKeys(ProcessMetrics.TaskRow(host, filter), tasks, KeysOf(Processes));
    }
  }

  lemma ProcessesHaveKeys(cfg: HostCollectorCfg, host: KeyValue, p: ProcFs)
    requires host.key == "host"
    ensures AllHaveKeys(Section(cfg, host, p, Processes), KeysOf(Processes))
  {
    if cfg.process && p.processes.Some? {
      var rowsOf := ProcessMetrics.RowsOfEach(host, cfg.processFilter, false);
      forall q | q in p.processes.value
        ensures AllHaveKeys(rowsOf(q), KeysOf(Processes))
      {
        RowsOfEachHaveKeys(host, cfg.processFilter, q);
      }
      FlatHasKeys(rowsOf, p.processes.value, KeysOf(Processes));
    }
  }

  lemma CpusHaveKeys(cfg: HostCollectorCfg, host: KeyValue, p: ProcFs)
    requires host.key == "host"
    ensures AllHaveKeys(Section(cfg, host, p, Cpus), KeysOf(Cpus))
  {
    if cfg.cpu && p.cpus.Some? {
      FlatHasKeys(c => CpuMetrics.GroupsOf(host, cfg.perCore, c), p.cpus.value, KeysOf(Cpus));
    }
  }

  lemma InterfacesHaveKeys(cfg: HostCollectorCfg, host: KeyValue, p: ProcFs)
    requires host.key == "host"
    ensures AllHaveKeys(Section(cfg, host, p, Interfaces), KeysOf(Interfaces))
  {
    if cfg.net && p.interfaces.Some? {
      FlatHasKeys(s => NetMetrics.GroupsOf(host, cfg.netFilter, s), p.interfaces.value, KeysOf(Interfaces));
    }
  }

  lemma DisksHaveKeys(cfg: HostCollectorCfg, host: KeyValue, p: ProcFs)
    requires host.key == "host"
    ensures AllHaveKeys(Section(cfg, host, p, Disks), KeysOf(Disks))
  {
    if cfg.disk && p.disks.Some? {
      FlatHasKeys(d => DiskMetrics.GroupsOf(host, cfg.diskFilter, d), p.disks.value, KeysOf(Disks));
    }
  }

  lemma SectionHasKeys(cfg: HostCollectorCfg, host: KeyValue, p: ProcFs, f: Family)
    requires host.key == "host"
    ensures AllHaveKeys(Section(cfg, host, p, f), KeysOf(f))
  {
    match f {
      case Uptimes | Loadavgs | Memory =>
      case Cpus => CpusHaveKeys(cfg, host, p);
      case Processes => ProcessesHaveKeys(cfg, host, p);
      case Interfaces => InterfacesHaveKeys(cfg, host, p);
      case Disks => DisksHaveKeys(cfg, host, p);
    }
  }

  lemma HasKeyIff(g: SampleGroup, keys: seq<string>, key: string)
    requires HasKeys(g, keys)
    ensures HasKey(g, key) <==> key in keys
  {
    if key in keys {
      var i :| 0 <= i < |keys| && keys[i] == key;
      assert g.attrs[i] in g.attrs;
    }
  }

  /** The attribute that tells the groups of a switch. */
  function KeyOf(switch: Switch): string {
    match switch
    case Net => "iface"
    case Disk => "device"
    case Cpu => "mode"
    case Process => "pid"
    case Mem => ""
  }

  lemma KeyTells(f: Family, switch: Switch)
    requires switch != Mem
    ensures KeyOf(switch) in KeysOf(f) <==> f == FamilyOfSwitch(switch)
  {
  }

  lemma KeysTell(f: Family, g: SampleGroup, switch: Switch)
    requires HasKeys(g, KeysOf(f)) && switch != Mem
    ensures CoversGroup(switch, g) <==> f == FamilyOfSwitch(switch)
  {
    HasKeyIff(g, KeysOf(f), KeyOf(switch));
    KeyTells(f, switch);
  }

  lemma NameTells(f: Family, v: SampleValue)
    requires OfRow(f, v)
    ensures Covers(Mem, v.name) <==> f == Memory
  {
    var m: Metric :| FamilyOf(m) == f && v.name == Name(m) && TypeOf(v.value) == RowType(m);
    CoversIff(Mem, m);
  }

  lemma ValuesTell(cfg: HostCollectorCfg, host: KeyValue, p: ProcFs, f: Family, g: SampleGroup)
    requires g in Section(cfg, host, p, f)
    ensures CoversGroup(Mem, g) <==> f == Memory
  {
    Conservation.SectionRegistered(cfg, host, p, f);
    forall v | v in g.values
      ensures Covers(Mem, v.name) <==> f == Memory
    {
      NameTells(f, v);
    }
    if f == Memory {
      MemoryHasValues(cfg, host, p, g);
      assert g.values[0] in g.values;
    }
  }

  lemma MemoryHasValues(cfg: HostCollectorCfg, host: KeyValue, p: ProcFs, g: SampleGroup)
    requires g in Section(cfg, host, p, Memory)
    ensures g.values != []
  {
  }

  lemma SectionTells(cfg: HostCollectorCfg, host: KeyValue, p: ProcFs, f: Family, g: SampleGroup, switch: Switch)
    requires host.key == "host" && g in Section(cfg, host, p, f)
    ensures CoversGroup(switch, g) <==> f == FamilyOfSwitch(switch)
  {
    if switch == Mem {
      ValuesTell(cfg, host, p, f, g);
    } else {
      SectionHasKeys(cfg, host, p, f);
      KeysTell(f, g, switch);
    }
  }

  lemma OtherSectionsStay(cfg: HostCollectorCfg, host: KeyValue, p: ProcFs, switch: Switch, f: Family)
    ensures Section(With(cfg, switch, false), host, p, f)
         == if f == FamilyOfSwitch(switch) then [] else Section(With(cfg, switch, true), host, p, f)
  {
  }

  lemma SwitchTakesSection(cfg: HostCollectorCfg, host: KeyValue, p: ProcFs, switch: Switch, f: Family)
    requires host.key == "host"
    ensures Section(With(cfg, switch, false), host, p, f)
         == GroupsWithout(switch, Section(With(cfg, switch, true), host, p, f))
  {
    var groups := Section(With(cfg, switch, true), host, p, f);
    forall g | g in groups
      ensures CoversGroup(switch, g) <==> f == FamilyOfSwitch(switch)
    {
      SectionTells(With(cfg, switch, true), host, p, f, g, switch);
    }
    AllOrNothing(switch, groups);
    OtherSectionsStay(cfg, host, p, switch, f);
  }

  lemma WithoutFour(switch: Switch, a: Snapshot, b: Snapshot, c: Snapshot, d: Snapshot)
    ensures GroupsWithout(switch, a + b + c + d)
         == GroupsWithout(switch, a) + GroupsWithout(switch, b) + GroupsWithout(switch, c) + GroupsWithout(switch, d)
  {
    GroupsWithoutConcat(switch, a + b + c, d);
    GroupsWithoutConcat(switch, a + b, c);
    GroupsWithoutConcat(switch, a, b);
  }

  lemma WithoutThree(switch: Switch, a: Snapshot, b: Snapshot, c: Snapshot)
    ensures GroupsWithout(switch, a + b + c)
         == GroupsWithout(switch, a) + GroupsWithout(switch, b) + GroupsWithout(switch, c)
  {
    GroupsWithoutConcat(switch, a + b, c);
    GroupsWithoutConcat(switch, a, b);
  }

  lemma SwitchTakesFirstHalf(cfg: HostCollectorCfg, host: KeyValue, p: ProcFs, switch: Switch)
    requires host.key == "host"
    ensures HostAndProcesses(With(cfg, switch, false), host, p)
         == GroupsWithout(switch, HostAndProcesses(With(cfg, switch, true), host, p))
  {
    SwitchTakesSection(cfg, host, p, switch, Uptimes);
    SwitchTakesSection(cfg, host, p, switch, Loadavgs);
    SwitchTakesSection(cfg, host, p, switch, Cpus);
    SwitchTakesSection(cfg, host, p, switch, Processes);
    var on := With(cfg, switch, true);
    WithoutFour(
      switch, Section(on, host, p, Uptimes), Section(on, host, p, Loadavgs), Section(on, host, p, Cpus),
      Section(on, host, p, Processes));
  }

  lemma SwitchTakesSecondHalf(cfg: HostCollectorCfg, host: KeyValue, p: ProcFs, switch: Switch)
    requires host.key == "host"
    ensures DevicesAndMemory(With(cfg, switch, false), host, p)
         == GroupsWithout(switch, DevicesAndMemory(With(cfg, switch, true), host, p))
  {
    SwitchTakesSection(cfg, host, p, switch, Interfaces);
    SwitchTakesSection(cfg, host, p, switch, Disks);
    SwitchTakesSection(cfg, host, p, switch, Memory);
    var on := With(cfg, switch, true);
    WithoutThree(
      switch, Section(on, host, p, Interfaces), Section(on, host, p, Disks), Section(on, host, p, Memory));
  }

  /**
   Whatever the other switches and the files contain: turning one off takes from a snapshot exactly the groups
   with its attribute, `iface` for `net`, `device` for `disk`, `mode` for `cpu`, `pid` for `process`, and those
   with values of memory for `mem`; everything else stays, in order.
   */
  lemma SwitchTakesGroups(cfg: HostCollectorCfg, host: KeyValue, p: ProcFs, switch: Switch)
    requires host.key == "host"
    ensures HostSnapshot(With(cfg, switch, false), host, p)
         == GroupsWithout(switch, HostSnapshot(With(cfg, switch, true), host, p))
  {
    SwitchTakesFirstHalf(cfg, host, p, switch);
    SwitchTakesSecondHalf(cfg, host, p, switch);
    var on := With(cfg, switch, true);
    GroupsWithoutConcat(switch, HostAndProcesses(on, host, p), DevicesAndMemory(on, host, p));
  }
}
