/** No two values of one snapshot belong to the same time series. */
module Uniqueness {
  import opened Framework
  import opened Names
  import opened Samples
  import opened Host
  import opened Conservation
  import CpuStat
  import DiskStats
  import NetDev
  import CpuMetrics
  import DiskMetrics
  import NetMetrics
  import MemMetrics
  import ProcessMetrics

  /** Attributes are a set to the exporter. */
  function AttrSet(attrs: seq<KeyValue>): set<KeyValue> {
    set kv | kv in attrs
  }

  /** Two observations an instrument could not tell apart. */
  predicate SameSeries(a: Observation, b: Observation) {
    a.name == b.name && AttrSet(a.attrs) == AttrSet(b.attrs)
  }

  predicate Unique(all: seq<Observation>) {
    forall i, j :: 0 <= i < j < |all| ==> !SameSeries(all[i], all[j])
  }

  predicate Apart(a: seq<Observation>, b: seq<Observation>) {
    forall x <- a, y <- b :: !SameSeries(x, y)
  }

  lemma UniqueConcat(a: seq<Observation>, b: seq<Observation>)
    requires Unique(a) && Unique(b) && Apart(a, b)
    ensures Unique(a + b)
  {
    forall i, j | 0 <= i < j < |a + b|
      ensures !SameSeries((a + b)[i], (a + b)[j])
    {
      if i < |a| <= j {
        assert a[i] in a && b[j - |a|] in b;
      }
    }
  }

  /** Records whose own values are unique, and whose values are apart from those of any other record. */
  lemma {:induction false} UniqueFlat<T>(groupsOf: T -> Snapshot, records: seq<T>)
    requires forall r <- records :: Unique(All(groupsOf(r)))
    requires forall i, j :: 0 <= i < j < |records| ==> Apart(All(groupsOf(records[i])), All(groupsOf(records[j])))
    ensures Unique(All(Flat(groupsOf, records)))
  {
    if records != [] {
      var front, last := records[..|records| - 1], records[|records| - 1];
      UniqueFlat(groupsOf, front);
      assert last in records;
      forall x, y | x in All(Flat(groupsOf, front)) && y in All(groupsOf(last))
        ensures !SameSeries(x, y)
      {
        var i := InFlat(groupsOf, front, x);
        assert Apart(All(groupsOf(records[i])), All(groupsOf(records[|records| - 1])));
      }
      AllConcat(Flat(groupsOf, front), groupsOf(last));
      UniqueConcat(All(Flat(groupsOf, front)), All(groupsOf(last)));
    }
  }

  lemma {:induction false} InFlat<T>(groupsOf: T -> Snapshot, records: seq<T>, o: Observation) returns (i: nat)
    requires o in All(Flat(groupsOf, records))
    ensures i < |records| && o in All(groupsOf(records[i]))
  {
    var front, last := records[..|records| - 1], records[|records| - 1];
    AllConcat(Flat(groupsOf, front), groupsOf(last));
    if o in All(Flat(groupsOf, front)) {
      i := InFlat(groupsOf, front, o);
    } else {
      i := |records| - 1;
    }
  }

  lemma UniqueByName(attrs: seq<KeyValue>, values: seq<SampleValue>)
    requires forall i, j :: 0 <= i < j < |values| ==> values[i].name != values[j].name
    ensures Unique(All([SampleGroup(attrs, values)]))
  {
    AllOfOne(SampleGroup(attrs, values));
  }

  /** The values of one group have different names. */
  lemma UniqueGroup(attrs: seq<KeyValue>, metrics: seq<Metric>, number: Metric -> Number)
    requires NoRepeat(metrics)
    ensures Unique(All([SampleGroup(attrs, Values(metrics, number))]))
  {
    forall i, j | 0 <= i < j < |metrics|
      ensures Values(metrics, number)[i].name != Values(metrics, number)[j].name
    {
      NamesDiffer(metrics, number, i, j);
    }
    UniqueByName(attrs, Values(metrics, number));
  }

  lemma NamesDiffer(metrics: seq<Metric>, number: Metric -> Number, i: nat, j: nat)
    requires NoRepeat(metrics) && i < j < |metrics|
    ensures Values(metrics, number)[i].name != Values(metrics, number)[j].name
  {
    ValueAt(metrics, number, i);
    ValueAt(metrics, number, j);
    NamesAreDistinct(metrics[i], metrics[j]);
  }

  /** One attribute with the same key and another value sets two groups apart. */
  lemma ApartByAttr(a: SampleGroup, b: SampleGroup, x: KeyValue, y: KeyValue)
    requires x in a.attrs && x.key == y.key && x != y
    requires forall kv <- b.attrs :: kv.key == x.key ==> kv == y
    ensures Apart(All([a]), All([b]))
  {
    AllOfOne(a);
    AllOfOne(b);
    assert x in AttrSet(a.attrs) && x !in AttrSet(b.attrs);
  }

  // ------------------------------------------------------------------ the sections

  lemma DiskUnique(host: KeyValue, filter: DiskMetrics.DiskFilter, disks: seq<DiskStats.DiskStat>)
    requires host.key == "host" && forall i, j :: 0 <= i < j < |disks| ==> disks[i].name != disks[j].name
    ensures Unique(All(DiskMetrics.Groups(host, filter, disks)))
  {
    RowsNoRepeat(Disks);
    forall d | d in disks
      ensures Unique(All(DiskMetrics.GroupsOf(host, filter, d)))
    {
      UniqueGroup(DiskMetrics.Attrs(host, d.name), RowsOf(Disks), DiskMetrics.Numbers(d));
    }
    forall i, j | 0 <= i < j < |disks|
      ensures Apart(All(DiskMetrics.GroupsOf(host, filter, disks[i])), All(DiskMetrics.GroupsOf(host, filter, disks[j])))
    {
      ApartByAttr(
        DiskMetrics.Group(host, disks[i]), DiskMetrics.Group(host, disks[j]),
        KeyValue("device", Str(disks[i].name)), KeyValue("device", Str(disks[j].name)));
    }
    UniqueFlat(d => DiskMetrics.GroupsOf(host, filter, d), disks);
  }

  lemma NetUnique(host: KeyValue, filter: NetMetrics.NetFilter, interfaces: seq<NetDev.IfaceStats>)
    requires host.key == "host"
    requires forall i, j :: 0 <= i < j < |interfaces| ==> interfaces[i].name != interfaces[j].name
    ensures Unique(All(NetMetrics.Groups(host, filter, interfaces)))
  {
    RowsNoRepeat(Interfaces);
    forall s | s in interfaces
      ensures Unique(All(NetMetrics.GroupsOf(host, filter, s)))
    {
      UniqueGroup(NetMetrics.Attrs(host, s.name), RowsOf(Interfaces), NetMetrics.Numbers(s));
    }
    forall i, j | 0 <= i < j < |interfaces|
      ensures Apart(
                All(NetMetrics.GroupsOf(host, filter, interfaces[i])),
                All(NetMetrics.GroupsOf(host, filter, interfaces[j])))
    {
      var x, y := interfaces[i], interfaces[j];
      ApartByAttr(
        SampleGroup(NetMetrics.Attrs(host, x.name), Values(RowsOf(Interfaces), NetMetrics.Numbers(x))),
        SampleGroup(NetMetrics.Attrs(host, y.name), Values(RowsOf(Interfaces), NetMetrics.Numbers(y))),
        KeyValue("iface", Str(x.name)), KeyValue("iface", Str(y.name)));
    }
    UniqueFlat(s => NetMetrics.GroupsOf(host, filter, s), interfaces);
  }

  lemma ModesAreDistinct(i: nat, j: nat)
    requires i < j < |CpuMetrics.MODES|
    ensures CpuMetrics.MODES[i] != CpuMetrics.MODES[j]
  {
    assert j == 1 || j == 2 || j == 3 || j == 4 || j == 5 || j == 6 || j == 7 || j == 8 || j == 9;
    assert i == 0 || i == 1 || i == 2 || i == 3 || i == 4 || i == 5 || i == 6 || i == 7 || i == 8;
  }

  /** The groups of one cpu as a table of its modes. */
  function Mode(host: KeyValue, entry: CpuStat.CpuTimes): nat -> Snapshot {
    (k: nat) => if k < |CpuMetrics.MODES| then [CpuMetrics.ModeGroup(host, entry, k)] else []
  }

  function UpTo(n: nat): (ks: seq<nat>)
    ensures |ks| == n && forall k :: 0 <= k < n ==> ks[k] == k
  {
    seq(n, k requires 0 <= k < n => k)
  }

  lemma {:induction false} ModesAsTable(host: KeyValue, entry: CpuStat.CpuTimes, n: nat)
    requires n <= |CpuMetrics.MODES|
    ensures Flat(Mode(host, entry), UpTo(n)) == CpuMetrics.ModeGroups(host, entry, n)
  {
    if n > 0 {
      ModesAsTable(host, entry, n - 1);
      assert UpTo(n)[..n - 1] == UpTo(n - 1);
      CpuMetrics.ModeGroupsSnoc(host, entry, n - 1);
    }
  }

  lemma OneCpuUnique(host: KeyValue, entry: CpuStat.CpuTimes)
    requires host.key == "host"
    ensures Unique(All(CpuMetrics.ModeGroups(host, entry, |CpuMetrics.MODES|)))
  {
    var modes := UpTo(|CpuMetrics.MODES|);
    forall k | k in modes
      ensures Unique(All(Mode(host, entry)(k)))
    {
      UniqueGroup(
        CpuMetrics.Attrs(host, entry.name, CpuMetrics.MODES[k]), [CpuSecondsTotal],
        CpuMetrics.ModeNumber(CpuMetrics.TicksOf(entry)[k]));
    }
    forall i, j | 0 <= i < j < |modes|
      ensures Apart(All(Mode(host, entry)(modes[i])), All(Mode(host, entry)(modes[j])))
    {
      ModesAreDistinct(i, j);
      ApartByAttr(
        CpuMetrics.ModeGroup(host, entry, i), CpuMetrics.ModeGroup(host, entry, j),
        KeyValue("mode", Str(CpuMetrics.MODES[i])), KeyValue("mode", Str(CpuMetrics.MODES[j])));
    }
    UniqueFlat(Mode(host, entry), modes);
    ModesAsTable(host, entry, |CpuMetrics.MODES|);
  }

  lemma CpuUnique(host: KeyValue, perCore: bool, cpus: seq<CpuStat.CpuTimes>)
    requires host.key == "host" && forall i, j :: 0 <= i < j < |cpus| ==> cpus[i].name != cpus[j].name
    ensures Unique(All(CpuMetrics.Groups(host, perCore, cpus)))
  {
    forall c | c in cpus
      ensures Unique(All(CpuMetrics.GroupsOf(host, perCore, c)))
    {
      OneCpuUnique(host, c);
    }
    forall i, j | 0 <= i < j < |cpus|
      ensures Apart(All(CpuMetrics.GroupsOf(host, perCore, cpus[i])), All(CpuMetrics.GroupsOf(host, perCore, cpus[j])))
    {
      CpusApart(host, perCore, cpus[i], cpus[j]);
    }
    UniqueFlat(c => CpuMetrics.GroupsOf(host, perCore, c), cpus);
  }

  lemma CpusApart(host: KeyValue, perCore: bool, a: CpuStat.CpuTimes, b: CpuStat.CpuTimes)
    requires host.key == "host" && a.name != b.name
    ensures Apart(All(CpuMetrics.GroupsOf(host, perCore, a)), All(CpuMetrics.GroupsOf(host, perCore, b)))
  {
    forall g, h | g in CpuMetrics.GroupsOf(host, perCore, a) && h in CpuMetrics.GroupsOf(host, perCore, b)
      ensures Apart(All([g]), All([h]))
    {
      var i :| 0 <= i < |CpuMetrics.MODES| && g == CpuMetrics.ModeGroup(host, a, i);
      var j :| 0 <= j < |CpuMetrics.MODES| && h == CpuMetrics.ModeGroup(host, b, j);
      ApartByAttr(g, h, KeyValue("cpu", Str(a.name)), KeyValue("cpu", Str(b.name)));
    }
    ApartGroups(CpuMetrics.GroupsOf(host, perCore, a), CpuMetrics.GroupsOf(host, perCore, b));
  }

  lemma ApartGroups(a: Snapshot, b: Snapshot)
    requires forall g <- a, h <- b :: Apart(All([g]), All([h]))
    ensures Apart(All(a), All(b))
  {
    forall x, y | x in All(a) && y in All(b)
      ensures !SameSeries(x, y)
    {
      var g := GroupOf(a, x);
      var h := GroupOf(b, y);
      assert Apart(All([g]), All([h]));
    }
  }

  lemma {:induction false} GroupOf(snapshot: Snapshot, o: Observation) returns (g: SampleGroup)
    requires o in All(snapshot)
    ensures g in snapshot && o in All([g])
  {
    var front, last := snapshot[..|snapshot| - 1], snapshot[|snapshot| - 1];
    if o in All(front) {
      g := GroupOf(front, o);
    } else {
      g := last;
      AllOfOne(last);
    }
  }

  // ------------------------------------------------------------------ processes and threads

  function TasksOf(p: ProcessMetrics.Process): seq<ProcessMetrics.Process> {
    match p.taskDir
    case None => []
    case Some(listed) => ProcessMetrics.WithoutLeader(p.pid, listed)
  }

  predicate DistinctPids(ps: seq<ProcessMetrics.Process>) {
    forall i, j :: 0 <= i < j < |ps| ==> ps[i].pid != ps[j].pid
  }

  /** Process ids are distinct, and so are the thread ids of all processes taken together. */
  predicate DistinctTasks(ps: seq<ProcessMetrics.Process>) {
    && DistinctPids(ps)
    && (forall p <- ps :: DistinctPids(TasksOf(p)))
    && (forall i, j :: 0 <= i < j < |ps| ==> forall s <- TasksOf(ps[i]), t <- TasksOf(ps[j]) :: s.pid != t.pid)
  }

  lemma RowUnique(host: KeyValue, filter: ProcessMetrics.ProcessFilter, p: ProcessMetrics.Process, thread: bool)
    ensures Unique(All(ProcessMetrics.Row(host, filter, p, thread)))
  {
    if filter.Admits(p) {
      ProcessMetricsNoRepeat(p);
      UniqueGroup(ProcessMetrics.Attrs(host, p, thread), ProcessMetrics.MetricsOf(p), ProcessMetrics.Numbers(p));
    }
  }

  lemma ProcessMetricsNoRepeat(p: ProcessMetrics.Process)
    ensures NoRepeat(ProcessMetrics.MetricsOf(p))
  {
    IoNoRepeat();
    StatusNoRepeat();
    TimeNoRepeat();
    var io := if p.io.Some? then ProcessMetrics.IO_METRICS else [];
    var status := if p.status.Some? then ProcessMetrics.STATUS_METRICS else [];
    var time := if p.stat.Some? then ProcessMetrics.TIME_METRICS else [];
    NoRepeatConcat(io, status);
    NoRepeatConcat(io + status, time);
  }

  lemma IoNoRepeat()
    ensures NoRepeat(ProcessMetrics.IO_METRICS)
    ensures forall m <- ProcessMetrics.IO_METRICS :: Rank(m) < 7
  {
  }

  lemma StatusNoRepeat()
    ensures NoRepeat(ProcessMetrics.STATUS_METRICS)
    ensures forall m <- ProcessMetrics.STATUS_METRICS :: 7 <= Rank(m) < 17
  {
    forall i | 0 <= i < |ProcessMetrics.STATUS_METRICS|
      ensures Rank(ProcessMetrics.STATUS_METRICS[i]) == 7 + i
    {
      StatusRank(i);
    }
  }

  lemma StatusRank(i: nat)
    requires i < |ProcessMetrics.STATUS_METRICS|
    ensures Rank(ProcessMetrics.STATUS_METRICS[i]) == 7 + i
  {
    assert i == 0 || i == 1 || i == 2 || i == 3 || i == 4 || i == 5 || i == 6 || i == 7 || i == 8 || i == 9;
  }

  lemma TimeNoRepeat()
    ensures NoRepeat(ProcessMetrics.TIME_METRICS)
    ensures forall m <- ProcessMetrics.TIME_METRICS :: 17 <= Rank(m)
  {
  }

  /** Rows with another process id, or one of a process and one of a thread, are apart. */
  lemma RowsApart(
    host: KeyValue, filter: ProcessMetrics.ProcessFilter,
    p: ProcessMetrics.Process, pThread: bool, q: ProcessMetrics.Process, qThread: bool)
    requires host.key == "host" && (p.pid != q.pid || pThread != qThread)
    ensures Apart(All(ProcessMetrics.Row(host, filter, p, pThread)), All(ProcessMetrics.Row(host, filter, q, qThread)))
  {
    if filter.Admits(p) && filter.Admits(q) {
      var a := SampleGroup(
        ProcessMetrics.Attrs(host, p, pThread), Values(ProcessMetrics.MetricsOf(p), ProcessMetrics.Numbers(p)));
      var b := SampleGroup(
        ProcessMetrics.Attrs(host, q, qThread), Values(ProcessMetrics.MetricsOf(q), ProcessMetrics.Numbers(q)));
      if p.pid != q.pid {
        ApartByAttr(a, b, KeyValue("pid", I64(p.pid)), KeyValue("pid", I64(q.pid)));
      } else {
        ApartByAttr(a, b, KeyValue("thread", Bool(pThread)), KeyValue("thread", Bool(qThread)));
      }
    }
  }

  /** An observation of a process comes from its own row or from that of one of its tasks. */
  lemma RowOf(host: KeyValue, filter: ProcessMetrics.ProcessFilter, p: ProcessMetrics.Process, o: Observation)
    returns (q: ProcessMetrics.Process, thread: bool)
    requires o in All(ProcessMetrics.RowsOf(host, filter, false, p))
    ensures o in All(ProcessMetrics.Row(host, filter, q, thread))
    ensures if thread then q in TasksOf(p) else q == p
  {
    AllConcat(ProcessMetrics.Row(host, filter, p, false), ProcessMetrics.TaskRows(host, filter, p));
    if o in All(ProcessMetrics.Row(host, filter, p, false)) {
      q, thread := p, false;
    } else {
      var i := InFlat(ProcessMetrics.TaskRow(host, filter), TasksOf(p), o);
      q, thread := TasksOf(p)[i], true;
    }
  }

  lemma OneProcessUnique(host: KeyValue, filter: ProcessMetrics.ProcessFilter, p: ProcessMetrics.Process)
    requires host.key == "host" && DistinctPids(TasksOf(p))
    ensures Unique(All(ProcessMetrics.RowsOf(host, filter, false, p)))
  {
    var own, tasks := ProcessMetrics.Row(host, filter, p, false), ProcessMetrics.TaskRows(host, filter, p);
    RowUnique(host, filter, p, false);
    if tasks != [] {
      TasksUnique(host, filter, TasksOf(p));
      forall x, y | x in All(own) && y in All(tasks)
        ensures !SameSeries(x, y)
      {
        var i := InFlat(ProcessMetrics.TaskRow(host, filter), TasksOf(p), y);
        RowsApart(host, filter, p, false, TasksOf(p)[i], true);
      }
    }
    AllConcat(own, tasks);
    UniqueConcat(All(own), All(tasks));
  }

  lemma TasksUnique(host: KeyValue, filter: ProcessMetrics.ProcessFilter, tasks: seq<ProcessMetrics.Process>)
    requires host.key == "host" && DistinctPids(tasks)
    ensures Unique(All(Flat(ProcessMetrics.TaskRow(host, filter), tasks)))
  {
    forall t | t in tasks
      ensures Unique(All(ProcessMetrics.Row(host, filter, t, true)))
    {
      RowUnique(host, filter, t, true);
    }
    forall i, j | 0 <= i < j < |tasks|
      ensures Apart(
                All(ProcessMetrics.Row(host, filter, tasks[i], true)),
                All(ProcessMetrics.Row(host, filter, tasks[j], true)))
    {
      RowsApart(host, filter, tasks[i], true, tasks[j], true);
    }
    UniqueFlat(ProcessMetrics.TaskRow(host, filter), tasks);
  }

  lemma ProcessesUnique(host: KeyValue, filter: ProcessMetrics.ProcessFilter, ps: seq<ProcessMetrics.Process>)
    requires host.key == "host" && DistinctTasks(ps)
    ensures Unique(All(ProcessMetrics.Rows(host, filter, ps, false)))
  {
    forall p | p in ps
      ensures Unique(All(ProcessMetrics.RowsOf(host, filter, false, p)))
    {
      OneProcessUnique(host, filter, p);
    }
    forall i, j | 0 <= i < j < |ps|
      ensures Apart(
                All(ProcessMetrics.RowsOf(host, filter, false, ps[i])),
                All(ProcessMetrics.RowsOf(host, filter, false, ps[j])))
    {
      forall x, y | x in All(ProcessMetrics.RowsOf(host, filter, false, ps[i]))
                    && y in All(ProcessMetrics.RowsOf(host, filter, false, ps[j]))
        ensures !SameSeries(x, y)
      {
        var p, pThread := RowOf(host, filter, ps[i], x);
        var q, qThread := RowOf(host, filter, ps[j], y);
        RowsApart(host, filter, p, pThread, q, qThread);
      }
    }
    UniqueFlat(ProcessMetrics.RowsOfEach(host, filter, false), ps);
  }

  // ------------------------------------------------------------------ the whole snapshot

  /** The kernel lists no cpu, device, interface, process or thread twice. */
  predicate DistinctEntities(p: ProcFs) {
    && (p.cpus.Some? ==> forall i, j :: 0 <= i < j < |p.cpus.value| ==> p.cpus.value[i].name != p.cpus.value[j].name)
    && (p.disks.Some? ==>
          forall i, j :: 0 <= i < j < |p.disks.value| ==> p.disks.value[i].name != p.disks.value[j].name)
    && (p.interfaces.Some? ==>
          forall i, j :: 0 <= i < j < |p.interfaces.value| ==> p.interfaces.value[i].name != p.interfaces.value[j].name)
    && (p.processes.Some? ==> DistinctTasks(p.processes.value))
  }

  lemma SectionUnique(cfg: HostCollectorCfg, host: KeyValue, p: ProcFs, f: Family)
    requires host.key == "host" && DistinctEntities(p)
    ensures Unique(All(Section(cfg, host, p, f)))
  {
    RowsNoRepeat(f);
    match f {
      case Uptimes => if p.uptime.Some? { UniqueGroup([host], RowsOf(Uptimes), UptimeNumber(p.uptime.value)); }
      case Loadavgs => if p.loadavg.Some? { UniqueGroup([host], RowsOf(Loadavgs), LoadavgNumbers(p.loadavg.value)); }
      case Cpus => if p.cpus.Some? { CpuUnique(host, cfg.perCore, p.cpus.value); }
      case Processes => if p.processes.Some? { ProcessesUnique(host, cfg.processFilter, p.processes.value); }
      case Interfaces => if p.interfaces.Some? { NetUnique(host, cfg.netFilter, p.interfaces.value); }
      case Disks => if p.disks.Some? { DiskUnique(host, cfg.diskFilter, p.disks.value); }
      case Memory => if p.mem.Some? { UniqueGroup([host], RowsOf(Memory), MemMetrics.Numbers(p.mem.value)); }
    }
  }

  /** The family of the metric an observation of a section is named after. */
  lemma FamilyOfName(cfg: HostCollectorCfg, host: KeyValue, p: ProcFs, f: Family, o: Observation) returns (m: Metric)
    requires o in All(Section(cfg, host, p, f))
    ensures FamilyOf(m) == f && o.name == Name(m)
  {
    SectionRegistered(cfg, host, p, f);
    var g, v := InAll(Section(cfg, host, p, f), o);
    assert OfRow(f, v);
    m :| FamilyOf(m) == f && v.name == Name(m) && TypeOf(v.value) == RowType(m);
  }

  lemma SectionsApart(cfg: HostCollectorCfg, host: KeyValue, p: ProcFs, f: Family, g: Family)
    requires f != g
    ensures Apart(All(Section(cfg, host, p, f)), All(Section(cfg, host, p, g)))
  {
    forall x, y | x in All(Section(cfg, host, p, f)) && y in All(Section(cfg, host, p, g))
      ensures !SameSeries(x, y)
    {
      var m := FamilyOfName(cfg, host, p, f, x);
      var n := FamilyOfName(cfg, host, p, g, y);
      NamesAreDistinct(m, n);
    }
  }

  /** Parts one after the other. */
  function Joined(part: Family -> seq<Observation>, families: seq<Family>): seq<Observation> {
    if families == [] then []
    else Joined(part, families[..|families| - 1]) + part(families[|families| - 1])
  }

  /** Parts that are unique and apart from each other are unique together. */
  lemma {:induction false} JoinedUnique(part: Family -> seq<Observation>, families: seq<Family>)
    requires forall f: Family :: Unique(part(f))
    requires forall f: Family, g: Family :: f != g ==> Apart(part(f), part(g))
    requires forall i, j :: 0 <= i < j < |families| ==> families[i] != families[j]
    ensures Unique(Joined(part, families))
    ensures forall o <- Joined(part, families) :: exists f <- families :: o in part(f)
  {
    if families != [] {
      var front, last := families[..|families| - 1], families[|families| - 1];
      JoinedUnique(part, front);
      forall x, y | x in Joined(part, front) && y in part(last)
        ensures !SameSeries(x, y)
      {
        var f :| f in front && x in part(f);
        assert Apart(part(f), part(last));
      }
      UniqueConcat(Joined(part, front), part(last));
      assert last in families && forall f <- front :: f in families;
    }
  }

  lemma JoinedSnoc(part: Family -> seq<Observation>, front: seq<Family>, last: Family)
    ensures Joined(part, front + [last]) == Joined(part, front) + part(last)
  {
    assert (front + [last])[..|front|] == front;
  }

  lemma JoinedSeven(part: Family -> seq<Observation>)
    ensures Joined(part, [Uptimes, Loadavgs, Cpus, Processes, Interfaces, Disks, Memory])
         == part(Uptimes) + part(Loadavgs) + part(Cpus) + part(Processes) + part(Interfaces) + part(Disks) + part(Memory)
  {
    var three := [Uptimes, Loadavgs, Cpus];
    JoinedThree(part);
    JoinedSnoc(part, three, Processes);
    JoinedSnoc(part, three + [Processes], Interfaces);
    JoinedSnoc(part, three + [Processes] + [Interfaces], Disks);
    JoinedSnoc(part, three + [Processes] + [Interfaces] + [Disks], Memory);
    assert three + [Processes] + [Interfaces] + [Disks] + [Memory]
        == [Uptimes, Loadavgs, Cpus, Processes, Interfaces, Disks, Memory];
  }

  lemma JoinedThree(part: Family -> seq<Observation>)
    ensures Joined(part, [Uptimes, Loadavgs, Cpus]) == part(Uptimes) + part(Loadavgs) + part(Cpus)
  {
    JoinedSnoc(part, [], Uptimes);
    JoinedSnoc(part, [] + [Uptimes], Loadavgs);
    JoinedSnoc(part, [] + [Uptimes] + [Loadavgs], Cpus);
    assert [] + [Uptimes] + [Loadavgs] + [Cpus] == [Uptimes, Loadavgs, Cpus];
  }

  /**
   If the kernel lists nothing twice, no two values of a snapshot, of whatever configuration, have both
   the same name and the same attributes.
   */
  lemma SnapshotHasUniqueSeries(cfg: HostCollectorCfg, host: KeyValue, p: ProcFs)
    requires host.key == "host" && DistinctEntities(p)
    ensures Unique(All(HostSnapshot(cfg, host, p)))
  {
    var part := (f: Family) => All(Section(cfg, host, p, f));
    forall f: Family
      ensures Unique(part(f))
    {
      SectionUnique(cfg, host, p, f);
    }
    forall f: Family, g: Family | f != g
      ensures Apart(part(f), part(g))
    {
      SectionsApart(cfg, host, p, f, g);
    }
    JoinedUnique(part, [Uptimes, Loadavgs, Cpus, Processes, Interfaces, Disks, Memory]);
    JoinedSeven(part);
    AllOfHost(cfg, host, p);
  }

  /** So no callback observes the same attribute set twice in one export. */
  lemma CallbackHasNoDuplicates(cfg: HostCollectorCfg, host: KeyValue, p: ProcFs, name: string, ty: NumberType)
    requires host.key == "host" && DistinctEntities(p)
    ensures var seen := Observed(HostSnapshot(cfg, host, p), name, ty);
            forall i, j :: 0 <= i < j < |seen| ==> AttrSet(seen[i].attrs) != AttrSet(seen[j].attrs)
  {
    SnapshotHasUniqueSeries(cfg, host, p);
    UniqueSelect(All(HostSnapshot(cfg, host, p)), name, ty);
  }

  lemma {:induction false} UniqueSelect(all: seq<Observation>, name: string, ty: NumberType)
    requires Unique(all)
    ensures Unique(Select(all, name, ty))
    ensures forall o <- Select(all, name, ty) :: o in all && o.name == name
  {
    if all != [] {
      var front, last := all[..|all| - 1], all[|all| - 1];
      UniqueSelect(front, name, ty);
      assert all == front + [last];
      forall x | x in Select(front, name, ty)
        ensures !SameSeries(x, last)
      {
        var i :| 0 <= i < |front| && front[i] == x;
        assert all[i] == x;
      }
      UniqueConcat(Select(front, name, ty), if IsFor(last, name, ty) then [last] else []);
    }
  }
}
