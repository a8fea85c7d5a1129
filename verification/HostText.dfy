/** From everything one tick reads under `/proc` to what every instrument is told. */
module HostText {
  import opened Wrappers
  import opened Text
  import opened Framework
  import opened Names
  import opened Samples
  import opened Host
  import opened Conservation
  import opened Uniqueness
  import opened Switches
  import CpuStat
  import DiskStats
  import NetDev
  import MemInfoFile
  import CpuMetrics
  import DiskMetrics
  import NetMetrics
  import MemMetrics
  import CpuText
  import DiskText
  import NetText
  import MemText
  import ProcessText

  /** The callback of a metric, run over a whole host snapshot, sees exactly the section of its item type. */
  lemma HostObservesSection(cfg: HostCollectorCfg, host: KeyValue, p: ProcFs, m: Metric, ty: NumberType)
    ensures Observed(HostSnapshot(cfg, host, p), Name(m), ty)
         == Observed(Section(cfg, host, p, FamilyOf(m)), Name(m), ty)
  {
    AllOfHost(cfg, host, p);
    var part := (f: Family) => All(Section(cfg, host, p, f));
    forall f: Family | f != FamilyOf(m)
      ensures Select(part(f), Name(m), ty) == []
    {
      forall o | o in part(f)
        ensures o.name != Name(m)
      {
        var n := FamilyOfName(cfg, host, p, f, o);
        NamesAreDistinct(n, m);
      }
      SelectNone(part(f), Name(m), ty);
    }
    SelectSeven(part, FamilyOf(m), Name(m), ty);
  }

  lemma SelectSeven(part: Family -> seq<Observation>, f: Family, name: string, ty: NumberType)
    requires forall g: Family :: g != f ==> Select(part(g), name, ty) == []
    ensures Select(
              part(Uptimes) + part(Loadavgs) + part(Cpus) + part(Processes) + part(Interfaces) + part(Disks)
              + part(Memory), name, ty)
         == Select(part(f), name, ty)
  {
    var families := [Uptimes, Loadavgs, Cpus, Processes, Interfaces, Disks, Memory];
    JoinedSeven(part);
    SelectJoined(part, families, name, ty);
    OnlyOneJoined(Selected(part, name, ty), families, f);
  }

  lemma {:induction false} SelectNone(all: seq<Observation>, name: string, ty: NumberType)
    requires forall o <- all :: o.name != name
    ensures Select(all, name, ty) == []
  {
    if all != [] {
      SelectNone(all[..|all| - 1], name, ty);
      assert all[|all| - 1] in all;
    }
  }

  /** What is selected of each part. */
  function Selected(part: Family -> seq<Observation>, name: string, ty: NumberType): Family -> seq<Observation> {
    f => Select(part(f), name, ty)
  }

  lemma {:induction false} SelectJoined(
    part: Family -> seq<Observation>, families: seq<Family>, name: string, ty: NumberType)
    ensures Select(Joined(part, families), name, ty) == Joined(Selected(part, name, ty), families)
  {
    if families != [] {
      var front, last := families[..|families| - 1], families[|families| - 1];
      SelectJoined(part, front, name, ty);
      SelectConcat(Joined(part, front), part(last), name, ty);
    }
  }

  lemma {:induction false} OnlyOneJoined(part: Family -> seq<Observation>, families: seq<Family>, f: Family)
    requires forall g: Family :: g != f ==> part(g) == []
    requires forall i, j :: 0 <= i < j < |families| ==> families[i] != families[j]
    ensures Joined(part, families) == if f in families then part(f) else []
  {
    if families != [] {
      var front, last := families[..|families| - 1], families[|families| - 1];
      OnlyOneJoined(part, front, f);
      assert families == front + [last];
      assert last !in front;
    }
  }

  /** The content of each file, as far as it can be read; the numbers of uptime and loadavg are given. */
  datatype ProcText = ProcText(
    uptime: Option<real>,
    loadavg: Option<LoadAvg>,
    stat: Option<Bytes>,
    processes: ProcessText.Directory,
    netDev: Option<Bytes>,
    diskstats: Option<Bytes>,
    meminfo: Option<Bytes>)

  /** The entries of a file, if it can be read. */
  function Entries<T>(row: Bytes -> Option<T>, content: Option<Bytes>): Option<seq<T>> {
    match content case None => None case Some(c) => Some(FilterMap(row, Lines(c)))
  }

  /** What the parsers make of the files. */
  function Parsed(text: ProcText): ProcFs {
    ProcFs(
      text.uptime, text.loadavg, Entries(CpuStat.Row, text.stat),
      ProcessText.ParsedDirectory(text.processes),
      Entries(NetDev.Row, text.netDev), Entries(DiskStats.Row, text.diskstats),
      match text.meminfo case None => None case Some(c) => MemInfoFile.Reading(MemInfoFile.Fields(c)))
  }

  /** What the lines of a file are worth, if it can be read. */
  function LineReports(report: Bytes -> seq<Observation>, content: Option<Bytes>): seq<Observation> {
    match content case None => [] case Some(c) => Series(report, Lines(c))
  }

  /** What all the files are worth to the instrument of a metric: nothing, if a switch for its name is off. */
  function Report(cfg: HostCollectorCfg, host: KeyValue, text: ProcText, m: Metric): seq<Observation> {
    if !Wanted(cfg, Name(m)) then []
    else
      match FamilyOf(m)
      case Uptimes =>
        (match text.uptime case None => [] case Some(u) => [Observation(Name(m), F64(u), [host])])
      case Loadavgs =>
        (match text.loadavg case None => [] case Some(l) => [Observation(Name(m), LoadavgNumber(l, m), [host])])
      case Cpus => LineReports(l => CpuText.Report(host, cfg.perCore, l), text.stat)
      case Processes => ProcessText.Report(host, cfg.processFilter, m, text.processes)
      case Interfaces => LineReports(l => NetText.Report(host, cfg.netFilter, m, l), text.netDev)
      case Disks => LineReports(l => DiskText.Report(host, cfg.diskFilter, m, l), text.diskstats)
      case Memory => (match text.meminfo case None => [] case Some(c) => MemText.Report(host, m, c))
  }

  lemma UptimeObserved(host: KeyValue, uptime: Option<real>)
    ensures Observed(UptimeGroups(host, uptime), Name(Uptime), TypeF64)
         == match uptime case None => [] case Some(u) => [Observation(Name(Uptime), F64(u), [host])]
  {
    match uptime
    case None => assert All([]) == [];
    case Some(u) => ObservedOfFamily([host], UptimeNumber(u), Uptime, TypeF64);
  }

  /** What the names of the five load values stand for. */
  lemma LoadavgWritten(host: KeyValue, l: LoadAvg)
    ensures All(LoadavgGroups(host, Some(l)))
         == [
              Observation("loadavg_1m", F64(l.load1), [host]),
              Observation("loadavg_5m", F64(l.load5), [host]),
              Observation("loadavg_15m", F64(l.load15), [host]),
              Observation("loadavg_running_tasks", U64(l.running), [host]),
              Observation("loadavg_total_tasks", U64(l.total), [host])
            ]
  {
    AllOfValues([host], RowsOf(Loadavgs), LoadavgNumbers(l));
  }

  lemma LoadavgObserved(host: KeyValue, loadavg: Option<LoadAvg>, m: Metric)
    requires FamilyOf(m) == Loadavgs
    ensures Observed(LoadavgGroups(host, loadavg), Name(m), RowType(m))
         == match loadavg case None => [] case Some(l) => [Observation(Name(m), LoadavgNumber(l, m), [host])]
  {
    match loadavg
    case None => assert All([]) == [];
    case Some(l) =>
      LoadavgTypes(l, m);
      ObservedOfFamily([host], LoadavgNumbers(l), m, RowType(m));
  }

  lemma CpusObserved(host: KeyValue, perCore: bool, stat: Option<Bytes>)
    ensures Observed(CpuMetrics.Read(host, perCore, Entries(CpuStat.Row, stat)), Name(CpuSecondsTotal), TypeF64)
         == LineReports(l => CpuText.Report(host, perCore, l), stat)
  {
    match stat
    case None => assert All([]) == [];
    case Some(c) => CpuText.TextToObservation(host, perCore, c);
  }

  lemma InterfacesObserved(host: KeyValue, filter: NetMetrics.NetFilter, netDev: Option<Bytes>, m: Metric)
    requires FamilyOf(m) == Interfaces
    ensures Observed(NetMetrics.Read(host, filter, Entries(NetDev.Row, netDev)), Name(m), TypeU64)
         == LineReports(l => NetText.Report(host, filter, m, l), netDev)
  {
    match netDev
    case None => assert All([]) == [];
    case Some(c) => NetText.TextToObservation(host, filter, c, m);
  }

  lemma DisksObserved(host: KeyValue, filter: DiskMetrics.DiskFilter, diskstats: Option<Bytes>, m: Metric)
    requires FamilyOf(m) == Disks
    ensures Observed(DiskMetrics.Read(host, filter, Entries(DiskStats.Row, diskstats)), Name(m), TypeU64)
         == LineReports(l => DiskText.Report(host, filter, m, l), diskstats)
  {
    match diskstats
    case None => assert All([]) == [];
    case Some(c) => DiskText.TextToObservation(host, filter, c, m);
  }

  lemma MemoryObserved(host: KeyValue, meminfo: Option<Bytes>, m: Metric)
    requires FamilyOf(m) == Memory
    ensures var mem := match meminfo case None => None case Some(c) => MemInfoFile.Reading(MemInfoFile.Fields(c));
            Observed(MemMetrics.Read(host, mem), Name(m), TypeU64)
            == match meminfo case None => [] case Some(c) => MemText.Report(host, m, c)
  {
    match meminfo
    case None => assert All([]) == [];
    case Some(c) => MemText.TextToObservation(host, c, m);
  }

  /** The number types of the families that have one. */
  lemma TypesOfFamilies(m: Metric)
    ensures FamilyOf(m) == Uptimes ==> m == Uptime && RowType(m) == TypeF64
    ensures FamilyOf(m) == Cpus ==> m == CpuSecondsTotal && RowType(m) == TypeF64
    ensures FamilyOf(m) == Interfaces || FamilyOf(m) == Disks || FamilyOf(m) == Memory ==> RowType(m) == TypeU64
  {
  }

  lemma SectionOfText(cfg: HostCollectorCfg, host: KeyValue, text: ProcText, m: Metric)
    ensures Observed(Section(cfg, host, Parsed(text), FamilyOf(m)), Name(m), RowType(m)) == Report(cfg, host, text, m)
  {
    TypesOfFamilies(m);
    WantedIff(cfg, m);
    if !Enabled(cfg, FamilyOf(m)) {
      assert All([]) == [];
    } else {
      match FamilyOf(m) {
        case Uptimes => UptimeObserved(host, text.uptime);
        case Loadavgs => LoadavgObserved(host, text.loadavg, m);
        case Cpus => CpusObserved(host, cfg.perCore, text.stat);
        case Processes => ProcessText.TextToObservation(host, cfg.processFilter, text.processes, m);
        case Interfaces => InterfacesObserved(host, cfg.netFilter, text.netDev, m);
        case Disks => DisksObserved(host, cfg.diskFilter, text.diskstats, m);
        case Memory => MemoryObserved(host, text.meminfo, m);
      }
    }
  }

  /**
   For every configuration and whatever the files contain, readable or not: over the snapshot of one pass, the
   callback of a metric is told exactly what its one file is worth to it, in the order of the file.
   */
  lemma TextToObservation(cfg: HostCollectorCfg, host: KeyValue, text: ProcText, m: Metric)
    ensures Observed(HostSnapshot(cfg, host, Parsed(text)), Name(m), RowType(m)) == Report(cfg, host, text, m)
  {
    HostObservesSection(cfg, host, Parsed(text), m, RowType(m));
    SectionOfText(cfg, host, text, m);
  }
}
