/** What the names of the metrics say: the prefix tells the item type, the suffix counters from gauges. */
module NameScheme {
  import opened Framework
  import opened Names

  predicate EndsWith(name: string, suffix: string) {
    |suffix| <= |name| && name[|name| - |suffix|..] == suffix
  }

  /** The names of an item type, by how they begin. */
  predicate StartsAs(f: Family, name: string) {
    match f
    case Uptimes => "uptime" <= name
    case Loadavgs => "loadavg_" <= name
    case Cpus => "cpu_" <= name
    case Processes => "process_" <= name
    case Interfaces => "iface_" <= name
    case Disks => "disk_" <= name
    case Memory => "mem_" <= name || "swap_" <= name || "huge_pages_" <= name
  }

  lemma HostStarts(m: Metric)
    requires FamilyOf(m) == Uptimes || FamilyOf(m) == Loadavgs || FamilyOf(m) == Cpus
    ensures StartsAs(FamilyOf(m), Name(m))
  {
  }

  lemma ProcessIoStarts(m: Metric)
    ensures "process_" <= ProcessIoName(m)
  {
  }

  lemma ProcessMemStarts(m: Metric)
    ensures "process_" <= ProcessMemName(m)
  {
  }

  lemma UserTimeStarts()
    ensures "process_" <= ProcessOtherName(ProcessCpuUserSecondsTotal)
  {
  }

  lemma SystemTimeStarts()
    ensures "process_" <= ProcessOtherName(ProcessCpuSystemSecondsTotal)
  {
  }

  lemma CountsStart()
    ensures "process_" <= ProcessOtherName(ProcessFdSize)
    ensures "process_" <= ProcessOtherName(ProcessThreads)
  {
  }

  lemma SwitchesStart()
    ensures "process_" <= ProcessOtherName(ProcessCtxtSwitchesVoluntaryTotal)
    ensures "process_" <= ProcessOtherName(ProcessCtxtSwitchesNonvoluntaryTotal)
  {
  }

  lemma ProcessOtherStarts(m: Metric)
    requires FamilyOf(m) == Processes && Rank(m) >= 13
    ensures "process_" <= ProcessOtherName(m)
  {
    UserTimeStarts();
    SystemTimeStarts();
    CountsStart();
    SwitchesStart();
  }

  /** The three tables that have the names of the process metrics. */
  lemma ProcessName(m: Metric)
    requires FamilyOf(m) == Processes
    ensures Name(m) == if Rank(m) < 7 then ProcessIoName(m)
                       else if Rank(m) < 13 then ProcessMemName(m) else ProcessOtherName(m)
  {
  }

  lemma ProcessStarts(m: Metric)
    requires FamilyOf(m) == Processes
    ensures StartsAs(Processes, Name(m))
  {
    ProcessName(m);
    if Rank(m) < 7 {
      ProcessIoStarts(m);
    } else if Rank(m) < 13 {
      ProcessMemStarts(m);
    } else {
      ProcessOtherStarts(m);
    }
  }

  lemma IfaceStarts(m: Metric)
    requires FamilyOf(m) == Interfaces
    ensures StartsAs(Interfaces, Name(m))
  {
  }

  lemma DiskTransferStarts(m: Metric)
    ensures "disk_" <= DiskTransferName(m)
  {
  }

  lemma DiskOtherStarts(m: Metric)
    ensures "disk_" <= DiskOtherName(m)
  {
  }

  lemma DiskName(m: Metric)
    requires FamilyOf(m) == Disks
    ensures Name(m) == if Rank(m) < 8 then DiskTransferName(m) else DiskOtherName(m)
  {
  }

  lemma DiskStarts(m: Metric)
    requires FamilyOf(m) == Disks
    ensures StartsAs(Disks, Name(m))
  {
    DiskName(m);
    DiskTransferStarts(m);
    DiskOtherStarts(m);
  }

  lemma MemoryStarts(m: Metric)
    requires FamilyOf(m) == Memory
    ensures StartsAs(Memory, Name(m))
  {
  }

  lemma NameStarts(m: Metric)
    ensures StartsAs(FamilyOf(m), Name(m))
  {
    match FamilyOf(m) {
      case Uptimes | Loadavgs | Cpus => HostStarts(m);
      case Processes => ProcessStarts(m);
      case Interfaces => IfaceStarts(m);
      case Disks => DiskStarts(m);
      case Memory => MemoryStarts(m);
    }
  }

  /** The letters the names of an item type begin with. */
  function Initials(f: Family): set<char> {
    match f
    case Uptimes => {'u'}
    case Loadavgs => {'l'}
    case Cpus => {'c'}
    case Processes => {'p'}
    case Interfaces => {'i'}
    case Disks => {'d'}
    case Memory => {'m', 's', 'h'}
  }

  lemma StartsWithInitial(f: Family, name: string)
    requires StartsAs(f, name)
    ensures name != [] && name[0] in Initials(f)
  {
  }

  lemma InitialsDiffer(f: Family, g: Family, c: char)
    requires c in Initials(f) && c in Initials(g)
    ensures f == g
  {
  }

  /** A name begins as those of one item type, and that is the item type of its row. */
  lemma PrefixTellsFamily(m: Metric, f: Family)
    ensures StartsAs(f, Name(m)) <==> f == FamilyOf(m)
  {
    NameStarts(m);
    if StartsAs(f, Name(m)) {
      StartsWithInitial(f, Name(m));
      StartsWithInitial(FamilyOf(m), Name(m));
      InitialsDiffer(f, FamilyOf(m), Name(m)[0]);
    }
  }

  predicate IsCounter(kind: ItemKind) {
    kind == CounterU64 || kind == CounterF64
  }

  lemma ProcessIoSuffix(m: Metric)
    ensures EndsWith(ProcessIoName(m), "_total")
  {
  }

  lemma ProcessMemSuffix(m: Metric)
    ensures !EndsWith(ProcessMemName(m), "_total")
  {
  }

  lemma ProcessOtherSuffix(m: Metric)
    ensures EndsWith(ProcessOtherName(m), "_total") <==> m != ProcessFdSize && m != ProcessThreads
  {
  }

  lemma ProcessKind(m: Metric)
    requires FamilyOf(m) == Processes
    ensures IsCounter(Kind(m)) <==> Rank(m) < 7 || (Rank(m) >= 13 && m != ProcessFdSize && m != ProcessThreads)
  {
  }

  lemma ProcessSuffix(m: Metric)
    requires FamilyOf(m) == Processes
    ensures IsCounter(Kind(m)) <==> EndsWith(Name(m), "_total")
  {
    ProcessName(m);
    ProcessKind(m);
    ProcessIoSuffix(m);
    ProcessMemSuffix(m);
    ProcessOtherSuffix(m);
  }

  lemma IfaceSuffix(m: Metric)
    requires FamilyOf(m) == Interfaces
    ensures IsCounter(Kind(m)) <==> EndsWith(Name(m), "_total")
  {
  }

  lemma DiskTransferSuffix(m: Metric)
    ensures EndsWith(DiskTransferName(m), "_total")
  {
  }

  lemma DiskOtherSuffix(m: Metric)
    ensures EndsWith(DiskOtherName(m), "_total") <==> m != DiskIoInProgress
  {
  }

  lemma DiskKind(m: Metric)
    requires FamilyOf(m) == Disks
    ensures IsCounter(Kind(m)) <==> m != DiskIoInProgress
    ensures m == DiskIoInProgress ==> Rank(m) >= 8
  {
  }

  lemma DiskSuffix(m: Metric)
    requires FamilyOf(m) == Disks
    ensures IsCounter(Kind(m)) <==> EndsWith(Name(m), "_total")
  {
    DiskName(m);
    DiskKind(m);
    DiskTransferSuffix(m);
    DiskOtherSuffix(m);
  }

  lemma OtherSuffix(m: Metric)
    requires FamilyOf(m) != Processes && FamilyOf(m) != Interfaces && FamilyOf(m) != Disks
    ensures IsCounter(Kind(m)) <==> EndsWith(Name(m), "_total")
  {
  }

  lemma SuffixTellsCounter(m: Metric)
    ensures IsCounter(Kind(m)) <==> EndsWith(Name(m), "_total")
  {
    match FamilyOf(m) {
      case Processes => ProcessSuffix(m);
      case Interfaces => IfaceSuffix(m);
      case Disks => DiskSuffix(m);
      case Uptimes | Loadavgs | Cpus | Memory => OtherSuffix(m);
    }
  }

  lemma CounterIsRegistered(item: MetricItem, cache: Buffer)
    ensures RegistrationOf(item, cache).kind == ObservableCounter <==> IsCounter(item.kind)
  {
  }

  /** What is registered for a metric is a counter if and only if its name ends in `_total`; the rest is the item's. */
  lemma SuffixTellsKind(m: Metric, item: MetricItem, cache: Buffer)
    requires item.name == Name(m) && item.kind == Kind(m)
    ensures var r := RegistrationOf(item, cache);
            && (r.kind == ObservableCounter <==> EndsWith(item.name, "_total"))
            && r.name == item.name && r.unit == item.unit && r.description == item.description && r.cache == cache
  {
    SuffixTellsCounter(m);
    CounterIsRegistered(item, cache);
  }
}
