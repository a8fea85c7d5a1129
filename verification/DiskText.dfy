/** From the text of `/proc/diskstats` to what the disk instruments are told. */
module DiskText {
  import opened Wrappers
  import opened Integers
  import opened Text
  import opened Framework
  import opened Names
  import opened Samples
  import DiskStats
  import DiskMetrics

  /** The counter column a disk metric reports, counted from the first after the device name. */
  function DiskColumn(m: Metric): (k: nat)
    ensures k < DiskStats.COLUMNS
  {
    match m
    case DiskReadsCompletedTotal => 0
    case DiskReadsMergedTotal => 1
    case DiskReadBytesTotal => 2
    case DiskReadTimeMsTotal => 3
    case DiskWritesCompletedTotal => 4
    case DiskWritesMergedTotal => 5
    case DiskWriteBytesTotal => 6
    case DiskWriteTimeMsTotal => 7
    case DiskIoInProgress => 8
    case DiskIoTimeMsTotal => 9
    case DiskIoTimeWeightedMsTotal => 10
    case DiskDiscardsCompletedTotal => 11
    case DiskDiscardsMergedTotal => 12
    case DiskDiscardBytesTotal => 13
    case DiskDiscardTimeMsTotal => 14
    case DiskFlushRequestsTotal => 15
    case _ => 16
  }

  /** Sector columns are reported in bytes. */
  function DiskUnit(m: Metric): u64 {
    if m == DiskReadBytesTotal || m == DiskWriteBytesTotal || m == DiskDiscardBytesTotal then 512 else 1
  }

  /** What one line of the file is worth to the instrument of a disk metric. */
  function Report(host: KeyValue, filter: DiskMetrics.DiskFilter, m: Metric, line: Bytes): seq<Observation> {
    var tokens := Tokens(line);
    if
      && |tokens| >= 3 && ParseU64(Some(tokens[0])).Some? && ParseU64(Some(tokens[1])).Some?
      && Numeric(tokens[3..], 17)
      && (filter.exclude.Some? ==> !filter.exclude.value(tokens[2]))
    then
      var counter := Cell(tokens[3..], DiskColumn(m));
      [Observation(Name(m), U64(WrappingMul(counter, DiskUnit(m))), [host, KeyValue("device", Str(tokens[2]))])]
    else []
  }

  /** A report is exact if and only if the counter in its unit fits 64 bits. */
  lemma ReportIsExact(host: KeyValue, filter: DiskMetrics.DiskFilter, m: Metric, line: Bytes)
    requires Report(host, filter, m, line) != []
    ensures var exact := Cell(Tokens(line)[3..], DiskColumn(m)) * DiskUnit(m);
            var report := Report(host, filter, m, line);
            && |report| == 1 && report[0].value.U64?
            && (report[0].value.u == exact <==> exact < U64_LIMIT)
  {
    WrappingMulExact(Cell(Tokens(line)[3..], DiskColumn(m)), DiskUnit(m));
  }

  lemma NumberIsColumn(name: Bytes, fields: seq<u64>, m: Metric)
    requires |fields| == DiskStats.COLUMNS && FamilyOf(m) == Disks
    ensures DiskMetrics.NumberOf(DiskStats.FromFields(name, fields), m)
         == U64(WrappingMul(fields[DiskColumn(m)], DiskUnit(m)))
  {
    WrappingMulExact(fields[DiskColumn(m)], 1);
  }

  lemma DeviceObserved(host: KeyValue, filter: DiskMetrics.DiskFilter, d: DiskStats.DiskStat, m: Metric)
    requires FamilyOf(m) == Disks
    ensures Observed(DiskMetrics.GroupsOf(host, filter, d), Name(m), TypeU64)
         == if filter.Keeps(d.name)
            then [Observation(Name(m), DiskMetrics.NumberOf(d, m), DiskMetrics.Attrs(host, d.name))]
            else []
  {
    if filter.Keeps(d.name) {
      ObservedOfFamily(DiskMetrics.Attrs(host, d.name), DiskMetrics.Numbers(d), m, TypeU64);
    } else {
      assert All([]) == [];
    }
  }

  lemma LineObserved(host: KeyValue, filter: DiskMetrics.DiskFilter, m: Metric, line: Bytes)
    requires FamilyOf(m) == Disks
    ensures Report(host, filter, m, line)
         == match DiskStats.Row(line)
            case None => []
            case Some(d) => Observed(DiskMetrics.GroupsOf(host, filter, d), Name(m), TypeU64)
  {
    var tokens := Tokens(line);
    if DiskStats.IsDevice(tokens) {
      DeviceObserved(host, filter, DiskStats.Row(line).value, m);
      NumberIsColumn(tokens[2], Cells(tokens[3..], DiskStats.COLUMNS), m);
    }
  }

  /**
   Any content of diskstats, parsed, collected and observed: each disk instrument is told of every line that is
   a device the filter keeps, once and in file order, the counter of its column, in bytes for the three sector
   columns.
   */
  lemma TextToObservation(host: KeyValue, filter: DiskMetrics.DiskFilter, content: Bytes, m: Metric)
    requires FamilyOf(m) == Disks
    ensures Observed(
              DiskMetrics.Groups(host, filter, FilterMap(DiskStats.Row, Lines(content))), Name(m), TypeU64)
         == Series(l => Report(host, filter, m, l), Lines(content))
  {
    var disks := FilterMap(DiskStats.Row, Lines(content));
    var seriesOf := (d: DiskStats.DiskStat) => Observed(DiskMetrics.GroupsOf(host, filter, d), Name(m), TypeU64);
    ObservedOfFlat(d => DiskMetrics.GroupsOf(host, filter, d), disks, Name(m), TypeU64, seriesOf);
    var report := (l: Bytes) => Report(host, filter, m, l);
    forall l | l in Lines(content)
      ensures report(l) == match DiskStats.Row(l) case None => [] case Some(d) => seriesOf(d)
    {
      LineObserved(host, filter, m, l);
    }
    SeriesOfLines(seriesOf, DiskStats.Row, report, Lines(content));
  }
}
