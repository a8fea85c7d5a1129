/** From the text of `/proc/stat` to what the cpu instrument is told. */
module CpuText {
  import opened Integers
  import opened Text
  import opened Framework
  import opened Names
  import opened Samples
  import CpuStat
  import CpuMetrics

  /** What the time in each column is spent on, by proc_stat(5). */
  function Label(k: nat): string {
    match k
    case 0 => "user"
    case 1 => "nice"
    case 2 => "system"
    case 3 => "idle"
    case 4 => "iowait"
    case 5 => "irq"
    case 6 => "softirq"
    case 7 => "steal"
    case 8 => "guest"
    case _ => "guest_nice"
  }

  /** The k-th column under its label, in hundredths of a second. */
  function ModeReport(host: KeyValue, name: string, ticks: seq<u64>, k: nat): Observation
    requires k < |CpuMetrics.MODES| == |ticks|
  {
    Observation(
      Name(CpuSecondsTotal), F64(ticks[k] as real / 100.0),
      [host, KeyValue("cpu", Str(name)), KeyValue("mode", Str(Label(k)))])
  }

  /** The first n modes of one cpu. */
  function ModeReports(host: KeyValue, name: string, ticks: seq<u64>, n: nat): seq<Observation>
    requires n <= |CpuMetrics.MODES| == |ticks|
  {
    if n == 0 then [] else ModeReports(host, name, ticks, n - 1) + [ModeReport(host, name, ticks, n - 1)]
  }

  /** What one line of the file is worth to the cpu instrument. */
  function Report(host: KeyValue, perCore: bool, line: Bytes): seq<Observation> {
    var tokens := Tokens(line);
    if |tokens| >= 1 && "cpu" <= tokens[0] && Numeric(tokens[1..], 10) && (tokens[0] == "cpu" || perCore)
    then ModeReports(host, tokens[0], Cells(tokens[1..], 10), 10)
    else []
  }

  lemma LabelsAreModes(k: nat)
    requires k < |CpuMetrics.MODES|
    ensures CpuMetrics.MODES[k] == Label(k)
  {
  }

  lemma ModeObserved(host: KeyValue, entry: CpuStat.CpuTimes, k: nat)
    requires k < |CpuMetrics.MODES|
    ensures Observed([CpuMetrics.ModeGroup(host, entry, k)], Name(CpuSecondsTotal), TypeF64)
         == [ModeReport(host, entry.name, CpuMetrics.TicksOf(entry), k)]
  {
    LabelsAreModes(k);
    var number := CpuMetrics.ModeNumber(CpuMetrics.TicksOf(entry)[k]);
    OneMetricObserved(CpuMetrics.Attrs(host, entry.name, CpuMetrics.MODES[k]), CpuSecondsTotal, number);
  }

  lemma OneMetricObserved(attrs: seq<KeyValue>, m: Metric, number: Metric -> Number)
    ensures Observed([SampleGroup(attrs, Values([m], number))], Name(m), TypeOf(number(m)))
         == [Observation(Name(m), number(m), attrs)]
  {
    ObservedOfGroup(attrs, [m], number, m, TypeOf(number(m)));
  }

  lemma {:induction false} ModesObserved(host: KeyValue, entry: CpuStat.CpuTimes, n: nat)
    requires n <= |CpuMetrics.MODES|
    ensures Observed(CpuMetrics.ModeGroups(host, entry, n), Name(CpuSecondsTotal), TypeF64)
         == ModeReports(host, entry.name, CpuMetrics.TicksOf(entry), n)
  {
    if n > 0 {
      ModesObserved(host, entry, n - 1);
      ModeObserved(host, entry, n - 1);
      CpuMetrics.ModeGroupsSnoc(host, entry, n - 1);
      ObservedConcat(
        CpuMetrics.ModeGroups(host, entry, n - 1), [CpuMetrics.ModeGroup(host, entry, n - 1)],
        Name(CpuSecondsTotal), TypeF64);
    }
  }

  lemma TicksOfFields(name: Bytes, fields: seq<u64>)
    requires |fields| == CpuStat.COLUMNS
    ensures CpuMetrics.TicksOf(CpuStat.FromFields(name, fields)) == fields
  {
  }

  lemma LineObserved(host: KeyValue, perCore: bool, line: Bytes)
    ensures Report(host, perCore, line)
         == match CpuStat.Row(line)
            case None => []
            case Some(c) => Observed(CpuMetrics.GroupsOf(host, perCore, c), Name(CpuSecondsTotal), TypeF64)
  {
    var tokens := Tokens(line);
    if CpuStat.IsCpu(tokens) {
      ModesObserved(host, CpuStat.Row(line).value, |CpuMetrics.MODES|);
      TicksOfFields(tokens[0], Cells(tokens[1..], CpuStat.COLUMNS));
    }
  }

  /** Any content of stat: the cpu instrument is told ten modes of the aggregate, and of each core if wanted. */
  lemma TextToObservation(host: KeyValue, perCore: bool, content: Bytes)
    ensures Observed(
              CpuMetrics.Groups(host, perCore, FilterMap(CpuStat.Row, Lines(content))), Name(CpuSecondsTotal), TypeF64)
         == Series(l => Report(host, perCore, l), Lines(content))
  {
    var cpus := FilterMap(CpuStat.Row, Lines(content));
    var seriesOf := (c: CpuStat.CpuTimes) =>
      Observed(CpuMetrics.GroupsOf(host, perCore, c), Name(CpuSecondsTotal), TypeF64);
    ObservedOfFlat(c => CpuMetrics.GroupsOf(host, perCore, c), cpus, Name(CpuSecondsTotal), TypeF64, seriesOf);
    var report := (l: Bytes) => Report(host, perCore, l);
    forall l | l in Lines(content)
      ensures report(l) == match CpuStat.Row(l) case None => [] case Some(c) => seriesOf(c)
    {
      LineObserved(host, perCore, l);
    }
    SeriesOfLines(seriesOf, CpuStat.Row, report, Lines(content));
  }
}
