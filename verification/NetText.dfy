/** From the text of `/proc/net/dev` to what the interface instruments are told. */
module NetText {
  import opened Wrappers
  import opened Integers
  import opened Text
  import opened Framework
  import opened Names
  import opened Samples
  import NetDev
  import NetMetrics

  /** The column an interface metric reports, counted from the first after the colon. */
  function NetColumn(m: Metric): (k: nat)
    ensures k < NetDev.COLUMNS
  {
    match m
    case IfaceRxBytesTotal => 0
    case IfaceRxPacketsTotal => 1
    case IfaceRxErrsTotal => 2
    case IfaceRxDropTotal => 3
    case IfaceTxBytesTotal => 8
    case IfaceTxPacketsTotal => 9
    case IfaceTxErrsTotal => 10
    case _ => 11
  }

  /** What the name and the columns of a line are worth to the instrument of an interface metric. */
  function ReportOf(
    host: KeyValue, filter: NetMetrics.NetFilter, m: Metric, name: Bytes, tokens: seq<Bytes>): seq<Observation> {
    if
      && name != [] && |tokens| >= 16 && Numeric(tokens, 16)
      && (filter.ifaces.Some? ==> name in filter.ifaces.value)
    then [Observation(Name(m), U64(Cell(tokens, NetColumn(m))), [host, KeyValue("iface", Str(name))])]
    else []
  }

  function Report(host: KeyValue, filter: NetMetrics.NetFilter, m: Metric, line: Bytes): seq<Observation> {
    match Position(line, ':')
    case None => []
    case Some(colon) => ReportOf(host, filter, m, Trim(line[..colon]), Tokens(line[colon + 1..]))
  }

  lemma NumberIsColumn(name: Bytes, fields: seq<u64>, m: Metric)
    requires |fields| == NetDev.COLUMNS && FamilyOf(m) == Interfaces
    ensures NetMetrics.NumberOf(NetDev.FromFields(name, fields), m) == U64(fields[NetColumn(m)])
  {
  }

  lemma IfaceObserved(host: KeyValue, filter: NetMetrics.NetFilter, s: NetDev.IfaceStats, m: Metric)
    requires FamilyOf(m) == Interfaces
    ensures Observed(NetMetrics.GroupsOf(host, filter, s), Name(m), TypeU64)
         == if filter.Keeps(s.name)
            then [Observation(Name(m), NetMetrics.NumberOf(s, m), NetMetrics.Attrs(host, s.name))]
            else []
  {
    if filter.Keeps(s.name) {
      ObservedOfFamily(NetMetrics.Attrs(host, s.name), NetMetrics.Numbers(s), m, TypeU64);
    } else {
      assert All([]) == [];
    }
  }

  /** What is observed of a line that may be an interface. */
  function Seen(host: KeyValue, filter: NetMetrics.NetFilter, m: Metric, s: Option<NetDev.IfaceStats>): seq<Observation> {
    match s case None => [] case Some(s) => Observed(NetMetrics.GroupsOf(host, filter, s), Name(m), TypeU64)
  }

  lemma ColumnsObserved(host: KeyValue, filter: NetMetrics.NetFilter, m: Metric, name: Bytes, tokens: seq<Bytes>)
    requires FamilyOf(m) == Interfaces
    ensures ReportOf(host, filter, m, name, tokens) == Seen(host, filter, m, NetDev.IfaceOf(name, tokens))
  {
    if NetDev.IsIface(name, tokens) {
      var cells := Cells(tokens, NetDev.COLUMNS);
      IfaceObserved(host, filter, NetDev.FromFields(name, cells), m);
      NumberIsColumn(name, cells, m);
    }
  }

  lemma LineObserved(host: KeyValue, filter: NetMetrics.NetFilter, m: Metric, line: Bytes)
    requires FamilyOf(m) == Interfaces
    ensures Report(host, filter, m, line) == Seen(host, filter, m, NetDev.Row(line))
  {
    match Position(line, ':')
    case None =>
    case Some(colon) => ColumnsObserved(host, filter, m, Trim(line[..colon]), Tokens(line[colon + 1..]));
  }

  /** Any content of net/dev: each interface instrument is told the column of every interface the filter keeps. */
  lemma TextToObservation(host: KeyValue, filter: NetMetrics.NetFilter, content: Bytes, m: Metric)
    requires FamilyOf(m) == Interfaces
    ensures Observed(NetMetrics.Groups(host, filter, FilterMap(NetDev.Row, Lines(content))), Name(m), TypeU64)
         == Series(l => Report(host, filter, m, l), Lines(content))
  {
    var interfaces := FilterMap(NetDev.Row, Lines(content));
    var seriesOf := (s: NetDev.IfaceStats) => Observed(NetMetrics.GroupsOf(host, filter, s), Name(m), TypeU64);
    ObservedOfFlat(s => NetMetrics.GroupsOf(host, filter, s), interfaces, Name(m), TypeU64, seriesOf);
    var report := (l: Bytes) => Report(host, filter, m, l);
    forall l | l in Lines(content)
      ensures report(l) == match NetDev.Row(l) case None => [] case Some(s) => seriesOf(s)
    {
      LineObserved(host, filter, m, l);
    }
    SeriesOfLines(seriesOf, NetDev.Row, report, Lines(content));
  }
}
