/** `/proc/diskstats` (crates/procfs/src/diskstats.rs). */
module DiskStats {
  import opened Wrappers
  import opened Integers
  import opened Text

  datatype DiskStat = DiskStat(
    name: Bytes,
    readsCompleted: u64,
    readsMerged: u64,
    sectorsRead: u64,
    readMs: u64,
    writesCompleted: u64,
    writesMerged: u64,
    sectorsWritten: u64,
    writeMs: u64,
    ioInProgress: u64,
    ioMs: u64,
    weightedIoMs: u64,
    discardsCompleted: u64,
    discardsMerged: u64,
    sectorsDiscarded: u64,
    discardMs: u64,
    flushRequests: u64,
    flushMs: u64)

  const COLUMNS: nat := 17

  function FromFields(name: Bytes, fields: seq<u64>): DiskStat
    requires |fields| == COLUMNS
  {
    DiskStat(
      name,
      fields[0], fields[1], fields[2], fields[3], fields[4], fields[5], fields[6], fields[7], fields[8],
      fields[9], fields[10], fields[11], fields[12], fields[13], fields[14], fields[15], fields[16])
  }

  /** The lines that give a device: two numbers, a name, and no malformed one among its 17 counters. */
  predicate IsDevice(tokens: seq<Bytes>) {
    && |tokens| >= 3
    && ParseU64(Some(tokens[0])).Some?
    && ParseU64(Some(tokens[1])).Some?
    && Numeric(tokens[3..], COLUMNS)
  }

  /** What the tokens of one line are worth: a device, or nothing. */
  function DeviceOf(tokens: seq<Bytes>): Option<DiskStat> {
    if IsDevice(tokens) then Some(FromFields(tokens[2], Cells(tokens[3..], COLUMNS))) else None
  }

  function Row(line: Bytes): Option<DiskStat> {
    DeviceOf(Tokens(line))
  }

  /** `DiskStats::parse_diskstats`. */
  method ParseDiskstats(content: Bytes) returns (disks: seq<DiskStat>)
    ensures disks == FilterMap(Row, Lines(content))
  {
    disks := [];
    var lines := Lines(content);
    for i := 0 to |lines|
      invariant disks == FilterMap(Row, lines[..i])
    {
      FilterMapSnoc(Row, lines, i);
      var tokens := Tokens(lines[i]);
      if |tokens| < 3 {
        continue;
      }
      var major, minor, name := tokens[0], tokens[1], tokens[2];
      if ParseU64(Some(major)).None? || ParseU64(Some(minor)).None? {
        continue;
      }
      var fields := new u64[COLUMNS](_ => 0);
      var ok := FillSlots(fields, tokens[3..]);
      if !ok {
        continue;
      }
      disks := disks + [FromFields(name, fields[..])];
    }
    assert lines[..|lines|] == lines;
  }

  /** Which whitespace separates two columns, anywhere in the file, and how much of it, does not matter. */
  lemma SpacingDoesNotMatter(before: Bytes, gap: Bytes, other: Bytes, after: Bytes)
    requires Blank(gap) && gap != [] && Blank(other) && other != [] && '\n' !in gap + other
    ensures FilterMap(Row, Lines(before + gap + after)) == FilterMap(Row, Lines(before + other + after))
  {
    TokenRowsIgnoreSpacing(Row, DeviceOf, before, gap, other, after);
  }

  /** Two files joined by a newline give the entries of the first and then those of the second. */
  lemma Concatenation(a: Bytes, b: Bytes)
    ensures FilterMap(Row, Lines(a + ['\n'] + b)) == FilterMap(Row, Lines(a)) + FilterMap(Row, Lines(b))
  {
    TableHomomorphism(Row, a, b);
  }

  // ------------------------------------------------------------------ the file as the kernel prints it

  /** A line with fewer than three tokens, without two numbers in front, or with a malformed counter. */
  ghost predicate IsNoise(line: Bytes) {
    var tokens := Tokens(line);
    || |tokens| < 3
    || ParseU64(Some(tokens[0])).None? || ParseU64(Some(tokens[1])).None?
    || SomeMalformed(tokens, 3, 20)
  }

  /** These lines, and no others, give no entry. */
  lemma NoiseIff(line: Bytes)
    ensures Row(line).None? <==> IsNoise(line)
  {
    var tokens := Tokens(line);
    if |tokens| >= 3 {
      NumericIff(tokens, 3, COLUMNS);
    }
  }

  /** A device line with any number of counters and any spacing, or a line no device has. */
  datatype Line =
    | Device(gaps: seq<Bytes>, major: u64, minor: u64, name: Bytes, counters: seq<u64>, extra: seq<Bytes>)
    | Noise(line: Bytes)
  {
    function Columns(): seq<Bytes>
      requires Device?
    {
      [Decimal(major), Decimal(minor), name] + (Decimals(counters) + extra)
    }

    /** Only a line that already has its 17 counters can carry further columns, of any content. */
    ghost predicate Valid() {
      match this
      case Device(gaps, _, _, _, counters, extra) =>
        Spaced(gaps, Columns()) && InLine(gaps) && (extra != [] ==> |counters| >= COLUMNS)
      case Noise(line) => '\n' !in line && IsNoise(line)
    }
  }

  function Print(l: Line): Bytes {
    match l
    case Device(gaps, _, _, _, _, _) => if |gaps| == |l.Columns()| + 1 then Interleave(gaps, l.Columns()) else []
    case Noise(line) => line
  }

  function Meaning(l: Line): Option<DiskStat> {
    match l
    case Device(_, _, _, name, counters, _) => Some(FromFields(name, Padded(counters, COLUMNS)))
    case Noise(_) => None
  }

  ghost predicate ValidTable(table: seq<Line>) {
    table != [] && forall l <- table :: l.Valid()
  }

  lemma PrintedDevice(major: u64, minor: u64, name: Bytes, counters: seq<u64>, extra: seq<Bytes>)
    requires extra != [] ==> |counters| >= COLUMNS
    ensures DeviceOf([Decimal(major), Decimal(minor), name] + (Decimals(counters) + extra))
         == Some(FromFields(name, Padded(counters, COLUMNS)))
  {
    var head, rest := [Decimal(major), Decimal(minor), name], Decimals(counters) + extra;
    ParseDecimal(major);
    ParseDecimal(minor);
    CellsOfDecimals(counters, extra, COLUMNS);
    assert (head + rest)[3..] == rest;
    assert (head + rest)[0] == head[0] && (head + rest)[1] == head[1] && (head + rest)[2] == head[2];
  }

  lemma PrintedLine(l: Line)
    requires l.Valid()
    ensures Row(Print(l)) == Meaning(l) && '\n' !in Print(l)
  {
    match l
    case Noise(line) => NoiseIff(line);
    case Device(gaps, major, minor, name, counters, extra) =>
      TokensOfInterleave(gaps, l.Columns());
      InterleaveStaysOnLine(gaps, l.Columns());
      PrintedDevice(major, minor, name, counters, extra);
  }

  /**
   Any table, short and long layouts mixed and noise lines anywhere, reads back as its devices in order:
   the counters that are printed, and 0 for those that are not.
   */
  lemma DiskstatsRoundTrip(table: seq<Line>)
    requires ValidTable(table)
    ensures FilterMap(Row, Lines(PrintTable(Print, table))) == Meanings(Meaning, table)
  {
    forall l | l in table
      ensures '\n' !in Print(l) && Row(Print(l)) == Meaning(l)
    {
      PrintedLine(l);
    }
    PrintedTable(Row, Print, Meaning, table);
  }

  /** The counters of a device in the order of the columns of proc_diskstats(5). */
  function Counters(d: DiskStat): (counters: seq<u64>)
    ensures |counters| == COLUMNS
  {
    [
      d.readsCompleted, d.readsMerged, d.sectorsRead, d.readMs, d.writesCompleted, d.writesMerged,
      d.sectorsWritten, d.writeMs, d.ioInProgress, d.ioMs, d.weightedIoMs, d.discardsCompleted,
      d.discardsMerged, d.sectorsDiscarded, d.discardMs, d.flushRequests, d.flushMs
    ]
  }

  /** Every column lands in the field of its name: a printed table of records reads back as the records. */
  lemma RecordsRoundTrip(table: seq<Line>, records: seq<DiskStat>)
    requires ValidTable(table) && |table| == |records|
    requires forall i :: 0 <= i < |table| ==>
               table[i].Device? && table[i].name == records[i].name && table[i].counters == Counters(records[i])
    ensures FilterMap(Row, Lines(PrintTable(Print, table))) == records
  {
    DiskstatsRoundTrip(table);
    forall i | 0 <= i < |table|
      ensures Meaning(table[i]) == Some(records[i])
    {
      FieldsInOrder(records[i]);
    }
    MeaningsOfAll(Meaning, table, records);
  }

  lemma FieldsInOrder(d: DiskStat)
    ensures FromFields(d.name, Padded(Counters(d), COLUMNS)) == d
  {
  }
}
