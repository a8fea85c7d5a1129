/** The cpu lines of `/proc/stat` (crates/procfs/src/cpu.rs). */
module CpuStat {
  import opened Wrappers
  import opened Integers
  import opened Text

  datatype CpuTimes = CpuTimes(
    name: Bytes,
    user: u64,
    nice: u64,
    system: u64,
    idle: u64,
    iowait: u64,
    irq: u64,
    softirq: u64,
    steal: u64,
    guest: u64,
    guestNice: u64)

  const COLUMNS: nat := 10

  function FromFields(name: Bytes, fields: seq<u64>): CpuTimes
    requires |fields| == COLUMNS
  {
    CpuTimes(
      name,
      fields[0], fields[1], fields[2], fields[3], fields[4],
      fields[5], fields[6], fields[7], fields[8], fields[9])
  }

  predicate IsCpuName(name: Bytes) {
    |name| >= 3 && name[0] == 'c' && name[1] == 'p' && name[2] == 'u'
  }

  /** The lines that give a cpu: its name, and no malformed one among its ten times. */
  predicate IsCpu(tokens: seq<Bytes>) {
    |tokens| >= 1 && IsCpuName(tokens[0]) && Numeric(tokens[1..], COLUMNS)
  }

  /** What the tokens of one line are worth: the times of a cpu, or nothing. */
  function CpuOf(tokens: seq<Bytes>): Option<CpuTimes> {
    if IsCpu(tokens) then Some(FromFields(tokens[0], Cells(tokens[1..], COLUMNS))) else None
  }

  function Row(line: Bytes): Option<CpuTimes> {
    CpuOf(Tokens(line))
  }

  /** `CpuStat::parse_stat`. */
  method ParseStat(content: Bytes) returns (cpus: seq<CpuTimes>)
    ensures cpus == FilterMap(Row, Lines(content))
  {
    cpus := [];
    var lines := Lines(content);
    for i := 0 to |lines|
      invariant cpus == FilterMap(Row, lines[..i])
    {
      FilterMapSnoc(Row, lines, i);
      var tokens := Tokens(lines[i]);
      if |tokens| == 0 {
        continue;
      }
      var name := tokens[0];
      if !IsCpuName(name) {
        continue;
      }
      var fields := new u64[COLUMNS](_ => 0);
      var ok := FillSlots(fields, tokens[1..]);
      if !ok {
        continue;
      }
      cpus := cpus + [FromFields(name, fields[..])];
    }
    assert lines[..|lines|] == lines;
  }

  /** Which whitespace separates two columns, anywhere in the file, and how much of it, does not matter. */
  lemma SpacingDoesNotMatter(before: Bytes, gap: Bytes, other: Bytes, after: Bytes)
    requires Blank(gap) && gap != [] && Blank(other) && other != [] && '\n' !in gap + other
    ensures FilterMap(Row, Lines(before + gap + after)) == FilterMap(Row, Lines(before + other + after))
  {
    TokenRowsIgnoreSpacing(Row, CpuOf, before, gap, other, after);
  }

  /** Two files joined by a newline give the entries of the first and then those of the second. */
  lemma Concatenation(a: Bytes, b: Bytes)
    ensures FilterMap(Row, Lines(a + ['\n'] + b)) == FilterMap(Row, Lines(a)) + FilterMap(Row, Lines(b))
  {
    TableHomomorphism(Row, a, b);
  }

  // ------------------------------------------------------------------ the file as the kernel prints it

  /** A line without tokens, or whose first one does not begin with `cpu`, or with a malformed time. */
  ghost predicate IsNoise(line: Bytes) {
    var tokens := Tokens(line);
    tokens == [] || !("cpu" <= tokens[0]) || SomeMalformed(tokens, 1, 11)
  }

  /** These lines, and no others, give no entry. */
  lemma NoiseIff(line: Bytes)
    ensures Row(line).None? <==> IsNoise(line)
  {
    var tokens := Tokens(line);
    if tokens != [] {
      NumericIff(tokens, 1, COLUMNS);
    }
  }

  /**
   A cpu line, named `cpu` or that and anything more, with any number of times and any spacing; or any other
   line.
   */
  datatype Line =
    | Cpu(gaps: seq<Bytes>, core: Bytes, ticks: seq<u64>, extra: seq<Bytes>)
    | Noise(line: Bytes)
  {
    function Name(): Bytes
      requires Cpu?
    {
      "cpu" + core
    }

    function Columns(): seq<Bytes>
      requires Cpu?
    {
      [Name()] + (Decimals(ticks) + extra)
    }

    ghost predicate Valid() {
      match this
      case Cpu(gaps, _, ticks, extra) =>
        && Spaced(gaps, Columns())
        && InLine(gaps)
        && (extra != [] ==> |ticks| >= COLUMNS)
      case Noise(line) => '\n' !in line && IsNoise(line)
    }
  }

  function Print(l: Line): Bytes {
    match l
    case Cpu(gaps, _, _, _) => if |gaps| == |l.Columns()| + 1 then Interleave(gaps, l.Columns()) else []
    case Noise(line) => line
  }

  function Meaning(l: Line): Option<CpuTimes> {
    match l
    case Cpu(_, core, ticks, _) => Some(FromFields("cpu" + core, Padded(ticks, COLUMNS)))
    case Noise(_) => None
  }

  ghost predicate ValidTable(table: seq<Line>) {
    table != [] && forall l <- table :: l.Valid()
  }

  lemma PrintedLine(l: Line)
    requires l.Valid()
    ensures Row(Print(l)) == Meaning(l) && '\n' !in Print(l)
  {
    match l
    case Noise(line) => NoiseIff(line);
    case Cpu(gaps, _, ticks, extra) =>
      TokensOfInterleave(gaps, l.Columns());
      InterleaveStaysOnLine(gaps, l.Columns());
      CellsOfDecimals(ticks, extra, COLUMNS);
      assert l.Columns()[1..] == Decimals(ticks) + extra;
  }

  /** Cpu lines of any width among any other lines read back in order, missing times as 0. */
  lemma CpuStatRoundTrip(table: seq<Line>)
    requires ValidTable(table)
    ensures FilterMap(Row, Lines(PrintTable(Print, table))) == Meanings(Meaning, table)
  {
    forall l | l in table
      ensures '\n' !in Print(l) && Row(Print(l)) == Meaning(l)
    {
      PrintedLine(l);
    }
    PrintedTable(Row, Print, Meaning, table);
  }

  /** The times of a cpu in the order of the columns of proc_stat(5). */
  function Counters(t: CpuTimes): (counters: seq<u64>)
    ensures |counters| == COLUMNS
  {
    [
      t.user, t.nice, t.system, t.idle, t.iowait, t.irq, t.softirq, t.steal, t.guest, t.guestNice
    ]
  }

  /** Every column lands in the field of its name: a printed table of records reads back as the records. */
  lemma RecordsRoundTrip(table: seq<Line>, records: seq<CpuTimes>)
    requires ValidTable(table) && |table| == |records|
    requires forall i :: 0 <= i < |table| ==>
               table[i].Cpu? && table[i].Name() == records[i].name && table[i].ticks == Counters(records[i])
    ensures FilterMap(Row, Lines(PrintTable(Print, table))) == records
  {
    CpuStatRoundTrip(table);
    forall i | 0 <= i < |table|
      ensures Meaning(table[i]) == Some(records[i])
    {
      FieldsInOrder(records[i]);
    }
    MeaningsOfAll(Meaning, table, records);
  }

  lemma FieldsInOrder(t: CpuTimes)
    ensures FromFields(t.name, Padded(Counters(t), COLUMNS)) == t
  {
  }
}
