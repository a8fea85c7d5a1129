/** `/proc/net/dev` (crates/procfs/src/net.rs). */
module NetDev {
  import opened Wrappers
  import opened Integers
  import opened Text

  datatype IfaceStats = IfaceStats(
    name: Bytes,
    rxBytes: u64,
    rxPackets: u64,
    rxErrs: u64,
    rxDrop: u64,
    rxFifo: u64,
    rxFrame: u64,
    rxCompressed: u64,
    rxMulticast: u64,
    txBytes: u64,
    txPackets: u64,
    txErrs: u64,
    txDrop: u64,
    txFifo: u64,
    txColls: u64,
    txCarrier: u64,
    txCompressed: u64)

  const COLUMNS: nat := 16

  function FromFields(name: Bytes, fields: seq<u64>): IfaceStats
    requires |fields| == COLUMNS
  {
    IfaceStats(
      name,
      fields[0], fields[1], fields[2], fields[3], fields[4], fields[5], fields[6], fields[7],
      fields[8], fields[9], fields[10], fields[11], fields[12], fields[13], fields[14], fields[15])
  }

  /** An entry appears exactly when the name is not empty and the 16 columns are there and numeric. */
  predicate IsIface(name: Bytes, tokens: seq<Bytes>) {
    name != [] && |tokens| >= COLUMNS && Numeric(tokens, COLUMNS)
  }

  function IfaceOf(name: Bytes, tokens: seq<Bytes>): Option<IfaceStats> {
    if IsIface(name, tokens) then Some(FromFields(name, Cells(tokens, COLUMNS))) else None
  }

  function Row(line: Bytes): Option<IfaceStats> {
    match Position(line, ':')
    case None => None
    case Some(colon) => IfaceOf(Trim(line[..colon]), Tokens(line[colon + 1..]))
  }

  /** The sixteen `parse_u64(tokens.next())` of one line; the first that fails drops the line. */
  method ParseIface(name: Bytes, tokens: seq<Bytes>) returns (stats: Option<IfaceStats>)
    requires name != []
    ensures stats == IfaceOf(name, tokens)
  {
    var rxBytes := ParseU64(Nth(tokens, 0));
    if rxBytes.None? { return None; }
    var rxPackets := ParseU64(Nth(tokens, 1));
    if rxPackets.None? { return None; }
    var rxErrs := ParseU64(Nth(tokens, 2));
    if rxErrs.None? { return None; }
    var rxDrop := ParseU64(Nth(tokens, 3));
    if rxDrop.None? { return None; }
    var rxFifo := ParseU64(Nth(tokens, 4));
    if rxFifo.None? { return None; }
    var rxFrame := ParseU64(Nth(tokens, 5));
    if rxFrame.None? { return None; }
    var rxCompressed := ParseU64(Nth(tokens, 6));
    if rxCompressed.None? { return None; }
    var rxMulticast := ParseU64(Nth(tokens, 7));
    if rxMulticast.None? { return None; }
    var txBytes := ParseU64(Nth(tokens, 8));
    if txBytes.None? { return None; }
    var txPackets := ParseU64(Nth(tokens, 9));
    if txPackets.None? { return None; }
    var txErrs := ParseU64(Nth(tokens, 10));
    if txErrs.None? { return None; }
    var txDrop := ParseU64(Nth(tokens, 11));
    if txDrop.None? { return None; }
    var txFifo := ParseU64(Nth(tokens, 12));
    if txFifo.None? { return None; }
    var txColls := ParseU64(Nth(tokens, 13));
    if txColls.None? { return None; }
    var txCarrier := ParseU64(Nth(tokens, 14));
    if txCarrier.None? { return None; }
    var txCompressed := ParseU64(Nth(tokens, 15));
    if txCompressed.None? { return None; }
    assert Numeric(tokens, COLUMNS);
    return Some(IfaceStats(
      name,
      rxBytes.value, rxPackets.value, rxErrs.value, rxDrop.value,
      rxFifo.value, rxFrame.value, rxCompressed.value, rxMulticast.value,
      txBytes.value, txPackets.value, txErrs.value, txDrop.value,
      txFifo.value, txColls.value, txCarrier.value, txCompressed.value));
  }

  /** `DevStats::parse_dev`. */
  method ParseDev(content: Bytes) returns (interfaces: seq<IfaceStats>)
    ensures interfaces == FilterMap(Row, Lines(content))
  {
    interfaces := [];
    var lines := Lines(content);
    for i := 0 to |lines|
      invariant interfaces == FilterMap(Row, lines[..i])
    {
      FilterMapSnoc(Row, lines, i);
      var line := lines[i];
      var colon := Position(line, ':');
      if colon.None? {
        continue;
      }
      var name := Trim(line[..colon.value]);
      if name == [] {
        continue;
      }
      var stats := ParseIface(name, Tokens(line[colon.value + 1..]));
      if stats.None? {
        continue;
      }
      interfaces := interfaces + [stats.value];
    }
    assert lines[..|lines|] == lines;
  }

  lemma GapAfterColon(a: Bytes, gap: Bytes, other: Bytes, b: Bytes)
    requires ':' in a && Blank(gap) && gap != [] && Blank(other) && other != []
    ensures Row(a + gap + b) == Row(a + other + b)
  {
    var colon := Position(a, ':').value;
    var name, before := a[..colon], a[colon + 1..];
    assert a + gap + b == name + [':'] + (before + gap + b);
    assert a + other + b == name + [':'] + (before + other + b);
    ColumnsAfterColon(name, before + gap + b);
    ColumnsAfterColon(name, before + other + b);
    WhitespaceInsensitive(before, gap, other, b);
  }

  /**
   Which whitespace separates two columns after the first colon of a line, anywhere in the file, and how much
   of it, does not matter.
   */
  lemma SpacingDoesNotMatter(a: Bytes, gap: Bytes, other: Bytes, b: Bytes)
    requires ':' in LastLine(a)
    requires Blank(gap) && gap != [] && Blank(other) && other != [] && '\n' !in gap + other
    ensures FilterMap(Row, Lines(a + gap + b)) == FilterMap(Row, Lines(a + other + b))
  {
    GapAfterColon(LastLine(a), gap, other, FirstLine(b));
    PieceChanged(Row, a, gap, other, b);
  }

  lemma PaddedName(pad: Bytes, name: Bytes, tail: Bytes, columns: Bytes)
    requires Blank(pad) && Blank(tail) && IsTrimmed(name) && ':' !in name
    ensures Row(pad + name + tail + [':'] + columns) == Row(name + [':'] + columns)
  {
    ColumnsAfterColon(pad + name + tail, columns);
    ColumnsAfterColon(name, columns);
    TrimAroundName(pad, name, tail);
    TrimsToItself(name);
  }

  /** Before the colon: whitespace around the name, on any line of the file, does not matter. */
  lemma PaddingDoesNotMatter(before: Bytes, pad: Bytes, name: Bytes, tail: Bytes, rest: Bytes)
    requires LastLine(before) == []
    requires Blank(pad) && Blank(tail) && IsTrimmed(name) && ':' !in name && '\n' !in pad + name + tail
    ensures FilterMap(Row, Lines(before + (pad + name + tail + [':']) + rest))
         == FilterMap(Row, Lines(before + (name + [':']) + rest))
  {
    PaddedName(pad, name, tail, FirstLine(rest));
    NameChanged(before, pad + name + tail + [':'], name + [':'], rest);
  }

  lemma NameChanged(before: Bytes, x: Bytes, y: Bytes, rest: Bytes)
    requires LastLine(before) == [] && '\n' !in x && '\n' !in y
    requires Row(x + FirstLine(rest)) == Row(y + FirstLine(rest))
    ensures FilterMap(Row, Lines(before + x + rest)) == FilterMap(Row, Lines(before + y + rest))
  {
    assert [] + x == x && [] + y == y;
    PieceChanged(Row, before, x, y, rest);
  }

  /** Inside the name it does: another run there makes another interface, if there is one at all. */
  lemma SpacingInNameMatters(a: Bytes, gap: Bytes, other: Bytes, b: Bytes, columns: Bytes)
    requires IsTrimmed(a) && IsTrimmed(b) && ':' !in a + b && Blank(gap) && Blank(other)
    ensures Row(a + gap + b + [':'] + columns) == Row(a + other + b + [':'] + columns)
       <==> gap == other || Row(a + gap + b + [':'] + columns).None?
  {
    TrimsToItself(a + gap + b);
    TrimsToItself(a + other + b);
    SameMiddle(a, gap, other, b);
    NamesMatter(a + gap + b, a + other + b, columns);
  }

  lemma NamesMatter(x: Bytes, y: Bytes, columns: Bytes)
    requires Trim(x) == x != [] && Trim(y) == y != [] && ':' !in x + y
    ensures Row(x + [':'] + columns) == Row(y + [':'] + columns) <==> x == y || Row(x + [':'] + columns).None?
  {
    ColumnsAfterColon(x, columns);
    ColumnsAfterColon(y, columns);
  }

  lemma SameMiddle(a: Bytes, x: Bytes, y: Bytes, b: Bytes)
    ensures a + x + b == a + y + b <==> x == y
  {
    if a + x + b == a + y + b {
      assert |x| == |y|;
      assert x == (a + x + b)[|a|..|a| + |x|] == (a + y + b)[|a|..|a| + |x|] == y;
    }
  }

  lemma ColumnsAfterColon(name: Bytes, columns: Bytes)
    requires ':' !in name
    ensures Row(name + [':'] + columns) == IfaceOf(Trim(name), Tokens(columns))
  {
    PositionOfFirst(name, ':', columns);
    assert (name + [':'] + columns)[..|name|] == name;
    assert (name + [':'] + columns)[|name| + 1..] == columns;
  }

  /** Two files joined by a newline give the entries of the first and then those of the second. */
  lemma Concatenation(a: Bytes, b: Bytes)
    ensures FilterMap(Row, Lines(a + ['\n'] + b)) == FilterMap(Row, Lines(a)) + FilterMap(Row, Lines(b))
  {
    TableHomomorphism(Row, a, b);
  }

  // ------------------------------------------------------------------ the file as the kernel prints it

  /** A line without a colon, with nothing before it, with too few columns after it, or with a malformed one. */
  ghost predicate IsNoise(line: Bytes) {
    match Position(line, ':')
    case None => true
    case Some(colon) =>
      var tokens := Tokens(line[colon + 1..]);
      Blank(line[..colon]) || |tokens| < 16 || SomeMalformed(tokens, 0, 16)
  }

  /** These lines, and no others, give no entry. */
  lemma NoiseIff(line: Bytes)
    ensures Row(line).None? <==> IsNoise(line)
  {
    match Position(line, ':')
    case None =>
    case Some(colon) =>
      var tokens := Tokens(line[colon + 1..]);
      TrimmedAway(line[..colon]);
      NumericIff(tokens, 0, COLUMNS);
      assert tokens[0..] == tokens;
  }

  /** An interface line with its 16 counters and any spacing, or any line that is not one. */
  datatype Line =
    | Iface(before: Bytes, name: Bytes, after: Bytes, gaps: seq<Bytes>, counters: seq<u64>, extra: seq<Bytes>)
    | Noise(line: Bytes)
  {
    ghost predicate Valid() {
      match this
      case Iface(before, name, after, gaps, counters, extra) =>
        && Blank(before) && Blank(after) && '\n' !in before + after
        && IsToken(name) && ':' !in name
        && |counters| == COLUMNS
        && Spaced(gaps, Decimals(counters) + extra) && InLine(gaps)
      case Noise(line) => '\n' !in line && IsNoise(line)
    }
  }

  function Print(l: Line): Bytes {
    match l
    case Iface(before, name, after, gaps, counters, extra) =>
      before + name + after + [':']
      + if |gaps| == |counters| + |extra| + 1 then Interleave(gaps, Decimals(counters) + extra) else []
    case Noise(line) => line
  }

  function Meaning(l: Line): Option<IfaceStats> {
    match l
    case Iface(_, name, _, _, counters, _) => Some(FromFields(name, Padded(counters, COLUMNS)))
    case Noise(_) => None
  }

  ghost predicate ValidTable(table: seq<Line>) {
    table != [] && forall l <- table :: l.Valid()
  }

  lemma PrintedLine(l: Line)
    requires l.Valid()
    ensures Row(Print(l)) == Meaning(l) && '\n' !in Print(l)
  {
    match l
    case Noise(line) => NoiseIff(line);
    case Iface(before, name, after, gaps, counters, extra) =>
      ColumnsAfterColon(before + name + after, Interleave(gaps, Decimals(counters) + extra));
      TokenIsTrimmed(name);
      TrimAroundName(before, name, after);
      TokensOfInterleave(gaps, Decimals(counters) + extra);
      InterleaveStaysOnLine(gaps, Decimals(counters) + extra);
      CellsOfDecimals(counters, extra, COLUMNS);
  }

  /** Interface lines among headers and malformed lines read back in order. */
  lemma NetDevRoundTrip(table: seq<Line>)
    requires ValidTable(table)
    ensures FilterMap(Row, Lines(PrintTable(Print, table))) == Meanings(Meaning, table)
  {
    forall l | l in table
      ensures '\n' !in Print(l) && Row(Print(l)) == Meaning(l)
    {
      PrintedLine(l);
    }
    PrintedTable(Row, Print, Meaning, table);
  }

  /** The counters of an interface in the order of the columns of the file: received, then sent. */
  function Counters(f: IfaceStats): (counters: seq<u64>)
    ensures |counters| == COLUMNS
  {
    [
      f.rxBytes, f.rxPackets, f.rxErrs, f.rxDrop, f.rxFifo, f.rxFrame, f.rxCompressed, f.rxMulticast,
      f.txBytes, f.txPackets, f.txErrs, f.txDrop, f.txFifo, f.txColls, f.txCarrier, f.txCompressed
    ]
  }

  /** Every column lands in the field of its name: a printed table of records reads back as the records. */
  lemma RecordsRoundTrip(table: seq<Line>, records: seq<IfaceStats>)
    requires ValidTable(table) && |table| == |records|
    requires forall i :: 0 <= i < |table| ==>
               table[i].Iface? && table[i].name == records[i].name && table[i].counters == Counters(records[i])
    ensures FilterMap(Row, Lines(PrintTable(Print, table))) == records
  {
    NetDevRoundTrip(table);
    forall i | 0 <= i < |table|
      ensures Meaning(table[i]) == Some(records[i])
    {
      FieldsInOrder(records[i]);
    }
    MeaningsOfAll(Meaning, table, records);
  }

  lemma FieldsInOrder(f: IfaceStats)
    ensures FromFields(f.name, Padded(Counters(f), COLUMNS)) == f
  {
  }
}
