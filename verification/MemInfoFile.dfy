/** `/proc/meminfo` (crates/procfs/src/meminfo.rs). */
module MemInfoFile {
  import opened Wrappers
  import opened Integers
  import opened Text
  import opened KeyedLines

  datatype MemInfo = MemInfo(
    memTotalKb: u64,
    memFreeKb: u64,
    memAvailableKb: u64,
    swapTotalKb: u64,
    swapFreeKb: u64,
    hugePagesTotal: u64,
    hugePagesFree: u64,
    hugePageSizeKb: u64)

  datatype Key =
    | MemTotal | MemFree | MemAvailable | SwapTotal | SwapFree
    | HugePagesTotal | HugePagesFree | HugePageSize | Unknown

  function KeyOf(key: Bytes): Key {
    if key == "MemTotal" then MemTotal
    else if key == "MemFree" then MemFree
    else if key == "MemAvailable" then MemAvailable
    else if key == "SwapTotal" then SwapTotal
    else if key == "SwapFree" then SwapFree
    else if key == "HugePages_Total" then HugePagesTotal
    else if key == "HugePages_Free" then HugePagesFree
    else if key == "Hugepagesize" then HugePageSize
    else Unknown
  }

  function Row(line: Bytes): Option<Field<Key>> {
    FieldOf(KeyOf, line)
  }

  function Fields(content: Bytes): seq<Field<Key>> {
    FilterMap(Row, Lines(content))
  }

  /** `is_required`. */
  predicate IsRequired(key: Key) {
    key == MemTotal || key == MemFree || key == SwapTotal || key == SwapFree
  }

  // ------------------------------------------------------------------ the declarative reading

  predicate Malformed(f: Field<Key>) {
    IsRequired(f.key) && ParseU64(f.value).None?
  }

  /** Every field is the last well-formed value of its key, or 0. */
  function MemInfoOf(fields: seq<Field<Key>>): MemInfo {
    FromNumbers(Lasts(fields))
  }

  /** The last well-formed value of each key, or 0. */
  function Lasts(fields: seq<Field<Key>>): Key -> u64 {
    key => LastU64(ValuesOf(fields, key))
  }

  function FromNumbers(number: Key -> u64): MemInfo {
    MemInfo(
      number(MemTotal), number(MemFree), number(MemAvailable), number(SwapTotal), number(SwapFree),
      number(HugePagesTotal), number(HugePagesFree), number(HugePageSize))
  }

  predicate Fails(fields: seq<Field<Key>>) {
    exists f <- fields :: Malformed(f)
  }

  /** The parse fails exactly when a line with a required key has an unparseable value. */
  function Reading(fields: seq<Field<Key>>): Option<MemInfo> {
    if Fails(fields) then None else Some(MemInfoOf(fields))
  }

  /** What one number does to the fields read so far. */
  function Updated(m: MemInfo, key: Key, n: u64): MemInfo {
    match key
    case MemTotal => m.(memTotalKb := n)
    case MemFree => m.(memFreeKb := n)
    case MemAvailable => m.(memAvailableKb := n)
    case SwapTotal => m.(swapTotalKb := n)
    case SwapFree => m.(swapFreeKb := n)
    case HugePagesTotal => m.(hugePagesTotal := n)
    case HugePagesFree => m.(hugePagesFree := n)
    case HugePageSize => m.(hugePageSizeKb := n)
    case Unknown => m
  }

  lemma OneNumberChanges(before: Key -> u64, after: Key -> u64, key: Key, n: u64)
    requires after(key) == n && forall k: Key :: k != key ==> after(k) == before(k)
    ensures FromNumbers(after) == Updated(FromNumbers(before), key, n)
  {
  }

  lemma MemInfoSnoc(fields: seq<Field<Key>>, f: Field<Key>)
    ensures MemInfoOf(fields + [f])
         == match ParseU64(f.value)
            case None => MemInfoOf(fields)
            case Some(n) => Updated(MemInfoOf(fields), f.key, n)
  {
    var before, after := Lasts(fields), Lasts(fields + [f]);
    forall k: Key
      ensures after(k) == if f.key == k && ParseU64(f.value).Some? then ParseU64(f.value).value else before(k)
    {
      LastU64Snoc(fields, f, k);
    }
    if ParseU64(f.value).Some? {
      OneNumberChanges(before, after, f.key, ParseU64(f.value).value);
    }
  }

  // ------------------------------------------------------------------ the parser

  /** `MemInfo::parse_meminfo`. */
  method ParseMeminfo(content: Bytes) returns (r: Option<MemInfo>)
    ensures r == Reading(Fields(content))
  {
    var mem := MemInfo(0, 0, 0, 0, 0, 0, 0, 0);
    var lines := Lines(content);
    ghost var fields: seq<Field<Key>> := [];
    for i := 0 to |lines|
      invariant fields == FilterMap(Row, lines[..i])
      invariant mem == MemInfoOf(fields)
      invariant forall f <- fields :: !Malformed(f)
    {
      var line := lines[i];
      FilterMapSnoc(Row, lines, i);
      var colon := Position(line, ':');
      if colon.None? {
        continue;
      }
      var key := KeyOf(Trim(line[..colon.value]));
      var valueToken := Nth(Tokens(line[colon.value + 1..]), 0);
      ghost var field := Field(key, valueToken);
      assert Row(line) == Some(field);
      MemInfoSnoc(fields, field);
      var value := ParseU64(valueToken);
      if value.None? && IsRequired(key) {
        FilterMapKeeps(Row, lines, i);
        assert Malformed(field);
        return None;
      }
      fields := fields + [field];
      if value.None? {
        continue;
      }
      match key {
        case MemTotal => mem := mem.(memTotalKb := value.value);
        case MemFree => mem := mem.(memFreeKb := value.value);
        case MemAvailable => mem := mem.(memAvailableKb := value.value);
        case SwapTotal => mem := mem.(swapTotalKb := value.value);
        case SwapFree => mem := mem.(swapFreeKb := value.value);
        case HugePagesTotal => mem := mem.(hugePagesTotal := value.value);
        case HugePagesFree => mem := mem.(hugePagesFree := value.value);
        case HugePageSize => mem := mem.(hugePageSizeKb := value.value);
        case Unknown =>
      }
    }
    assert lines[..|lines|] == lines;
    return Some(mem);
  }

  // ------------------------------------------------------------------ the documented promise

  ghost predicate MissesCoreField(fields: seq<Field<Key>>) {
    exists key: Key :: IsRequired(key) && ValuesOf(fields, key) == []
  }

  /** What the comment on the parser promises: a missing or a malformed core field fails the snapshot. */
  ghost predicate MeetsComment(fields: seq<Field<Key>>) {
    Reading(fields).None? <==> MissesCoreField(fields) || exists f <- fields :: Malformed(f)
  }

  /** The promise is kept exactly for files that have every core field, or a malformed one. */
  lemma CommentHoldsIff(content: Bytes)
    ensures var fields := Fields(content);
            MeetsComment(fields) <==> !MissesCoreField(fields) || exists f <- fields :: Malformed(f)
  {
    assert Reading(Fields(content)).None? <==> exists f <- Fields(content) :: Malformed(f);
  }

  /** Where it is not kept, the missing field is reported as 0. */
  lemma MissingFieldIsZero(content: Bytes, key: Key)
    requires IsRequired(key) && ValuesOf(Fields(content), key) == []
    ensures !MeetsComment(Fields(content)) ==>
              Reading(Fields(content)).Some? && Number(Reading(Fields(content)).value, key) == 0
  {
    CommentHoldsIff(content);
  }

  function Number(m: MemInfo, key: Key): u64 {
    match key
    case MemTotal => m.memTotalKb
    case MemFree => m.memFreeKb
    case MemAvailable => m.memAvailableKb
    case SwapTotal => m.swapTotalKb
    case SwapFree => m.swapFreeKb
    case HugePagesTotal => m.hugePagesTotal
    case HugePagesFree => m.hugePagesFree
    case HugePageSize => m.hugePageSizeKb
    case Unknown => 0
  }

  /** An empty file is accepted, with every size 0. */
  lemma EmptyFileIsAccepted()
    ensures !MeetsComment(Fields([]))
    ensures Reading(Fields([])) == Some(MemInfo(0, 0, 0, 0, 0, 0, 0, 0))
  {
    assert Lines([]) == [[]];
    assert Fields([]) == [];
    assert IsRequired(MemTotal) && ValuesOf(Fields([]), MemTotal) == [];
  }

  // ------------------------------------------------------------------ the file as the kernel prints it

  /** The text of a known key. */
  function KeyText(key: Key): Bytes
    requires key != Unknown
  {
    match key
    case MemTotal => "MemTotal"
    case MemFree => "MemFree"
    case MemAvailable => "MemAvailable"
    case SwapTotal => "SwapTotal"
    case SwapFree => "SwapFree"
    case HugePagesTotal => "HugePages_Total"
    case HugePagesFree => "HugePages_Free"
    case HugePageSize => "Hugepagesize"
  }

  /** Each arm of the match takes one text: none shadows another, and no other text gets there. */
  lemma KeysAreExact(key: Key, text: Bytes)
    requires key != Unknown
    ensures KeyOf(text) == key <==> text == KeyText(key)
  {
    match key {
      case MemTotal => case MemFree => case MemAvailable => case SwapTotal => case SwapFree =>
      case HugePagesTotal => case HugePagesFree => case HugePageSize =>
    }
  }

  lemma KeysAreTokens(key: Key)
    requires key != Unknown
    ensures IsToken(KeyText(key)) && ':' !in KeyText(key)
  {
    match key {
      case MemTotal | MemFree | MemAvailable | SwapTotal | SwapFree => ShortKey(key);
      case HugePagesTotal | HugePagesFree | HugePageSize => LongKey(key);
    }
  }

  lemma ShortKey(key: Key)
    requires key == MemTotal || key == MemFree || key == MemAvailable || key == SwapTotal || key == SwapFree
    ensures IsToken(KeyText(key)) && ':' !in KeyText(key)
  {
  }

  lemma LongKey(key: Key)
    requires key == HugePagesTotal || key == HugePagesFree || key == HugePageSize
    ensures IsToken(KeyText(key)) && ':' !in KeyText(key)
  {
  }

  function KeyTexts(): Key -> Bytes {
    key => if key == Unknown then [] else KeyText(key)
  }

  function ValueTexts(m: MemInfo): Key -> Bytes {
    key => Decimal(Number(m, key))
  }

  /** The file of a snapshot, key by key. */
  function LayoutOf(m: MemInfo): Layout<Key> {
    Layout(key => key != Unknown, KeyTexts(), ValueTexts(m))
  }

  lemma LayoutIsRead(m: MemInfo)
    ensures LayoutOf(m).IsReadBy(KeyOf)
  {
    forall key: Key | key != Unknown
      ensures IsToken(KeyText(key)) && ':' !in KeyText(key)
      ensures forall t: Bytes :: KeyOf(t) == key <==> t == KeyText(key)
    {
      KeysAreTokens(key);
      forall t: Bytes
        ensures KeyOf(t) == key <==> t == KeyText(key)
      {
        KeysAreExact(key, t);
      }
    }
  }

  lemma PrintedOnce(fields: seq<Field<Key>>, m: MemInfo)
    requires forall key: Key :: key != Unknown ==> ValuesOf(fields, key) == [Some(Decimal(Number(m, key)))]
    ensures Reading(fields) == Some(m)
  {
    forall key: Key | key != Unknown
      ensures Lasts(fields)(key) == Number(m, key)
      ensures ParseU64(Some(Decimal(Number(m, key)))).Some?
    {
      ParseDecimal(Number(m, key));
    }
    forall f | f in fields
      ensures !Malformed(f)
    {
      if IsRequired(f.key) {
        ValuesOfContains(fields, f.key, f.value);
        assert f.value in [Some(Decimal(Number(m, f.key)))];
      }
    }
  }

  /**
   A file that prints the eight sizes once each under their own texts, in any order and any spacing, with units
   and other lines in between, reads back as those sizes.
   */
  lemma MeminfoRoundTrip(m: MemInfo, table: seq<PrintedLine<Key>>)
    requires LayoutOf(m).IsTable(table)
    ensures Reading(Fields(PrintTable(LayoutOf(m).Print(), table))) == Some(m)
  {
    var layout := LayoutOf(m);
    LayoutIsRead(m);
    var fields := Fields(PrintTable(layout.Print(), table));
    forall key: Key | key != Unknown
      ensures ValuesOf(fields, key) == [Some(Decimal(Number(m, key)))]
    {
      ValuesOfPrinted(layout, Row, KeyOf, table, key);
    }
    PrintedOnce(fields, m);
  }

  // ------------------------------------------------------------------ by the texts of the keys

  /** The values written under the text of a key. */
  function Under(content: Bytes, key: Key): seq<Option<Bytes>>
    requires key != Unknown
  {
    Written(content, KeyText(key))
  }

  ghost predicate AllU64(values: seq<Option<Bytes>>) {
    forall v <- values :: ParseU64(v).Some?
  }

  /** The last well-formed value under each text, 0 where there is none. */
  function LastWritten(content: Bytes): MemInfo {
    MemInfo(
      LastU64(Under(content, MemTotal)), LastU64(Under(content, MemFree)), LastU64(Under(content, MemAvailable)),
      LastU64(Under(content, SwapTotal)), LastU64(Under(content, SwapFree)),
      LastU64(Under(content, HugePagesTotal)), LastU64(Under(content, HugePagesFree)),
      LastU64(Under(content, HugePageSize)))
  }

  lemma ValuesAreWritten(content: Bytes, key: Key)
    requires key != Unknown
    ensures ValuesOf(Fields(content), key) == Under(content, key)
  {
    forall t: Bytes
      ensures KeyOf(t) == key <==> t == KeyText(key)
    {
      KeysAreExact(key, t);
    }
    ValuesByText(Row, KeyOf, Lines(content), key, KeyText(key));
  }

  lemma NoneMalformed(content: Bytes)
    ensures Fails(Fields(content)) <==>
              !(AllU64(Under(content, MemTotal)) && AllU64(Under(content, MemFree))
                && AllU64(Under(content, SwapTotal)) && AllU64(Under(content, SwapFree)))
  {
    var fields := Fields(content);
    forall key: Key | IsRequired(key)
      ensures AllU64(Under(content, key)) <==> forall f <- fields :: f.key == key ==> ParseU64(f.value).Some?
    {
      ValuesAreWritten(content, key);
      forall v | v in ValuesOf(fields, key)
        ensures Field(key, v) in fields
      {
        ValuesOfContains(fields, key, v);
      }
      forall f | f in fields && f.key == key
        ensures f.value in ValuesOf(fields, key)
      {
        ValuesOfContains(fields, key, f.value);
      }
    }
    assert IsRequired(MemTotal) && IsRequired(MemFree) && IsRequired(SwapTotal) && IsRequired(SwapFree);
  }

  /**
   Any content: the parse fails if and only if a line with one of the four required texts has no number; each
   size is then the last number under its own text, or 0.
   */
  lemma ReadingByText(content: Bytes)
    ensures Reading(Fields(content))
         == if AllU64(Under(content, MemTotal)) && AllU64(Under(content, MemFree))
               && AllU64(Under(content, SwapTotal)) && AllU64(Under(content, SwapFree))
            then Some(LastWritten(content)) else None
  {
    NoneMalformed(content);
    forall key: Key | key != Unknown
      ensures Lasts(Fields(content))(key) == LastU64(Under(content, key))
    {
      ValuesAreWritten(content, key);
    }
  }
}
