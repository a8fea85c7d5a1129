/** `/proc/<pid>/status` (crates/procfs/src/process/status.rs). */
module StatusFile {
  import opened Wrappers
  import opened Integers
  import opened Text
  import opened KeyedLines

  datatype Status = Status(
    ppid: i32,
    state: char,
    vmSizeKb: u64,
    vmRssKb: u64,
    vmHwmKb: u64,
    rssAnonKb: u64,
    rssFileKb: u64,
    rssShmemKb: u64,
    vmSwapKb: u64,
    hugetlbPagesKb: u64,
    fdSize: u64,
    threads: u64,
    voluntaryCtxtSwitches: u64,
    nonvoluntaryCtxtSwitches: u64)

  /** The arms of the match on the key; `Unknown` is the wildcard. */
  datatype Key =
    | PPid | State | VmSize | VmRSS | VmHWM | RssAnon | RssFile | RssShmem | VmSwap | HugetlbPages
    | FDSize | Threads | VoluntaryCtxtSwitches | NonvoluntaryCtxtSwitches | Unknown

  function KeyOf(key: Bytes): Key {
    if key == "PPid" then PPid
    else if key == "State" then State
    else if key == "VmSize" then VmSize
    else if key == "VmRSS" then VmRSS
    else if key == "VmHWM" then VmHWM
    else if key == "RssAnon" then RssAnon
    else if key == "RssFile" then RssFile
    else if key == "RssShmem" then RssShmem
    else if key == "VmSwap" then VmSwap
    else if key == "HugetlbPages" then HugetlbPages
    else if key == "FDSize" then FDSize
    else if key == "Threads" then Threads
    else if key == "voluntary_ctxt_switches" then VoluntaryCtxtSwitches
    else if key == "nonvoluntary_ctxt_switches" then NonvoluntaryCtxtSwitches
    else Unknown
  }

  function Row(line: Bytes): Option<Field<Key>> {
    FieldOf(KeyOf, line)
  }

  function Fields(content: Bytes): seq<Field<Key>> {
    FilterMap(Row, Lines(content))
  }

  // ------------------------------------------------------------------ the declarative reading

  function Of(fields: seq<Field<Key>>, key: Key): seq<Option<Bytes>> {
    ValuesOf(fields, key)
  }

  /** A value with which a line of this key does not fail the parse. */
  predicate WellFormed(key: Key, value: Option<Bytes>) {
    match key
    case PPid => ParseI32(value).Some?
    case State => value.Some? && value.value != []
    case VmSize | VmRSS => ParseU64(value).Some?
    case _ => true
  }

  /** Each required key occurs, and no line of a required key is malformed. */
  predicate Acceptable(fields: seq<Field<Key>>) {
    && Of(fields, PPid) != [] && Of(fields, State) != [] && Of(fields, VmSize) != [] && Of(fields, VmRSS) != []
    && NothingMalformed(fields)
  }

  predicate NothingMalformed(fields: seq<Field<Key>>) {
    forall f <- fields :: WellFormed(f.key, f.value)
  }

  /** The last i32 among the values of `PPid`. */
  function LastI32(values: seq<Option<Bytes>>): i32 {
    if values == [] then 0
    else
      match ParseI32(values[|values| - 1])
      case Some(v) => v
      case None => LastI32(values[..|values| - 1])
  }

  /** The first character of the last value of `State`. */
  function LastState(values: seq<Option<Bytes>>): char {
    if values == [] then 0 as char
    else
      match values[|values| - 1]
      case Some(token) => if token != [] then token[0] else LastState(values[..|values| - 1])
      case None => LastState(values[..|values| - 1])
  }

  /** Every field is the last well-formed value of its key. */
  function StatusOf(fields: seq<Field<Key>>): Status {
    Status(
      LastI32(Of(fields, PPid)),
      LastState(Of(fields, State)),
      LastU64(Of(fields, VmSize)),
      LastU64(Of(fields, VmRSS)),
      LastU64(Of(fields, VmHWM)),
      LastU64(Of(fields, RssAnon)),
      LastU64(Of(fields, RssFile)),
      LastU64(Of(fields, RssShmem)),
      LastU64(Of(fields, VmSwap)),
      LastU64(Of(fields, HugetlbPages)),
      LastU64(Of(fields, FDSize)),
      LastU64(Of(fields, Threads)),
      LastU64(Of(fields, VoluntaryCtxtSwitches)),
      LastU64(Of(fields, NonvoluntaryCtxtSwitches)))
  }

  /** The number a status has for a key. */
  function Number(s: Status, key: Key): u64 {
    match key
    case VmSize => s.vmSizeKb
    case VmRSS => s.vmRssKb
    case VmHWM => s.vmHwmKb
    case RssAnon => s.rssAnonKb
    case RssFile => s.rssFileKb
    case RssShmem => s.rssShmemKb
    case VmSwap => s.vmSwapKb
    case HugetlbPages => s.hugetlbPagesKb
    case FDSize => s.fdSize
    case Threads => s.threads
    case VoluntaryCtxtSwitches => s.voluntaryCtxtSwitches
    case NonvoluntaryCtxtSwitches => s.nonvoluntaryCtxtSwitches
    case PPid | State | Unknown => 0
  }

  lemma NumberIsLast(fields: seq<Field<Key>>, key: Key)
    requires key != PPid && key != State && key != Unknown
    ensures Number(StatusOf(fields), key) == LastU64(Of(fields, key))
  {
  }

  function Reading(fields: seq<Field<Key>>): Option<Status> {
    if Acceptable(fields) then Some(StatusOf(fields)) else None
  }

  /** What one well-formed line does to the fields read so far. */
  function Updated(s: Status, key: Key, value: Option<Bytes>): Status
    requires WellFormed(key, value)
  {
    match key
    case PPid => s.(ppid := ParseI32(value).value)
    case State => s.(state := value.value[0])
    case Unknown => s
    case _ =>
      match ParseU64(value)
      case None => s
      case Some(n) =>
        match key
        case VmSize => s.(vmSizeKb := n)
        case VmRSS => s.(vmRssKb := n)
        case VmHWM => s.(vmHwmKb := n)
        case RssAnon => s.(rssAnonKb := n)
        case RssFile => s.(rssFileKb := n)
        case RssShmem => s.(rssShmemKb := n)
        case VmSwap => s.(vmSwapKb := n)
        case HugetlbPages => s.(hugetlbPagesKb := n)
        case FDSize => s.(fdSize := n)
        case Threads => s.(threads := n)
        case VoluntaryCtxtSwitches => s.(voluntaryCtxtSwitches := n)
        case NonvoluntaryCtxtSwitches => s.(nonvoluntaryCtxtSwitches := n)
  }

  /** The value is that of the last i32, or 0 if there is none. */
  lemma {:induction false} LastI32IsLast(values: seq<Option<Bytes>>)
    ensures
      || (exists j :: 0 <= j < |values| && ParseI32(values[j]) == Some(LastI32(values))
                      && forall k :: j < k < |values| ==> ParseI32(values[k]).None?)
      || (LastI32(values) == 0 && forall k :: 0 <= k < |values| ==> ParseI32(values[k]).None?)
  {
    if values != [] {
      var last := |values| - 1;
      LastI32IsLast(values[..last]);
      if ParseI32(values[last]).None? {
        assert forall k :: 0 <= k < last ==> values[..last][k] == values[k];
      }
    }
  }

  /** The state is the first byte of the last value, whatever follows it, if that is not empty. */
  lemma LastStateIsFirstByte(values: seq<Option<Bytes>>, state: byte, rest: Bytes)
    ensures LastState(values + [Some([state] + rest)]) == state
  {
    LastStateSnoc(values, Some([state] + rest));
  }

  lemma LastI32Snoc(values: seq<Option<Bytes>>, value: Option<Bytes>)
    ensures LastI32(values + [value]) == match ParseI32(value) case Some(v) => v case None => LastI32(values)
  {
    assert (values + [value])[..|values|] == values;
  }

  lemma LastStateSnoc(values: seq<Option<Bytes>>, value: Option<Bytes>)
    requires WellFormed(State, value)
    ensures LastState(values + [value]) == value.value[0]
  {
  }

  lemma {:induction false} StatusSnoc(fields: seq<Field<Key>>, field: Field<Key>)
    requires WellFormed(field.key, field.value)
    ensures StatusOf(fields + [field]) == Updated(StatusOf(fields), field.key, field.value)
  {
    var key := field.key;
    ValuesSnoc(fields, field, PPid);
    ValuesSnoc(fields, field, State);
    LastI32Snoc(Of(fields, PPid), field.value);
    if key == State {
      LastStateSnoc(Of(fields, State), field.value);
    }
    LastU64Snoc(fields, field, VmSize);
    LastU64Snoc(fields, field, VmRSS);
    LastU64Snoc(fields, field, VmHWM);
    LastU64Snoc(fields, field, RssAnon);
    LastU64Snoc(fields, field, RssFile);
    LastU64Snoc(fields, field, RssShmem);
    LastU64Snoc(fields, field, VmSwap);
    LastU64Snoc(fields, field, HugetlbPages);
    LastU64Snoc(fields, field, FDSize);
    LastU64Snoc(fields, field, Threads);
    LastU64Snoc(fields, field, VoluntaryCtxtSwitches);
    LastU64Snoc(fields, field, NonvoluntaryCtxtSwitches);
  }

  /** Which required keys have been seen after one more line. */
  lemma SeenSnoc(fields: seq<Field<Key>>, field: Field<Key>, key: Key)
    ensures Of(fields + [field], key) != [] <==> Of(fields, key) != [] || field.key == key
  {
    ValuesSnoc(fields, field, key);
  }

  // ------------------------------------------------------------------ the parser

  /** The match of the parser on one key; None is an early return of the error. */
  method ReadField(status: Status, key: Key, value: Option<Bytes>) returns (r: Option<Status>)
    ensures r == if WellFormed(key, value) then Some(Updated(status, key, value)) else None
  {
    var number := ParseU64(value);
    match key {
      case PPid =>
        var ppid := ParseI32(value);
        if ppid.None? { return None; }
        return Some(status.(ppid := ppid.value));
      case State =>
        if value.None? || value.value == [] { return None; }
        return Some(status.(state := value.value[0]));
      case VmSize =>
        if number.None? { return None; }
        return Some(status.(vmSizeKb := number.value));
      case VmRSS =>
        if number.None? { return None; }
        return Some(status.(vmRssKb := number.value));
      case VmHWM => if number.Some? { return Some(status.(vmHwmKb := number.value)); }
      case RssAnon => if number.Some? { return Some(status.(rssAnonKb := number.value)); }
      case RssFile => if number.Some? { return Some(status.(rssFileKb := number.value)); }
      case RssShmem => if number.Some? { return Some(status.(rssShmemKb := number.value)); }
      case VmSwap => if number.Some? { return Some(status.(vmSwapKb := number.value)); }
      case HugetlbPages => if number.Some? { return Some(status.(hugetlbPagesKb := number.value)); }
      case FDSize => if number.Some? { return Some(status.(fdSize := number.value)); }
      case Threads => if number.Some? { return Some(status.(threads := number.value)); }
      case VoluntaryCtxtSwitches =>
        if number.Some? { return Some(status.(voluntaryCtxtSwitches := number.value)); }
      case NonvoluntaryCtxtSwitches =>
        if number.Some? { return Some(status.(nonvoluntaryCtxtSwitches := number.value)); }
      case Unknown =>
    }
    return Some(status);
  }

  /** `Status::parse_status`. */
  method ParseStatus(content: Bytes) returns (r: Option<Status>)
    ensures r == Reading(Fields(content))
  {
    var status := Status(0, 0 as char, 0, 0, 0, 0, 0, 0, 0, 0, 0, 0, 0, 0);
    var ppidSeen, stateSeen, vmSizeSeen, vmRssSeen := false, false, false, false;
    var lines := Lines(content);
    ghost var fields: seq<Field<Key>> := [];
    for i := 0 to |lines|
      invariant fields == FilterMap(Row, lines[..i])
      invariant status == StatusOf(fields)
      invariant NothingMalformed(fields)
      invariant ppidSeen == (Of(fields, PPid) != [])
      invariant stateSeen == (Of(fields, State) != [])
      invariant vmSizeSeen == (Of(fields, VmSize) != [])
      invariant vmRssSeen == (Of(fields, VmRSS) != [])
    {
      var line := lines[i];
      FilterMapSnoc(Row, lines, i);
      var colon := Position(line, ':');
      if colon.None? {
        continue;
      }
      var key := KeyOf(Trim(line[..colon.value]));
      var value := Nth(Tokens(line[colon.value + 1..]), 0);
      ghost var field := Field(key, value);
      assert Row(line) == Some(field);
      var read := ReadField(status, key, value);
      if read.None? {
        FilterMapKeeps(Row, lines, i);
        return None;
      }
      StatusSnoc(fields, field);
      SeenSnoc(fields, field, PPid);
      SeenSnoc(fields, field, State);
      SeenSnoc(fields, field, VmSize);
      SeenSnoc(fields, field, VmRSS);
      fields := fields + [field];
      status := read.value;
      ppidSeen := ppidSeen || key == PPid;
      stateSeen := stateSeen || key == State;
      vmSizeSeen := vmSizeSeen || key == VmSize;
      vmRssSeen := vmRssSeen || key == VmRSS;
    }
    assert lines[..|lines|] == lines;
    if !ppidSeen || !stateSeen || !vmSizeSeen || !vmRssSeen {
      return None;
    }
    return Some(status);
  }

  // ------------------------------------------------------------------ what does not matter

  /**
   The result depends on nothing but the values of each known key in their own order: lines with
   different keys can be moved past each other, lines with an unknown key or none can come and go.
   */
  lemma ReadingDependsOnValues(a: seq<Field<Key>>, b: seq<Field<Key>>)
    requires forall key: Key :: key != Unknown ==> Of(a, key) == Of(b, key)
    ensures Reading(a) == Reading(b)
  {
    if NothingMalformed(a) {
      MalformedByKey(a, b);
    }
    if NothingMalformed(b) {
      MalformedByKey(b, a);
    }
  }

  lemma MalformedByKey(a: seq<Field<Key>>, b: seq<Field<Key>>)
    requires forall key: Key :: key != Unknown ==> Of(a, key) == Of(b, key)
    requires NothingMalformed(a)
    ensures NothingMalformed(b)
  {
    forall f | f in b
      ensures WellFormed(f.key, f.value)
    {
      if f.key != Unknown {
        assert Of(a, f.key) == Of(b, f.key);
        ValuesOfContains(b, f.key, f.value);
        ValuesOfContains(a, f.key, f.value);
        assert f in a;
      }
    }
  }

  /** Two neighbouring lines can change places unless they have the same known key. */
  lemma LinesCommute(before: seq<Bytes>, x: Bytes, y: Bytes, after: seq<Bytes>)
    requires forall key: Key :: key != Unknown ==> Adds(Row, x, key) == [] || Adds(Row, y, key) == []
    ensures Reading(FilterMap(Row, before + [x, y] + after)) == Reading(FilterMap(Row, before + [y, x] + after))
  {
    var a, b := FilterMap(Row, before + [x, y] + after), FilterMap(Row, before + [y, x] + after);
    forall key: Key | key != Unknown
      ensures Of(a, key) == Of(b, key)
    {
      ValuesOfSwapped(Row, before, x, y, after, key);
    }
    ReadingDependsOnValues(a, b);
  }

  /** A line without a colon or with an unknown key can be put in or left out anywhere. */
  lemma OtherLinesAreIgnored(before: seq<Bytes>, line: Bytes, after: seq<Bytes>)
    requires forall key: Key :: key != Unknown ==> Adds(Row, line, key) == []
    ensures Reading(FilterMap(Row, before + [line] + after)) == Reading(FilterMap(Row, before + after))
  {
    var a, b := FilterMap(Row, before + [line] + after), FilterMap(Row, before + after);
    forall key: Key | key != Unknown
      ensures Of(a, key) == Of(b, key)
    {
      ValuesOfLines(Row, before, line, after, key);
      LineValuesConcat(Row, before, after, key);
      assert LineValues(Row, before, key) + [] == LineValues(Row, before, key);
    }
    ReadingDependsOnValues(a, b);
  }

  // ------------------------------------------------------------------ the file as the kernel prints it

  /** The text of a known key. */
  function KeyText(key: Key): Bytes
    requires key != Unknown
  {
    match key
    case PPid => "PPid"
    case State => "State"
    case VmSize => "VmSize"
    case VmRSS => "VmRSS"
    case VmHWM => "VmHWM"
    case RssAnon => "RssAnon"
    case RssFile => "RssFile"
    case RssShmem => "RssShmem"
    case VmSwap => "VmSwap"
    case HugetlbPages => "HugetlbPages"
    case FDSize => "FDSize"
    case Threads => "Threads"
    case VoluntaryCtxtSwitches => "voluntary_ctxt_switches"
    case NonvoluntaryCtxtSwitches => "nonvoluntary_ctxt_switches"
  }

  /** Each arm of the match takes one text: none shadows another, and no other text gets there. */
  lemma KeysAreExact(key: Key, text: Bytes)
    requires key != Unknown
    ensures KeyOf(text) == key <==> text == KeyText(key)
  {
    match key {
      case PPid => case State => case VmSize => case VmRSS => case VmHWM => case RssAnon => case RssFile =>
      case RssShmem => case VmSwap => case HugetlbPages => case FDSize => case Threads =>
      case VoluntaryCtxtSwitches => case NonvoluntaryCtxtSwitches =>
    }
  }

  lemma KeysAreTokens(key: Key)
    requires key != Unknown
    ensures IsToken(KeyText(key)) && ':' !in KeyText(key)
  {
    match key {
      case PPid | State | VmSize | VmRSS | VmHWM => ShortKey(key);
      case RssAnon | RssFile | RssShmem | VmSwap | FDSize | Threads => MiddleKey(key);
      case HugetlbPages => LongKey();
      case VoluntaryCtxtSwitches => VoluntaryKey();
      case NonvoluntaryCtxtSwitches => NonvoluntaryKey();
    }
  }

  lemma ShortKey(key: Key)
    requires key == PPid || key == State || key == VmSize || key == VmRSS || key == VmHWM
    ensures IsToken(KeyText(key)) && ':' !in KeyText(key)
  {
  }

  lemma MiddleKey(key: Key)
    requires key == RssAnon || key == RssFile || key == RssShmem || key == VmSwap || key == FDSize || key == Threads
    ensures IsToken(KeyText(key)) && ':' !in KeyText(key)
  {
  }

  lemma LongKey()
    ensures IsToken(KeyText(HugetlbPages)) && ':' !in KeyText(HugetlbPages)
  {
  }

  lemma VoluntaryKey()
    ensures IsToken(KeyText(VoluntaryCtxtSwitches)) && ':' !in KeyText(VoluntaryCtxtSwitches)
  {
  }

  lemma NonvoluntaryKey()
    ensures IsToken(KeyText(NonvoluntaryCtxtSwitches)) && ':' !in KeyText(NonvoluntaryCtxtSwitches)
  {
  }

  /** The value the kernel prints for a key. */
  function ValueText(s: Status, key: Key): Bytes
    requires key != Unknown && (s.state as int) < 256
  {
    match key
    case PPid => SignedDecimal(s.ppid)
    case State => [s.state]
    case VmSize => Decimal(s.vmSizeKb)
    case VmRSS => Decimal(s.vmRssKb)
    case VmHWM => Decimal(s.vmHwmKb)
    case RssAnon => Decimal(s.rssAnonKb)
    case RssFile => Decimal(s.rssFileKb)
    case RssShmem => Decimal(s.rssShmemKb)
    case VmSwap => Decimal(s.vmSwapKb)
    case HugetlbPages => Decimal(s.hugetlbPagesKb)
    case FDSize => Decimal(s.fdSize)
    case Threads => Decimal(s.threads)
    case VoluntaryCtxtSwitches => Decimal(s.voluntaryCtxtSwitches)
    case NonvoluntaryCtxtSwitches => Decimal(s.nonvoluntaryCtxtSwitches)
  }

  function KeyTexts(): Key -> Bytes {
    key => if key == Unknown then [] else KeyText(key)
  }

  function ValueTexts(s: Status): Key -> Bytes
    requires (s.state as int) < 256
  {
    key => if key == Unknown then [] else ValueText(s, key)
  }

  /** The file of a status, key by key. */
  function LayoutOf(s: Status): Layout<Key>
    requires (s.state as int) < 256
  {
    Layout(key => key != Unknown, KeyTexts(), ValueTexts(s))
  }

  /** The fields of a file that prints each value of a status once. */
  ghost predicate Reports(fields: seq<Field<Key>>, s: Status) {
    (s.state as int) < 256 && forall key: Key :: key != Unknown ==> Of(fields, key) == [Some(ValueText(s, key))]
  }

  lemma ReportedValue(fields: seq<Field<Key>>, s: Status, f: Field<Key>)
    requires Reports(fields, s) && f in fields
    ensures WellFormed(f.key, f.value)
  {
    if f.key != Unknown {
      ValuesOfContains(fields, f.key, f.value);
      assert Of(fields, f.key) == [Some(ValueText(s, f.key))];
      ParseSignedDecimal(s.ppid);
      ParseDecimal(s.vmSizeKb);
      ParseDecimal(s.vmRssKb);
    }
  }

  lemma ReportIsAcceptable(fields: seq<Field<Key>>, s: Status)
    requires Reports(fields, s)
    ensures Acceptable(fields)
  {
    forall f | f in fields
      ensures WellFormed(f.key, f.value)
    {
      ReportedValue(fields, s, f);
    }
  }

  lemma ReportedNumber(fields: seq<Field<Key>>, s: Status, key: Key, n: u64)
    requires Reports(fields, s) && key != Unknown && ValueText(s, key) == Decimal(n)
    ensures LastU64(Of(fields, key)) == n
  {
    assert Of(fields, key) == [Some(Decimal(n))];
    ParseDecimal(n);
  }

  lemma ReportedIdentity(fields: seq<Field<Key>>, s: Status)
    requires Reports(fields, s)
    ensures LastI32(Of(fields, PPid)) == s.ppid && LastState(Of(fields, State)) == s.state
  {
    assert Of(fields, PPid) == [Some(SignedDecimal(s.ppid))];
    ParseSignedDecimal(s.ppid);
    assert Of(fields, State) == [Some([s.state])];
  }

  lemma ReportIsRead(fields: seq<Field<Key>>, s: Status)
    requires Reports(fields, s)
    ensures StatusOf(fields) == s
  {
    ReportedIdentity(fields, s);
    ReportedSizes(fields, s);
    ReportedCounts(fields, s);
  }

  lemma ReportedSizes(fields: seq<Field<Key>>, s: Status)
    requires Reports(fields, s)
    ensures LastU64(Of(fields, VmSize)) == s.vmSizeKb && LastU64(Of(fields, VmRSS)) == s.vmRssKb
    ensures LastU64(Of(fields, VmHWM)) == s.vmHwmKb && LastU64(Of(fields, RssAnon)) == s.rssAnonKb
    ensures LastU64(Of(fields, RssFile)) == s.rssFileKb && LastU64(Of(fields, RssShmem)) == s.rssShmemKb
    ensures LastU64(Of(fields, VmSwap)) == s.vmSwapKb && LastU64(Of(fields, HugetlbPages)) == s.hugetlbPagesKb
  {
    ReportedNumber(fields, s, VmSize, s.vmSizeKb);
    ReportedNumber(fields, s, VmRSS, s.vmRssKb);
    ReportedNumber(fields, s, VmHWM, s.vmHwmKb);
    ReportedNumber(fields, s, RssAnon, s.rssAnonKb);
    ReportedNumber(fields, s, RssFile, s.rssFileKb);
    ReportedNumber(fields, s, RssShmem, s.rssShmemKb);
    ReportedNumber(fields, s, VmSwap, s.vmSwapKb);
    ReportedNumber(fields, s, HugetlbPages, s.hugetlbPagesKb);
  }

  lemma ReportedCounts(fields: seq<Field<Key>>, s: Status)
    requires Reports(fields, s)
    ensures LastU64(Of(fields, FDSize)) == s.fdSize && LastU64(Of(fields, Threads)) == s.threads
    ensures LastU64(Of(fields, VoluntaryCtxtSwitches)) == s.voluntaryCtxtSwitches
    ensures LastU64(Of(fields, NonvoluntaryCtxtSwitches)) == s.nonvoluntaryCtxtSwitches
  {
    ReportedNumber(fields, s, FDSize, s.fdSize);
    ReportedNumber(fields, s, Threads, s.threads);
    ReportedNumber(fields, s, VoluntaryCtxtSwitches, s.voluntaryCtxtSwitches);
    ReportedNumber(fields, s, NonvoluntaryCtxtSwitches, s.nonvoluntaryCtxtSwitches);
  }

  lemma LayoutIsRead(s: Status)
    requires (s.state as int) < 256 && !IsWhitespace(s.state)
    ensures LayoutOf(s).IsReadBy(KeyOf)
  {
    forall key: Key | key != Unknown
      ensures IsToken(KeyText(key)) && ':' !in KeyText(key) && IsToken(ValueText(s, key))
      ensures forall t: Bytes :: KeyOf(t) == key <==> t == KeyText(key)
    {
      KeysAreTokens(key);
      forall t: Bytes
        ensures KeyOf(t) == key <==> t == KeyText(key)
      {
        KeysAreExact(key, t);
      }
    }
  }

  /**
   A file that prints each field of a status once, in any order and any spacing, with units and other
   lines in between, reads back as that status.
   */
  lemma StatusRoundTrip(s: Status, table: seq<PrintedLine<Key>>)
    requires (s.state as int) < 256 && !IsWhitespace(s.state) && LayoutOf(s).IsTable(table)
    ensures Reading(Fields(PrintTable(LayoutOf(s).Print(), table))) == Some(s)
  {
    var layout := LayoutOf(s);
    var fields := Fields(PrintTable(layout.Print(), table));
    LayoutIsRead(s);
    forall key: Key | key != Unknown
      ensures Of(fields, key) == [Some(ValueText(s, key))]
    {
      ValuesOfPrinted(layout, Row, KeyOf, table, key);
    }
    ReportIsAcceptable(fields, s);
    ReportIsRead(fields, s);
  }

  /** The byte after the colon in the file of the kernel is a tab; then any number of blanks. */
  predicate TabAligned(gap: Bytes) {
    gap != [] && gap[0] == '\t' && forall i :: 0 < i < |gap| ==> gap[i] == ' '
  }

  /** A line as the kernel prints it: nothing after the value, or a blank and then anything. */
  predicate KernelLine(l: PrintedLine<Key>) {
    match l
    case Entry(key, gap, note) =>
      key != Unknown && TabAligned(gap) && (note != [] ==> note[0] == ' ') && '\n' !in note
    case Foreign(_) => true
  }

  /** What is written before the colon of another line is the text of no key. */
  ghost predicate OtherLine(l: PrintedLine<Key>) {
    match l
    case Entry(_, _, _) => true
    case Foreign(line) =>
      '\n' !in line && (TextRow(line).Some? ==> forall key: Key :: key != Unknown ==> TextRow(line).value.key != KeyText(key))
  }

  /**
   The layout of the kernel: the text of the key, a colon, a tab, blanks, the value, and whatever follows a
   blank.  With every key on one line, in any order and with other lines between, it reads back as the status.
   */
  lemma KernelLayoutIsRead(s: Status, table: seq<PrintedLine<Key>>)
    requires (s.state as int) < 256 && !IsBreak(s.state) && table != []
    requires forall l <- table :: KernelLine(l) && OtherLine(l)
    requires forall key: Key :: key != Unknown ==> multiset(LayoutOf(s).Keys(table))[key] == 1
    ensures Reading(Fields(PrintTable(LayoutOf(s).Print(), table))) == Some(s)
  {
    forall l | l in table
      ensures LayoutOf(s).IsLine(l)
    {
      if l.Entry? {
        forall c | c in l.gap
          ensures IsWhitespace(c) && c != '\n'
        {
        }
      }
    }
    StatusRoundTrip(s, table);
  }

  // ------------------------------------------------------------------ by the texts of the keys

  ghost predicate AllU64(values: seq<Option<Bytes>>) {
    forall v <- values :: ParseU64(v).Some?
  }

  ghost predicate AllI32(values: seq<Option<Bytes>>) {
    forall v <- values :: ParseI32(v).Some?
  }

  ghost predicate AllPresent(values: seq<Option<Bytes>>) {
    forall v <- values :: v.Some? && v.value != []
  }

  /** The values written under the text of a key. */
  function Under(content: Bytes, key: Key): seq<Option<Bytes>>
    requires key != Unknown
  {
    Written(content, KeyText(key))
  }

  /** A line of `PPid`, `State`, `VmSize` and `VmRSS` each, and none of these without a value that can be read. */
  ghost predicate HasRequired(content: Bytes) {
    && Under(content, PPid) != [] && AllI32(Under(content, PPid))
    && Under(content, State) != [] && AllPresent(Under(content, State))
    && Under(content, VmSize) != [] && AllU64(Under(content, VmSize))
    && Under(content, VmRSS) != [] && AllU64(Under(content, VmRSS))
  }

  /** The last well-formed value under each text, 0 where there is none. */
  function LastWritten(content: Bytes): Status {
    Status(
      LastI32(Under(content, PPid)),
      LastState(Under(content, State)),
      LastU64(Under(content, VmSize)),
      LastU64(Under(content, VmRSS)),
      LastU64(Under(content, VmHWM)),
      LastU64(Under(content, RssAnon)),
      LastU64(Under(content, RssFile)),
      LastU64(Under(content, RssShmem)),
      LastU64(Under(content, VmSwap)),
      LastU64(Under(content, HugetlbPages)),
      LastU64(Under(content, FDSize)),
      LastU64(Under(content, Threads)),
      LastU64(Under(content, VoluntaryCtxtSwitches)),
      LastU64(Under(content, NonvoluntaryCtxtSwitches)))
  }

  lemma OfIsWritten(content: Bytes, key: Key)
    requires key != Unknown
    ensures Of(Fields(content), key) == Under(content, key)
  {
    forall t: Bytes
      ensures KeyOf(t) == key <==> t == KeyText(key)
    {
      KeysAreExact(key, t);
    }
    ValuesByText(Row, KeyOf, Lines(content), key, KeyText(key));
  }

  lemma FieldsAreLastWritten(content: Bytes)
    ensures StatusOf(Fields(content)) == LastWritten(content)
  {
    OfIsWritten(content, PPid);
    OfIsWritten(content, State);
    OfIsWritten(content, VmSize);
    OfIsWritten(content, VmRSS);
    OfIsWritten(content, VmHWM);
    OfIsWritten(content, RssAnon);
    OfIsWritten(content, RssFile);
    OfIsWritten(content, RssShmem);
    OfIsWritten(content, VmSwap);
    OfIsWritten(content, HugetlbPages);
    OfIsWritten(content, FDSize);
    OfIsWritten(content, Threads);
    OfIsWritten(content, VoluntaryCtxtSwitches);
    OfIsWritten(content, NonvoluntaryCtxtSwitches);
  }

  lemma {:induction false} AllWellFormed(fields: seq<Field<Key>>, key: Key)
    ensures (forall v <- Of(fields, key) :: WellFormed(key, v))
        <==> forall f <- fields :: f.key == key ==> WellFormed(key, f.value)
  {
    forall v | v in Of(fields, key)
      ensures Field(key, v) in fields
    {
      ValuesOfContains(fields, key, v);
    }
    forall f | f in fields && f.key == key
      ensures f.value in Of(fields, key)
    {
      ValuesOfContains(fields, key, f.value);
    }
  }

  lemma AcceptableIffRequired(content: Bytes)
    ensures Acceptable(Fields(content)) <==> HasRequired(content)
  {
    var fields := Fields(content);
    OfIsWritten(content, PPid);
    OfIsWritten(content, State);
    OfIsWritten(content, VmSize);
    OfIsWritten(content, VmRSS);
    AllWellFormed(fields, PPid);
    AllWellFormed(fields, State);
    AllWellFormed(fields, VmSize);
    AllWellFormed(fields, VmRSS);
    assert NothingMalformed(fields) <==>
             && (forall v <- Of(fields, PPid) :: WellFormed(PPid, v))
             && (forall v <- Of(fields, State) :: WellFormed(State, v))
             && (forall v <- Of(fields, VmSize) :: WellFormed(VmSize, v))
             && (forall v <- Of(fields, VmRSS) :: WellFormed(VmRSS, v));
  }

  /**
   Any content: the parse succeeds if and only if there is a line of each of the four required texts and none
   of them is malformed; each field is then the last well-formed value under its own text.
   */
  lemma ReadingByText(content: Bytes)
    ensures Reading(Fields(content)) == if HasRequired(content) then Some(LastWritten(content)) else None
  {
    AcceptableIffRequired(content);
    FieldsAreLastWritten(content);
  }
}
