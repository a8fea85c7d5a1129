/** `/proc/<pid>/stat` (crates/procfs/src/process/stat.rs). */
module StatFile {
  import opened Wrappers
  import opened Integers
  import opened Text

  /** CPU time of one task, in ticks: fields 14 and 15 of the file. */
  datatype Stat = Stat(utimeTicks: u64, stimeTicks: u64)

  /** Tokens 11 and 12, both of them numbers. */
  function TimesOf(tokens: seq<Bytes>): Option<Stat> {
    match (ParseU64(Nth(tokens, 11)), ParseU64(Nth(tokens, 12)))
    case (Some(utime), Some(stime)) => Some(Stat(utime, stime))
    case _ => None
  }

  /** `Stat::parse_stat`. */
  function ParseStat(content: Bytes): Option<Stat> {
    match RPosition(content, ')')
    case None => None
    case Some(commEnd) => TimesOf(Tokens(content[commEnd + 1..]))
  }

  /**
   Whatever bytes the command name is made of (closing parentheses, blanks and newlines included), the
   result is decided by the text after the parenthesis that closes it, and the parse fails exactly when
   fewer than 13 tokens follow or one of the two times is not a u64.
   */
  lemma StatIsDecidedAfterComm(pid: nat, comm: Bytes, tail: Bytes)
    requires ')' !in tail
    ensures var tokens := Tokens(tail);
            var parsed := ParseStat(Decimal(pid) + " (" + comm + [')'] + tail);
            && (parsed.Some? <==> |tokens| >= 13 && ParseU64(Some(tokens[11])).Some? && ParseU64(Some(tokens[12])).Some?)
            && (parsed.Some? ==> Some(parsed.value.utimeTicks) == ParseU64(Some(tokens[11]))
                                 && Some(parsed.value.stimeTicks) == ParseU64(Some(tokens[12])))
  {
    FieldsAfterComm(Decimal(pid) + " (" + comm, tail);
  }

  lemma StatNeedsParenthesis(content: Bytes)
    requires ')' !in content
    ensures ParseStat(content).None?
  {
  }

  /** After the last parenthesis, which whitespace separates the fields, and how much, does not matter. */
  lemma SpacingDoesNotMatter(head: Bytes, before: Bytes, gap: Bytes, other: Bytes, after: Bytes)
    requires ')' !in before + after && Blank(gap) && gap != [] && Blank(other) && other != []
    ensures ParseStat(head + [')'] + (before + gap + after)) == ParseStat(head + [')'] + (before + other + after))
  {
    FieldsAfterComm(head, before + gap + after);
    FieldsAfterComm(head, before + other + after);
    WhitespaceInsensitive(before, gap, other, after);
  }

  lemma FieldsAfterComm(head: Bytes, tail: Bytes)
    requires ')' !in tail
    ensures ParseStat(head + [')'] + tail) == TimesOf(Tokens(tail))
  {
    RPositionOfLast(head, ')', tail);
    assert (head + [')'] + tail)[|head| + 1..] == tail;
  }

  /** A line of proc_pid_stat(5): `fields` are the fields from the third on, spaced at will. */
  function PrintStat(pid: nat, comm: Bytes, gaps: seq<Bytes>, fields: seq<Bytes>): Bytes
    requires |gaps| == |fields| + 1
  {
    Decimal(pid) + " (" + comm + [')'] + Interleave(gaps, fields)
  }

  /** Fields without a closing parenthesis, with these times in the places of fields 14 and 15. */
  predicate HasTimes(gaps: seq<Bytes>, fields: seq<Bytes>, utime: u64, stime: u64) {
    && Spaced(gaps, fields) && (forall f <- fields :: ')' !in f)
    && |fields| >= 13 && fields[11] == Decimal(utime) && fields[12] == Decimal(stime)
  }

  /** A printed line reads back as its two times, whatever the command name. */
  lemma StatRoundTrip(pid: nat, comm: Bytes, gaps: seq<Bytes>, fields: seq<Bytes>, utime: u64, stime: u64)
    requires HasTimes(gaps, fields, utime, stime)
    ensures ParseStat(PrintStat(pid, comm, gaps, fields)) == Some(Stat(utime, stime))
  {
    var tail := Interleave(gaps, fields);
    InterleaveAvoids(gaps, fields, ')');
    TokensOfInterleave(gaps, fields);
    ParseDecimal(utime);
    ParseDecimal(stime);
    StatIsDecidedAfterComm(pid, comm, tail);
  }

  lemma {:induction false} InterleaveAvoids(gaps: seq<Bytes>, tokens: seq<Bytes>, c: byte)
    requires Spaced(gaps, tokens) && !IsWhitespace(c)
    requires forall t <- tokens :: c !in t
    ensures c !in Interleave(gaps, tokens)
  {
    assert Blank(gaps[0]);
    if tokens != [] {
      assert Spaced(gaps[1..], tokens[1..]);
      InterleaveAvoids(gaps[1..], tokens[1..], c);
    }
  }
}
