/**
 Byte strings as the `/proc` parsers see them: `slice::split`, the split-and-drop-empties tokeniser,
 first and last position searches, `trim_ascii`, and decimal numbers.
 */
module Text {
  import opened Wrappers
  import opened Integers

  /** A byte is the character with the same code, so that keys can be written as literals. */
  type byte = c: char | (c as int) < 256 witness ' '

  type Bytes = seq<byte>

  // ------------------------------------------------------------------ splitting

  /** `u8::is_ascii_whitespace`: space, tab, line feed, form feed, carriage return. */
  predicate IsWhitespace(c: byte) {
    c == ' ' || c == '\t' || c == '\n' || c == '\r' || c as int == 12
  }

  predicate IsNewline(c: byte) {
    c == '\n'
  }

  predicate Blank(s: Bytes) {
    forall c <- s :: IsWhitespace(c)
  }

  /** A token: not empty and without whitespace. */
  predicate IsToken(s: Bytes) {
    s != [] && forall c <- s :: !IsWhitespace(c)
  }

  /** `slice::split`: the pieces between separators; there is always at least one. */
  function Split(s: Bytes, separator: byte -> bool): (pieces: seq<Bytes>)
    ensures |pieces| >= 1
  {
    if s == [] then [[]]
    else
      var rest := Split(s[1..], separator);
      if separator(s[0]) then [[]] + rest else [[s[0]] + rest[0]] + rest[1..]
  }

  function Lines(content: Bytes): (lines: seq<Bytes>)
    ensures |lines| >= 1
  {
    Split(content, IsNewline)
  }

  function NonEmpty(pieces: seq<Bytes>): seq<Bytes> {
    if pieces == [] then []
    else (if pieces[0] == [] then [] else [pieces[0]]) + NonEmpty(pieces[1..])
  }

  /** `split(is_ascii_whitespace)` followed by `filter(not empty)`. */
  function Tokens(s: Bytes): seq<Bytes> {
    NonEmpty(Split(s, IsWhitespace))
  }

  /** The element of an iterator chain: `tokens.nth(k)`. */
  function Nth(tokens: seq<Bytes>, k: nat): Option<Bytes> {
    if k < |tokens| then Some(tokens[k]) else None
  }

  lemma {:induction false} SplitAtSeparator(a: Bytes, c: byte, b: Bytes, separator: byte -> bool)
    requires separator(c)
    ensures Split(a + [c] + b, separator) == Split(a, separator) + Split(b, separator)
  {
    if a == [] {
      assert a + [c] + b == [c] + b;
    } else {
      assert (a + [c] + b)[1..] == a[1..] + [c] + b;
      SplitAtSeparator(a[1..], c, b, separator);
    }
  }

  lemma {:induction false} SplitWithoutSeparator(s: Bytes, separator: byte -> bool)
    requires forall c <- s :: !separator(c)
    ensures Split(s, separator) == [s]
  {
    if s != [] {
      SplitWithoutSeparator(s[1..], separator);
      assert s == [s[0]] + s[1..];
    }
  }

  lemma {:induction false} NonEmptyConcat(a: seq<Bytes>, b: seq<Bytes>)
    ensures NonEmpty(a + b) == NonEmpty(a) + NonEmpty(b)
  {
    if a == [] {
      assert a + b == b;
    } else {
      assert (a + b)[1..] == a[1..] + b;
      NonEmptyConcat(a[1..], b);
    }
  }

  lemma TokensAroundWhitespace(a: Bytes, c: byte, b: Bytes)
    requires IsWhitespace(c)
    ensures Tokens(a + [c] + b) == Tokens(a) + Tokens(b)
  {
    SplitAtSeparator(a, c, b, IsWhitespace);
    NonEmptyConcat(Split(a, IsWhitespace), Split(b, IsWhitespace));
  }

  lemma TokensOfToken(t: Bytes)
    requires IsToken(t)
    ensures Tokens(t) == [t]
  {
    SplitWithoutSeparator(t, IsWhitespace);
    assert NonEmpty([t]) == [t] + NonEmpty([]);
  }

  /** A token at the start of a text, up to the whitespace that follows it. */
  lemma TokensOfFirst(t: Bytes, rest: Bytes)
    requires IsToken(t) && (rest != [] ==> IsWhitespace(rest[0]))
    ensures Tokens(t + rest) == [t] + Tokens(rest)
  {
    TokensOfToken(t);
    if rest == [] {
      assert t + rest == t;
      assert Split([], IsWhitespace) == [[]] && NonEmpty([[]]) == NonEmpty([]) == [];
    } else {
      assert t + rest == t + [rest[0]] + rest[1..] && rest == [rest[0]] + rest[1..];
      TokensAroundWhitespace(t, rest[0], rest[1..]);
      TokensAfterBlank([rest[0]], rest[1..]);
    }
  }

  lemma {:induction false} TokensAfterBlank(gap: Bytes, s: Bytes)
    requires Blank(gap)
    ensures Tokens(gap + s) == Tokens(s)
  {
    if gap == [] {
      assert gap + s == s;
    } else {
      assert gap + s == [] + [gap[0]] + (gap[1..] + s);
      TokensAroundWhitespace([], gap[0], gap[1..] + s);
      TokensAfterBlank(gap[1..], s);
    }
  }

  // ------------------------------------------------------------------ what the tokeniser computes

  /** A line written out: gap, token, gap, token, ..., gap. */
  function Interleave(gaps: seq<Bytes>, tokens: seq<Bytes>): Bytes
    requires |gaps| == |tokens| + 1
  {
    if tokens == [] then gaps[0]
    else gaps[0] + tokens[0] + Interleave(gaps[1..], tokens[1..])
  }

  /** Gaps are whitespace and those between two tokens are not empty; tokens are tokens. */
  predicate Spaced(gaps: seq<Bytes>, tokens: seq<Bytes>) {
    && |gaps| == |tokens| + 1
    && (forall g <- gaps :: Blank(g))
    && (forall k :: 0 < k < |tokens| ==> gaps[k] != [])
    && (forall t <- tokens :: IsToken(t))
  }

  /** However a token list is spaced out, the tokeniser gives the list back. */
  lemma {:induction false} TokensOfInterleave(gaps: seq<Bytes>, tokens: seq<Bytes>)
    requires Spaced(gaps, tokens)
    ensures Tokens(Interleave(gaps, tokens)) == tokens
  {
    assert Blank(gaps[0]);
    if tokens == [] {
      TokensAfterBlank(gaps[0], []);
      assert gaps[0] + [] == gaps[0];
      assert Split([], IsWhitespace) == [[]];
      assert NonEmpty([[]]) == NonEmpty([]) == [];
    } else {
      var rest := Interleave(gaps[1..], tokens[1..]);
      assert Blank(gaps[1]) && Spaced(gaps[1..], tokens[1..]);
      TokensOfInterleave(gaps[1..], tokens[1..]);
      assert gaps[0] + tokens[0] + rest == gaps[0] + (tokens[0] + rest);
      TokensAfterBlank(gaps[0], tokens[0] + rest);
      if rest != [] {
        InterleaveHead(gaps[1..], tokens[1..]);
      }
      TokensOfFirst(tokens[0], rest);
    }
  }

  lemma InterleaveHead(gaps: seq<Bytes>, tokens: seq<Bytes>)
    requires Spaced(gaps, tokens) && Interleave(gaps, tokens) != []
    requires tokens != [] ==> gaps[0] != []
    ensures IsWhitespace(Interleave(gaps, tokens)[0])
  {
    assert Blank(gaps[0]);
  }

  lemma GapGrows(c: byte, gaps: seq<Bytes>, tokens: seq<Bytes>)
    requires Spaced(gaps, tokens) && IsWhitespace(c)
    ensures var all := [[c] + gaps[0]] + gaps[1..];
            Spaced(all, tokens) && Interleave(all, tokens) == [c] + Interleave(gaps, tokens)
  {
    var all := [[c] + gaps[0]] + gaps[1..];
    assert Blank(gaps[0]) && Blank(all[0]);
    assert all[1..] == gaps[1..];
  }

  lemma TokenGrows(c: byte, gaps: seq<Bytes>, tokens: seq<Bytes>)
    requires Spaced(gaps, tokens) && !IsWhitespace(c) && tokens != [] && gaps[0] == []
    ensures var all := [[c] + tokens[0]] + tokens[1..];
            Spaced(gaps, all) && Interleave(gaps, all) == [c] + Interleave(gaps, tokens)
  {
    var all := [[c] + tokens[0]] + tokens[1..];
    assert IsToken(tokens[0]) && IsToken(all[0]);
    assert all[1..] == tokens[1..];
  }

  lemma TokenStarts(c: byte, gaps: seq<Bytes>, tokens: seq<Bytes>)
    requires Spaced(gaps, tokens) && !IsWhitespace(c) && (tokens != [] ==> gaps[0] != [])
    ensures Spaced([[]] + gaps, [[c]] + tokens)
    ensures Interleave([[]] + gaps, [[c]] + tokens) == [c] + Interleave(gaps, tokens)
  {
    assert ([[]] + gaps)[1..] == gaps && ([[c]] + tokens)[1..] == tokens;
  }

  /**
   Every byte string is its own tokens, spaced out.  With TokensOfInterleave this says that the tokens
   are exactly the maximal runs without whitespace, in order, and that no other list would do.
   */
  lemma {:induction false} TokensAreMaximalRuns(s: Bytes) returns (gaps: seq<Bytes>)
    ensures Spaced(gaps, Tokens(s)) && s == Interleave(gaps, Tokens(s))
  {
    if s == [] {
      gaps := [[]];
    } else {
      var rest := TokensAreMaximalRuns(s[1..]);
      var tokens, all := Tokens(s[1..]), Tokens(s[1..]);
      assert s == [s[0]] + s[1..];
      if IsWhitespace(s[0]) {
        GapGrows(s[0], rest, tokens);
        gaps := [[s[0]] + rest[0]] + rest[1..];
      } else if tokens != [] && rest[0] == [] {
        TokenGrows(s[0], rest, tokens);
        gaps, all := rest, [[s[0]] + tokens[0]] + tokens[1..];
      } else {
        TokenStarts(s[0], rest, tokens);
        gaps, all := [[]] + rest, [[s[0]]] + tokens;
      }
      TokensOfInterleave(gaps, all);
    }
  }

  /** Tab, line feed, form feed, carriage return and space, by their codes. */
  predicate IsBreak(c: byte) {
    var code := c as int;
    code == 9 || code == 10 || code == 12 || code == 13 || code == 32
  }

  /** The tokens with the breaks around them: not empty and without breaks, and some break between any two. */
  predicate IsCutByCode(gaps: seq<Bytes>, tokens: seq<Bytes>) {
    && |gaps| == |tokens| + 1
    && (forall g <- gaps, c <- g :: IsBreak(c))
    && (forall k :: 0 < k < |tokens| ==> gaps[k] != [])
    && (forall t <- tokens :: t != [] && forall c <- t :: !IsBreak(c))
  }

  lemma CutIsSpaced(gaps: seq<Bytes>, tokens: seq<Bytes>)
    ensures IsCutByCode(gaps, tokens) <==> Spaced(gaps, tokens)
  {
    assert forall c: byte :: IsBreak(c) <==> IsWhitespace(c);
  }

  /**
   A text has these tokens if and only if they are its maximal runs of bytes other than those with the codes 9,
   10, 12, 13 and 32, in order.
   */
  lemma TokensIff(s: Bytes, tokens: seq<Bytes>)
    ensures Tokens(s) == tokens <==> exists gaps :: IsCutByCode(gaps, tokens) && s == Interleave(gaps, tokens)
  {
    if Tokens(s) == tokens {
      var gaps := TokensAreMaximalRuns(s);
      CutIsSpaced(gaps, tokens);
    }
    forall gaps | IsCutByCode(gaps, tokens) && s == Interleave(gaps, tokens)
      ensures Tokens(s) == tokens
    {
      CutIsSpaced(gaps, tokens);
      TokensOfInterleave(gaps, tokens);
    }
  }

  lemma {:induction false} TokensBeforeBlank(a: Bytes, gap: Bytes, b: Bytes)
    requires Blank(gap) && gap != []
    ensures Tokens(a + gap + b) == Tokens(a) + Tokens(b)
  {
    assert a + gap + b == a + [gap[0]] + (gap[1..] + b);
    TokensAroundWhitespace(a, gap[0], gap[1..] + b);
    TokensAfterBlank(gap[1..], b);
  }

  /** Replacing a run of whitespace by any other non-empty run changes no token. */
  lemma WhitespaceInsensitive(a: Bytes, gap: Bytes, other: Bytes, b: Bytes)
    requires Blank(gap) && gap != [] && Blank(other) && other != []
    ensures Tokens(a + gap + b) == Tokens(a + other + b)
  {
    TokensBeforeBlank(a, gap, b);
    TokensBeforeBlank(a, other, b);
  }

  // ------------------------------------------------------------------ lines and tables

  function Join(lines: seq<Bytes>): Bytes
    requires |lines| >= 1
  {
    if |lines| == 1 then lines[0] else lines[0] + ['\n'] + Join(lines[1..])
  }

  lemma {:induction false} LinesOfJoin(lines: seq<Bytes>)
    requires |lines| >= 1 && forall l <- lines :: '\n' !in l
    ensures Lines(Join(lines)) == lines
  {
    SplitWithoutSeparator(lines[0], IsNewline);
    if |lines| > 1 {
      LinesOfJoin(lines[1..]);
      SplitAtSeparator(lines[0], '\n', Join(lines[1..]), IsNewline);
    }
  }

  /** A table parser: every line that `row` accepts gives one entry, in order. */
  function FilterMap<T>(row: Bytes -> Option<T>, lines: seq<Bytes>): seq<T> {
    if lines == [] then []
    else (match row(lines[0]) case None => [] case Some(v) => [v]) + FilterMap(row, lines[1..])
  }

  lemma {:induction false} FilterMapConcat<T>(row: Bytes -> Option<T>, a: seq<Bytes>, b: seq<Bytes>)
    ensures FilterMap(row, a + b) == FilterMap(row, a) + FilterMap(row, b)
  {
    if a == [] {
      assert a + b == b;
    } else {
      assert (a + b)[1..] == a[1..] + b;
      FilterMapConcat(row, a[1..], b);
    }
  }

  lemma FilterMapSnoc<T>(row: Bytes -> Option<T>, lines: seq<Bytes>, i: nat)
    requires i < |lines|
    ensures FilterMap(row, lines[..i + 1])
         == FilterMap(row, lines[..i]) + match row(lines[i]) case None => [] case Some(v) => [v]
  {
    assert lines[..i + 1] == lines[..i] + [lines[i]];
    FilterMapConcat(row, lines[..i], [lines[i]]);
    assert FilterMap(row, []) == [];
  }

  lemma {:induction false} FilterMapKeeps<T>(row: Bytes -> Option<T>, lines: seq<Bytes>, i: nat)
    requires i < |lines| && row(lines[i]).Some?
    ensures row(lines[i]).value in FilterMap(row, lines)
  {
    if i > 0 {
      FilterMapKeeps(row, lines[1..], i - 1);
    }
  }

  /** Table parsers are homomorphisms from text joined by a newline to concatenated entries. */
  lemma TableHomomorphism<T>(row: Bytes -> Option<T>, a: Bytes, b: Bytes)
    ensures FilterMap(row, Lines(a + ['\n'] + b)) == FilterMap(row, Lines(a)) + FilterMap(row, Lines(b))
  {
    SplitAtSeparator(a, '\n', b, IsNewline);
    FilterMapConcat(row, Lines(a), Lines(b));
  }

  /** A block of rejected lines put between any two lines of a table changes nothing. */
  lemma TableIgnoresNoise<T>(row: Bytes -> Option<T>, a: Bytes, noise: Bytes, b: Bytes)
    requires forall line <- Lines(noise) :: row(line).None?
    ensures FilterMap(row, Lines(a + ['\n'] + noise + ['\n'] + b)) == FilterMap(row, Lines(a + ['\n'] + b))
  {
    var tail := noise + ['\n'] + b;
    assert a + ['\n'] + noise + ['\n'] + b == a + ['\n'] + tail;
    TableHomomorphism(row, a, tail);
    TableHomomorphism(row, noise, b);
    TableHomomorphism(row, a, b);
    FilterMapRejected(row, Lines(noise));
    assert FilterMap(row, Lines(tail)) == FilterMap(row, Lines(b));
  }

  /** The line that a text ends in, and the one it starts with. */
  function LastLine(a: Bytes): Bytes {
    match RPosition(a, '\n') case None => a case Some(i) => a[i + 1..]
  }

  function FirstLine(b: Bytes): Bytes {
    match Position(b, '\n') case None => b case Some(i) => b[..i]
  }

  lemma OneLineChanged<T>(row: Bytes -> Option<T>, x: Bytes, y: Bytes)
    requires '\n' !in x && '\n' !in y && row(x) == row(y)
    ensures FilterMap(row, Lines(x)) == FilterMap(row, Lines(y))
  {
    SplitWithoutSeparator(x, IsNewline);
    SplitWithoutSeparator(y, IsNewline);
  }

  lemma EndOfFileChanged<T>(row: Bytes -> Option<T>, a: Bytes, x: Bytes, y: Bytes)
    requires '\n' !in x && '\n' !in y && row(LastLine(a) + x) == row(LastLine(a) + y)
    ensures FilterMap(row, Lines(a + x)) == FilterMap(row, Lines(a + y))
  {
    match RPosition(a, '\n')
    case None => OneLineChanged(row, a + x, a + y);
    case Some(i) =>
      var head, last := a[..i], a[i + 1..];
      assert a + x == head + ['\n'] + (last + x) && a + y == head + ['\n'] + (last + y);
      OneLineChanged(row, last + x, last + y);
      TableHomomorphism(row, head, last + x);
      TableHomomorphism(row, head, last + y);
  }

  lemma RestOfFileStays<T>(row: Bytes -> Option<T>, u: Bytes, v: Bytes, b: Bytes)
    requires FilterMap(row, Lines(u + FirstLine(b))) == FilterMap(row, Lines(v + FirstLine(b)))
    ensures FilterMap(row, Lines(u + b)) == FilterMap(row, Lines(v + b))
  {
    match Position(b, '\n')
    case None =>
    case Some(i) =>
      var first, rest := b[..i], b[i + 1..];
      assert u + b == (u + first) + ['\n'] + rest && v + b == (v + first) + ['\n'] + rest;
      TableHomomorphism(row, u + first, rest);
      TableHomomorphism(row, v + first, rest);
  }

  /** A piece of one line, anywhere in a file, can be replaced if that changes nothing for the line. */
  lemma PieceChanged<T>(row: Bytes -> Option<T>, a: Bytes, x: Bytes, y: Bytes, b: Bytes)
    requires '\n' !in x && '\n' !in y
    requires row(LastLine(a) + x + FirstLine(b)) == row(LastLine(a) + y + FirstLine(b))
    ensures FilterMap(row, Lines(a + x + b)) == FilterMap(row, Lines(a + y + b))
  {
    var first := FirstLine(b);
    assert LastLine(a) + x + first == LastLine(a) + (x + first);
    assert LastLine(a) + y + first == LastLine(a) + (y + first);
    EndOfFileChanged(row, a, x + first, y + first);
    assert a + x + first == a + (x + first) && a + y + first == a + (y + first);
    RestOfFileStays(row, a + x, a + y, b);
  }

  /** Rows that see nothing but the tokens of their line do not see how they are spaced out. */
  lemma TokenRowsIgnoreSpacing<T>(
    row: Bytes -> Option<T>, rowOf: seq<Bytes> -> Option<T>, a: Bytes, gap: Bytes, other: Bytes, b: Bytes)
    requires forall line: Bytes :: row(line) == rowOf(Tokens(line))
    requires Blank(gap) && gap != [] && Blank(other) && other != [] && '\n' !in gap + other
    ensures FilterMap(row, Lines(a + gap + b)) == FilterMap(row, Lines(a + other + b))
  {
    WhitespaceInsensitive(LastLine(a), gap, other, FirstLine(b));
    PieceChanged(row, a, gap, other, b);
  }

  lemma {:induction false} FilterMapRejected<T>(row: Bytes -> Option<T>, lines: seq<Bytes>)
    requires forall line <- lines :: row(line).None?
    ensures FilterMap(row, lines) == []
  {
    if lines != [] {
      FilterMapRejected(row, lines[1..]);
    }
  }

  function Kept<T>(results: seq<Option<T>>): seq<T> {
    if results == [] then []
    else (match results[0] case None => [] case Some(v) => [v]) + Kept(results[1..])
  }

  lemma {:induction false} KeptSnoc<T>(results: seq<Option<T>>, last: Option<T>)
    ensures Kept(results + [last]) == match last case None => Kept(results) case Some(v) => Kept(results) + [v]
  {
    if results == [] {
      assert [last][1..] == [] && [] + [last] == [last];
    } else {
      assert (results + [last])[1..] == results[1..] + [last];
      KeptSnoc(results[1..], last);
    }
  }

  lemma {:induction false} KeptAll<T>(results: seq<Option<T>>, values: seq<T>)
    requires |results| == |values|
    requires forall i :: 0 <= i < |results| ==> results[i] == Some(values[i])
    ensures Kept(results) == values
  {
    if results != [] {
      KeptAll(results[1..], values[1..]);
    }
  }

  /** Parsing a table written line by line keeps exactly what each line is worth, in order. */
  lemma {:induction false} TableRoundTrip<T>(row: Bytes -> Option<T>, lines: seq<Bytes>, results: seq<Option<T>>)
    requires |lines| == |results| >= 1
    requires forall i :: 0 <= i < |lines| ==> '\n' !in lines[i] && row(lines[i]) == results[i]
    ensures FilterMap(row, Lines(Join(lines))) == Kept(results)
  {
    LinesOfJoin(lines);
    FilterMapKept(row, lines, results);
  }

  lemma {:induction false} FilterMapKept<T>(row: Bytes -> Option<T>, lines: seq<Bytes>, results: seq<Option<T>>)
    requires |lines| == |results|
    requires forall i :: 0 <= i < |lines| ==> row(lines[i]) == results[i]
    ensures FilterMap(row, lines) == Kept(results)
  {
    if lines != [] {
      FilterMapKept(row, lines[1..], results[1..]);
    }
  }

  lemma TableOfTwo<T>(row: Bytes -> Option<T>, x: Bytes, y: Bytes, first: T, second: T)
    requires '\n' !in x && '\n' !in y && row(x) == Some(first) && row(y) == Some(second)
    ensures FilterMap(row, Lines(Join([x, y]))) == [first, second]
  {
    var lines: seq<Bytes> := [x, y];
    var results: seq<Option<T>> := [Some(first), Some(second)];
    TableRoundTrip(row, lines, results);
    KeptAll(results, [first, second]);
  }

  /** A file printed line by line. */
  function PrintTable<L>(printed: L -> Bytes, table: seq<L>): Bytes
    requires table != []
  {
    Join(seq(|table|, i requires 0 <= i < |table| => printed(table[i])))
  }

  /** What the lines of a table mean, where they mean something. */
  function Meanings<L, T>(meaning: L -> Option<T>, table: seq<L>): seq<T> {
    Kept(seq(|table|, i requires 0 <= i < |table| => meaning(table[i])))
  }

  /** If every printed line reads back as what it means, so does the table. */
  lemma PrintedTable<L, T>(row: Bytes -> Option<T>, printed: L -> Bytes, meaning: L -> Option<T>, table: seq<L>)
    requires table != [] && forall l <- table :: '\n' !in printed(l) && row(printed(l)) == meaning(l)
    ensures FilterMap(row, Lines(PrintTable(printed, table))) == Meanings(meaning, table)
  {
    var lines := seq(|table|, i requires 0 <= i < |table| => printed(table[i]));
    var results := seq(|table|, i requires 0 <= i < |table| => meaning(table[i]));
    forall i | 0 <= i < |table|
      ensures '\n' !in lines[i] && row(lines[i]) == results[i]
    {
      assert table[i] in table;
    }
    TableRoundTrip(row, lines, results);
  }

  lemma MeaningsSnoc<L, T>(meaning: L -> Option<T>, table: seq<L>, last: L)
    ensures Meanings(meaning, table + [last])
         == Meanings(meaning, table) + match meaning(last) case None => [] case Some(v) => [v]
  {
    var front := seq(|table|, i requires 0 <= i < |table| => meaning(table[i]));
    var all := seq(|table + [last]|, i requires 0 <= i < |table + [last]| => meaning((table + [last])[i]));
    assert all == front + [meaning(last)];
    KeptSnoc(front, meaning(last));
  }

  lemma MeaningsOfAll<L, T>(meaning: L -> Option<T>, table: seq<L>, values: seq<T>)
    requires |table| == |values| && forall i :: 0 <= i < |table| ==> meaning(table[i]) == Some(values[i])
    ensures Meanings(meaning, table) == values
  {
    KeptAll(seq(|table|, i requires 0 <= i < |table| => meaning(table[i])), values);
  }

  /** Whitespace other than a line feed; what separates the columns of one line. */
  predicate InLine(gaps: seq<Bytes>) {
    forall g <- gaps :: '\n' !in g
  }

  lemma {:induction false} InterleaveStaysOnLine(gaps: seq<Bytes>, tokens: seq<Bytes>)
    requires Spaced(gaps, tokens) && InLine(gaps)
    ensures '\n' !in Interleave(gaps, tokens)
  {
    if tokens != [] {
      assert IsToken(tokens[0]) && Spaced(gaps[1..], tokens[1..]);
      InterleaveStaysOnLine(gaps[1..], tokens[1..]);
    }
  }

  // ------------------------------------------------------------------ columns of counters

  /** Every one of the first n tokens, as far as there are any, is a u64. */
  predicate Numeric(tokens: seq<Bytes>, n: nat) {
    forall k :: 0 <= k < n && k < |tokens| ==> ParseU64(Some(tokens[k])).Some?
  }

  /** Among these tokens, as far as there are any, is one that is no u64. */
  ghost predicate SomeMalformed(tokens: seq<Bytes>, from: nat, to: nat) {
    exists k :: from <= k < to && k < |tokens| && ParseU64(Some(tokens[k])).None?
  }

  lemma NumericIff(tokens: seq<Bytes>, from: nat, n: nat)
    requires from <= |tokens|
    ensures Numeric(tokens[from..], n) <==> !SomeMalformed(tokens, from, from + n)
  {
    if !SomeMalformed(tokens, from, from + n) {
      forall k | 0 <= k < n && k < |tokens[from..]|
        ensures ParseU64(Some(tokens[from..][k])).Some?
      {
        assert tokens[from..][k] == tokens[from + k];
      }
    } else {
      var k :| from <= k < from + n && k < |tokens| && ParseU64(Some(tokens[k])).None?;
      assert tokens[from..][k - from] == tokens[k];
    }
  }

  /** The k-th counter of a line; 0 on a line too short to have it. */
  function Cell(tokens: seq<Bytes>, k: nat): u64 {
    if k < |tokens| && ParseU64(Some(tokens[k])).Some? then ParseU64(Some(tokens[k])).value else 0
  }

  /** The first n counters of a line. */
  function Cells(tokens: seq<Bytes>, n: nat): (cells: seq<u64>)
    ensures |cells| == n
    ensures forall k :: 0 <= k < n ==> cells[k] == Cell(tokens, k)
  {
    seq(n, k requires 0 <= k < n => Cell(tokens, k))
  }

  /**
   The loop that zips a zeroed array with the remaining tokens of a line: each slot takes the number of
   its token, a token that is no number abandons the line, and tokens past the last slot are not read.
   */
  method FillSlots(fields: array<u64>, tokens: seq<Bytes>) returns (ok: bool)
    requires forall k :: 0 <= k < fields.Length ==> fields[k] == 0
    modifies fields
    ensures ok <==> Numeric(tokens, fields.Length)
    ensures ok ==> fields[..] == Cells(tokens, fields.Length)
  {
    var k := 0;
    while k < fields.Length && k < |tokens|
      invariant 0 <= k <= fields.Length && k <= |tokens|
      invariant Numeric(tokens, k)
      invariant forall j :: 0 <= j < fields.Length ==> fields[j] == if j < k then Cell(tokens, j) else 0
    {
      var value := ParseU64(Some(tokens[k]));
      if value.None? {
        return false;
      }
      fields[k] := value.value;
      k := k + 1;
    }
    return true;
  }

  function Decimals(counters: seq<u64>): (tokens: seq<Bytes>)
    ensures |tokens| == |counters|
    ensures forall k :: 0 <= k < |tokens| ==> tokens[k] == Decimal(counters[k])
  {
    seq(|counters|, k requires 0 <= k < |counters| => Decimal(counters[k]))
  }

  /** The first n of the printed counters, with 0 for those an older kernel does not print. */
  function Padded(counters: seq<u64>, n: nat): (cells: seq<u64>)
    ensures |cells| == n
  {
    seq(n, k requires 0 <= k < n => if k < |counters| then counters[k] else 0)
  }

  /** Printed counters read back, whatever follows column n. */
  lemma CellsOfDecimals(counters: seq<u64>, extra: seq<Bytes>, n: nat)
    requires extra != [] ==> |counters| >= n
    ensures Numeric(Decimals(counters) + extra, n)
    ensures Cells(Decimals(counters) + extra, n) == Padded(counters, n)
  {
    forall k | 0 <= k < n && k < |counters|
      ensures ParseU64(Some((Decimals(counters) + extra)[k])) == Some(counters[k])
    {
      ParseDecimal(counters[k]);
    }
  }

  // ------------------------------------------------------------------ searching and trimming

  /** `iter().position(== c)`: the first occurrence. */
  function Position(s: Bytes, c: byte): (r: Option<nat>)
    ensures r.None? <==> c !in s
    ensures r.Some? ==> r.value < |s| && s[r.value] == c && c !in s[..r.value]
  {
    if s == [] then None
    else if s[0] == c then Some(0)
    else
      match Position(s[1..], c)
      case None => None
      case Some(i) =>
        assert s[..i + 1] == [s[0]] + s[1..][..i];
        Some(i + 1)
  }

  /** `iter().rposition(== c)`: the last occurrence. */
  function RPosition(s: Bytes, c: byte): (r: Option<nat>)
    ensures r.None? <==> c !in s
    ensures r.Some? ==> r.value < |s| && s[r.value] == c && c !in s[r.value + 1..]
  {
    if s == [] then None
    else
      var last := |s| - 1;
      assert s == s[..last] + [s[last]];
      if s[last] == c then Some(last)
      else
        match RPosition(s[..last], c)
        case None => None
        case Some(i) =>
          assert s[i + 1..] == s[..last][i + 1..] + [s[last]];
          Some(i)
  }

  lemma {:induction false} PositionOfFirst(a: Bytes, c: byte, b: Bytes)
    requires c !in a
    ensures Position(a + [c] + b, c) == Some(|a|)
  {
    if a != [] {
      assert (a + [c] + b)[1..] == a[1..] + [c] + b;
      PositionOfFirst(a[1..], c, b);
    }
  }

  lemma {:induction false} RPositionOfLast(a: Bytes, c: byte, b: Bytes)
    requires c !in b
    ensures RPosition(a + [c] + b, c) == Some(|a|)
  {
    var s := a + [c] + b;
    if b != [] {
      assert s[..|s| - 1] == a + [c] + b[..|b| - 1];
      RPositionOfLast(a, c, b[..|b| - 1]);
    }
  }

  function TrimStart(s: Bytes): Bytes {
    if s != [] && IsWhitespace(s[0]) then TrimStart(s[1..]) else s
  }

  function TrimEnd(s: Bytes): Bytes {
    if s != [] && IsWhitespace(s[|s| - 1]) then TrimEnd(s[..|s| - 1]) else s
  }

  /** `trim_ascii`. */
  function Trim(s: Bytes): Bytes {
    TrimEnd(TrimStart(s))
  }

  lemma {:induction false} TrimStartBlank(gap: Bytes, s: Bytes)
    requires Blank(gap)
    requires s != [] ==> !IsWhitespace(s[0])
    ensures TrimStart(gap + s) == s
  {
    if gap == [] {
      assert gap + s == s;
    } else {
      assert (gap + s)[1..] == gap[1..] + s;
      TrimStartBlank(gap[1..], s);
    }
  }

  lemma {:induction false} TrimEndBlank(s: Bytes, gap: Bytes)
    requires Blank(gap)
    requires s != [] ==> !IsWhitespace(s[|s| - 1])
    ensures TrimEnd(s + gap) == s
  {
    if gap == [] {
      assert s + gap == s;
    } else {
      assert (s + gap)[..|s + gap| - 1] == s + gap[..|gap| - 1];
      TrimEndBlank(s, gap[..|gap| - 1]);
    }
  }

  lemma {:induction false} TrimmedStart(s: Bytes)
    ensures !Blank(s) ==> TrimStart(s) != [] && !IsWhitespace(TrimStart(s)[0])
  {
    if s != [] && IsWhitespace(s[0]) {
      assert s == [s[0]] + s[1..];
      TrimmedStart(s[1..]);
    }
  }

  lemma {:induction false} TrimmedEnd(s: Bytes)
    ensures s != [] && !IsWhitespace(s[0]) ==> TrimEnd(s) != []
  {
    if s != [] && IsWhitespace(s[|s| - 1]) {
      TrimmedEnd(s[..|s| - 1]);
    }
  }

  /** Nothing is left of a text after trimming exactly if there is nothing in it but whitespace. */
  lemma TrimmedAway(s: Bytes)
    ensures Trim(s) == [] <==> Blank(s)
  {
    if Blank(s) {
      TrimStartBlank(s, []);
      assert s + [] == s;
    } else {
      TrimmedStart(s);
      TrimmedEnd(TrimStart(s));
    }
  }

  /** A text that starts and ends without whitespace; inside it may have some. */
  predicate IsTrimmed(s: Bytes) {
    s != [] && !IsWhitespace(s[0]) && !IsWhitespace(s[|s| - 1])
  }

  lemma TokenIsTrimmed(t: Bytes)
    requires IsToken(t)
    ensures IsTrimmed(t)
  {
  }

  lemma TrimsToItself(s: Bytes)
    requires IsTrimmed(s)
    ensures Trim(s) == s
  {
  }

  /** Trimming strips the whitespace around a name and nothing else. */
  lemma TrimAroundName(before: Bytes, t: Bytes, after: Bytes)
    requires Blank(before) && Blank(after) && IsTrimmed(t)
    ensures Trim(before + t + after) == t
  {
    assert before + t + after == before + (t + after);
    TrimStartBlank(before, t + after);
    TrimEndBlank(t, after);
  }

  // ------------------------------------------------------------------ numbers

  predicate IsDigit(c: byte) {
    '0' <= c <= '9'
  }

  predicate Digits(s: Bytes) {
    forall c <- s :: IsDigit(c)
  }

  function DecimalValue(s: Bytes): nat
    requires Digits(s)
  {
    if s == [] then 0
    else
      assert IsDigit(s[|s| - 1]);
      DecimalValue(s[..|s| - 1]) * 10 + (s[|s| - 1] as int - '0' as int)
  }

  /** `parse_u64`: a non-empty run of digits below 2^64; a missing token parses as empty input. */
  function ParseU64(token: Option<Bytes>): Option<u64> {
    match token
    case None => None
    case Some(s) =>
      if s != [] && Digits(s) && DecimalValue(s) < U64_LIMIT then Some(DecimalValue(s)) else None
  }

  /** `parse_i32`: the same with an optional minus sign, within the range of i32. */
  function ParseI32(token: Option<Bytes>): Option<i32> {
    match token
    case None => None
    case Some(s) =>
      var negative := s != [] && s[0] == '-';
      var digits := if negative then s[1..] else s;
      if digits == [] || !Digits(digits) then None
      else
        var value: int := if negative then 0 - DecimalValue(digits) else DecimalValue(digits);
        if -0x8000_0000 <= value < 0x8000_0000 then Some(value) else None
  }

  /** Decimal rendering, as the kernel prints a counter. */
  function Decimal(n: nat): (s: Bytes)
    ensures IsToken(s) && Digits(s)
  {
    var digit: Bytes := [('0' as int + n % 10) as char];
    if n < 10 then digit else Decimal(n / 10) + digit
  }

  function SignedDecimal(n: int): (s: Bytes)
    ensures IsToken(s)
  {
    if n < 0 then ['-'] + Decimal(-n) else Decimal(n)
  }

  lemma {:induction false} DecimalRoundTrip(n: nat)
    ensures DecimalValue(Decimal(n)) == n
  {
    var s := Decimal(n);
    if n >= 10 {
      DecimalRoundTrip(n / 10);
      assert s[..|s| - 1] == Decimal(n / 10);
    } else {
      assert s[..|s| - 1] == [];
    }
  }

  lemma ParseDecimal(n: nat)
    ensures ParseU64(Some(Decimal(n))) == if n < U64_LIMIT then Some(n) else None
  {
    DecimalRoundTrip(n);
  }

  function Zeros(k: nat): (s: Bytes)
    ensures Digits(s)
  {
    if k == 0 then [] else Zeros(k - 1) + ['0']
  }

  /** One more digit at the end. */
  lemma DecimalSnoc(n: nat, m: nat, digit: byte)
    requires n > 0 && IsDigit(digit) && m == n * 10 + (digit as int - '0' as int)
    ensures Decimal(m) == Decimal(n) + [digit]
  {
    assert m / 10 == n && m % 10 == digit as int - '0' as int;
  }

  /** A run of digits is a printed number with zeros before it. */
  lemma {:induction false} DigitsArePadded(s: Bytes) returns (k: nat)
    requires s != [] && Digits(s)
    ensures s == Zeros(k) + Decimal(DecimalValue(s))
  {
    var front, last := s[..|s| - 1], s[|s| - 1];
    assert IsDigit(last) && s == front + [last];
    if front == [] {
      k := 0;
    } else {
      k := DigitsArePadded(front);
      if DecimalValue(front) == 0 {
        k := k + 1;
      } else {
        DecimalSnoc(DecimalValue(front), DecimalValue(s), last);
        assert s == Zeros(k) + (Decimal(DecimalValue(front)) + [last]);
      }
    }
  }

  lemma {:induction false} ZerosAddNothing(k: nat, s: Bytes)
    requires Digits(s)
    ensures Digits(Zeros(k) + s) && DecimalValue(Zeros(k) + s) == DecimalValue(s)
  {
    if s != [] {
      var front := s[..|s| - 1];
      ZerosAddNothing(k, front);
      assert (Zeros(k) + s)[..|Zeros(k) + s| - 1] == Zeros(k) + front;
    } else if k > 0 {
      ZerosAddNothing(k - 1, []);
      assert Zeros(k) + [] == Zeros(k) && Zeros(k - 1) + [] == Zeros(k - 1);
      assert Zeros(k)[..|Zeros(k)| - 1] == Zeros(k - 1);
    }
  }

  /** The texts that parse as a number are the printed number, with any zeros before it, and no other. */
  lemma ParseU64Iff(s: Bytes, n: u64)
    ensures ParseU64(Some(s)) == Some(n) <==> exists k: nat :: s == Zeros(k) + Decimal(n)
  {
    if ParseU64(Some(s)) == Some(n) {
      var k := DigitsArePadded(s);
    }
    forall k: nat | s == Zeros(k) + Decimal(n)
      ensures ParseU64(Some(s)) == Some(n)
    {
      ZerosAddNothing(k, Decimal(n));
      DecimalRoundTrip(n);
    }
  }

  lemma ParseSignedDecimal(n: i32)
    ensures ParseI32(Some(SignedDecimal(n))) == Some(n)
  {
    if n < 0 {
      var m: nat := -(n as int);
      DecimalRoundTrip(m);
      assert SignedDecimal(n)[1..] == Decimal(m);
    } else {
      DecimalRoundTrip(n);
      assert IsDigit(Decimal(n)[0]);
    }
  }

  /** A printed magnitude with any zeros before it, and a minus sign before those unless the number is positive. */
  predicate IsWritten(s: Bytes, k: nat, n: int) {
    || (n >= 0 && s == Zeros(k) + Decimal(n))
    || (n <= 0 && s == ['-'] + (Zeros(k) + Decimal(-n)))
  }

  /** The texts that parse as an i32 are the printed number, with any zeros between sign and digits, and no other. */
  lemma ParseI32Iff(s: Bytes, n: i32)
    ensures ParseI32(Some(s)) == Some(n) <==> exists k: nat :: IsWritten(s, k, n)
  {
    if ParseI32(Some(s)) == Some(n) {
      var k := WrittenFrom(s, n);
    }
    forall k: nat | IsWritten(s, k, n)
      ensures ParseI32(Some(s)) == Some(n)
    {
      WrittenIsRead(s, k, n);
    }
  }

  lemma WrittenFrom(s: Bytes, n: i32) returns (k: nat)
    requires ParseI32(Some(s)) == Some(n)
    ensures IsWritten(s, k, n)
  {
    var digits := if s[0] == '-' then s[1..] else s;
    k := DigitsArePadded(digits);
    assert s[0] == '-' ==> s == ['-'] + digits;
  }

  lemma PlainI32(digits: Bytes, m: nat)
    requires digits != [] && Digits(digits) && DecimalValue(digits) == m < 0x8000_0000
    ensures ParseI32(Some(digits)) == Some(m)
  {
    assert IsDigit(digits[0]);
  }

  lemma MinusI32(digits: Bytes, m: int)
    requires digits != [] && Digits(digits) && DecimalValue(digits) == m <= 0x8000_0000
    ensures ParseI32(Some(['-'] + digits)) == Some(-m)
  {
    assert (['-'] + digits)[1..] == digits;
  }

  lemma WrittenIsRead(s: Bytes, k: nat, n: i32)
    requires IsWritten(s, k, n)
    ensures ParseI32(Some(s)) == Some(n)
  {
    var m: nat := if n < 0 then -(n as int) else n;
    var digits := Zeros(k) + Decimal(m);
    ZerosAddNothing(k, Decimal(m));
    DecimalRoundTrip(m);
    if s == digits && n >= 0 {
      PlainI32(digits, m);
    } else {
      MinusI32(digits, m);
    }
  }
}
