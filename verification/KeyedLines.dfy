/** The `Key: value unit` layout shared by `/proc/<pid>/status` and `/proc/meminfo`. */
module KeyedLines {
  import opened Wrappers
  import opened Integers
  import opened Text

  /** A line with a colon: what its key is to the parser, and the first token after the colon. */
  datatype Field<+K> = Field(key: K, value: Option<Bytes>)

  /** The key is the trimmed text before the first colon; `keyOf` is the match a parser makes on it. */
  function FieldOf<K>(keyOf: Bytes -> K, line: Bytes): Option<Field<K>> {
    match Position(line, ':')
    case None => None
    case Some(colon) => Some(Field(keyOf(Trim(line[..colon])), Nth(Tokens(line[colon + 1..]), 0)))
  }

  /** The values of one key, in file order. */
  function ValuesOf<K(==)>(fields: seq<Field<K>>, key: K): seq<Option<Bytes>> {
    if fields == [] then []
    else
      var front, last := ValuesOf(fields[..|fields| - 1], key), fields[|fields| - 1];
      if last.key == key then front + [last.value] else front
  }

  /** The last value that is a u64; 0 if there is none. */
  function LastU64(values: seq<Option<Bytes>>): u64 {
    if values == [] then 0
    else
      match ParseU64(values[|values| - 1])
      case Some(v) => v
      case None => LastU64(values[..|values| - 1])
  }

  lemma {:induction false} LastU64IsLast(values: seq<Option<Bytes>>)
    ensures
      || (exists j :: 0 <= j < |values| && ParseU64(values[j]) == Some(LastU64(values))
                      && forall k :: j < k < |values| ==> ParseU64(values[k]).None?)
      || (LastU64(values) == 0 && forall k :: 0 <= k < |values| ==> ParseU64(values[k]).None?)
  {
    if values != [] {
      var last := |values| - 1;
      LastU64IsLast(values[..last]);
      if ParseU64(values[last]).None? {
        assert forall k :: 0 <= k < last ==> values[..last][k] == values[k];
      }
    }
  }

  lemma ValuesSnoc<K>(fields: seq<Field<K>>, field: Field<K>, key: K)
    ensures ValuesOf(fields + [field], key)
         == if field.key == key then ValuesOf(fields, key) + [field.value] else ValuesOf(fields, key)
  {
    assert (fields + [field])[..|fields|] == fields;
  }

  lemma {:induction false} ValuesConcat<K>(a: seq<Field<K>>, b: seq<Field<K>>, key: K)
    ensures ValuesOf(a + b, key) == ValuesOf(a, key) + ValuesOf(b, key)
  {
    if b == [] {
      assert a + b == a;
    } else {
      var front, last := b[..|b| - 1], b[|b| - 1];
      assert a + b == (a + front) + [last] && b == front + [last];
      ValuesConcat(a, front, key);
      assert (a + b)[..|a + b| - 1] == a + front;
    }
  }

  /** The fields of a key and their values are the same thing seen twice. */
  lemma {:induction false} ValuesOfContains<K>(fields: seq<Field<K>>, key: K, value: Option<Bytes>)
    ensures value in ValuesOf(fields, key) <==> Field(key, value) in fields
  {
    if fields != [] {
      var front, last := fields[..|fields| - 1], fields[|fields| - 1];
      ValuesOfContains(front, key, value);
      assert fields == front + [last];
    }
  }

  /** What one line adds to the values of a key. */
  function Adds<K(==)>(row: Bytes -> Option<Field<K>>, line: Bytes, key: K): seq<Option<Bytes>> {
    match row(line)
    case Some(f) => if f.key == key then [f.value] else []
    case None => []
  }

  /** The values of a key in some lines. */
  function LineValues<K(==)>(row: Bytes -> Option<Field<K>>, lines: seq<Bytes>, key: K): seq<Option<Bytes>> {
    ValuesOf(FilterMap(row, lines), key)
  }

  lemma LineValuesConcat<K>(row: Bytes -> Option<Field<K>>, a: seq<Bytes>, b: seq<Bytes>, key: K)
    ensures LineValues(row, a + b, key) == LineValues(row, a, key) + LineValues(row, b, key)
  {
    FilterMapConcat(row, a, b);
    ValuesConcat(FilterMap(row, a), FilterMap(row, b), key);
  }

  lemma LineValuesOfOne<K>(row: Bytes -> Option<Field<K>>, line: Bytes, key: K)
    ensures LineValues(row, [line], key) == Adds(row, line, key)
  {
    assert [line][1..] == [];
    match row(line)
    case None => assert FilterMap(row, [line]) == [];
    case Some(f) =>
      ValuesSnoc([], f, key);
      assert FilterMap(row, [line]) == [f] == [] + [f];
  }

  lemma ValuesOfLines<K>(row: Bytes -> Option<Field<K>>, a: seq<Bytes>, line: Bytes, b: seq<Bytes>, key: K)
    ensures LineValues(row, a + [line] + b, key)
         == LineValues(row, a, key) + Adds(row, line, key) + LineValues(row, b, key)
  {
    LineValuesConcat(row, a + [line], b, key);
    LineValuesConcat(row, a, [line], key);
    LineValuesOfOne(row, line, key);
  }

  lemma ValuesOfTwo<K>(row: Bytes -> Option<Field<K>>, x: Bytes, y: Bytes, key: K)
    ensures LineValues(row, [x, y], key) == Adds(row, x, key) + Adds(row, y, key)
  {
    assert [x, y] == [x] + [y];
    LineValuesConcat(row, [x], [y], key);
    LineValuesOfOne(row, x, key);
    LineValuesOfOne(row, y, key);
  }

  lemma ValuesOfSwapped<K>(
    row: Bytes -> Option<Field<K>>, before: seq<Bytes>, x: Bytes, y: Bytes, after: seq<Bytes>, key: K)
    requires Adds(row, x, key) == [] || Adds(row, y, key) == []
    ensures LineValues(row, before + [x, y] + after, key) == LineValues(row, before + [y, x] + after, key)
  {
    LineValuesConcat(row, before + [x, y], after, key);
    LineValuesConcat(row, before, [x, y], key);
    LineValuesConcat(row, before + [y, x], after, key);
    LineValuesConcat(row, before, [y, x], key);
    assert LineValues(row, [x, y], key) == LineValues(row, [y, x], key) by {
      ValuesOfTwo(row, x, y, key);
      ValuesOfTwo(row, y, x, key);
      assert Adds(row, x, key) + Adds(row, y, key) == Adds(row, y, key) + Adds(row, x, key);
    }
  }

  /** One line as the kernel prints it: key, colon, whitespace, value token, and whatever follows it. */
  function PrintField(key: Bytes, gap: Bytes, value: Bytes, rest: Bytes): Bytes {
    key + [':'] + (gap + value + rest)
  }

  lemma PrintedField<K>(keyOf: Bytes -> K, key: Bytes, gap: Bytes, value: Bytes, rest: Bytes)
    requires IsToken(key) && ':' !in key && Blank(gap) && IsToken(value)
    requires rest != [] ==> IsWhitespace(rest[0])
    ensures FieldOf(keyOf, PrintField(key, gap, value, rest)) == Some(Field(keyOf(key), Some(value)))
  {
    var tail := gap + value + rest;
    PositionOfFirst(key, ':', tail);
    assert (key + [':'] + tail)[..|key|] == key;
    assert (key + [':'] + tail)[|key| + 1..] == tail;
    TokenIsTrimmed(key);
    TrimsToItself(key);
    FirstToken(gap, value, rest);
  }

  /** A size as the kernel prints it, in KiB. */
  function PrintKb(key: Bytes, gap: Bytes, kb: nat): Bytes {
    PrintField(key, gap, Decimal(kb), " kB")
  }

  lemma PrintedKb<K>(keyOf: Bytes -> K, key: Bytes, gap: Bytes, kb: nat)
    requires IsToken(key) && ':' !in key && Blank(gap) && '\n' !in gap
    ensures FieldOf(keyOf, PrintKb(key, gap, kb)) == Some(Field(keyOf(key), Some(Decimal(kb))))
    ensures '\n' !in PrintKb(key, gap, kb)
  {
    PrintedField(keyOf, key, gap, Decimal(kb), " kB");
  }

  lemma FirstToken(gap: Bytes, value: Bytes, rest: Bytes)
    requires Blank(gap) && IsToken(value)
    requires rest != [] ==> IsWhitespace(rest[0])
    ensures Nth(Tokens(gap + value + rest), 0) == Some(value)
  {
    assert gap + value + rest == gap + (value + rest);
    TokensAfterBlank(gap, value + rest);
    TokensOfFirst(value, rest);
  }

  /** The last u64 after one more line. */
  lemma LastU64Snoc<K>(fields: seq<Field<K>>, field: Field<K>, key: K)
    ensures LastU64(ValuesOf(fields + [field], key))
         == if field.key == key && ParseU64(field.value).Some?
            then ParseU64(field.value).value
            else LastU64(ValuesOf(fields, key))
  {
    ValuesSnoc(fields, field, key);
    var values := ValuesOf(fields, key);
    assert (values + [field.value])[..|values|] == values;
  }

  lemma LastOfTwo<K>(first: Field<K>, second: Field<K>, key: K)
    ensures LastU64(ValuesOf([first, second], key))
         == if second.key == key && ParseU64(second.value).Some? then ParseU64(second.value).value
            else if first.key == key && ParseU64(first.value).Some? then ParseU64(first.value).value
            else 0
  {
    assert [] + [first] == [first] && [first] + [second] == [first, second];
    LastU64Snoc([], first, key);
    LastU64Snoc([first], second, key);
  }

  // ------------------------------------------------------------------ by the text of the key

  function AsWritten(key: Bytes): Bytes {
    key
  }

  /** A line with its key as it is written. */
  function TextRow(line: Bytes): Option<Field<Bytes>> {
    FieldOf(AsWritten, line)
  }

  /** The values on the lines of a file that have this text before their colon. */
  function Written(content: Bytes, text: Bytes): seq<Option<Bytes>> {
    LineValues(TextRow, Lines(content), text)
  }

  /** A key that is recognised by one text and no other has the values written under that text. */
  lemma {:induction false} ValuesByText<K>(
    row: Bytes -> Option<Field<K>>, keyOf: Bytes -> K, lines: seq<Bytes>, key: K, text: Bytes)
    requires forall l: Bytes :: row(l) == FieldOf(keyOf, l)
    requires forall t: Bytes :: keyOf(t) == key <==> t == text
    ensures LineValues(row, lines, key) == LineValues(TextRow, lines, text)
  {
    if lines != [] {
      var front, last := lines[..|lines| - 1], lines[|lines| - 1];
      assert lines == front + [last];
      ValuesByText(row, keyOf, front, key, text);
      LineValuesConcat(row, front, [last], key);
      LineValuesConcat(TextRow, front, [last], text);
      LineValuesOfOne(row, last, key);
      LineValuesOfOne(TextRow, last, text);
    }
  }

  // ------------------------------------------------------------------ a file that prints every key once

  /** The line of a key with any spacing and any note after the value, or any line without a known key. */
  datatype PrintedLine<K> = Entry(key: K, gap: Bytes, note: Bytes) | Foreign(line: Bytes)

  /** How each key is written, and what is printed for it. */
  datatype Layout<!K(==,!new)> = Layout(known: K -> bool, text: K -> Bytes, value: K -> Bytes) {
    function Print(): PrintedLine<K> -> Bytes {
      (l: PrintedLine<K>) =>
        match l
        case Entry(key, gap, note) => PrintField(text(key), gap, value(key), note)
        case Foreign(line) => line
    }

    function Meaning(row: Bytes -> Option<Field<K>>): PrintedLine<K> -> Option<Field<K>> {
      (l: PrintedLine<K>) =>
        match l
        case Entry(key, _, _) => Some(Field(key, Some(value(key))))
        case Foreign(line) => row(line)
    }

    /** Keys are tokens without a colon, and each is recognised by its own text and no other. */
    ghost predicate IsReadBy(keyOf: Bytes -> K) {
      forall k: K :: known(k) ==>
        && IsToken(text(k)) && ':' !in text(k) && IsToken(value(k))
        && forall t: Bytes :: keyOf(t) == k <==> t == text(k)
    }

    /** No known key is written before the colon of the line. */
    ghost predicate IsForeign(line: Bytes) {
      TextRow(line).Some? ==> forall k: K :: known(k) ==> TextRow(line).value.key != text(k)
    }

    ghost predicate IsLine(l: PrintedLine<K>) {
      match l
      case Entry(key, gap, note) =>
        && known(key) && Blank(gap) && (note != [] ==> IsWhitespace(note[0])) && '\n' !in gap + note
      case Foreign(line) => '\n' !in line && IsForeign(line)
    }

    function Keys(table: seq<PrintedLine<K>>): seq<K> {
      if table == [] then []
      else Keys(table[..|table| - 1])
           + match table[|table| - 1] case Entry(key, _, _) => [key] case Foreign(_) => []
    }

    /** Each known key is printed on one line; other lines may be anywhere. */
    ghost predicate IsTable(table: seq<PrintedLine<K>>) {
      && table != [] && (forall l <- table :: IsLine(l))
      && forall k: K :: known(k) ==> multiset(Keys(table))[k] == 1
    }
  }

  lemma PrintedLineIsRead<K(!new)>(layout: Layout<K>, row: Bytes -> Option<Field<K>>, keyOf: Bytes -> K, l: PrintedLine<K>)
    requires forall l: Bytes :: row(l) == FieldOf(keyOf, l)
    requires layout.IsReadBy(keyOf) && layout.IsLine(l)
    ensures row(layout.Print()(l)) == layout.Meaning(row)(l) && '\n' !in layout.Print()(l)
  {
    match l
    case Foreign(_) =>
    case Entry(key, gap, note) =>
      PrintedField(keyOf, layout.text(key), gap, layout.value(key), note);
      assert keyOf(layout.text(key)) == key;
  }

  /** So many values as there are lines of a key, and each of them is what is printed for it. */
  function Copies(value: Bytes, n: nat): seq<Option<Bytes>> {
    seq(n, _ => Some(value))
  }

  /** The value on the line, if it is of this key. */
  function MeantFor<K(==)>(meaning: Option<Field<K>>, key: K): seq<Option<Bytes>> {
    match meaning
    case None => []
    case Some(f) => if f.key == key then [f.value] else []
  }

  lemma MeaningsFor<K>(meaning: PrintedLine<K> -> Option<Field<K>>, front: seq<PrintedLine<K>>, last: PrintedLine<K>, key: K)
    ensures ValuesOf(Meanings(meaning, front + [last]), key)
         == ValuesOf(Meanings(meaning, front), key) + MeantFor(meaning(last), key)
  {
    MeaningsSnoc(meaning, front, last);
    match meaning(last)
    case None => assert Meanings(meaning, front + [last]) == Meanings(meaning, front);
    case Some(f) => ValuesSnoc(Meanings(meaning, front), f, key);
  }

  /** A line means something for a key exactly if it was printed for it. */
  lemma LineMeansIts<K(!new)>(
    layout: Layout<K>, row: Bytes -> Option<Field<K>>, keyOf: Bytes -> K, l: PrintedLine<K>, key: K)
    requires forall l: Bytes :: row(l) == FieldOf(keyOf, l)
    requires layout.IsReadBy(keyOf) && layout.known(key) && layout.IsLine(l)
    ensures MeantFor(layout.Meaning(row)(l), key)
         == if l.Entry? && l.key == key then [Some(layout.value(key))] else []
  {
    match l
    case Entry(_, _, _) =>
    case Foreign(line) =>
      if row(line).Some? {
        assert keyOf(TextRow(line).value.key) == row(line).value.key;
      }
  }

  lemma {:induction false} ValuesOfMeanings<K(!new)>(
    layout: Layout<K>, row: Bytes -> Option<Field<K>>, keyOf: Bytes -> K, table: seq<PrintedLine<K>>, key: K)
    requires forall l: Bytes :: row(l) == FieldOf(keyOf, l)
    requires layout.IsReadBy(keyOf) && layout.known(key) && forall l <- table :: layout.IsLine(l)
    ensures ValuesOf(Meanings(layout.Meaning(row), table), key)
         == Copies(layout.value(key), multiset(layout.Keys(table))[key])
  {
    if table != [] {
      var front, last := table[..|table| - 1], table[|table| - 1];
      assert table == front + [last] && last in table;
      ValuesOfMeanings(layout, row, keyOf, front, key);
      MeaningsFor(layout.Meaning(row), front, last, key);
      LineMeansIts(layout, row, keyOf, last, key);
    }
  }

  /** In a file that prints every known key once, in any order and spacing, each key has the one value printed. */
  lemma ValuesOfPrinted<K(!new)>(
    layout: Layout<K>, row: Bytes -> Option<Field<K>>, keyOf: Bytes -> K, table: seq<PrintedLine<K>>, key: K)
    requires forall l: Bytes :: row(l) == FieldOf(keyOf, l)
    requires layout.IsReadBy(keyOf) && layout.known(key) && layout.IsTable(table)
    ensures ValuesOf(FilterMap(row, Lines(PrintTable(layout.Print(), table))), key) == [Some(layout.value(key))]
  {
    forall l | l in table
      ensures row(layout.Print()(l)) == layout.Meaning(row)(l) && '\n' !in layout.Print()(l)
    {
      PrintedLineIsRead(layout, row, keyOf, l);
    }
    PrintedTable(row, layout.Print(), layout.Meaning(row), table);
    ValuesOfMeanings(layout, row, keyOf, table, key);
  }
}
