/** Sample groups whose values are metrics of the table, and what the callbacks see of them. */
module Samples {
  import opened Wrappers
  import opened Text
  import opened Framework
  import opened Names

  /** The sample a group pushes for a metric. */
  function SampleOf(number: Metric -> Number): Metric -> SampleValue {
    m => SampleValue(Name(m), number(m))
  }

  /** One value for each of some keys. */
  function Mapped<K, V>(keys: seq<K>, value: K -> V): (values: seq<V>)
    ensures |values| == |keys|
    ensures forall k :: 0 <= k < |keys| ==> values[k] == value(keys[k])
  {
    seq(|keys|, k requires 0 <= k < |keys| => value(keys[k]))
  }

  /** One sample for each of some metrics. */
  function Values(metrics: seq<Metric>, number: Metric -> Number): seq<SampleValue> {
    Mapped(metrics, SampleOf(number))
  }

  lemma ValueAt(metrics: seq<Metric>, number: Metric -> Number, k: nat)
    requires k < |metrics|
    ensures Values(metrics, number)[k] == SampleValue(Name(metrics[k]), number(metrics[k]))
  {
  }

  lemma MappedConcat<K, V>(a: seq<K>, b: seq<K>, value: K -> V)
    ensures Mapped(a + b, value) == Mapped(a, value) + Mapped(b, value)
  {
  }

  lemma ValuesConcat(a: seq<Metric>, b: seq<Metric>, number: Metric -> Number)
    ensures Values(a + b, number) == Values(a, number) + Values(b, number)
  {
    MappedConcat(a, b, SampleOf(number));
  }

  lemma ValuesAgree(metrics: seq<Metric>, f: Metric -> Number, g: Metric -> Number)
    requires forall m <- metrics :: f(m) == g(m)
    ensures Values(metrics, f) == Values(metrics, g)
  {
    assert forall k :: 0 <= k < |metrics| ==> metrics[k] in metrics;
  }

  /** One value for each of the first k keys. */
  function MappedTo<K, V>(keys: seq<K>, k: nat, value: K -> V): seq<V> {
    if k <= |keys| then Mapped(keys[..k], value) else []
  }

  lemma MappedNext<K, V>(keys: seq<K>, k: nat, value: K -> V)
    requires k < |keys|
    ensures MappedTo(keys, k + 1, value) == MappedTo(keys, k, value) + [value(keys[k])]
  {
    assert keys[..k + 1] == keys[..k] + [keys[k]];
    MappedConcat(keys[..k], [keys[k]], value);
  }

  lemma MappedAll<K, V>(keys: seq<K>, k: nat, value: K -> V)
    requires k == |keys|
    ensures MappedTo(keys, k, value) == Mapped(keys, value)
  {
    assert keys[..k] == keys;
  }

  /** These values are some of a group's own, and then those of the first k metrics. */
  ghost predicate Reports(
    values: seq<SampleValue>, base: seq<SampleValue>, metrics: seq<Metric>, k: nat, number: Metric -> Number) {
    values == base + MappedTo(metrics, k, SampleOf(number))
  }

  lemma NothingReported(base: seq<SampleValue>, metrics: seq<Metric>, number: Metric -> Number)
    ensures Reports(base, base, metrics, 0, number)
  {
    assert MappedTo(metrics, 0, SampleOf(number)) == [];
  }

  lemma AllReported(
    values: seq<SampleValue>, base: seq<SampleValue>, metrics: seq<Metric>, k: nat, number: Metric -> Number)
    requires Reports(values, base, metrics, k, number) && k == |metrics|
    ensures values == base + Values(metrics, number)
    ensures base == [] ==> values == Values(metrics, number)
  {
    MappedAll(metrics, k, SampleOf(number));
    assert [] + Values(metrics, number) == Values(metrics, number);
  }

  /** The k-th metric, and its number. */
  ghost predicate IsAt(metrics: seq<Metric>, k: nat, number: Metric -> Number, m: Metric, value: Number) {
    k < |metrics| && metrics[k] == m && number(m) == value
  }

  /** `group.push(NAME, value)`, for a group that has the first k of these metrics; afterwards it has one more. */
  method Push(
    group: SampleGroup, ghost base: seq<SampleValue>, ghost metrics: seq<Metric>, ghost k: nat, ghost next: nat,
    ghost number: Metric -> Number, m: Metric, value: Number) returns (grown: SampleGroup)
    requires IsAt(metrics, k, number, m, value) && next == k + 1
    requires Reports(group.values, base, metrics, k, number)
    ensures grown.attrs == group.attrs
    ensures Reports(grown.values, base, metrics, next, number)
  {
    grown := group.Push(Name(m), value);
    MappedNext(metrics, k, SampleOf(number));
  }

  predicate NoRepeat(metrics: seq<Metric>) {
    forall i, j :: 0 <= i < j < |metrics| ==> metrics[i] != metrics[j]
  }

  lemma RowsNoRepeat(f: Family)
    ensures NoRepeat(RowsOf(f))
    ensures forall m <- RowsOf(f) :: FamilyOf(m) == f
  {
    forall i | 0 <= i < |RowsOf(f)|
      ensures FamilyOf(RowsOf(f)[i]) == f && Rank(RowsOf(f)[i]) == i
    {
      RowsAreDistinct(f, i);
    }
  }

  /** The groups that the records of a table give, one after the other. */
  function Flat<T>(groupsOf: T -> Snapshot, records: seq<T>): Snapshot {
    if records == [] then []
    else Flat(groupsOf, records[..|records| - 1]) + groupsOf(records[|records| - 1])
  }

  lemma Appended(before: Snapshot, sofar: Snapshot, section: Snapshot, now: Snapshot)
    requires now == before + sofar + section
    ensures now == before + (sofar + section)
  {
  }

  lemma FlatSnoc<T>(groupsOf: T -> Snapshot, records: seq<T>, i: nat)
    requires i < |records|
    ensures Flat(groupsOf, records[..i + 1]) == Flat(groupsOf, records[..i]) + groupsOf(records[i])
  {
    assert records[..i + 1][..i] == records[..i];
  }

  /** The observations that the records of a table give, one after the other. */
  function Series<T>(seriesOf: T -> seq<Observation>, records: seq<T>): seq<Observation> {
    if records == [] then []
    else Series(seriesOf, records[..|records| - 1]) + seriesOf(records[|records| - 1])
  }

  lemma SeriesSnoc<T>(seriesOf: T -> seq<Observation>, front: seq<T>, last: T)
    ensures Series(seriesOf, front + [last]) == Series(seriesOf, front) + seriesOf(last)
  {
    assert (front + [last])[..|front|] == front;
  }

  /** A callback over the groups of a table sees what it would see of each record, in order. */
  lemma {:induction false} ObservedOfFlat<T>(
    groupsOf: T -> Snapshot, records: seq<T>, name: string, ty: NumberType, seriesOf: T -> seq<Observation>)
    requires forall r <- records :: Observed(groupsOf(r), name, ty) == seriesOf(r)
    ensures Observed(Flat(groupsOf, records), name, ty) == Series(seriesOf, records)
  {
    if records != [] {
      var front, last := records[..|records| - 1], records[|records| - 1];
      ObservedOfFlat(groupsOf, front, name, ty, seriesOf);
      ObservedConcat(Flat(groupsOf, front), groupsOf(last), name, ty);
      assert last in records;
    }
  }

  /** What is observed of the entries of a table, line by line. */
  lemma {:induction false} SeriesOfLines<T>(
    seriesOf: T -> seq<Observation>, row: Bytes -> Option<T>, report: Bytes -> seq<Observation>, lines: seq<Bytes>)
    requires forall l <- lines :: report(l) == match row(l) case None => [] case Some(t) => seriesOf(t)
    ensures Series(seriesOf, FilterMap(row, lines)) == Series(report, lines)
  {
    if lines != [] {
      var n := |lines| - 1;
      SeriesOfLines(seriesOf, row, report, lines[..n]);
      FilterMapSnoc(row, lines, n);
      assert lines[..n + 1] == lines;
      assert lines[n] in lines;
      assert Series(report, lines) == Series(report, lines[..n]) + report(lines[n]);
      if row(lines[n]).Some? {
        SeriesSnoc(seriesOf, FilterMap(row, lines[..n]), row(lines[n]).value);
      } else {
        assert FilterMap(row, lines) == FilterMap(row, lines[..n]);
      }
    }
  }

  lemma AllOfOne(g: SampleGroup)
    ensures All([g]) == OfGroup(g.attrs, g.values)
  {
    assert [g][..0] == [];
    assert All([]) == [];
  }

  /** What a group with these metrics contains, one by one. */
  lemma AllOfValues(attrs: seq<KeyValue>, metrics: seq<Metric>, number: Metric -> Number)
    ensures All([SampleGroup(attrs, Values(metrics, number))])
         == Mapped(metrics, m => Observation(Name(m), number(m), attrs))
  {
    AllOfOne(SampleGroup(attrs, Values(metrics, number)));
  }

  /** The callback of a metric sees the one value a group has for it, if it has one of that type. */
  lemma ObservedOfGroup(attrs: seq<KeyValue>, metrics: seq<Metric>, number: Metric -> Number, m: Metric, ty: NumberType)
    requires NoRepeat(metrics)
    ensures Observed([SampleGroup(attrs, Values(metrics, number))], Name(m), ty)
         == if m in metrics && TypeOf(number(m)) == ty then [Observation(Name(m), number(m), attrs)] else []
  {
    AllOfOne(SampleGroup(attrs, Values(metrics, number)));
    SelectOfValues(attrs, metrics, number, m, ty);
  }

  /** The same for a group with every row of an item type. */
  lemma ObservedOfFamily(attrs: seq<KeyValue>, number: Metric -> Number, m: Metric, ty: NumberType)
    requires TypeOf(number(m)) == ty
    ensures Observed([SampleGroup(attrs, Values(RowsOf(FamilyOf(m)), number))], Name(m), ty)
         == [Observation(Name(m), number(m), attrs)]
  {
    RowsNoRepeat(FamilyOf(m));
    RowsContain(m);
    ObservedOfGroup(attrs, RowsOf(FamilyOf(m)), number, m, ty);
  }

  lemma {:induction false} SelectOfValues(
    attrs: seq<KeyValue>, metrics: seq<Metric>, number: Metric -> Number, m: Metric, ty: NumberType)
    requires NoRepeat(metrics)
    ensures Select(OfGroup(attrs, Values(metrics, number)), Name(m), ty)
         == if m in metrics && TypeOf(number(m)) == ty then [Observation(Name(m), number(m), attrs)] else []
  {
    if metrics != [] {
      var front, last := metrics[..|metrics| - 1], metrics[|metrics| - 1];
      var all := OfGroup(attrs, Values(metrics, number));
      assert metrics == front + [last];
      assert all[..|all| - 1] == OfGroup(attrs, Values(front, number));
      SelectOfValues(attrs, front, number, m, ty);
      NamesAreDistinct(last, m);
    }
  }

  // ------------------------------------------------------------------ every value has its row

  /** The number type of a metric in the table. */
  function RowType(m: Metric): NumberType {
    ValueType(Kind(m))
  }

  /** Each value is of a metric of this item type, and a number of the type its row registers. */
  ghost predicate Registered(f: Family, snapshot: Snapshot) {
    forall g <- snapshot, v <- g.values :: OfRow(f, v)
  }

  ghost predicate OfRow(f: Family, v: SampleValue) {
    exists m: Metric :: FamilyOf(m) == f && v.name == Name(m) && TypeOf(v.value) == RowType(m)
  }

  lemma ValuesRegistered(f: Family, attrs: seq<KeyValue>, metrics: seq<Metric>, number: Metric -> Number)
    requires forall m <- metrics :: FamilyOf(m) == f && TypeOf(number(m)) == RowType(m)
    ensures Registered(f, [SampleGroup(attrs, Values(metrics, number))])
  {
    var g := SampleGroup(attrs, Values(metrics, number));
    forall v | v in g.values
      ensures OfRow(f, v)
    {
      var k :| 0 <= k < |metrics| && v == g.values[k];
      assert metrics[k] in metrics;
    }
  }

  lemma {:induction false} FlatRegistered<T>(f: Family, groupsOf: T -> Snapshot, records: seq<T>)
    requires forall r <- records :: Registered(f, groupsOf(r))
    ensures Registered(f, Flat(groupsOf, records))
  {
    if records != [] {
      FlatRegistered(f, groupsOf, records[..|records| - 1]);
      assert records[|records| - 1] in records;
    }
  }
}
