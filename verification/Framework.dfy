/**
 The collection framework (crates/metrics-framework/src/lib.rs): samples, instruments, the sampling tick,
 the observation callbacks, and the registry.  Its threads and locks are in module Runtime.
 */
module Framework {
  import opened Wrappers
  import opened Integers

  datatype Number = U64(u: u64) | F64(f: real)

  datatype NumberType = TypeU64 | TypeF64

  datatype ItemKind = CounterU64 | CounterF64 | GaugeU64 | GaugeF64

  datatype MetricItem = MetricItem(itemType: nat, name: string, kind: ItemKind, unit: string, description: string)

  datatype AttrValue = Str(s: string) | I64(i: int) | Bool(b: bool)

  datatype KeyValue = KeyValue(key: string, value: AttrValue)

  datatype SampleValue = SampleValue(name: string, value: Number)

  datatype SampleGroup = SampleGroup(attrs: seq<KeyValue>, values: seq<SampleValue>) {
    function Push(name: string, value: Number): SampleGroup {
      this.(values := values + [SampleValue(name, value)])
    }
  }

  type Snapshot = seq<SampleGroup>

  /** What an instrument is told: `inst.observe(value, attrs)`, with the name of the instrument. */
  datatype Observation = Observation(name: string, value: Number, attrs: seq<KeyValue>)

  function TypeOf(n: Number): NumberType {
    if n.U64? then TypeU64 else TypeF64
  }

  function ValueType(kind: ItemKind): NumberType {
    match kind
    case CounterU64 | GaugeU64 => TypeU64
    case CounterF64 | GaugeF64 => TypeF64
  }

  // ------------------------------------------------------------------ what there is to observe

  /** The values of one group with the attributes they share. */
  function OfGroup(attrs: seq<KeyValue>, values: seq<SampleValue>): (all: seq<Observation>)
    ensures |all| == |values|
    ensures forall k :: 0 <= k < |values| ==> all[k] == Observation(values[k].name, values[k].value, attrs)
  {
    seq(|values|, k requires 0 <= k < |values| => Observation(values[k].name, values[k].value, attrs))
  }

  /** Every value of a snapshot, in order. */
  function All(snapshot: Snapshot): seq<Observation> {
    if snapshot == [] then []
    else All(snapshot[..|snapshot| - 1])
         + OfGroup(snapshot[|snapshot| - 1].attrs, snapshot[|snapshot| - 1].values)
  }

  predicate IsFor(o: Observation, name: string, ty: NumberType) {
    o.name == name && TypeOf(o.value) == ty
  }

  function Select(all: seq<Observation>, name: string, ty: NumberType): seq<Observation> {
    if all == [] then []
    else
      var last := all[|all| - 1];
      Select(all[..|all| - 1], name, ty) + if IsFor(last, name, ty) then [last] else []
  }

  /** What one callback reports of a snapshot: the values of its name and number type, in order. */
  function Observed(snapshot: Snapshot, name: string, ty: NumberType): seq<Observation> {
    Select(All(snapshot), name, ty)
  }

  lemma AllSnoc(snapshot: Snapshot)
    requires snapshot != []
    ensures var last := snapshot[|snapshot| - 1];
            All(snapshot) == All(snapshot[..|snapshot| - 1]) + OfGroup(last.attrs, last.values)
  {
  }

  lemma {:induction false} AllConcat(a: Snapshot, b: Snapshot)
    ensures All(a + b) == All(a) + All(b)
  {
    if b == [] {
      assert a + b == a;
    } else {
      var front, last := b[..|b| - 1], b[|b| - 1];
      AllConcat(a, front);
      assert (a + b)[..|a + b| - 1] == a + front;
      AllSnoc(a + b);
      AllSnoc(b);
      assert All(a) + All(front) + OfGroup(last.attrs, last.values)
          == All(a) + (All(front) + OfGroup(last.attrs, last.values));
    }
  }

  lemma {:induction false} SelectConcat(a: seq<Observation>, b: seq<Observation>, name: string, ty: NumberType)
    ensures Select(a + b, name, ty) == Select(a, name, ty) + Select(b, name, ty)
  {
    if b == [] {
      assert a + b == a;
    } else {
      assert (a + b)[..|a + b| - 1] == a + b[..|b| - 1];
      SelectConcat(a, b[..|b| - 1], name, ty);
    }
  }

  lemma ObservedConcat(a: Snapshot, b: Snapshot, name: string, ty: NumberType)
    ensures Observed(a + b, name, ty) == Observed(a, name, ty) + Observed(b, name, ty)
  {
    AllConcat(a, b);
    SelectConcat(All(a), All(b), name, ty);
  }

  lemma SelectNext(all: seq<Observation>, k: nat, name: string, ty: NumberType)
    requires k < |all|
    ensures Select(all[..k + 1], name, ty)
         == Select(all[..k], name, ty) + if IsFor(all[k], name, ty) then [all[k]] else []
  {
    assert all[..k + 1][..k] == all[..k];
  }

  lemma ObservedNext(groups: Snapshot, i: nat, name: string, ty: NumberType)
    requires i < |groups|
    ensures Observed(groups[..i + 1], name, ty)
         == Observed(groups[..i], name, ty) + Select(OfGroup(groups[i].attrs, groups[i].values), name, ty)
  {
    assert groups[..i + 1][..i] == groups[..i];
    SelectConcat(All(groups[..i]), OfGroup(groups[i].attrs, groups[i].values), name, ty);
  }

  /** Nothing is made up, nothing of the name and type is passed over. */
  lemma {:induction false} SelectIsFilter(all: seq<Observation>, name: string, ty: NumberType, o: Observation)
    ensures multiset(Select(all, name, ty))[o] == if IsFor(o, name, ty) then multiset(all)[o] else 0
  {
    if all != [] {
      var front, last := all[..|all| - 1], all[|all| - 1];
      SelectIsFilter(front, name, ty, o);
      assert all == front + [last];
    }
  }

  // ------------------------------------------------------------------ buffers and instruments

  /** A `Vec<SampleGroup>`: the scratch buffer of a sampling thread, or the cache its lock protects. */
  class Buffer {
    var groups: Snapshot

    constructor ()
      ensures groups == []
    {
      groups := [];
    }

    method Push(group: SampleGroup)
      modifies this
      ensures groups == old(groups) + [group]
    {
      groups := groups + [group];
    }
  }

  /** The side of an instrument that a callback reports to. */
  class Instrument {
    var observed: seq<Observation>

    constructor ()
      ensures observed == []
    {
      observed := [];
    }

    method Observe(name: string, value: Number, attrs: seq<KeyValue>)
      modifies this
      ensures observed == old(observed) + [Observation(name, value, attrs)]
    {
      observed := observed + [Observation(name, value, attrs)];
    }
  }

  /** `observe_u64`. */
  method ObserveU64(inst: Instrument, cache: Buffer, name: string)
    modifies inst
    ensures inst.observed == old(inst.observed) + Observed(cache.groups, name, TypeU64)
  {
    var groups := cache.groups;
    for i := 0 to |groups|
      invariant inst.observed == old(inst.observed) + Observed(groups[..i], name, TypeU64)
    {
      var group := groups[i];
      ghost var before, all := inst.observed, OfGroup(group.attrs, group.values);
      for k := 0 to |group.values|
        invariant inst.observed == before + Select(all[..k], name, TypeU64)
      {
        var value := group.values[k];
        if value.name == name && value.value.U64? {
          inst.Observe(name, value.value, group.attrs);
        }
        SelectNext(all, k, name, TypeU64);
      }
      assert all[..|group.values|] == all;
      ObservedNext(groups, i, name, TypeU64);
    }
    assert groups[..|groups|] == groups;
  }

  /** `observe_f64`. */
  method ObserveF64(inst: Instrument, cache: Buffer, name: string)
    modifies inst
    ensures inst.observed == old(inst.observed) + Observed(cache.groups, name, TypeF64)
  {
    var groups := cache.groups;
    for i := 0 to |groups|
      invariant inst.observed == old(inst.observed) + Observed(groups[..i], name, TypeF64)
    {
      var group := groups[i];
      ghost var before, all := inst.observed, OfGroup(group.attrs, group.values);
      for k := 0 to |group.values|
        invariant inst.observed == before + Select(all[..k], name, TypeF64)
      {
        var value := group.values[k];
        if value.name == name && value.value.F64? {
          inst.Observe(name, value.value, group.attrs);
        }
        SelectNext(all, k, name, TypeF64);
      }
      assert all[..|group.values|] == all;
      ObservedNext(groups, i, name, TypeF64);
    }
    assert groups[..|groups|] == groups;
  }

  datatype InstrumentKind = ObservableCounter | ObservableGauge

  function KindOf(kind: ItemKind): InstrumentKind {
    match kind
    case CounterU64 | CounterF64 => ObservableCounter
    case GaugeU64 | GaugeF64 => ObservableGauge
  }

  /** What `register_item` leaves with the meter: an instrument, and its callback on a cache. */
  datatype Registration = Registration(
    name: string, kind: InstrumentKind, unit: string, description: string, callback: NumberType, cache: Buffer)

  function RegistrationOf(item: MetricItem, cache: Buffer): Registration {
    Registration(item.name, KindOf(item.kind), item.unit, item.description, ValueType(item.kind), cache)
  }

  /** What an export of some instruments reports, from the caches as they are. */
  ghost function Told(rs: seq<Registration>): seq<Observation>
    reads set r | r in rs :: r.cache
  {
    if rs == [] then []
    else
      var last := rs[|rs| - 1];
      Told(rs[..|rs| - 1]) + Observed(last.cache.groups, last.name, last.callback)
  }

  class Meter {
    var instruments: seq<Registration>

    constructor ()
      ensures instruments == []
    {
      instruments := [];
    }

    /** `register_item`: the kind chooses the instrument and between the two callbacks. */
    method RegisterItem(item: MetricItem, cache: Buffer)
      modifies this
      ensures instruments == old(instruments) + [RegistrationOf(item, cache)]
    {
      var r: Registration;
      match item.kind {
        case CounterU64 =>
          r := Registration(item.name, ObservableCounter, item.unit, item.description, TypeU64, cache);
        case CounterF64 =>
          r := Registration(item.name, ObservableCounter, item.unit, item.description, TypeF64, cache);
        case GaugeU64 =>
          r := Registration(item.name, ObservableGauge, item.unit, item.description, TypeU64, cache);
        case GaugeF64 =>
          r := Registration(item.name, ObservableGauge, item.unit, item.description, TypeF64, cache);
      }
      instruments := instruments + [r];
    }

    /** One export: every registered callback runs once, of whatever collector. */
    method Export(inst: Instrument)
      modifies inst
      ensures inst.observed == old(inst.observed) + old(Told(instruments))
    {
      var callbacks := instruments;
      for i := 0 to |callbacks|
        invariant inst.observed == old(inst.observed) + old(Told(callbacks[..i]))
      {
        var r := callbacks[i];
        Callback(inst, r);
        assert callbacks[..i + 1][..i] == callbacks[..i];
        assert old(Told(callbacks[..i + 1]) == Told(callbacks[..i]) + Observed(r.cache.groups, r.name, r.callback));
      }
      assert callbacks[..|callbacks|] == callbacks;
    }
  }

  /** The SDK calls the callback an instrument was registered with. */
  method Callback(inst: Instrument, r: Registration)
    modifies inst
    ensures inst.observed == old(inst.observed) + Observed(r.cache.groups, r.name, r.callback)
  {
    match r.callback {
      case TypeU64 => ObserveU64(inst, r.cache, r.name);
      case TypeF64 => ObserveF64(inst, r.cache, r.name);
    }
  }

  function Registrations(items: seq<MetricItem>, cache: Buffer): (rs: seq<Registration>)
    ensures |rs| == |items|
    ensures forall i :: 0 <= i < |items| ==> rs[i] == RegistrationOf(items[i], cache)
  {
    seq(|items|, i requires 0 <= i < |items| => RegistrationOf(items[i], cache))
  }

  /** An export depends on nothing but the caches of its instruments. */
  twostate lemma {:induction false} ToldIsFramed(rs: seq<Registration>)
    requires forall r <- rs :: r.cache.groups == old(r.cache.groups)
    ensures Told(rs) == old(Told(rs))
  {
    if rs != [] {
      ToldIsFramed(rs[..|rs| - 1]);
    }
  }

  lemma {:induction false} ToldConcat(a: seq<Registration>, b: seq<Registration>)
    ensures Told(a + b) == Told(a) + Told(b)
  {
    if b == [] {
      assert a + b == a;
    } else {
      assert (a + b)[..|a + b| - 1] == a + b[..|b| - 1];
      ToldConcat(a, b[..|b| - 1]);
    }
  }

  /** The instruments of one collector report what its items select from its cache. */
  lemma {:induction false} ToldOfItems(items: seq<MetricItem>, cache: Buffer)
    ensures Told(Registrations(items, cache)) == Exported(items, All(cache.groups))
  {
    if items != [] {
      var n := |items| - 1;
      ToldOfItems(items[..n], cache);
      assert Registrations(items, cache)[..n] == Registrations(items[..n], cache);
    }
  }

  /** What the callbacks of some items report between them, given everything there is. */
  function Exported(items: seq<MetricItem>, all: seq<Observation>): seq<Observation> {
    if items == [] then []
    else
      var last := items[|items| - 1];
      Exported(items[..|items| - 1], all) + Select(all, last.name, ValueType(last.kind))
  }

  // ------------------------------------------------------------------ nothing lost, nothing twice

  predicate DistinctNames(items: seq<MetricItem>) {
    forall i, j :: 0 <= i < j < |items| ==> items[i].name != items[j].name
  }

  predicate HasInstrument(items: seq<MetricItem>, o: Observation) {
    exists item <- items :: IsFor(o, item.name, ValueType(item.kind))
  }

  lemma HasInstrumentSnoc(front: seq<MetricItem>, last: MetricItem, o: Observation)
    ensures HasInstrument(front + [last], o) <==> HasInstrument(front, o) || IsFor(o, last.name, ValueType(last.kind))
    ensures DistinctNames(front + [last]) ==> !(HasInstrument(front, o) && IsFor(o, last.name, ValueType(last.kind)))
  {
    forall item | item in front
      ensures item in front + [last]
      ensures DistinctNames(front + [last]) ==> item.name != last.name
    {
      var i :| 0 <= i < |front| && front[i] == item;
      assert (front + [last])[i] == item && (front + [last])[|front|] == last;
    }
    assert (front + [last])[|front|] == last;
  }

  lemma {:induction false} ExportedCount(items: seq<MetricItem>, all: seq<Observation>, o: Observation)
    requires DistinctNames(items)
    ensures multiset(Exported(items, all))[o] == if HasInstrument(items, o) then multiset(all)[o] else 0
  {
    if items != [] {
      var front, last := items[..|items| - 1], items[|items| - 1];
      ExportedCount(front, all, o);
      SelectIsFilter(all, last.name, ValueType(last.kind), o);
      HasInstrumentSnoc(front, last, o);
      assert items == front + [last];
    }
  }

  /**
   With pairwise distinct item names, an export reports each value of the cache exactly once if and only
   if every value has an instrument of its name and number type; otherwise the value is dropped silently.
   */
  lemma ExportConserves(items: seq<MetricItem>, all: seq<Observation>)
    requires DistinctNames(items)
    ensures multiset(Exported(items, all)) == multiset(all) <==> forall o <- all :: HasInstrument(items, o)
  {
    forall o
      ensures multiset(Exported(items, all))[o] == if HasInstrument(items, o) then multiset(all)[o] else 0
    {
      ExportedCount(items, all, o);
    }
    if multiset(Exported(items, all)) == multiset(all) {
      forall o | o in all
        ensures HasInstrument(items, o)
      {
        assert multiset(all)[o] > 0;
      }
    }
  }

  // ------------------------------------------------------------------ one tick

  /** A collector, by what each of its calls of `collect` appends. */
  class Source {
    const outputs: nat -> Snapshot
    var calls: nat

    constructor (outputs: nat -> Snapshot)
      ensures this.outputs == outputs && calls == 0
    {
      this.outputs := outputs;
      calls := 0;
    }

    method Collect(out: Buffer)
      modifies this, out
      ensures out.groups == old(out.groups) + outputs(old(calls))
      ensures calls == old(calls) + 1
    {
      var produced := outputs(calls);
      calls := calls + 1;
      for i := 0 to |produced|
        invariant out.groups == old(out.groups) + produced[..i]
        invariant calls == old(calls) + 1
      {
        out.Push(produced[i]);
      }
      assert produced[..|produced|] == produced;
    }
  }

  /** `sample_once`: the cache gets the new snapshot alone, scratch gets what the cache held. */
  method SampleOnce(collector: Source, cache: Buffer, scratch: Buffer)
    requires cache != scratch
    modifies collector, cache, scratch
    ensures cache.groups == collector.outputs(old(collector.calls))
    ensures scratch.groups == old(cache.groups)
    ensures collector.calls == old(collector.calls) + 1
  {
    scratch.groups := [];
    collector.Collect(scratch);
    cache.groups, scratch.groups := scratch.groups, cache.groups;
  }

  /**
   The loop of a sampling thread; `stopReads` are the values it reads from its stop flag.  It ticks once
   for every read before the first `true`, and leaves the snapshot of its last tick.
   */
  method RunSampler(collector: Source, cache: Buffer, stopReads: seq<bool>) returns (ticks: nat)
    requires true in stopReads
    requires collector.calls == 0 && cache.groups == []
    modifies collector, cache
    ensures ticks < |stopReads| && stopReads[ticks] && true !in stopReads[..ticks]
    ensures collector.calls == ticks
    ensures cache.groups == if ticks == 0 then [] else collector.outputs(ticks - 1)
  {
    var scratch := new Buffer();
    ticks := 0;
    ghost var stopped :| 0 <= stopped < |stopReads| && stopReads[stopped];
    while !stopReads[ticks]
      invariant ticks <= stopped && true !in stopReads[..ticks]
      invariant collector.calls == ticks
      invariant cache.groups == if ticks == 0 then [] else collector.outputs(ticks - 1)
      decreases stopped - ticks
    {
      SampleOnce(collector, cache, scratch);
      assert stopReads[..ticks + 1] == stopReads[..ticks] + [stopReads[ticks]];
      ticks := ticks + 1;
    }
  }

  // ------------------------------------------------------------------ the registry

  /** The stop flag and the join handle (a thread id) of one sampling thread. */
  class Entry {
    var stop: bool
    var handle: Option<nat>

    constructor (thread: nat)
      ensures !stop && handle == Some(thread)
    {
      stop := false;
      handle := Some(thread);
    }
  }

  class Registry {
    var entries: seq<Entry>

    /** Every entry has a thread of its own. */
    ghost predicate Valid()
      reads this
    {
      forall i, j :: 0 <= i < j < |entries| ==> entries[i] != entries[j]
    }

    constructor ()
      ensures Valid() && entries == []
    {
      entries := [];
    }

    /**
     `add`, for a collector with these items; `spawned` is the thread the system grants.  A collector
     without items leaves no trace.  If no thread is granted the error is returned and there is no
     entry, but the instruments are already registered and will read an empty cache.
     */
    method Add(items: seq<MetricItem>, meter: Meter, spawned: Option<nat>) returns (ok: bool, cache: Buffer)
      requires Valid()
      modifies this, meter
      ensures Valid()
      ensures ok <==> items == [] || spawned.Some?
      ensures fresh(cache) && cache.groups == []
      ensures meter.instruments == old(meter.instruments) + Registrations(items, cache)
      ensures |entries| == |old(entries)| + (if items != [] && spawned.Some? then 1 else 0)
      ensures old(entries) <= entries
      ensures forall i :: |old(entries)| <= i < |entries| ==>
                fresh(entries[i]) && !entries[i].stop && entries[i].handle == spawned
    {
      cache := new Buffer();
      if |items| == 0 {
        return true, cache;
      }
      for i := 0 to |items|
        invariant meter.instruments == old(meter.instruments) + Registrations(items[..i], cache)
        invariant entries == old(entries) && cache.groups == []
      {
        meter.RegisterItem(items[i], cache);
        assert Registrations(items[..i + 1], cache)
            == Registrations(items[..i], cache) + Registrations([items[i]], cache);
      }
      assert items[..|items|] == items;
      if spawned.None? {
        return false, cache;
      }
      var entry := new Entry(spawned.value);
      entries := entries + [entry];
      return true, cache;
    }

    ghost predicate Stopped()
      reads this, entries
    {
      forall e <- entries :: e.stop && e.handle == None
    }

    /** The first loop of `shutdown`. */
    method RaiseFlags() returns (acts: seq<Stopping>)
      modifies entries
      ensures forall e <- entries :: e.stop && e.handle == old(e.handle)
      ensures acts == Flags(|entries|)
    {
      acts := [];
      for i := 0 to |entries|
        invariant forall k :: 0 <= k < i ==> entries[k].stop
        invariant forall e <- entries :: e.handle == old(e.handle)
        invariant acts == Flags(i)
      {
        entries[i].stop := true;
        acts := acts + [RaiseFlag(i)];
      }
    }

    /** The second loop of `shutdown`. */
    method JoinThreads() returns (acts: seq<Stopping>)
      requires Valid()
      modifies entries
      ensures forall k :: 0 <= k < |entries| ==> entries[k].stop == old(entries[k].stop) && entries[k].handle == None
      ensures acts == Joins(old(HandlesOf(entries)))
    {
      acts := [];
      ghost var handles := HandlesOf(entries);
      for i := 0 to |entries|
        invariant forall k :: 0 <= k < |entries| ==> entries[k].stop == old(entries[k].stop)
        invariant forall k :: 0 <= k < i ==> entries[k].handle == None
        invariant forall k :: i <= k < |entries| ==> entries[k].handle == handles[k]
        invariant acts == Joins(handles[..i])
      {
        JoinsNext(handles, i);
        var handle := entries[i].handle;
        entries[i].handle := None;
        if handle.Some? {
          acts := acts + [WaitFor(handle.value)];
        }
      }
      assert handles[..|entries|] == handles;
    }

    /** `shutdown`: every flag is set, in order, before the first thread is waited for. */
    method Shutdown() returns (acts: seq<Stopping>)
      requires Valid()
      modifies entries
      ensures Valid() && Stopped() && forall e <- entries :: e.stop && e.handle.None?
      ensures acts == Flags(|entries|) + Joins(old(HandlesOf(entries)))
      ensures old(Stopped()) ==> acts == Flags(|entries|)
                                 && forall e <- entries :: e.handle == old(e.handle) && e.stop == old(e.stop)
    {
      ghost var handles := HandlesOf(entries);
      var flags := RaiseFlags();
      assert HandlesOf(entries) == handles;
      var joins := JoinThreads();
      acts := flags + joins;
      if old(Stopped()) {
        NoJoins(handles);
      }
    }
  }

  /** What `shutdown` does to the threads: raise the flag of an entry, wait for a thread. */
  datatype Stopping = RaiseFlag(entry: nat) | WaitFor(thread: nat)

  function Flags(n: nat): seq<Stopping> {
    if n == 0 then [] else Flags(n - 1) + [RaiseFlag(n - 1)]
  }

  function HandlesOf(entries: seq<Entry>): (handles: seq<Option<nat>>)
    reads entries
    ensures |handles| == |entries|
    ensures forall i :: 0 <= i < |entries| ==> handles[i] == entries[i].handle
  {
    seq(|entries|, i requires 0 <= i < |entries| reads entries => entries[i].handle)
  }

  /** The threads that are still there are waited for, in order. */
  function Joins(handles: seq<Option<nat>>): seq<Stopping> {
    if handles == [] then []
    else
      Joins(handles[..|handles| - 1])
      + match handles[|handles| - 1] case Some(thread) => [WaitFor(thread)] case None => []
  }

  lemma JoinsNext(handles: seq<Option<nat>>, i: nat)
    requires i < |handles|
    ensures Joins(handles[..i + 1])
         == Joins(handles[..i]) + match handles[i] case Some(thread) => [WaitFor(thread)] case None => []
  {
    assert handles[..i + 1][..i] == handles[..i];
  }

  lemma {:induction false} NoJoins(handles: seq<Option<nat>>)
    requires forall i :: 0 <= i < |handles| ==> handles[i] == None
    ensures Joins(handles) == []
  {
    if handles != [] {
      NoJoins(handles[..|handles| - 1]);
    }
  }
}
