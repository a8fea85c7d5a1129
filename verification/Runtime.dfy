/**
 The threads of the collection runtime (crates/metrics-framework/src/lib.rs) as a transition system: one
 sampling thread per collector, any number of instrument callbacks, and the thread that owns the registry.
 Every interleaving of their steps is a run.
 */
module Runtime {
  import opened Wrappers
  import opened Framework

  /** What the n-th call of `collect` on collector c appends: any function, so any sequence of outputs. */
  type Outputs = (nat, nat) -> Snapshot

  /** The reader-writer lock of a cache: held by a set of callbacks, or by the sampling thread. */
  datatype Lock = Shared(holders: set<nat>) | Exclusive

  /** Where a sampling thread is; the name of a place is the step it takes next. */
  datatype Pc = Check | Clear | Collect | Acquire | Swap | Release | Pace | Exited

  /** The two vectors a sampling thread ever allocates. */
  datatype Slot = First | Second

  datatype Buffers = Buffers(first: Snapshot, second: Snapshot) {
    function At(s: Slot): Snapshot {
      match s case First => first case Second => second
    }

    function Put(s: Slot, groups: Snapshot): Buffers {
      match s case First => this.(first := groups) case Second => this.(second := groups)
    }
  }

  /**
   A sampling thread with the state it shares: stop flag, join handle and lock; and which of its two
   vectors is behind the lock and which it fills.
   */
  datatype Sampler = Sampler(
    pc: Pc,
    stop: bool,
    handle: bool,
    lock: Lock,
    buffers: Buffers,
    cacheAt: Slot,
    scratchAt: Slot,
    calls: nat,   // finished calls of collect
    version: nat) // finished swaps
  {
    function Cache(): Snapshot {
      buffers.At(cacheAt)
    }

    function Scratch(): Snapshot {
      buffers.At(scratchAt)
    }
  }

  /** A callback that holds a read guard, at one value of one group of the cache. */
  datatype Reader = Reader(c: nat, name: string, ty: NumberType, group: nat, value: nat, seen: seq<Observation>)

  /** A finished callback: what it was asked, the version it read, what it observed. */
  datatype Export = Export(c: nat, name: string, ty: NumberType, version: nat, seen: seq<Observation>)

  /** The owner of the registry: `shutdown` sets flags 0, 1, ... and then joins 0, 1, ... */
  datatype Owner = Serving | Flagging(i: nat) | Joining(i: nat) | Returned

  datatype System = System(samplers: seq<Sampler>, readers: map<nat, Reader>, log: seq<Export>, owner: Owner)

  const FRESH: Sampler := Sampler(Check, false, true, Shared({}), Buffers([], []), First, Second, 0, 0)

  function Init(): System {
    System([], map[], [], Serving)
  }

  // ------------------------------------------------------------------ one sampling thread

  datatype Move = ReadStop | ClearScratch | Append | FinishCollect | LockCache | SwapBuffers | Unlock | Sleep

  predicate MoveEnabled(out: Outputs, c: nat, x: Sampler, move: Move) {
    match move
    case ReadStop => x.pc == Check
    case ClearScratch => x.pc == Clear
    case Append => x.pc == Collect && |x.Scratch()| < |out(c, x.calls)|
    case FinishCollect => x.pc == Collect && |x.Scratch()| >= |out(c, x.calls)|
    case LockCache => x.pc == Acquire && x.lock == Shared({})
    case SwapBuffers => x.pc == Swap
    case Unlock => x.pc == Release
    case Sleep => x.pc == Pace
  }

  function Moved(out: Outputs, c: nat, x: Sampler, move: Move): Sampler
    requires MoveEnabled(out, c, x, move)
  {
    match move
    case ReadStop => x.(pc := if x.stop then Exited else Clear)
    case ClearScratch => x.(pc := Collect, buffers := x.buffers.Put(x.scratchAt, []))
    case Append => x.(buffers := x.buffers.Put(x.scratchAt, x.Scratch() + [out(c, x.calls)[|x.Scratch()|]]))
    case FinishCollect => x.(pc := Acquire, calls := x.calls + 1)
    case LockCache => x.(pc := Swap, lock := Exclusive)
    case SwapBuffers => x.(pc := Release, cacheAt := x.scratchAt, scratchAt := x.cacheAt, version := x.version + 1)
    case Unlock => x.(pc := Pace, lock := Shared({}))
    case Sleep => x.(pc := Check)
  }

  // ------------------------------------------------------------------ the whole system

  datatype Action =
    | Add
    | Sample(c: nat, move: Move)
    | StartRead(r: nat, c: nat, name: string, ty: NumberType)
    | Scan(r: nat)
    | FinishRead(r: nat)
    | BeginShutdown
    | SetFlag
    | StartJoins
    | Join
    | Return

  predicate Enabled(out: Outputs, s: System, a: Action) {
    match a
    case Add => s.owner == Serving || s.owner == Returned
    case Sample(c, move) => c < |s.samplers| && MoveEnabled(out, c, s.samplers[c], move)
    case StartRead(r, c, _, _) => r !in s.readers && c < |s.samplers| && s.samplers[c].lock.Shared?
    case Scan(r) =>
      && r in s.readers && s.readers[r].c < |s.samplers|
      && s.readers[r].group < |s.samplers[s.readers[r].c].Cache()|
    case FinishRead(r) =>
      && r in s.readers && s.readers[r].c < |s.samplers|
      && s.readers[r].group >= |s.samplers[s.readers[r].c].Cache()|
      && s.samplers[s.readers[r].c].lock.Shared?
    case BeginShutdown => s.owner == Serving || s.owner == Returned
    case SetFlag => s.owner.Flagging? && s.owner.i < |s.samplers|
    case StartJoins => s.owner.Flagging? && s.owner.i >= |s.samplers|
    case Join =>
      && s.owner.Joining? && s.owner.i < |s.samplers|
      && (s.samplers[s.owner.i].handle ==> s.samplers[s.owner.i].pc == Exited)
    case Return => s.owner.Joining? && s.owner.i >= |s.samplers|
  }

  /** One step of the scan over the values of a group: report a match, or go on to the next group. */
  function Scanned(q: Reader, cache: Snapshot): Reader
    requires q.group < |cache|
  {
    var g := cache[q.group];
    if q.value < |g.values| then
      var v := g.values[q.value];
      var o := Observation(v.name, v.value, g.attrs);
      q.(value := q.value + 1, seen := if IsFor(o, q.name, q.ty) then q.seen + [o] else q.seen)
    else q.(group := q.group + 1, value := 0)
  }

  function Locked(x: Sampler, r: nat): Sampler
    requires x.lock.Shared?
  {
    x.(lock := Shared(x.lock.holders + {r}))
  }

  function Unlocked(x: Sampler, r: nat): Sampler
    requires x.lock.Shared?
  {
    x.(lock := Shared(x.lock.holders - {r}))
  }

  /** What a callback leaves in the log when it finishes. */
  function ExportOf(s: System, r: nat): Export
    requires r in s.readers && s.readers[r].c < |s.samplers|
  {
    var q := s.readers[r];
    Export(q.c, q.name, q.ty, s.samplers[q.c].version, q.seen)
  }

  function Step(out: Outputs, s: System, a: Action): System
    requires Enabled(out, s, a)
  {
    match a
    case Add => s.(samplers := s.samplers + [FRESH], owner := Serving)
    case Sample(c, move) => s.(samplers := s.samplers[c := Moved(out, c, s.samplers[c], move)])
    case StartRead(r, c, name, ty) =>
      s.(samplers := s.samplers[c := Locked(s.samplers[c], r)],
         readers := s.readers[r := Reader(c, name, ty, 0, 0, [])])
    case Scan(r) =>
      var q := s.readers[r];
      s.(readers := s.readers[r := Scanned(q, s.samplers[q.c].Cache())])
    case FinishRead(r) =>
      var c := s.readers[r].c;
      s.(samplers := s.samplers[c := Unlocked(s.samplers[c], r)],
         readers := s.readers - {r},
         log := s.log + [ExportOf(s, r)])
    case BeginShutdown => s.(owner := Flagging(0))
    case SetFlag =>
      var i := s.owner.i;
      s.(samplers := s.samplers[i := s.samplers[i].(stop := true)], owner := Flagging(i + 1))
    case StartJoins => s.(owner := Joining(0))
    case Join =>
      var i := s.owner.i;
      s.(samplers := s.samplers[i := s.samplers[i].(handle := false)], owner := Joining(i + 1))
    case Return => s.(owner := Returned)
  }

  /** The state after some steps, if each was possible when it was taken. */
  function Run(out: Outputs, s: System, steps: seq<Action>): Option<System> {
    if steps == [] then Some(s)
    else
      match Run(out, s, steps[..|steps| - 1])
      case None => None
      case Some(t) =>
        var last := steps[|steps| - 1];
        if Enabled(out, t, last) then Some(Step(out, t, last)) else None
  }

  lemma RunSnoc(out: Outputs, s: System, steps: seq<Action>, t: System, last: Action)
    requires Run(out, s, steps) == Some(t) && Enabled(out, t, last)
    ensures Run(out, s, steps + [last]) == Some(Step(out, t, last))
  {
    assert (steps + [last])[..|steps|] == steps;
  }

  // ------------------------------------------------------------------ the invariant

  /** The snapshot of a version: nothing at first, then one whole output of `collect` after the other. */
  function Published(out: Outputs, c: nat, version: nat): Snapshot {
    if version == 0 then [] else out(c, version - 1)
  }

  /** What a sampling thread keeps about its buffers, its lock and its end. */
  predicate SamplerInv(out: Outputs, c: nat, x: Sampler) {
    && x.cacheAt != x.scratchAt
    && (x.cacheAt == First <==> x.version % 2 == 0)
    && x.Cache() == Published(out, c, x.version)
    && (x.pc == Collect ==> x.Scratch() <= out(c, x.calls))
    && (x.pc == Acquire || x.pc == Swap ==> x.calls == x.version + 1 && x.Scratch() == out(c, x.version))
    && (x.pc != Acquire && x.pc != Swap ==> x.calls == x.version)
    && (x.pc == Release || x.pc == Pace || x.pc == Check || x.pc == Clear || x.pc == Exited ==>
          x.Scratch() == if x.version == 0 then [] else Published(out, c, x.version - 1))
    && (x.lock == Exclusive <==> x.pc == Swap || x.pc == Release)
    && (x.pc == Exited ==> x.stop)
    && (!x.handle ==> x.pc == Exited)
  }

  /** A callback has reported what there is up to its position, and its lock keeps the cache as it is. */
  predicate ReaderInv(s: System, r: nat)
    requires r in s.readers
  {
    var q := s.readers[r];
    && q.c < |s.samplers|
    && s.samplers[q.c].lock.Shared? && r in s.samplers[q.c].lock.holders
    && Progress(q, s.samplers[q.c].Cache())
  }

  predicate Progress(q: Reader, cache: Snapshot) {
    && q.group <= |cache|
    && q.value <= (if q.group < |cache| then |cache[q.group].values| else 0)
    && q.seen == Select(Passed(q, cache), q.name, q.ty)
  }

  /** What a callback has passed by. */
  function Passed(q: Reader, cache: Snapshot): seq<Observation>
    requires q.group <= |cache|
    requires q.value <= (if q.group < |cache| then |cache[q.group].values| else 0)
  {
    All(cache[..q.group])
    + if q.group < |cache| then OfGroup(cache[q.group].attrs, cache[q.group].values)[..q.value] else []
  }

  /** Only callbacks that are running hold a lock. */
  predicate HoldersInv(s: System, c: nat)
    requires c < |s.samplers|
  {
    s.samplers[c].lock.Shared? ==> forall r <- s.samplers[c].lock.holders :: r in s.readers && s.readers[r].c == c
  }

  /** A finished callback saw the whole of one published version and nothing else. */
  predicate ExportInv(out: Outputs, s: System, e: Export) {
    && e.c < |s.samplers| && e.version <= s.samplers[e.c].version
    && e.seen == Observed(Published(out, e.c, e.version), e.name, e.ty)
  }

  /** Callbacks on one cache finish with versions that never go back. */
  predicate LogOrdered(log: seq<Export>) {
    forall i, j :: 0 <= i < j < |log| && log[i].c == log[j].c ==> log[i].version <= log[j].version
  }

  /** Before the k-th, every sampling thread has its stop flag set, or is joined. */
  predicate OwnerInv(s: System) {
    match s.owner
    case Serving => true
    case Flagging(i) => i <= |s.samplers| && forall k :: 0 <= k < i ==> s.samplers[k].stop
    case Joining(i) =>
      && i <= |s.samplers|
      && (forall k :: 0 <= k < |s.samplers| ==> s.samplers[k].stop)
      && (forall k :: 0 <= k < i ==> !s.samplers[k].handle)
    case Returned => forall k :: 0 <= k < |s.samplers| ==> s.samplers[k].stop && !s.samplers[k].handle
  }

  predicate SamplersInv(out: Outputs, s: System) {
    forall c :: 0 <= c < |s.samplers| ==> SamplerInv(out, c, s.samplers[c])
  }

  predicate ReadersInv(s: System) {
    forall r <- s.readers :: ReaderInv(s, r)
  }

  predicate LocksInv(s: System) {
    forall c :: 0 <= c < |s.samplers| ==> HoldersInv(s, c)
  }

  predicate LogInv(out: Outputs, s: System) {
    && (forall e <- s.log :: ExportInv(out, s, e))
    && LogOrdered(s.log)
  }

  predicate Inv(out: Outputs, s: System) {
    SamplersInv(out, s) && ReadersInv(s) && LocksInv(s) && LogInv(out, s) && OwnerInv(s)
  }

  // ------------------------------------------------------------------ every step keeps it

  lemma MoveKeepsSampler(out: Outputs, c: nat, x: Sampler, move: Move)
    requires SamplerInv(out, c, x) && MoveEnabled(out, c, x, move)
    ensures SamplerInv(out, c, Moved(out, c, x, move))
  {
    if move == FinishCollect {
      assert x.Scratch() == out(c, x.calls);
    }
  }

  /** While callbacks hold the lock, no move replaces the vector behind it or writes to that vector. */
  lemma PinnedCache(out: Outputs, c: nat, x: Sampler, move: Move)
    requires SamplerInv(out, c, x) && MoveEnabled(out, c, x, move) && x.lock.Shared?
    ensures var y := Moved(out, c, x, move);
            y.cacheAt == x.cacheAt && y.Cache() == x.Cache() && y.version == x.version
  {
  }

  /** No step of any sampling thread touches the cache that a running callback reads, or its progress. */
  lemma MoveKeepsReaders(out: Outputs, s: System, c: nat, move: Move)
    requires SamplersInv(out, s) && ReadersInv(s) && Enabled(out, s, Sample(c, move))
    ensures var t := Step(out, s, Sample(c, move));
            && ReadersInv(t) && t.readers == s.readers
            && forall r <- s.readers ::
                 && t.samplers[s.readers[r].c].cacheAt == s.samplers[s.readers[r].c].cacheAt
                 && t.samplers[s.readers[r].c].Cache() == s.samplers[s.readers[r].c].Cache()
  {
    var t := Step(out, s, Sample(c, move));
    assert SamplerInv(out, c, s.samplers[c]);
    forall r | r in s.readers
      ensures ReaderInv(t, r)
      ensures t.samplers[s.readers[r].c].cacheAt == s.samplers[s.readers[r].c].cacheAt
      ensures t.samplers[s.readers[r].c].Cache() == s.samplers[s.readers[r].c].Cache()
    {
      assert ReaderInv(s, r);
      if s.readers[r].c == c {
        PinnedCache(out, c, s.samplers[c], move);
      }
    }
  }

  lemma MoveKeepsLocks(out: Outputs, s: System, c: nat, move: Move)
    requires LocksInv(s) && Enabled(out, s, Sample(c, move))
    ensures LocksInv(Step(out, s, Sample(c, move)))
  {
    var t := Step(out, s, Sample(c, move));
    forall d | 0 <= d < |t.samplers|
      ensures HoldersInv(t, d)
    {
      assert HoldersInv(s, d);
    }
  }

  /** What is in the log stays true while versions only grow. */
  lemma LogStays(out: Outputs, s: System, t: System)
    requires LogInv(out, s) && t.log == s.log && |s.samplers| <= |t.samplers|
    requires forall c :: 0 <= c < |s.samplers| ==> s.samplers[c].version <= t.samplers[c].version
    ensures LogInv(out, t)
  {
    forall e | e in t.log
      ensures ExportInv(out, t, e)
    {
      assert ExportInv(out, s, e);
    }
  }

  lemma SampleKeepsInv(out: Outputs, s: System, c: nat, move: Move)
    requires Inv(out, s) && Enabled(out, s, Sample(c, move))
    ensures Inv(out, Step(out, s, Sample(c, move)))
  {
    MoveKeepsSampler(out, c, s.samplers[c], move);
    MoveKeepsReaders(out, s, c, move);
    MoveKeepsLocks(out, s, c, move);
    LogStays(out, s, Step(out, s, Sample(c, move)));
  }

  lemma StartKeepsReaders(out: Outputs, s: System, r: nat, c: nat, name: string, ty: NumberType)
    requires ReadersInv(s) && Enabled(out, s, StartRead(r, c, name, ty))
    ensures ReadersInv(Step(out, s, StartRead(r, c, name, ty)))
  {
    var t := Step(out, s, StartRead(r, c, name, ty));
    StartOfScan(t.readers[r], t.samplers[c].Cache());
    forall q | q in t.readers
      ensures ReaderInv(t, q)
    {
      if q != r {
        assert ReaderInv(s, q);
      }
    }
  }

  lemma StartKeepsLocks(out: Outputs, s: System, r: nat, c: nat, name: string, ty: NumberType)
    requires LocksInv(s) && Enabled(out, s, StartRead(r, c, name, ty))
    ensures LocksInv(Step(out, s, StartRead(r, c, name, ty)))
  {
    var t := Step(out, s, StartRead(r, c, name, ty));
    forall d | 0 <= d < |t.samplers|
      ensures HoldersInv(t, d)
    {
      assert HoldersInv(s, d);
    }
  }

  lemma StartReadKeepsInv(out: Outputs, s: System, r: nat, c: nat, name: string, ty: NumberType)
    requires Inv(out, s) && Enabled(out, s, StartRead(r, c, name, ty))
    ensures Inv(out, Step(out, s, StartRead(r, c, name, ty)))
  {
    assert SamplerInv(out, c, Locked(s.samplers[c], r)) by {
      assert SamplerInv(out, c, s.samplers[c]);
    }
    StartKeepsReaders(out, s, r, c, name, ty);
    StartKeepsLocks(out, s, r, c, name, ty);
    LogStays(out, s, Step(out, s, StartRead(r, c, name, ty)));
  }

  lemma StartOfScan(q: Reader, cache: Snapshot)
    requires q.group == 0 && q.value == 0 && q.seen == []
    ensures Progress(q, cache)
  {
    assert cache[..0] == [];
    assert Passed(q, cache) == [];
  }

  lemma ScanKeepsProgress(q: Reader, cache: Snapshot)
    requires Progress(q, cache) && q.group < |cache|
    ensures Progress(Scanned(q, cache), cache)
  {
    var g, next := cache[q.group], Scanned(q, cache);
    var all := OfGroup(g.attrs, g.values);
    if q.value < |g.values| {
      assert all[..q.value + 1] == all[..q.value] + [all[q.value]];
      assert Passed(next, cache) == Passed(q, cache) + [all[q.value]];
      assert Passed(next, cache)[..|Passed(q, cache)|] == Passed(q, cache);
    } else {
      assert all[..q.value] == all;
      assert cache[..q.group + 1][..q.group] == cache[..q.group];
      assert Passed(next, cache) == Passed(q, cache);
    }
  }

  lemma ScanKeepsReaders(out: Outputs, s: System, r: nat)
    requires ReadersInv(s) && Enabled(out, s, Scan(r))
    ensures ReadersInv(Step(out, s, Scan(r)))
  {
    var t := Step(out, s, Scan(r));
    assert ReaderInv(s, r);
    ScanKeepsProgress(s.readers[r], s.samplers[s.readers[r].c].Cache());
    forall q | q in t.readers
      ensures ReaderInv(t, q)
    {
      if q != r {
        assert ReaderInv(s, q);
      }
    }
  }

  lemma ScanKeepsLocks(out: Outputs, s: System, r: nat)
    requires LocksInv(s) && Enabled(out, s, Scan(r))
    ensures LocksInv(Step(out, s, Scan(r)))
  {
    var t := Step(out, s, Scan(r));
    forall d | 0 <= d < |t.samplers|
      ensures HoldersInv(t, d)
    {
      assert HoldersInv(s, d);
    }
  }

  lemma ScanKeepsInv(out: Outputs, s: System, r: nat)
    requires Inv(out, s) && Enabled(out, s, Scan(r))
    ensures Inv(out, Step(out, s, Scan(r)))
  {
    ScanKeepsReaders(out, s, r);
    ScanKeepsLocks(out, s, r);
    LogStays(out, s, Step(out, s, Scan(r)));
  }

  /** The end of a scan has passed by everything. */
  lemma EndOfScan(q: Reader, cache: Snapshot)
    requires Progress(q, cache) && q.group >= |cache|
    ensures q.seen == Observed(cache, q.name, q.ty)
  {
    assert cache[..q.group] == cache;
    assert Passed(q, cache) == All(cache);
  }

  lemma FinishKeepsReaders(out: Outputs, s: System, r: nat)
    requires ReadersInv(s) && Enabled(out, s, FinishRead(r))
    ensures ReadersInv(Step(out, s, FinishRead(r)))
  {
    var t := Step(out, s, FinishRead(r));
    forall p | p in t.readers
      ensures ReaderInv(t, p)
    {
      assert ReaderInv(s, p);
    }
  }

  lemma FinishKeepsLocks(out: Outputs, s: System, r: nat)
    requires LocksInv(s) && Enabled(out, s, FinishRead(r))
    ensures LocksInv(Step(out, s, FinishRead(r)))
  {
    var t := Step(out, s, FinishRead(r));
    forall d | 0 <= d < |t.samplers|
      ensures HoldersInv(t, d)
    {
      assert HoldersInv(s, d);
    }
  }

  /** A callback that finishes has seen the newest version, so the log stays in order. */
  lemma FinishExtendsLog(out: Outputs, s: System, r: nat, e: Export)
    requires LogInv(out, s) && ExportInv(out, s, e) && e.version == s.samplers[e.c].version
    ensures LogInv(out, s.(log := s.log + [e]))
  {
    var log := s.log + [e];
    forall d | d in log
      ensures ExportInv(out, s.(log := log), d)
    {
      assert d in s.log || d == e;
      assert ExportInv(out, s, d);
    }
    forall i, j | 0 <= i < j < |log| && log[i].c == log[j].c
      ensures log[i].version <= log[j].version
    {
      assert log[i] == s.log[i];
      assert ExportInv(out, s, s.log[i]);
    }
  }

  lemma FinishedExport(out: Outputs, s: System, r: nat)
    requires SamplersInv(out, s) && r in s.readers && ReaderInv(s, r)
    requires s.readers[r].group >= |s.samplers[s.readers[r].c].Cache()|
    ensures ExportInv(out, s, ExportOf(s, r))
  {
    var q := s.readers[r];
    assert SamplerInv(out, q.c, s.samplers[q.c]);
    EndOfScan(q, s.samplers[q.c].Cache());
  }

  lemma FinishKeepsLog(out: Outputs, s: System, r: nat)
    requires LogInv(out, s) && Enabled(out, s, FinishRead(r)) && ExportInv(out, s, ExportOf(s, r))
    ensures LogInv(out, Step(out, s, FinishRead(r)))
  {
    FinishExtendsLog(out, s, r, ExportOf(s, r));
    LogStays(out, s.(log := s.log + [ExportOf(s, r)]), Step(out, s, FinishRead(r)));
  }

  lemma FinishKeepsSamplers(out: Outputs, s: System, r: nat)
    requires SamplersInv(out, s) && Enabled(out, s, FinishRead(r))
    ensures SamplersInv(out, Step(out, s, FinishRead(r)))
  {
    var q := s.readers[r];
    assert SamplerInv(out, q.c, s.samplers[q.c]);
    assert SamplerInv(out, q.c, Unlocked(s.samplers[q.c], r));
  }

  lemma FinishKeepsInv(out: Outputs, s: System, r: nat)
    requires Inv(out, s) && Enabled(out, s, FinishRead(r))
    ensures Inv(out, Step(out, s, FinishRead(r)))
  {
    FinishKeepsReaders(out, s, r);
    FinishKeepsLocks(out, s, r);
    FinishedExport(out, s, r);
    FinishKeepsLog(out, s, r);
    FinishKeepsSamplers(out, s, r);
  }

  lemma OwnerKeepsReaders(out: Outputs, s: System, a: Action)
    requires ReadersInv(s) && Enabled(out, s, a)
    requires a.Add? || a.BeginShutdown? || a.SetFlag? || a.StartJoins? || a.Join? || a.Return?
    ensures ReadersInv(Step(out, s, a))
  {
    var t := Step(out, s, a);
    forall q | q in t.readers
      ensures ReaderInv(t, q)
    {
      assert ReaderInv(s, q);
    }
  }

  lemma OwnerKeepsSamplers(out: Outputs, s: System, a: Action)
    requires SamplersInv(out, s) && LocksInv(s) && Enabled(out, s, a)
    requires a.Add? || a.BeginShutdown? || a.SetFlag? || a.StartJoins? || a.Join? || a.Return?
    ensures SamplersInv(out, Step(out, s, a)) && LocksInv(Step(out, s, a))
  {
    var t := Step(out, s, a);
    forall d | 0 <= d < |t.samplers|
      ensures SamplerInv(out, d, t.samplers[d]) && HoldersInv(t, d)
    {
      if d < |s.samplers| {
        assert SamplerInv(out, d, s.samplers[d]) && HoldersInv(s, d);
      }
    }
  }

  lemma OwnerKeepsInv(out: Outputs, s: System, a: Action)
    requires Inv(out, s) && Enabled(out, s, a)
    requires a.Add? || a.BeginShutdown? || a.SetFlag? || a.StartJoins? || a.Join? || a.Return?
    ensures Inv(out, Step(out, s, a))
  {
    OwnerKeepsReaders(out, s, a);
    OwnerKeepsSamplers(out, s, a);
    LogStays(out, s, Step(out, s, a));
  }

  lemma StepKeepsInv(out: Outputs, s: System, a: Action)
    requires Inv(out, s) && Enabled(out, s, a)
    ensures Inv(out, Step(out, s, a))
  {
    match a
    case Sample(c, move) => SampleKeepsInv(out, s, c, move);
    case StartRead(r, c, name, ty) => StartReadKeepsInv(out, s, r, c, name, ty);
    case Scan(r) => ScanKeepsInv(out, s, r);
    case FinishRead(r) => FinishKeepsInv(out, s, r);
    case _ => OwnerKeepsInv(out, s, a);
  }

  /** A run that starts where the invariant holds keeps it. */
  lemma {:induction false} RunKeepsInv(out: Outputs, s: System, steps: seq<Action>)
    requires Inv(out, s) && Run(out, s, steps).Some?
    ensures Inv(out, Run(out, s, steps).value)
  {
    if steps != [] {
      RunKeepsInv(out, s, steps[..|steps| - 1]);
      StepKeepsInv(out, Run(out, s, steps[..|steps| - 1]).value, steps[|steps| - 1]);
    }
  }

  /** Every reachable state satisfies the invariant. */
  lemma ReachableInv(out: Outputs, steps: seq<Action>)
    requires Run(out, Init(), steps).Some?
    ensures Inv(out, Run(out, Init(), steps).value)
  {
    RunKeepsInv(out, Init(), steps);
  }

  // ------------------------------------------------------------------ snapshot atomicity

  /**
   In every interleaving of sampling threads, callbacks and owner: what a finished callback observed is
   the in-order selection, by its name and number type, from one whole output of `collect` (or from the
   empty cache, version 0), and callbacks on one cache finish in the order of the versions they saw.
   */
  lemma SnapshotAtomicity(out: Outputs, steps: seq<Action>, i: nat)
    requires Run(out, Init(), steps).Some? && i < |Run(out, Init(), steps).value.log|
    ensures var log := Run(out, Init(), steps).value.log;
            && log[i].seen == Observed(Published(out, log[i].c, log[i].version), log[i].name, log[i].ty)
            && forall j :: i < j < |log| && log[j].c == log[i].c ==> log[i].version <= log[j].version
  {
    ReachableInv(out, steps);
    var s := Run(out, Init(), steps).value;
    assert ExportInv(out, s, s.log[i]);
  }

  /** What a sampling thread keeps, as its owner sees it. */
  predicate InOrder(out: Outputs, c: nat, x: Sampler) {
    && {x.cacheAt, x.scratchAt} == {First, Second}
    && x.cacheAt == (if x.version % 2 == 0 then First else Second)
    && x.Cache() == Published(out, c, x.version)
    && (x.pc == Check && x.version > 0 ==> x.Scratch() == Published(out, c, x.version - 1))
    && (x.lock == Exclusive <==> x.pc == Swap || x.pc == Release)
    && x.version <= x.calls <= x.version + 1
  }

  lemma InvIsInOrder(out: Outputs, c: nat, x: Sampler)
    requires SamplerInv(out, c, x)
    ensures InOrder(out, c, x)
  {
    BothSlots(x);
  }

  lemma BothSlots(x: Sampler)
    requires x.cacheAt != x.scratchAt
    ensures {x.cacheAt, x.scratchAt} == {First, Second}
  {
  }

  /**
   In every reachable state cache and scratch are the two vectors of the thread, never the same one, and
   have changed places once for every finished swap; the cache is the output of the last one, scratch the
   snapshot before that unless a tick is filling it; and the write lock is held from the swap to its
   release only, never while `collect` runs.
   */
  lemma PublicationOrder(out: Outputs, steps: seq<Action>, c: nat)
    requires Run(out, Init(), steps).Some? && c < |Run(out, Init(), steps).value.samplers|
    ensures InOrder(out, c, Run(out, Init(), steps).value.samplers[c])
  {
    ReachableInv(out, steps);
    assert SamplerInv(out, c, Run(out, Init(), steps).value.samplers[c]);
    InvIsInOrder(out, c, Run(out, Init(), steps).value.samplers[c]);
  }
}
