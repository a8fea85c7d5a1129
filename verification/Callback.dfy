/**
 One instrument callback that nobody disturbs, step by step: it can start whenever the write lock is free, it
 comes to its end, and what it leaves is the selection from the cache it found.
 */
module Callback {
  import opened Wrappers
  import opened Framework
  import opened Runtime
  import Shutdown
  import Tick

  /** A callback after n steps of its scan. */
  function After(q: Reader, cache: Snapshot, n: nat): Reader {
    if n == 0 then q
    else
      var p := After(q, cache, n - 1);
      if p.group < |cache| then Scanned(p, cache) else p
  }

  lemma {:induction false} AfterAdvances(q: Reader, cache: Snapshot, n: nat)
    requires Progress(q, cache) && n < Shutdown.ReadLeft(q, cache)
    ensures var p := After(q, cache, n);
            && Progress(p, cache) && p.c == q.c && p.name == q.name && p.ty == q.ty
            && Shutdown.ReadLeft(p, cache) + n == Shutdown.ReadLeft(q, cache)
  {
    if n > 0 {
      AfterAdvances(q, cache, n - 1);
      var p := After(q, cache, n - 1);
      MoreToScan(p, cache);
      Shutdown.ScanShortens(p, cache);
      ScanKeepsProgress(p, cache);
    }
  }

  /** A callback with more than its last step left is not at the end of the cache, and one with less is. */
  lemma MoreToScan(p: Reader, cache: Snapshot)
    requires Progress(p, cache)
    ensures p.group < |cache| <==> Shutdown.ReadLeft(p, cache) > 1
  {
  }

  /** The system with this callback at this place. */
  function At(s: System, r: nat, p: Reader): System {
    s.(readers := s.readers[r := p])
  }

  lemma OneScan(out: Outputs, s: System, r: nat, p: Reader, cache: Snapshot)
    requires p.c < |s.samplers| && s.samplers[p.c].Cache() == cache && p.group < |cache|
    ensures Enabled(out, At(s, r, p), Scan(r)) && Step(out, At(s, r, p), Scan(r)) == At(s, r, Scanned(p, cache))
  {
    assert s.readers[r := p][r := Scanned(p, cache)] == s.readers[r := Scanned(p, cache)];
  }

  /** The system after each step of the scan. */
  function Scanning(s: System, r: nat, q: Reader, cache: Snapshot): nat -> System {
    (n: nat) => At(s, r, After(q, cache, n))
  }

  lemma NextScan(out: Outputs, s: System, r: nat, q: Reader, cache: Snapshot, n: nat)
    requires q.c < |s.samplers| && s.samplers[q.c].Cache() == cache
    requires Progress(q, cache) && n + 1 < Shutdown.ReadLeft(q, cache)
    ensures Shutdown.Leads(out, Scan(r), Scanning(s, r, q, cache), n)
  {
    AfterAdvances(q, cache, n);
    MoreToScan(After(q, cache, n), cache);
    OneScan(out, s, r, After(q, cache, n), cache);
  }

  /** The steps of the scan can be taken, and change nothing but the place of the callback. */
  lemma ScansRun(out: Outputs, s: System, r: nat, q: Reader, cache: Snapshot, n: nat)
    requires q.c < |s.samplers| && s.samplers[q.c].Cache() == cache
    requires Progress(q, cache) && n < Shutdown.ReadLeft(q, cache)
    ensures Run(out, At(s, r, q), Shutdown.Repeat(Scan(r), n)) == Some(At(s, r, After(q, cache, n)))
  {
    var states := Scanning(s, r, q, cache);
    forall k: nat | k < n
      ensures Shutdown.Leads(out, Scan(r), states, k)
    {
      NextScan(out, s, r, q, cache, k);
    }
    Shutdown.RunOfRepeat(out, Scan(r), states, n);
    assert states(0) == At(s, r, q);
  }

  /** All the steps of a callback over this cache. */
  function ReadSteps(r: nat, c: nat, name: string, ty: NumberType, cache: Snapshot): seq<Action> {
    [StartRead(r, c, name, ty)] + Shutdown.Repeat(Scan(r), Shutdown.ScanLength(cache, 0)) + [FinishRead(r)]
  }

  /** The callback at the end of its scan: it has seen the whole selection. */
  lemma ScanEnds(c: nat, name: string, ty: NumberType, cache: Snapshot)
    ensures var q := Reader(c, name, ty, 0, 0, []);
            && Progress(q, cache) && Shutdown.ReadLeft(q, cache) == 1 + Shutdown.ScanLength(cache, 0)
            && var p := After(q, cache, Shutdown.ScanLength(cache, 0));
               p.c == c && p.name == name && p.ty == ty && p.group >= |cache| && p.seen == Observed(cache, name, ty)
  {
    var q := Reader(c, name, ty, 0, 0, []);
    var n := Shutdown.ScanLength(cache, 0);
    StartOfScan(q, cache);
    AfterAdvances(q, cache, n);
    var p := After(q, cache, n);
    MoreToScan(p, cache);
    EndOfScan(p, cache);
  }

  lemma ScanOfStarted(out: Outputs, s: System, r: nat, c: nat, name: string, ty: NumberType)
    requires r !in s.readers && c < |s.samplers| && s.samplers[c].lock.Shared?
    ensures var cache := s.samplers[c].Cache();
            var n := Shutdown.ScanLength(cache, 0);
            var t := s.(samplers := s.samplers[c := Locked(s.samplers[c], r)]);
            Run(out, s, [StartRead(r, c, name, ty)] + Shutdown.Repeat(Scan(r), n))
            == Some(At(t, r, After(Reader(c, name, ty, 0, 0, []), cache, n)))
  {
    var cache := s.samplers[c].Cache();
    var n := Shutdown.ScanLength(cache, 0);
    var q := Reader(c, name, ty, 0, 0, []);
    var t := s.(samplers := s.samplers[c := Locked(s.samplers[c], r)]);
    ScanEnds(c, name, ty, cache);
    Shutdown.OneStep(out, s, StartRead(r, c, name, ty));
    ScansRun(out, t, r, q, cache, n);
    Shutdown.RunConcat(out, s, [StartRead(r, c, name, ty)], Shutdown.Repeat(Scan(r), n));
  }

  lemma LastStep(out: Outputs, s: System, t: System, r: nat, c: nat, name: string, ty: NumberType, p: Reader)
    requires r !in s.readers && c < |s.samplers| && s.samplers[c].lock.Shared? && r !in s.samplers[c].lock.holders
    requires p.c == c && p.name == name && p.ty == ty && p.group >= |s.samplers[c].Cache()|
    requires t == At(s.(samplers := s.samplers[c := Locked(s.samplers[c], r)]), r, p)
    ensures Enabled(out, t, FinishRead(r))
    ensures Step(out, t, FinishRead(r))
         == s.(log := s.log + [Export(c, name, ty, s.samplers[c].version, p.seen)])
  {
    var x := s.samplers[c];
    assert x.lock.holders + {r} - {r} == x.lock.holders;
    assert Unlocked(t.samplers[c], r) == x;
    assert t.samplers[c := x] == s.samplers;
    assert t.readers - {r} == s.readers;
  }

  /**
   In every reachable state: a callback on a cache whose write lock is free can start and run to its end.
   The state afterwards is the state before, with the callback in the log: it found the published version,
   and has seen the selection from it.
   */
  lemma UndisturbedRead(out: Outputs, s: System, r: nat, c: nat, name: string, ty: NumberType)
    requires Inv(out, s) && r !in s.readers && c < |s.samplers| && s.samplers[c].lock.Shared?
    ensures var x := s.samplers[c];
            Run(out, s, ReadSteps(r, c, name, ty, x.Cache()))
            == Some(s.(log := s.log + [Export(c, name, ty, x.version, Observed(x.Cache(), name, ty))]))
  {
    var cache := s.samplers[c].Cache();
    var n := Shutdown.ScanLength(cache, 0);
    var p := After(Reader(c, name, ty, 0, 0, []), cache, n);
    assert HoldersInv(s, c);
    ScanEnds(c, name, ty, cache);
    ScanOfStarted(out, s, r, c, name, ty);
    var t := At(s.(samplers := s.samplers[c := Locked(s.samplers[c], r)]), r, p);
    LastStep(out, s, t, r, c, name, ty, p);
    RunSnoc(out, s, [StartRead(r, c, name, ty)] + Shutdown.Repeat(Scan(r), n), t, FinishRead(r));
  }

  // ------------------------------------------------------------------ every output can be reported

  /** A thread that waits for its next tick with the lock free. */
  predicate Waiting(s: System, c: nat) {
    c < |s.samplers| && s.samplers[c].pc == Check && !s.samplers[c].stop && s.samplers[c].lock == Shared({})
  }

  lemma {:induction false} TicksRun(out: Outputs, s: System, c: nat, n: nat) returns (steps: seq<Action>)
    requires Inv(out, s) && Waiting(s, c)
    ensures Run(out, s, steps).Some?
    ensures var t := Run(out, s, steps).value;
            && Inv(out, t) && Waiting(t, c) && t.samplers[c].version == s.samplers[c].version + n
            && t.log == s.log && t.readers == s.readers && t.owner == s.owner
  {
    if n == 0 {
      steps := [];
    } else {
      var front := TicksRun(out, s, c, n - 1);
      var t := Run(out, s, front).value;
      assert SamplerInv(out, c, t.samplers[c]);
      Tick.UndisturbedTick(out, t, c);
      var tick := Tick.StepsOf(c, Tick.TickMoves(|out(c, t.samplers[c].calls)|));
      RunKeepsInv(out, t, tick);
      Shutdown.RunConcat(out, s, front, tick);
      steps := front + tick;
    }
  }

  lemma AddedWaits(out: Outputs, s: System)
    requires Inv(out, s) && (s.owner == Serving || s.owner == Returned)
    ensures Enabled(out, s, Add)
    ensures var t := Step(out, s, Add);
            && Inv(out, t) && Waiting(t, |s.samplers|) && t.samplers[|s.samplers|].version == 0
            && t.log == s.log && t.readers == s.readers
  {
    StepKeepsInv(out, s, Add);
  }

  lemma Chain(out: Outputs, s: System, a: seq<Action>, t: System, b: seq<Action>)
    requires Run(out, s, a) == Some(t)
    ensures Run(out, s, a + b) == Run(out, t, b)
  {
    Shutdown.RunConcat(out, s, a, b);
  }

  /** A new collector can tick any number of times. */
  lemma VersionIsReached(out: Outputs, s: System, n: nat) returns (steps: seq<Action>, t: System)
    requires Inv(out, s) && (s.owner == Serving || s.owner == Returned)
    ensures Run(out, s, steps) == Some(t) && Inv(out, t) && t.log == s.log && t.readers == s.readers
    ensures Waiting(t, |s.samplers|) && t.samplers[|s.samplers|].version == n
  {
    AddedWaits(out, s);
    Shutdown.OneStep(out, s, Add);
    var a := Step(out, s, Add);
    var ticks := TicksRun(out, a, |s.samplers|, n);
    Chain(out, s, [Add], a, ticks);
    steps, t := [Add] + ticks, Run(out, a, ticks).value;
  }

  /**
   From every reachable state in which the owner is not inside `shutdown`, a collector can be added, tick any
   number of times, and have its newest output observed by a callback of any name and number type.
   */
  lemma EveryVersionCanBeRead(out: Outputs, s: System, n: nat, r: nat, name: string, ty: NumberType)
    returns (steps: seq<Action>)
    requires Inv(out, s) && (s.owner == Serving || s.owner == Returned) && r !in s.readers
    ensures Run(out, s, steps).Some?
    ensures var c := |s.samplers|;
            Run(out, s, steps).value.log
            == s.log + [Export(c, name, ty, n, Observed(Published(out, c, n), name, ty))]
  {
    var c := |s.samplers|;
    var ticks, t := VersionIsReached(out, s, n);
    assert SamplerInv(out, c, t.samplers[c]);
    UndisturbedRead(out, t, r, c, name, ty);
    var read := ReadSteps(r, c, name, ty, t.samplers[c].Cache());
    Chain(out, s, ticks, t, read);
    steps := ticks + read;
  }
}
