/**
 Stopping the runtime (`Registry::shutdown` and `Drop`, crates/metrics-framework/src/lib.rs): how much a
 flagged sampling thread still does, that the joins end, and that nothing changes afterwards.
 */
module Shutdown {
  import opened Wrappers
  import opened Framework
  import opened Runtime

  function Moves(steps: seq<Action>, c: nat): nat {
    if steps == [] then 0
    else
      var last := steps[|steps| - 1];
      Moves(steps[..|steps| - 1], c) + if last.Sample? && last.c == c then 1 else 0
  }

  // ------------------------------------------------------------------ a flagged sampling thread

  function Missing(have: nat, want: nat): nat {
    if have < want then want - have else 0
  }

  /** How many moves a flagged sampling thread has left. */
  function Left(out: Outputs, c: nat, x: Sampler): nat {
    match x.pc
    case Exited => 0
    case Check => 1
    case Pace => 2
    case Release => 3
    case Swap => 4
    case Acquire => 5
    case Collect => 6 + Missing(|x.Scratch()|, |out(c, x.calls)|)
    case Clear => 7 + |out(c, x.calls)|
  }

  /** The version a flagged sampling thread ends with: one more if it is in the middle of a tick. */
  function FinalVersion(x: Sampler): nat {
    x.version + if x.pc == Clear || x.pc == Collect || x.pc == Acquire || x.pc == Swap then 1 else 0
  }

  lemma FlaggedMove(out: Outputs, c: nat, x: Sampler, move: Move)
    requires SamplerInv(out, c, x) && x.stop && MoveEnabled(out, c, x, move)
    ensures var y := Moved(out, c, x, move);
            y.stop && Left(out, c, y) + 1 == Left(out, c, x) && FinalVersion(y) == FinalVersion(x)
  {
  }

  /** Nobody else moves a sampling thread, or takes its flag back. */
  lemma OthersLeaveIt(out: Outputs, s: System, a: Action, c: nat)
    requires Enabled(out, s, a) && c < |s.samplers| && !(a.Sample? && a.c == c)
    ensures var x, y := s.samplers[c], Step(out, s, a).samplers[c];
            && (x.stop ==> y.stop)
            && Left(out, c, y) == Left(out, c, x) && FinalVersion(y) == FinalVersion(x)
            && y.pc == x.pc && y.version == x.version && y.Cache() == x.Cache()
  {
  }

  lemma FlaggedStep(out: Outputs, s: System, a: Action, c: nat)
    requires SamplersInv(out, s) && Enabled(out, s, a) && c < |s.samplers| && s.samplers[c].stop
    ensures var x, y := s.samplers[c], Step(out, s, a).samplers[c];
            && y.stop && FinalVersion(y) == FinalVersion(x)
            && Left(out, c, y) + (if a.Sample? && a.c == c then 1 else 0) == Left(out, c, x)
  {
    if a.Sample? && a.c == c {
      FlaggedMove(out, c, s.samplers[c], a.move);
    } else {
      OthersLeaveIt(out, s, a, c);
    }
  }

  /**
   Once its flag is set, a sampling thread makes exactly `Left` more moves before it has exited, in any
   interleaving, and ends with version `FinalVersion`: it publishes the tick it is in, and no other.
   */
  lemma {:induction false} FlaggedThreadIsBounded(out: Outputs, s: System, steps: seq<Action>, c: nat)
    requires Inv(out, s) && Run(out, s, steps).Some? && c < |s.samplers| && s.samplers[c].stop
    ensures var t := Run(out, s, steps).value;
            && c < |t.samplers| && t.samplers[c].stop
            && Moves(steps, c) + Left(out, c, t.samplers[c]) == Left(out, c, s.samplers[c])
            && FinalVersion(t.samplers[c]) == FinalVersion(s.samplers[c])
            && s.samplers[c].version <= t.samplers[c].version <= s.samplers[c].version + 1
  {
    if steps != [] {
      var front := steps[..|steps| - 1];
      FlaggedThreadIsBounded(out, s, front, c);
      RunKeepsInv(out, s, front);
      FlaggedStep(out, Run(out, s, front).value, steps[|steps| - 1], c);
      VersionsGrow(out, Run(out, s, front).value, steps[|steps| - 1], c);
    }
  }

  lemma VersionsGrow(out: Outputs, s: System, a: Action, c: nat)
    requires Enabled(out, s, a) && c < |s.samplers|
    ensures c < |Step(out, s, a).samplers| && s.samplers[c].version <= Step(out, s, a).samplers[c].version
  {
    if !(a.Sample? && a.c == c) {
      OthersLeaveIt(out, s, a, c);
    }
  }

  // ------------------------------------------------------------------ the joins end

  /** Steps that neither start anything new nor call `shutdown` again. */
  predicate Finishing(a: Action) {
    !a.StartRead? && !a.Add? && !a.BeginShutdown?
  }

  /** The steps a scan takes from group g on. */
  function ScanLength(cache: Snapshot, g: nat): nat
    decreases |cache| - g
  {
    if g >= |cache| then 0 else |cache[g].values| + 1 + ScanLength(cache, g + 1)
  }

  /** The steps a callback has left, with its last one. */
  function ReadLeft(q: Reader, cache: Snapshot): nat {
    1 + Missing(q.value, ScanLength(cache, q.group))
  }

  lemma ScanShortens(q: Reader, cache: Snapshot)
    requires Progress(q, cache) && q.group < |cache|
    ensures ReadLeft(Scanned(q, cache), cache) + 1 == ReadLeft(q, cache)
  {
  }

  function Sum(f: nat -> nat, n: nat): nat {
    if n == 0 then 0 else f(n - 1) + Sum(f, n - 1)
  }

  lemma {:induction false} SumOfEqual(f: nat -> nat, g: nat -> nat, n: nat)
    requires forall k :: 0 <= k < n ==> g(k) == f(k)
    ensures Sum(g, n) == Sum(f, n)
  {
    if n > 0 {
      SumOfEqual(f, g, n - 1);
    }
  }

  lemma {:induction false} SumWithLess(f: nat -> nat, g: nat -> nat, n: nat, k: nat)
    requires k < n && forall j :: 0 <= j < n && j != k ==> g(j) == f(j)
    requires g(k) < f(k)
    ensures Sum(g, n) < Sum(f, n)
  {
    if k == n - 1 {
      SumOfEqual(f, g, n - 1);
    } else {
      SumWithLess(f, g, n - 1, k);
    }
  }

  function SamplerLeft(out: Outputs, s: System): nat -> nat {
    (c: nat) => if c < |s.samplers| then Left(out, c, s.samplers[c]) else 0
  }

  function ReaderLeft(s: System): nat -> nat {
    (r: nat) => if r in s.readers && s.readers[r].c < |s.samplers|
         then ReadLeft(s.readers[r], s.samplers[s.readers[r].c].Cache()) else 0
  }

  function OwnerLeft(s: System): nat {
    match s.owner
    case Joining(i) => 1 + Missing(i, |s.samplers|)
    case _ => 0
  }

  /** All the work that is left while the owner joins; `ids` bounds the ids of the running callbacks. */
  function WorkLeft(out: Outputs, s: System, ids: nat): nat {
    Sum(SamplerLeft(out, s), |s.samplers|) + Sum(ReaderLeft(s), ids) + OwnerLeft(s)
  }

  predicate IdsBelow(s: System, ids: nat) {
    forall r <- s.readers :: r < ids
  }

  /** The owner is past its first loop: every flag is set. */
  predicate Flagged(s: System) {
    (s.owner.Joining? || s.owner.Returned?) && forall c :: 0 <= c < |s.samplers| ==> s.samplers[c].stop
  }

  /** A running callback pins its cache, so the work of the others does not grow. */
  lemma MoveKeepsReaderLeft(out: Outputs, s: System, c: nat, move: Move, r: nat)
    requires SamplersInv(out, s) && ReadersInv(s) && Enabled(out, s, Sample(c, move))
    ensures ReaderLeft(Step(out, s, Sample(c, move)))(r) == ReaderLeft(s)(r)
  {
    if r in s.readers {
      var d := s.readers[r].c;
      assert ReaderInv(s, r);
      if d == c {
        PinnedCache(out, c, s.samplers[c], move);
      }
      assert Step(out, s, Sample(c, move)).samplers[d].Cache() == s.samplers[d].Cache();
    }
  }

  lemma SampleShrinksWork(out: Outputs, s: System, c: nat, move: Move, ids: nat)
    requires Inv(out, s) && Flagged(s) && Enabled(out, s, Sample(c, move))
    ensures WorkLeft(out, Step(out, s, Sample(c, move)), ids) < WorkLeft(out, s, ids)
  {
    var t := Step(out, s, Sample(c, move));
    FlaggedMove(out, c, s.samplers[c], move);
    SumWithLess(SamplerLeft(out, s), SamplerLeft(out, t), |s.samplers|, c);
    forall r | 0 <= r < ids
      ensures ReaderLeft(t)(r) == ReaderLeft(s)(r)
    {
      MoveKeepsReaderLeft(out, s, c, move, r);
    }
    SumOfEqual(ReaderLeft(s), ReaderLeft(t), ids);
  }

  lemma ScanShortensReader(out: Outputs, s: System, r: nat)
    requires ReadersInv(s) && Enabled(out, s, Scan(r))
    ensures ReaderLeft(Step(out, s, Scan(r)))(r) < ReaderLeft(s)(r)
  {
    assert ReaderInv(s, r);
    ScanShortens(s.readers[r], s.samplers[s.readers[r].c].Cache());
  }

  lemma ScanKeepsOthers(out: Outputs, s: System, r: nat, other: nat)
    requires Enabled(out, s, Scan(r)) && other != r
    ensures ReaderLeft(Step(out, s, Scan(r)))(other) == ReaderLeft(s)(other)
  {
  }

  lemma ScanShrinksWork(out: Outputs, s: System, r: nat, ids: nat)
    requires ReadersInv(s) && IdsBelow(s, ids) && Enabled(out, s, Scan(r))
    ensures WorkLeft(out, Step(out, s, Scan(r)), ids) < WorkLeft(out, s, ids)
  {
    var t := Step(out, s, Scan(r));
    forall other | 0 <= other < ids && other != r
      ensures ReaderLeft(t)(other) == ReaderLeft(s)(other)
    {
      ScanKeepsOthers(out, s, r, other);
    }
    ScanShortensReader(out, s, r);
    SumWithLess(ReaderLeft(s), ReaderLeft(t), ids, r);
    SumOfEqual(SamplerLeft(out, s), SamplerLeft(out, t), |s.samplers|);
  }

  lemma FinishShrinksWork(out: Outputs, s: System, r: nat, ids: nat)
    requires IdsBelow(s, ids) && Enabled(out, s, FinishRead(r))
    ensures WorkLeft(out, Step(out, s, FinishRead(r)), ids) < WorkLeft(out, s, ids)
  {
    var t := Step(out, s, FinishRead(r));
    SumWithLess(ReaderLeft(s), ReaderLeft(t), ids, r);
    SumOfEqual(SamplerLeft(out, s), SamplerLeft(out, t), |s.samplers|);
  }

  lemma OwnerShrinksWork(out: Outputs, s: System, a: Action, ids: nat)
    requires Flagged(s) && Enabled(out, s, a) && (a.Join? || a.Return?)
    ensures WorkLeft(out, Step(out, s, a), ids) < WorkLeft(out, s, ids)
  {
    var t := Step(out, s, a);
    SumOfEqual(SamplerLeft(out, s), SamplerLeft(out, t), |s.samplers|);
    SumOfEqual(ReaderLeft(s), ReaderLeft(t), ids);
  }

  lemma FinishingShrinksWork(out: Outputs, s: System, a: Action, ids: nat)
    requires Inv(out, s) && Flagged(s) && IdsBelow(s, ids) && Enabled(out, s, a) && Finishing(a)
    ensures WorkLeft(out, Step(out, s, a), ids) < WorkLeft(out, s, ids)
  {
    match a
    case Sample(c, move) => SampleShrinksWork(out, s, c, move, ids);
    case Scan(r) => ScanShrinksWork(out, s, r, ids);
    case FinishRead(r) => FinishShrinksWork(out, s, r, ids);
    case _ => OwnerShrinksWork(out, s, a, ids);
  }

  lemma FinishingKeepsFlags(out: Outputs, s: System, a: Action, ids: nat)
    requires Flagged(s) && IdsBelow(s, ids) && Enabled(out, s, a) && Finishing(a)
    ensures Flagged(Step(out, s, a)) && IdsBelow(Step(out, s, a), ids)
  {
  }

  /** While the owner joins, a thread, a callback or the owner itself can always go on. */
  lemma JoiningIsNeverStuck(out: Outputs, s: System) returns (a: Action)
    requires Inv(out, s) && s.owner.Joining?
    ensures Enabled(out, s, a) && Finishing(a)
  {
    var i := s.owner.i;
    if i >= |s.samplers| {
      a := Return;
    } else if !s.samplers[i].handle || s.samplers[i].pc == Exited {
      a := Join;
    } else {
      a := SomeoneMoves(out, s, i);
    }
  }

  /** A thread that waits for the lock waits for a callback, which can go on. */
  lemma SomeoneMoves(out: Outputs, s: System, c: nat) returns (a: Action)
    requires Inv(out, s) && c < |s.samplers| && s.samplers[c].pc != Exited
    ensures Enabled(out, s, a) && Finishing(a)
  {
    var x := s.samplers[c];
    assert SamplerInv(out, c, x) && HoldersInv(s, c);
    match x.pc
    case Check => a := Sample(c, ReadStop);
    case Clear => a := Sample(c, ClearScratch);
    case Collect => a := Sample(c, if |x.Scratch()| < |out(c, x.calls)| then Append else FinishCollect);
    case Swap => a := Sample(c, SwapBuffers);
    case Release => a := Sample(c, Unlock);
    case Pace => a := Sample(c, Sleep);
    case Acquire =>
      if x.lock.holders == {} {
        a := Sample(c, LockCache);
      } else {
        var r :| r in x.lock.holders;
        assert ReaderInv(s, r);
        a := if s.readers[r].group < |x.Cache()| then Scan(r) else FinishRead(r);
      }
  }

  /**
   When all flags are set, `shutdown` ends: as long as no new callback starts, no run is longer than the
   work left, and a run that cannot be continued has reached the return.  Then every thread has exited
   and every handle is gone.
   */
  lemma {:induction false} ShutdownTerminates(out: Outputs, s: System, steps: seq<Action>, ids: nat)
    requires Inv(out, s) && Flagged(s) && IdsBelow(s, ids)
    requires Run(out, s, steps).Some? && forall a <- steps :: Finishing(a)
    ensures var t := Run(out, s, steps).value;
            && Inv(out, t) && Flagged(t) && IdsBelow(t, ids)
            && |steps| + WorkLeft(out, t, ids) <= WorkLeft(out, s, ids)
            && ((forall a | Finishing(a) :: !Enabled(out, t, a)) ==> t.owner == Returned)
  {
    var t := Run(out, s, steps).value;
    if steps != [] {
      var front := steps[..|steps| - 1];
      ShutdownTerminates(out, s, front, ids);
      var b := Run(out, s, front).value;
      StepKeepsInv(out, b, steps[|steps| - 1]);
      FinishingShrinksWork(out, b, steps[|steps| - 1], ids);
      FinishingKeepsFlags(out, b, steps[|steps| - 1], ids);
    }
    if t.owner.Joining? {
      var a := JoiningIsNeverStuck(out, t);
    }
  }

  /** When `shutdown` has returned, every sampling thread has exited and every handle was taken. */
  lemma ReturnedMeansExited(out: Outputs, s: System, c: nat)
    requires Inv(out, s) && s.owner == Returned && c < |s.samplers|
    ensures s.samplers[c].pc == Exited && !s.samplers[c].handle && s.samplers[c].stop
  {
    assert SamplerInv(out, c, s.samplers[c]);
  }

  // ------------------------------------------------------------------ frozen

  /** A sampling thread, but for who is reading its cache. */
  function Still(x: Sampler): Sampler {
    x.(lock := Shared({}))
  }

  lemma ExitedStep(out: Outputs, s: System, a: Action, c: nat)
    requires Enabled(out, s, a) && c < |s.samplers| && s.samplers[c].pc == Exited
    requires s.samplers[c].stop && !s.samplers[c].handle
    ensures c < |Step(out, s, a).samplers| && Still(Step(out, s, a).samplers[c]) == Still(s.samplers[c])
  {
  }

  /** After `shutdown` no step of anybody ever changes a cache again, not even of a second `shutdown`. */
  lemma {:induction false} FrozenAfterShutdown(out: Outputs, s: System, steps: seq<Action>, c: nat)
    requires Inv(out, s) && s.owner == Returned && c < |s.samplers| && Run(out, s, steps).Some?
    ensures var t := Run(out, s, steps).value;
            c < |t.samplers| && Still(t.samplers[c]) == Still(s.samplers[c])
  {
    if steps != [] {
      var front := steps[..|steps| - 1];
      FrozenAfterShutdown(out, s, front, c);
      ReturnedMeansExited(out, s, c);
      var x, y := s.samplers[c], Run(out, s, front).value.samplers[c];
      assert Still(y).pc == Still(x).pc && Still(y).stop == Still(x).stop && Still(y).handle == Still(x).handle;
      ExitedStep(out, Run(out, s, front).value, steps[|steps| - 1], c);
    }
  }

  lemma LogOnlyGrows(out: Outputs, s: System, a: Action)
    requires Enabled(out, s, a)
    ensures s.log <= Step(out, s, a).log
    ensures |Step(out, s, a).log| > |s.log| ==>
              a.FinishRead? && Step(out, s, a).log == s.log + [ExportOf(s, a.r)]
  {
  }

  /**
   A callback that ends after `shutdown`, like those of the final flush, has observed the last snapshot its
   collector published, whole, or nothing if there was none.
   */
  lemma {:induction false} FinalFlush(out: Outputs, s: System, steps: seq<Action>, i: nat)
    requires Inv(out, s) && s.owner == Returned && Run(out, s, steps).Some?
    requires |s.log| <= i < |Run(out, s, steps).value.log|
    requires Run(out, s, steps).value.log[i].c < |s.samplers|
    ensures var e := Run(out, s, steps).value.log[i];
            && e.version == s.samplers[e.c].version
            && e.seen == Observed(s.samplers[e.c].Cache(), e.name, e.ty)
  {
    var front, last := steps[..|steps| - 1], steps[|steps| - 1];
    var b := Run(out, s, front).value;
    LogOnlyGrows(out, b, last);
    if i < |b.log| {
      FinalFlush(out, s, front, i);
    } else {
      RunKeepsInv(out, s, front);
      var c := b.readers[last.r].c;
      FrozenAfterShutdown(out, s, front, c);
      assert Still(b.samplers[c]).version == Still(s.samplers[c]).version;
      assert Still(b.samplers[c]).Cache() == Still(s.samplers[c]).Cache();
      assert ReaderInv(b, last.r);
      EndOfScan(b.readers[last.r], b.samplers[c].Cache());
    }
  }

  // ------------------------------------------------------------------ a second shutdown

  function Repeat(a: Action, n: nat): seq<Action> {
    if n == 0 then [] else Repeat(a, n - 1) + [a]
  }

  lemma {:induction false} RunConcat(out: Outputs, s: System, a: seq<Action>, b: seq<Action>)
    requires Run(out, s, a).Some?
    ensures Run(out, s, a + b) == Run(out, Run(out, s, a).value, b)
  {
    if b == [] {
      assert a + b == a;
    } else {
      assert (a + b)[..|a + b| - 1] == a + b[..|b| - 1];
      RunConcat(out, s, a, b[..|b| - 1]);
    }
  }

  lemma OneStep(out: Outputs, s: System, a: Action)
    requires Enabled(out, s, a)
    ensures Run(out, s, [a]) == Some(Step(out, s, a))
  {
    assert [a][..0] == [];
  }

  /** The action leads from one of these states to the next. */
  predicate Leads(out: Outputs, a: Action, states: nat -> System, k: nat) {
    Enabled(out, states(k), a) && Step(out, states(k), a) == states(k + 1)
  }

  /** The same action over and over, through these states. */
  lemma {:induction false} RunOfRepeat(out: Outputs, a: Action, states: nat -> System, n: nat)
    requires forall k: nat :: k < n ==> Leads(out, a, states, k)
    ensures Run(out, states(0), Repeat(a, n)) == Some(states(n))
  {
    if n > 0 {
      RunOfRepeat(out, a, states, n - 1);
      assert Leads(out, a, states, n - 1);
      RunSnoc(out, states(0), Repeat(a, n - 1), states(n - 1), a);
    }
  }

  /** The sampling threads, the first n of them flagged. */
  function Raised(samplers: seq<Sampler>, n: nat): (raised: seq<Sampler>)
    ensures |raised| == |samplers|
    ensures forall c :: 0 <= c < |samplers| ==>
              raised[c] == if c < n then samplers[c].(stop := true) else samplers[c]
  {
    seq(|samplers|, c requires 0 <= c < |samplers| => if c < n then samplers[c].(stop := true) else samplers[c])
  }

  /** Inside the first loop, after n flags. */
  function Raising(s: System): nat -> System {
    (n: nat) => s.(samplers := Raised(s.samplers, n), owner := Flagging(n))
  }

  lemma RaiseNext(out: Outputs, s: System, n: nat)
    requires n < |s.samplers|
    ensures Leads(out, SetFlag, Raising(s), n)
  {
    var x := Raised(s.samplers, n)[n];
    assert Raised(s.samplers, n)[n := x.(stop := true)] == Raised(s.samplers, n + 1);
  }

  lemma TakenAgain(out: Outputs, s: System, i: nat)
    requires s.owner == Joining(i) && i < |s.samplers| && !s.samplers[i].handle
    ensures Enabled(out, s, Join) && Step(out, s, Join) == s.(owner := Joining(i + 1))
  {
    assert s.samplers[i := s.samplers[i].(handle := false)] == s.samplers;
  }

  lemma RaisingRuns(out: Outputs, s: System, n: nat)
    requires n <= |s.samplers|
    ensures Run(out, s.(owner := Flagging(0)), Repeat(SetFlag, n)) == Some(Raising(s)(n))
  {
    assert Raised(s.samplers, 0) == s.samplers;
    forall k: nat | k < n
      ensures Leads(out, SetFlag, Raising(s), k)
    {
      RaiseNext(out, s, k);
    }
    RunOfRepeat(out, SetFlag, Raising(s), n);
  }

  lemma FlagsAgain(out: Outputs, s: System, n: nat)
    requires s.owner == Flagging(0) && n <= |s.samplers|
    requires forall c :: 0 <= c < |s.samplers| ==> s.samplers[c].stop
    ensures Run(out, s, Repeat(SetFlag, n)) == Some(s.(owner := Flagging(n)))
  {
    RaisingRuns(out, s, n);
    assert Raised(s.samplers, n) == s.samplers;
  }

  lemma JoinsAgain(out: Outputs, s: System, n: nat)
    requires s.owner == Joining(0) && n <= |s.samplers|
    requires forall c :: 0 <= c < |s.samplers| ==> !s.samplers[c].handle
    ensures Run(out, s, Repeat(Join, n)) == Some(s.(owner := Joining(n)))
  {
    var states := (k: nat) => s.(owner := Joining(k));
    forall k: nat | k < n
      ensures Leads(out, Join, states, k)
    {
      TakenAgain(out, states(k), k);
    }
    RunOfRepeat(out, Join, states, n);
  }

  /** All the steps of one call of `shutdown` on n entries. */
  function ShutdownSteps(n: nat): seq<Action> {
    [BeginShutdown] + Repeat(SetFlag, n) + [StartJoins] + Repeat(Join, n) + [Return]
  }

  /** A second `shutdown`, such as the one from `Drop`, never waits and leaves the state as it was. */
  lemma SecondShutdownChangesNothing(out: Outputs, s: System)
    requires Inv(out, s) && s.owner == Returned
    ensures Run(out, s, ShutdownSteps(|s.samplers|)) == Some(s)
  {
    var n := |s.samplers|;
    var flagged, joined := [BeginShutdown] + Repeat(SetFlag, n), Repeat(Join, n);
    var s0, s1 := s.(owner := Flagging(0)), s.(owner := Joining(0));
    OneStep(out, s, BeginShutdown);
    FlagsAgain(out, s0, n);
    RunConcat(out, s, [BeginShutdown], Repeat(SetFlag, n));
    OneStep(out, s.(owner := Flagging(n)), StartJoins);
    RunConcat(out, s, flagged, [StartJoins]);
    JoinsAgain(out, s1, n);
    RunConcat(out, s, flagged + [StartJoins], joined);
    OneStep(out, s.(owner := Joining(n)), Return);
    RunConcat(out, s, flagged + [StartJoins] + joined, [Return]);
  }

  // ------------------------------------------------------------------ shutdown can be carried out

  /** Up to the first join. */
  function FlagSteps(n: nat): seq<Action> {
    [BeginShutdown] + Repeat(SetFlag, n) + [StartJoins]
  }

  /**
   `shutdown` can be called whenever it is not running, and all flags can then be set, whatever threads and
   callbacks are doing: nothing else changes until the first join.
   */
  lemma FlagsCanBeSet(out: Outputs, s: System)
    requires s.owner == Serving || s.owner == Returned
    ensures var n := |s.samplers|;
            Run(out, s, FlagSteps(n)) == Some(s.(samplers := Raised(s.samplers, n), owner := Joining(0)))
  {
    var n := |s.samplers|;
    OneStep(out, s, BeginShutdown);
    RaisingRuns(out, s, n);
    RunConcat(out, s, [BeginShutdown], Repeat(SetFlag, n));
    RunSnoc(out, s, [BeginShutdown] + Repeat(SetFlag, n), Raising(s)(n), StartJoins);
  }

  /** A flagged system can always be run to the return of `shutdown` without anything new. */
  lemma {:induction false} JoinsCanFinish(out: Outputs, s: System, ids: nat) returns (steps: seq<Action>)
    requires Inv(out, s) && Flagged(s) && IdsBelow(s, ids)
    ensures Run(out, s, steps).Some? && Run(out, s, steps).value.owner == Returned
    ensures forall a <- steps :: Finishing(a)
    decreases WorkLeft(out, s, ids)
  {
    if s.owner == Returned {
      steps := [];
    } else {
      var a := JoiningIsNeverStuck(out, s);
      StepKeepsInv(out, s, a);
      FinishingShrinksWork(out, s, a, ids);
      FinishingKeepsFlags(out, s, a, ids);
      var rest := JoinsCanFinish(out, Step(out, s, a), ids);
      OneStep(out, s, a);
      RunConcat(out, s, [a], rest);
      steps := [a] + rest;
    }
  }

  lemma {:induction false} BoundOf(ids: set<nat>) returns (bound: nat)
    ensures forall r <- ids :: r < bound
  {
    if ids == {} {
      bound := 0;
    } else {
      var r :| r in ids;
      assert ids == (ids - {r}) + {r};
      bound := BoundOf(ids - {r});
      bound := if bound > r then bound else r + 1;
    }
  }

  /** From every reachable state in which `shutdown` is not running, it can be called and run to its return. */
  lemma ShutdownCanReturn(out: Outputs, s: System) returns (joins: seq<Action>)
    requires Inv(out, s) && (s.owner == Serving || s.owner == Returned)
    ensures forall a <- joins :: Finishing(a)
    ensures var steps := FlagSteps(|s.samplers|) + joins;
            Run(out, s, steps).Some? && Run(out, s, steps).value.owner == Returned
  {
    var flags := FlagSteps(|s.samplers|);
    FlagsCanBeSet(out, s);
    RunKeepsInv(out, s, flags);
    var t := Run(out, s, flags).value;
    var ids := BoundOf(t.readers.Keys);
    joins := JoinsCanFinish(out, t, ids);
    RunConcat(out, s, flags, joins);
  }
}
