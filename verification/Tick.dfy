/**
 One tick of a sampling thread that nobody disturbs, step by step, is the sequential `sample_once` of module
 Framework: the cache gets the new output alone, scratch gets what the cache held.
 */
module Tick {
  import opened Wrappers
  import opened Framework
  import opened Runtime

  /** Some moves of one sampling thread. */
  function Walk(out: Outputs, c: nat, x: Sampler, moves: seq<Move>): Option<Sampler> {
    if moves == [] then Some(x)
    else
      match Walk(out, c, x, moves[..|moves| - 1])
      case None => None
      case Some(y) =>
        var last := moves[|moves| - 1];
        if MoveEnabled(out, c, y, last) then Some(Moved(out, c, y, last)) else None
  }

  lemma WalkSnoc(out: Outputs, c: nat, x: Sampler, moves: seq<Move>, y: Sampler, last: Move, z: Sampler)
    requires Walk(out, c, x, moves) == Some(y) && MoveEnabled(out, c, y, last) && Moved(out, c, y, last) == z
    ensures Walk(out, c, x, moves + [last]) == Some(z)
  {
    assert (moves + [last])[..|moves|] == moves;
  }

  function Appends(n: nat): seq<Move> {
    if n == 0 then [] else Appends(n - 1) + [Append]
  }

  const FIRST: seq<Move> := [ReadStop, ClearScratch]
  const LAST: seq<Move> := [FinishCollect, LockCache, SwapBuffers, Unlock, Sleep]

  /** The moves of a tick whose collector appends n groups. */
  function TickMoves(n: nat): seq<Move> {
    FIRST + Appends(n) + LAST
  }

  /** In the middle of a tick: so far the collector has appended these groups. */
  function Filling(x: Sampler, groups: Snapshot): Sampler {
    x.(pc := Collect, buffers := x.buffers.Put(x.scratchAt, groups))
  }

  lemma TickStarts(out: Outputs, c: nat, x: Sampler)
    requires x.pc == Check && !x.stop
    ensures Walk(out, c, x, FIRST) == Some(Filling(x, []))
  {
    WalkSnoc(out, c, x, [], x, ReadStop, x.(pc := Clear));
    WalkSnoc(out, c, x, [] + [ReadStop], x.(pc := Clear), ClearScratch, Filling(x, []));
    assert [] + [ReadStop] + [ClearScratch] == FIRST;
  }

  lemma AppendFills(out: Outputs, c: nat, x: Sampler, n: nat)
    requires n < |out(c, x.calls)|
    ensures var y := Filling(x, out(c, x.calls)[..n]);
            MoveEnabled(out, c, y, Append) && Moved(out, c, y, Append) == Filling(x, out(c, x.calls)[..n + 1])
  {
    var produced := out(c, x.calls);
    assert produced[..n + 1] == produced[..n] + [produced[n]];
  }

  lemma {:induction false} TickCollects(out: Outputs, c: nat, x: Sampler, n: nat)
    requires x.pc == Check && !x.stop && n <= |out(c, x.calls)|
    ensures Walk(out, c, x, FIRST + Appends(n)) == Some(Filling(x, out(c, x.calls)[..n]))
  {
    var produced := out(c, x.calls);
    if n == 0 {
      TickStarts(out, c, x);
      assert FIRST + Appends(0) == FIRST && produced[..0] == [];
    } else {
      TickCollects(out, c, x, n - 1);
      AppendFills(out, c, x, n - 1);
      WalkSnoc(
        out, c, x, FIRST + Appends(n - 1), Filling(x, produced[..n - 1]), Append, Filling(x, produced[..n]));
      assert FIRST + Appends(n) == FIRST + Appends(n - 1) + [Append];
    }
  }

  /** What a tick leaves: the other vector behind the lock, with the new output. */
  function Ticked(out: Outputs, c: nat, x: Sampler): Sampler {
    x.(buffers := x.buffers.Put(x.scratchAt, out(c, x.calls)), cacheAt := x.scratchAt, scratchAt := x.cacheAt,
       calls := x.calls + 1, version := x.version + 1)
  }

  /** The scratch is complete: until the lock is held. */
  lemma TickLocks(out: Outputs, c: nat, x: Sampler, moves: seq<Move>, y: Sampler)
    requires Walk(out, c, x, moves) == Some(y)
    requires y.pc == Collect && y.lock == Shared({}) && |y.Scratch()| >= |out(c, y.calls)|
    ensures Walk(out, c, x, moves + [FinishCollect] + [LockCache])
         == Some(y.(pc := Swap, lock := Exclusive, calls := y.calls + 1))
  {
    var a := y.(pc := Acquire, calls := y.calls + 1);
    WalkSnoc(out, c, x, moves, y, FinishCollect, a);
    WalkSnoc(out, c, x, moves + [FinishCollect], a, LockCache, a.(pc := Swap, lock := Exclusive));
  }

  lemma TickPublishes(out: Outputs, c: nat, x: Sampler, moves: seq<Move>, y: Sampler)
    requires Walk(out, c, x, moves) == Some(y) && y.pc == Swap
    ensures Walk(out, c, x, moves + [SwapBuffers] + [Unlock] + [Sleep])
         == Some(y.(pc := Check, lock := Shared({}), cacheAt := y.scratchAt, scratchAt := y.cacheAt,
                    version := y.version + 1))
  {
    var a := y.(pc := Release, cacheAt := y.scratchAt, scratchAt := y.cacheAt, version := y.version + 1);
    var b := a.(pc := Pace, lock := Shared({}));
    WalkSnoc(out, c, x, moves, y, SwapBuffers, a);
    WalkSnoc(out, c, x, moves + [SwapBuffers], a, Unlock, b);
    WalkSnoc(out, c, x, moves + [SwapBuffers] + [Unlock], b, Sleep, b.(pc := Check));
  }

  /** A whole tick of a thread that is not stopped and finds the lock free. */
  lemma WalkOfTick(out: Outputs, c: nat, x: Sampler)
    requires x.pc == Check && !x.stop && x.lock == Shared({})
    ensures Walk(out, c, x, TickMoves(|out(c, x.calls)|)) == Some(Ticked(out, c, x))
  {
    var n := |out(c, x.calls)|;
    var moves := FIRST + Appends(n);
    TickCollects(out, c, x, n);
    assert out(c, x.calls)[..n] == out(c, x.calls);
    var y := Filling(x, out(c, x.calls));
    var z := y.(pc := Swap, lock := Exclusive, calls := y.calls + 1);
    TickLocks(out, c, x, moves, y);
    TickPublishes(out, c, x, moves + [FinishCollect] + [LockCache], z);
    LastMoves(moves);
  }

  lemma LastMoves(moves: seq<Move>)
    ensures moves + [FinishCollect] + [LockCache] + [SwapBuffers] + [Unlock] + [Sleep] == moves + LAST
  {
  }

  function StepsOf(c: nat, moves: seq<Move>): seq<Action> {
    if moves == [] then [] else StepsOf(c, moves[..|moves| - 1]) + [Sample(c, moves[|moves| - 1])]
  }

  /** The moves of one thread are steps of the system that touch nothing else. */
  lemma {:induction false} RunOfWalk(out: Outputs, s: System, c: nat, moves: seq<Move>)
    requires c < |s.samplers| && Walk(out, c, s.samplers[c], moves).Some?
    ensures Run(out, s, StepsOf(c, moves))
         == Some(s.(samplers := s.samplers[c := Walk(out, c, s.samplers[c], moves).value]))
  {
    if moves == [] {
      assert s.samplers[c := s.samplers[c]] == s.samplers;
    } else {
      var front, last := moves[..|moves| - 1], moves[|moves| - 1];
      RunOfWalk(out, s, c, front);
      var y := Walk(out, c, s.samplers[c], front).value;
      RunSnoc(out, s, StepsOf(c, front), s.(samplers := s.samplers[c := y]), Sample(c, last));
      assert s.samplers[c := y][c := Moved(out, c, y, last)] == s.samplers[c := Moved(out, c, y, last)];
    }
  }

  /**
   So the system can run a tick of any waiting thread whose cache nobody reads, and it is `sample_once`: the
   cache has the new output, scratch what the cache held, and nothing else is touched.
   */
  lemma UndisturbedTick(out: Outputs, s: System, c: nat)
    requires c < |s.samplers| && s.samplers[c].pc == Check && !s.samplers[c].stop
    requires s.samplers[c].lock == Shared({}) && s.samplers[c].cacheAt != s.samplers[c].scratchAt
    ensures var x := s.samplers[c];
            && Run(out, s, StepsOf(c, TickMoves(|out(c, x.calls)|)))
               == Some(s.(samplers := s.samplers[c := Ticked(out, c, x)]))
            && Ticked(out, c, x).Cache() == out(c, x.calls) && Ticked(out, c, x).Scratch() == x.Cache()
  {
    WalkOfTick(out, c, s.samplers[c]);
    RunOfWalk(out, s, c, TickMoves(|out(c, s.samplers[c].calls)|));
  }
}
