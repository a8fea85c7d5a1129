/**
 The pace of a sampling thread (crates/metrics-framework/src/lib.rs): after each tick it sleeps for what is
 left of its interval.  Instants and durations are in any fixed unit of a clock that never goes back.
 */
module Pacing {
  import opened Runtime
  import Shutdown

  /** How long the thread asks to sleep after a tick; the subtraction cannot go below zero. */
  function SleepRequest(interval: nat, elapsed: nat): (request: nat)
    ensures elapsed + request >= interval
    ensures request > 0 <==> elapsed < interval
    ensures request > 0 ==> elapsed + request == interval
  {
    if elapsed < interval then interval - elapsed else 0
  }

  // ------------------------------------------------------------------ starts of ticks

  /** Each tick starts at least an interval after the one before it. */
  predicate Spaced(interval: nat, starts: seq<nat>) {
    forall i :: 0 < i < |starts| ==> starts[i - 1] + interval <= starts[i]
  }

  /** The n-th tick after a given one starts at least n intervals later. */
  lemma {:induction false} LaterTicksKeepDistance(interval: nat, starts: seq<nat>, i: nat, n: nat)
    requires Spaced(interval, starts) && i + n < |starts|
    ensures starts[i + n] >= starts[i] + n * interval
  {
    if n > 0 {
      LaterTicksKeepDistance(interval, starts, i, n - 1);
      assert n * interval == (n - 1) * interval + interval;
    }
  }

  predicate InWindow(start: nat, from: nat, length: nat) {
    from <= start <= from + length
  }

  /** How many ticks start in a window. */
  function TicksIn(starts: seq<nat>, from: nat, length: nat): nat {
    if starts == [] then 0
    else
      var last := |starts| - 1;
      TicksIn(starts[..last], from, length) + if InWindow(starts[last], from, length) then 1 else 0
  }

  lemma {:induction false} FirstAndLast(starts: seq<nat>, from: nat, length: nat) returns (first: nat, last: nat)
    requires TicksIn(starts, from, length) > 0
    ensures first <= last < |starts|
    ensures InWindow(starts[first], from, length) && InWindow(starts[last], from, length)
    ensures TicksIn(starts, from, length) <= last - first + 1
  {
    var n := |starts| - 1;
    if TicksIn(starts[..n], from, length) == 0 {
      first, last := n, n;
    } else {
      first, last := FirstAndLast(starts[..n], from, length);
      if InWindow(starts[n], from, length) {
        last := n;
      }
    }
  }

  lemma PositiveFactor(x: int, y: nat)
    requires y > 0 && x * y > 0
    ensures x > 0
  {
  }

  lemma QuotientBound(n: nat, interval: nat, length: nat)
    requires interval > 0 && n * interval <= length
    ensures n <= length / interval
  {
    var d := length / interval - n;
    assert length == (length / interval) * interval + length % interval;
    assert (d + 1) * interval == (length / interval) * interval - n * interval + interval;
    PositiveFactor(d + 1, interval);
  }

  /** No window holds more than one tick for each whole interval that fits in it, and one. */
  lemma WindowBound(interval: nat, starts: seq<nat>, from: nat, length: nat)
    requires Spaced(interval, starts) && interval > 0
    ensures TicksIn(starts, from, length) <= length / interval + 1
  {
    if TicksIn(starts, from, length) > 0 {
      var first, last := FirstAndLast(starts, from, length);
      var n := last - first;
      assert n * interval <= length by {
        LaterTicksKeepDistance(interval, starts, first, n);
      }
      QuotientBound(n, interval, length);
    }
  }

  // ------------------------------------------------------------------ the thread with a clock

  /**
   What the loop of a thread keeps: when its tick started, when it took the time after it, and the ticks it
   has started and the rounds it has finished.
   */
  datatype Watch = Watch(started: nat, measured: nat, starts: seq<nat>, rounds: seq<Round>)

  /** One round of the loop: when the tick started, when its time was taken, when the sleep was over. */
  datatype Round = Round(started: nat, measured: nat, woke: nat)

  function Elapsed(w: Watch): nat {
    if w.started <= w.measured then w.measured - w.started else 0
  }

  /** A move of the thread that ends at this instant; `goesOn` is what it reads from its flag. */
  function Advanced(w: Watch, move: Move, goesOn: bool, at: nat): Watch {
    match move
    case ReadStop => if goesOn then w.(started := at, starts := w.starts + [at]) else w
    case Unlock => w.(measured := at)
    case Sleep => w.(rounds := w.rounds + [Round(w.started, w.measured, at)])
    case ClearScratch | Append | FinishCollect | LockCache | SwapBuffers => w
  }

  /** What thread c has on its watch after a run whose i-th step ended at instant times[i]. */
  function Clocked(out: Outputs, steps: seq<Action>, times: seq<nat>, c: nat): Watch
    requires Run(out, Init(), steps).Some? && |times| == |steps|
  {
    if steps == [] then Watch(0, 0, [], [])
    else
      var n := |steps| - 1;
      var w := Clocked(out, steps[..n], times[..n], c);
      if steps[n].Sample? && steps[n].c == c
      then Advanced(w, steps[n].move, !Run(out, Init(), steps[..n]).value.samplers[c].stop, times[n])
      else w
  }

  /** The clock never goes back, and every sleep of thread c lasts at least as long as it asks for. */
  predicate Timed(out: Outputs, steps: seq<Action>, times: seq<nat>, c: nat, interval: nat)
    requires Run(out, Init(), steps).Some? && |times| == |steps|
    decreases |steps|
  {
    if steps == [] then true
    else
      var n := |steps| - 1;
      var w := Clocked(out, steps[..n], times[..n], c);
      && Timed(out, steps[..n], times[..n], c, interval)
      && Now(times[..n]) <= times[n]
      && (steps[n] == Sample(c, Sleep) ==> times[n] >= w.measured + SleepRequest(interval, Elapsed(w)))
  }

  function Now(times: seq<nat>): nat {
    if times == [] then 0 else times[|times| - 1]
  }

  predicate InTick(pc: Pc) {
    pc == Clear || pc == Collect || pc == Acquire || pc == Swap || pc == Release || pc == Pace
  }

  /** What the watch of a thread at this place shows. */
  predicate WatchInv(interval: nat, w: Watch, pc: Pc, now: nat) {
    && Spaced(interval, w.starts)
    && (w.starts != [] ==> w.started == w.starts[|w.starts| - 1])
    && (InTick(pc) ==> w.starts != [] && w.started <= now)
    && (pc == Pace ==> w.started <= w.measured <= now)
    && (!InTick(pc) && w.starts != [] ==> w.started + interval <= now)
    && |w.starts| == |w.rounds| + (if InTick(pc) then 1 else 0)
    && forall i :: 0 <= i < |w.rounds| ==> w.rounds[i].started == w.starts[i]
  }

  lemma MoveKeepsWatch(
    out: Outputs, c: nat, x: Sampler, move: Move, interval: nat, w: Watch, before: nat, at: nat)
    requires MoveEnabled(out, c, x, move) && WatchInv(interval, w, x.pc, before) && before <= at
    requires move == Sleep ==> at >= w.measured + SleepRequest(interval, Elapsed(w))
    ensures WatchInv(interval, Advanced(w, move, !x.stop, at), Moved(out, c, x, move).pc, at)
  {
  }

  lemma LaterKeepsWatch(interval: nat, w: Watch, pc: Pc, before: nat, at: nat)
    requires WatchInv(interval, w, pc, before) && before <= at
    ensures WatchInv(interval, w, pc, at)
  {
  }

  /** Where thread c is; a thread that is not there yet has done nothing. */
  function PcOf(s: System, c: nat): Pc {
    if c < |s.samplers| then s.samplers[c].pc else Check
  }

  lemma {:induction false} RunKeepsWatch(out: Outputs, steps: seq<Action>, times: seq<nat>, c: nat, interval: nat)
    requires Run(out, Init(), steps).Some? && |times| == |steps| && Timed(out, steps, times, c, interval)
    ensures WatchInv(interval, Clocked(out, steps, times, c), PcOf(Run(out, Init(), steps).value, c), Now(times))
  {
    if steps != [] {
      var n := |steps| - 1;
      RunKeepsWatch(out, steps[..n], times[..n], c, interval);
      var b := Run(out, Init(), steps[..n]).value;
      var w := Clocked(out, steps[..n], times[..n], c);
      if steps[n].Sample? && steps[n].c == c {
        MoveKeepsWatch(out, c, b.samplers[c], steps[n].move, interval, w, Now(times[..n]), times[n]);
      } else {
        OthersKeepPlace(out, b, steps[n], c);
        LaterKeepsWatch(interval, w, PcOf(b, c), Now(times[..n]), times[n]);
      }
    }
  }

  lemma OthersKeepPlace(out: Outputs, s: System, a: Action, c: nat)
    requires Enabled(out, s, a) && !(a.Sample? && a.c == c)
    ensures PcOf(Step(out, s, a), c) == PcOf(s, c)
  {
    if c < |s.samplers| {
      Shutdown.OthersLeaveIt(out, s, a, c);
    }
  }

  /**
   In every run of the threads, whatever the others do: the ticks of one collector start at least an interval
   apart, so that no window holds more than one for each whole interval that fits in it, and one.
   */
  lemma TicksOfRunArePaced(
    out: Outputs, steps: seq<Action>, times: seq<nat>, c: nat, interval: nat, from: nat, length: nat)
    requires Run(out, Init(), steps).Some? && |times| == |steps| && Timed(out, steps, times, c, interval)
    ensures Spaced(interval, Clocked(out, steps, times, c).starts)
    ensures interval > 0 ==> TicksIn(Clocked(out, steps, times, c).starts, from, length) <= length / interval + 1
  {
    RunKeepsWatch(out, steps, times, c, interval);
    if interval > 0 {
      WindowBound(interval, Clocked(out, steps, times, c).starts, from, length);
    }
  }

  // ------------------------------------------------------------------ no drift

  /** The rounds of a thread that is woken to the moment and starts its next tick at once. */
  predicate Exact(interval: nat, rounds: seq<Round>) {
    && (forall i :: 0 <= i < |rounds| ==>
          && rounds[i].started <= rounds[i].measured <= rounds[i].started + interval
          && rounds[i].woke == rounds[i].measured + SleepRequest(interval, rounds[i].measured - rounds[i].started))
    && (forall i :: 0 < i < |rounds| ==> rounds[i].started == rounds[i - 1].woke)
  }

  /** Then the ticks, as long as none overruns its interval, are exact multiples of it after the first. */
  lemma {:induction false} ExactSleepNeverDrifts(interval: nat, rounds: seq<Round>, n: nat)
    requires Exact(interval, rounds) && n < |rounds|
    ensures rounds[n].started == rounds[0].started + n * interval
  {
    if n > 0 {
      ExactSleepNeverDrifts(interval, rounds, n - 1);
      assert rounds[n].started == rounds[n - 1].started + interval;
      assert n * interval == (n - 1) * interval + interval;
    }
  }
}
