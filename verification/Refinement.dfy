/**
 The runtime refines a much simpler machine without threads, locks, buffers or partial reads: every cache
 holds the last complete snapshot, and a callback observes it in one step.
 */
module Refinement {
  import opened Wrappers
  import opened Framework
  import opened Runtime

  datatype Cache = Cache(version: nat, snapshot: Snapshot)

  datatype Abstract = Abstract(caches: seq<Cache>, log: seq<Export>)

  datatype Event =
    | Internal
    | Registered
    | Publish(c: nat)
    | Observe(c: nat, name: string, ty: NumberType)

  predicate Possible(a: Abstract, e: Event) {
    (e.Publish? || e.Observe?) ==> e.c < |a.caches|
  }

  function Next(out: Outputs, a: Abstract, e: Event): Abstract
    requires Possible(a, e)
  {
    match e
    case Internal => a
    case Registered => a.(caches := a.caches + [Cache(0, [])])
    case Publish(c) =>
      var n := a.caches[c].version;
      a.(caches := a.caches[c := Cache(n + 1, out(c, n))])
    case Observe(c, name, ty) =>
      var k := a.caches[c];
      a.(log := a.log + [Export(c, name, ty, k.version, Observed(k.snapshot, name, ty))])
  }

  function Play(out: Outputs, a: Abstract, events: seq<Event>): Option<Abstract> {
    if events == [] then Some(a)
    else
      match Play(out, a, events[..|events| - 1])
      case None => None
      case Some(b) =>
        var last := events[|events| - 1];
        if Possible(b, last) then Some(Next(out, b, last)) else None
  }

  // ------------------------------------------------------------------ the refinement mapping

  /** What is visible of one sampling thread: its cache and how often it was swapped. */
  function Visible(x: Sampler): Cache {
    Cache(x.version, x.Cache())
  }

  function Caches(samplers: seq<Sampler>): (caches: seq<Cache>)
    ensures |caches| == |samplers|
    ensures forall c :: 0 <= c < |samplers| ==> caches[c] == Visible(samplers[c])
  {
    seq(|samplers|, c requires 0 <= c < |samplers| => Visible(samplers[c]))
  }

  function Abs(s: System): Abstract {
    Abstract(Caches(s.samplers), s.log)
  }

  /** What the outside sees of a step: only the swap of a tick and the end of a callback. */
  function EventOf(s: System, a: Action): Event {
    match a
    case Add => Registered
    case Sample(c, move) => if move == SwapBuffers then Publish(c) else Internal
    case FinishRead(r) =>
      if r in s.readers then Observe(s.readers[r].c, s.readers[r].name, s.readers[r].ty) else Internal
    case _ => Internal
  }

  lemma SampleRefines(out: Outputs, s: System, c: nat, move: Move)
    requires SamplersInv(out, s) && Enabled(out, s, Sample(c, move))
    ensures var e := EventOf(s, Sample(c, move));
            Possible(Abs(s), e) && Abs(Step(out, s, Sample(c, move))) == Next(out, Abs(s), e)
  {
    var x := s.samplers[c];
    assert SamplerInv(out, c, x);
    var t := Step(out, s, Sample(c, move));
    if move == SwapBuffers {
      assert Visible(t.samplers[c]) == Cache(x.version + 1, out(c, x.version));
    } else {
      assert Visible(t.samplers[c]) == Visible(x);
    }
    assert Caches(t.samplers) == Next(out, Abs(s), EventOf(s, Sample(c, move))).caches;
  }

  lemma FinishRefines(out: Outputs, s: System, r: nat)
    requires Inv(out, s) && Enabled(out, s, FinishRead(r))
    ensures var e := EventOf(s, FinishRead(r));
            Possible(Abs(s), e) && Abs(Step(out, s, FinishRead(r))) == Next(out, Abs(s), e)
  {
    assert ReaderInv(s, r);
    EndOfScan(s.readers[r], s.samplers[s.readers[r].c].Cache());
    assert Caches(Step(out, s, FinishRead(r)).samplers) == Caches(s.samplers);
  }

  lemma OtherRefines(out: Outputs, s: System, a: Action)
    requires Enabled(out, s, a) && !a.Sample? && !a.FinishRead?
    ensures var e := EventOf(s, a); Possible(Abs(s), e) && Abs(Step(out, s, a)) == Next(out, Abs(s), e)
  {
    assert Caches(Step(out, s, a).samplers) == Next(out, Abs(s), EventOf(s, a)).caches;
  }

  /** Every step of the runtime is one step of the simple machine, or not visible there. */
  lemma StepRefines(out: Outputs, s: System, a: Action)
    requires Inv(out, s) && Enabled(out, s, a)
    ensures var e := EventOf(s, a); Possible(Abs(s), e) && Abs(Step(out, s, a)) == Next(out, Abs(s), e)
  {
    match a
    case Sample(c, move) => SampleRefines(out, s, c, move);
    case FinishRead(r) => FinishRefines(out, s, r);
    case _ => OtherRefines(out, s, a);
  }

  /** The events of a run. */
  function EventsOf(out: Outputs, s: System, steps: seq<Action>): seq<Event>
    requires Run(out, s, steps).Some?
  {
    if steps == [] then []
    else
      var front := steps[..|steps| - 1];
      EventsOf(out, s, front) + [EventOf(Run(out, s, front).value, steps[|steps| - 1])]
  }

  lemma PlaySnoc(out: Outputs, a: Abstract, events: seq<Event>, e: Event)
    requires Play(out, a, events).Some? && Possible(Play(out, a, events).value, e)
    ensures Play(out, a, events + [e]) == Some(Next(out, Play(out, a, events).value, e))
  {
    assert (events + [e])[..|events|] == events;
  }

  /** One more step of a run, from the state it has reached. */
  lemma StepExtends(out: Outputs, b: System, last: Action, a: Abstract, events: seq<Event>)
    requires Inv(out, b) && Enabled(out, b, last) && Play(out, a, events) == Some(Abs(b))
    ensures Play(out, a, events + [EventOf(b, last)]) == Some(Abs(Step(out, b, last)))
  {
    StepRefines(out, b, last);
    PlaySnoc(out, a, events, EventOf(b, last));
  }

  /** Every run of the runtime, seen from outside, is a run of the simple machine. */
  lemma {:induction false} RunRefines(out: Outputs, steps: seq<Action>)
    requires Run(out, Init(), steps).Some?
    ensures Play(out, Abstract([], []), EventsOf(out, Init(), steps)) == Some(Abs(Run(out, Init(), steps).value))
  {
    if steps != [] {
      var front := steps[..|steps| - 1];
      RunRefines(out, front);
      ReachableInv(out, front);
      StepExtends(out, Run(out, Init(), front).value, steps[|steps| - 1], Abstract([], []), EventsOf(out, Init(), front));
    }
  }

  // ------------------------------------------------------------------ what the simple machine says

  /** How many snapshots of a collector were published. */
  function Published(events: seq<Event>, c: nat): nat {
    if events == [] then 0
    else Published(events[..|events| - 1], c) + if events[|events| - 1] == Publish(c) then 1 else 0
  }

  /** In a run of the simple machine a cache holds the newest published snapshot. */
  lemma {:induction false} CacheIsNewest(out: Outputs, events: seq<Event>, c: nat)
    requires Play(out, Abstract([], []), events).Some?
    requires c < |Play(out, Abstract([], []), events).value.caches|
    ensures var n := Published(events, c);
            Play(out, Abstract([], []), events).value.caches[c] == Cache(n, Runtime.Published(out, c, n))
  {
    var front, last := events[..|events| - 1], events[|events| - 1];
    var b := Play(out, Abstract([], []), front).value;
    if c < |b.caches| {
      CacheIsNewest(out, front, c);
    } else {
      NothingBeforeRegistration(out, front, c);
    }
  }

  lemma {:induction false} NothingBeforeRegistration(out: Outputs, events: seq<Event>, c: nat)
    requires Play(out, Abstract([], []), events).Some?
    requires c >= |Play(out, Abstract([], []), events).value.caches|
    ensures Published(events, c) == 0
  {
    if events != [] {
      NothingBeforeRegistration(out, events[..|events| - 1], c);
    }
  }
}
