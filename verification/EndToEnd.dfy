/**
 The whole program: the host collector under the threads of the runtime.  What instruments are told, in any
 interleaving, in terms of what the files under `/proc` contained in one tick.
 */
module EndToEnd {
  import opened Framework
  import opened Names
  import opened Samples
  import opened Host
  import opened Runtime
  import Conservation
  import HostText
  import Shutdown
  import Uniqueness

  /** Collector c of a run is a host collector, and its n-th tick finds `proc(n)`. */
  ghost predicate IsHost(out: Outputs, c: nat, cfg: HostCollectorCfg, host: KeyValue, proc: nat -> ProcFs) {
    forall n: nat :: out(c, n) == HostSnapshot(cfg, host, proc(n))
  }

  /** The log of a run. */
  function LogOf(out: Outputs, steps: seq<Action>): seq<Export>
    requires Run(out, Init(), steps).Some?
  {
    Run(out, Init(), steps).value.log
  }

  // ------------------------------------------------------------------ one export

  /** All that the callbacks with these places in the log observed. */
  function Gathered(log: seq<Export>, places: seq<nat>): seq<Observation>
    requires forall k :: 0 <= k < |places| ==> places[k] < |log|
  {
    if places == [] then []
    else Gathered(log, places[..|places| - 1]) + log[places[|places| - 1]].seen
  }

  /** The places of one export of a collector in the log: one finished callback for each item. */
  predicate OneExport(log: seq<Export>, places: seq<nat>, items: seq<MetricItem>, c: nat) {
    && |places| == |items|
    && forall k :: 0 <= k < |places| ==>
         && places[k] < |log| && log[places[k]].c == c
         && log[places[k]].name == items[k].name && log[places[k]].ty == ValueType(items[k].kind)
  }

  /** All of them found this version. */
  predicate OnVersion(log: seq<Export>, places: seq<nat>, version: nat) {
    forall p <- places :: p < |log| && log[p].version == version
  }

  lemma {:induction false} GatheredIsExported(
    out: Outputs, steps: seq<Action>, places: seq<nat>, items: seq<MetricItem>, c: nat, version: nat)
    requires Run(out, Init(), steps).Some?
    requires OneExport(LogOf(out, steps), places, items, c) && OnVersion(LogOf(out, steps), places, version)
    ensures Gathered(LogOf(out, steps), places) == Exported(items, All(Published(out, c, version)))
  {
    if places != [] {
      var n := |places| - 1;
      assert places[n] in places;
      GatheredIsExported(out, steps, places[..n], items[..n], c, version);
      SnapshotAtomicity(out, steps, places[n]);
    }
  }

  lemma {:induction false} NothingExported(items: seq<MetricItem>)
    ensures Exported(items, All([])) == []
  {
    if items != [] {
      NothingExported(items[..|items| - 1]);
    }
  }

  /** What a version of a host collector contains. */
  function Sampled(cfg: HostCollectorCfg, host: KeyValue, proc: nat -> ProcFs, version: nat): seq<Observation> {
    if version == 0 then [] else All(HostSnapshot(cfg, host, proc(version - 1)))
  }

  /**
   In every interleaving, the callbacks of one export that all found the same published version of a host
   collector report between them each value of that tick exactly once, whatever the configuration.
   */
  lemma RunConserves(
    out: Outputs, steps: seq<Action>, places: seq<nat>, c: nat, version: nat,
    cfg: HostCollectorCfg, host: KeyValue, proc: nat -> ProcFs)
    requires Run(out, Init(), steps).Some? && IsHost(out, c, cfg, host, proc)
    requires OneExport(LogOf(out, steps), places, EnabledItems(cfg, Items()), c)
    requires OnVersion(LogOf(out, steps), places, version)
    ensures multiset(Gathered(LogOf(out, steps), places)) == multiset(Sampled(cfg, host, proc, version))
  {
    GatheredIsExported(out, steps, places, EnabledItems(cfg, Items()), c, version);
    if version == 0 {
      NothingExported(EnabledItems(cfg, Items()));
    } else {
      Conservation.HostExportConserves(cfg, host, proc(version - 1));
    }
  }

  /** All of them finished when the log was this long. */
  predicate After(places: seq<nat>, length: nat) {
    forall p <- places :: p >= length
  }

  lemma FlushFindsLastVersion(
    out: Outputs, s: System, rest: seq<Action>, places: seq<nat>, items: seq<MetricItem>, c: nat)
    requires Inv(out, s) && s.owner == Returned && c < |s.samplers| && Run(out, s, rest).Some?
    requires var log := Run(out, s, rest).value.log; OneExport(log, places, items, c) && After(places, |s.log|)
    ensures OnVersion(Run(out, s, rest).value.log, places, s.samplers[c].version)
  {
    var log := Run(out, s, rest).value.log;
    forall p | p in places
      ensures p < |log| && log[p].version == s.samplers[c].version
    {
      var k :| 0 <= k < |places| && places[k] == p;
      Shutdown.FinalFlush(out, s, rest, p);
    }
  }

  /**
   The final flush.  A run reaches the return of `shutdown` and goes on in any way: one callback for each item
   of a host collector, all of them finished after the return, report between them each value of the collector's
   last tick exactly once, or nothing if it never ticked.
   */
  lemma FinalFlushConserves(
    out: Outputs, first: seq<Action>, rest: seq<Action>, places: seq<nat>, c: nat,
    cfg: HostCollectorCfg, host: KeyValue, proc: nat -> ProcFs)
    requires Run(out, Init(), first).Some? && Run(out, Init(), first + rest).Some?
    requires var s := Run(out, Init(), first).value; s.owner == Returned && c < |s.samplers|
    requires IsHost(out, c, cfg, host, proc)
    requires OneExport(LogOf(out, first + rest), places, EnabledItems(cfg, Items()), c)
    requires After(places, |LogOf(out, first)|)
    ensures var x := Run(out, Init(), first).value.samplers[c];
            && x.calls == x.version
            && multiset(Gathered(LogOf(out, first + rest), places)) == multiset(Sampled(cfg, host, proc, x.calls))
  {
    var s := Run(out, Init(), first).value;
    ReachableInv(out, first);
    Shutdown.ReturnedMeansExited(out, s, c);
    assert SamplerInv(out, c, s.samplers[c]);
    Shutdown.RunConcat(out, Init(), first, rest);
    FlushFindsLastVersion(out, s, rest, places, EnabledItems(cfg, Items()), c);
    RunConserves(out, first + rest, places, c, s.samplers[c].version, cfg, host, proc);
  }

  // ------------------------------------------------------------------ one callback

  /** In every interleaving no finished callback observed one attribute set twice. */
  lemma RunHasNoDuplicates(
    out: Outputs, steps: seq<Action>, i: nat, cfg: HostCollectorCfg, host: KeyValue, proc: nat -> ProcFs)
    requires Run(out, Init(), steps).Some? && i < |LogOf(out, steps)|
    requires IsHost(out, LogOf(out, steps)[i].c, cfg, host, proc) && host.key == "host"
    requires forall n: nat :: Uniqueness.DistinctEntities(proc(n))
    ensures var seen := LogOf(out, steps)[i].seen;
            forall j, k :: 0 <= j < k < |seen| ==> Uniqueness.AttrSet(seen[j].attrs) != Uniqueness.AttrSet(seen[k].attrs)
  {
    var e := LogOf(out, steps)[i];
    SnapshotAtomicity(out, steps, i);
    if e.version > 0 {
      Uniqueness.CallbackHasNoDuplicates(cfg, host, proc(e.version - 1), e.name, e.ty);
    }
  }

  /** What the collector makes of the files of each tick. */
  function ParsedAt(text: nat -> HostText.ProcText): nat -> ProcFs {
    (n: nat) => HostText.Parsed(text(n))
  }

  /**
   In every interleaving, whatever the files contained in each tick and whichever of them could be read: a
   finished callback of any metric was told what the file of that metric was worth in one tick, and nothing
   of any other tick; or nothing, before the first.
   */
  lemma RunReportsText(
    out: Outputs, steps: seq<Action>, i: nat,
    cfg: HostCollectorCfg, host: KeyValue, text: nat -> HostText.ProcText, m: Metric)
    requires Run(out, Init(), steps).Some? && i < |LogOf(out, steps)|
    requires IsHost(out, LogOf(out, steps)[i].c, cfg, host, ParsedAt(text))
    requires LogOf(out, steps)[i].name == Name(m) && LogOf(out, steps)[i].ty == RowType(m)
    ensures var e := LogOf(out, steps)[i];
            e.seen == if e.version == 0 then [] else HostText.Report(cfg, host, text(e.version - 1), m)
  {
    var e := LogOf(out, steps)[i];
    SnapshotAtomicity(out, steps, i);
    if e.version > 0 {
      HostText.TextToObservation(cfg, host, text(e.version - 1), m);
    } else {
      assert All([]) == [];
    }
  }
}
