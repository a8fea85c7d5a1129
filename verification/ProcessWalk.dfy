/**
 The walk over processes and their tasks (`collect_process`, crates/linux-metrics/src/process.rs) against a
 flat list of whom it reports on.
 */
module ProcessWalk {
  import opened Integers
  import opened Framework
  import opened Samples
  import opened ProcessMetrics

  /** One reported row: a process, or a task of one. */
  datatype Visit = Visit(p: Process, thread: bool)

  predicate Readable(p: Process) {
    p.io.Some? || p.status.Some? || p.stat.Some?
  }

  predicate HasRow(filter: ProcessFilter, p: Process) {
    filter.Admits(p) && Readable(p)
  }

  /** The tasks of a leader that have a row: those that are not the leader itself. */
  function TaskVisits(filter: ProcessFilter, leader: i32, listed: seq<Process>): seq<Visit> {
    if listed == [] then []
    else
      var t := listed[|listed| - 1];
      TaskVisits(filter, leader, listed[..|listed| - 1])
      + if t.pid != leader && HasRow(filter, t) then [Visit(t, true)] else []
  }

  function LeaderVisits(filter: ProcessFilter, p: Process): seq<Visit> {
    if !filter.Admits(p) then []
    else
      (if Readable(p) then [Visit(p, false)] else [])
      + if filter.thread && p.taskDir.Some? then TaskVisits(filter, p.pid, p.taskDir.value) else []
  }

  function Visits(filter: ProcessFilter, processes: seq<Process>): seq<Visit> {
    if processes == [] then []
    else
      var last := |processes| - 1;
      Visits(filter, processes[..last]) + LeaderVisits(filter, processes[last])
  }

  predicate AllNamed(visits: seq<Visit>) {
    forall i :: 0 <= i < |visits| ==> visits[i].p.comm.Some?
  }

  /** One group for each visit, in order. */
  function Groups(host: KeyValue, visits: seq<Visit>): (groups: Snapshot)
    requires AllNamed(visits)
    ensures |groups| == |visits|
    ensures forall i :: 0 <= i < |visits| ==>
              groups[i] == SampleGroup(Attrs(host, visits[i].p, visits[i].thread),
                                       Values(MetricsOf(visits[i].p), Numbers(visits[i].p)))
  {
    seq(|visits|, i requires 0 <= i < |visits| =>
      SampleGroup(Attrs(host, visits[i].p, visits[i].thread), Values(MetricsOf(visits[i].p), Numbers(visits[i].p))))
  }

  /** Exactly the tasks that are listed, are not the leader, and have a row. */
  lemma {:induction false} TaskVisitsIff(filter: ProcessFilter, leader: i32, listed: seq<Process>, v: Visit)
    ensures v in TaskVisits(filter, leader, listed)
        <==> v.thread && v.p in listed && v.p.pid != leader && HasRow(filter, v.p)
  {
    if listed != [] {
      TaskVisitsIff(filter, leader, listed[..|listed| - 1], v);
      assert listed == listed[..|listed| - 1] + [listed[|listed| - 1]];
    }
  }

  /** What the walk is for: these leaders, and these tasks of these leaders. */
  predicate Wanted(filter: ProcessFilter, p: Process, v: Visit) {
    && filter.Admits(p)
    && if v.thread then
         filter.thread && p.taskDir.Some? && v.p in p.taskDir.value && v.p.pid != p.pid && HasRow(filter, v.p)
       else
         v.p == p && Readable(p)
  }

  /**
   Exactly the admitted leaders that could be read and, with threads, the admitted readable tasks of
   admitted leaders: a leader that is not admitted hides all its tasks, one that cannot be read does not.
   */
  lemma {:induction false} VisitsIff(filter: ProcessFilter, processes: seq<Process>, v: Visit)
    ensures v in Visits(filter, processes) <==> exists p <- processes :: Wanted(filter, p, v)
  {
    if processes != [] {
      var front, last := processes[..|processes| - 1], processes[|processes| - 1];
      VisitsIff(filter, front, v);
      LeaderVisitsIff(filter, last, v);
      assert processes == front + [last];
    }
  }

  lemma LeaderVisitsIff(filter: ProcessFilter, p: Process, v: Visit)
    ensures v in LeaderVisits(filter, p) <==> Wanted(filter, p, v)
  {
    if p.taskDir.Some? {
      TaskVisitsIff(filter, p.pid, p.taskDir.value, v);
    }
  }

  lemma GroupsConcat(host: KeyValue, a: seq<Visit>, b: seq<Visit>)
    requires AllNamed(a) && AllNamed(b)
    ensures AllNamed(a + b) && Groups(host, a + b) == Groups(host, a) + Groups(host, b)
  {
  }

  lemma {:induction false} TaskRowsAreFlat(host: KeyValue, filter: ProcessFilter, leader: i32, listed: seq<Process>)
    ensures AllNamed(TaskVisits(filter, leader, listed))
    ensures Flat(TaskRow(host, filter), WithoutLeader(leader, listed))
         == Groups(host, TaskVisits(filter, leader, listed))
  {
    if listed != [] {
      var front, t := listed[..|listed| - 1], listed[|listed| - 1];
      TaskRowsAreFlat(host, filter, leader, front);
      var before := WithoutLeader(leader, front);
      if t.pid == leader {
        assert WithoutLeader(leader, listed) == before;
      } else {
        FlatSnoc(TaskRow(host, filter), before + [t], |before|);
        assert (before + [t])[..|before|] == before && (before + [t])[..|before| + 1] == before + [t];
        var own := if HasRow(filter, t) then [Visit(t, true)] else [];
        assert Row(host, filter, t, true) == Groups(host, own);
        GroupsConcat(host, TaskVisits(filter, leader, front), own);
      }
    }
  }

  lemma ProcessRowsAreFlat(host: KeyValue, filter: ProcessFilter, p: Process)
    ensures AllNamed(LeaderVisits(filter, p))
    ensures ProcessRows(host, filter, p) == Groups(host, LeaderVisits(filter, p))
  {
    if filter.Admits(p) {
      var own := if Readable(p) then [Visit(p, false)] else [];
      assert Row(host, filter, p, false) == Groups(host, own);
      if filter.thread && p.taskDir.Some? {
        TaskRowsAreFlat(host, filter, p.pid, p.taskDir.value);
        GroupsConcat(host, own, TaskVisits(filter, p.pid, p.taskDir.value));
      }
    }
  }

  /** The recursive walk appends one group for each visit of the flat list, in its order, and nothing else. */
  lemma {:induction false} WalkIsFlat(host: KeyValue, filter: ProcessFilter, processes: seq<Process>)
    ensures AllNamed(Visits(filter, processes))
    ensures Rows(host, filter, processes, false) == Groups(host, Visits(filter, processes))
  {
    if processes != [] {
      var last := |processes| - 1;
      WalkIsFlat(host, filter, processes[..last]);
      RowsSnoc(host, filter, processes, last, false);
      assert processes[..last + 1] == processes;
      ProcessRowsAreFlat(host, filter, processes[last]);
      GroupsConcat(host, Visits(filter, processes[..last]), LeaderVisits(filter, processes[last]));
    }
  }
}
