/** Block-device metrics (crates/linux-metrics/src/disk.rs). */
module DiskMetrics {
  import opened Wrappers
  import opened Integers
  import opened Framework
  import opened Names
  import opened Samples
  import opened DiskStats

  const SECTOR_SIZE: u64 := 512

  /** The filter: an exclusion regex that matches device names, or none. */
  datatype DiskFilter = DiskFilter(exclude: Option<string -> bool>) {
    predicate Keeps(name: string) {
      exclude.Some? ==> !exclude.value(name)
    }
  }

  function Attrs(host: KeyValue, name: string): seq<KeyValue> {
    [host, KeyValue("device", Str(name))]
  }

  /** What each disk metric reports of a device. */
  function NumberOf(stat: DiskStat, m: Metric): Number {
    match m
    case DiskReadBytesTotal => U64(WrappingMul(stat.sectorsRead, SECTOR_SIZE))
    case DiskReadsCompletedTotal => U64(stat.readsCompleted)
    case DiskReadsMergedTotal => U64(stat.readsMerged)
    case DiskReadTimeMsTotal => U64(stat.readMs)
    case DiskWriteBytesTotal => U64(WrappingMul(stat.sectorsWritten, SECTOR_SIZE))
    case DiskWritesCompletedTotal => U64(stat.writesCompleted)
    case DiskWritesMergedTotal => U64(stat.writesMerged)
    case DiskWriteTimeMsTotal => U64(stat.writeMs)
    case DiskIoInProgress => U64(stat.ioInProgress)
    case DiskIoTimeMsTotal => U64(stat.ioMs)
    case DiskIoTimeWeightedMsTotal => U64(stat.weightedIoMs)
    case DiskDiscardBytesTotal => U64(WrappingMul(stat.sectorsDiscarded, SECTOR_SIZE))
    case DiskDiscardsCompletedTotal => U64(stat.discardsCompleted)
    case DiskDiscardsMergedTotal => U64(stat.discardsMerged)
    case DiskDiscardTimeMsTotal => U64(stat.discardMs)
    case DiskFlushRequestsTotal => U64(stat.flushRequests)
    case DiskFlushTimeMsTotal => U64(stat.flushMs)
    case _ => U64(0)
  }

  function Numbers(stat: DiskStat): Metric -> Number {
    m => NumberOf(stat, m)
  }

  function Group(host: KeyValue, stat: DiskStat): SampleGroup {
    SampleGroup(Attrs(host, stat.name), Values(RowsOf(Disks), Numbers(stat)))
  }

  function GroupsOf(host: KeyValue, filter: DiskFilter, stat: DiskStat): Snapshot {
    if filter.Keeps(stat.name) then [Group(host, stat)] else []
  }

  function Groups(host: KeyValue, filter: DiskFilter, disks: seq<DiskStat>): Snapshot {
    Flat(d => GroupsOf(host, filter, d), disks)
  }

  /** What is pushed first, in order. */
  ghost predicate Reads(stat: DiskStat, ms: seq<Metric>, f: Metric -> Number) {
    && |ms| == 17
    && IsAt(ms, 0, f, DiskReadBytesTotal, U64(WrappingMul(stat.sectorsRead, SECTOR_SIZE)))
    && IsAt(ms, 1, f, DiskReadsCompletedTotal, U64(stat.readsCompleted))
    && IsAt(ms, 2, f, DiskReadsMergedTotal, U64(stat.readsMerged))
    && IsAt(ms, 3, f, DiskReadTimeMsTotal, U64(stat.readMs))
  }

  /** Then the same of writes. */
  ghost predicate Writes(stat: DiskStat, ms: seq<Metric>, f: Metric -> Number) {
    && |ms| == 17
    && IsAt(ms, 4, f, DiskWriteBytesTotal, U64(WrappingMul(stat.sectorsWritten, SECTOR_SIZE)))
    && IsAt(ms, 5, f, DiskWritesCompletedTotal, U64(stat.writesCompleted))
    && IsAt(ms, 6, f, DiskWritesMergedTotal, U64(stat.writesMerged))
    && IsAt(ms, 7, f, DiskWriteTimeMsTotal, U64(stat.writeMs))
  }

  /** Then operations in progress and their times. */
  ghost predicate InProgress(stat: DiskStat, ms: seq<Metric>, f: Metric -> Number) {
    && |ms| == 17
    && IsAt(ms, 8, f, DiskIoInProgress, U64(stat.ioInProgress))
    && IsAt(ms, 9, f, DiskIoTimeMsTotal, U64(stat.ioMs))
    && IsAt(ms, 10, f, DiskIoTimeWeightedMsTotal, U64(stat.weightedIoMs))
  }

  /** Then discards. */
  ghost predicate Discards(stat: DiskStat, ms: seq<Metric>, f: Metric -> Number) {
    && |ms| == 17
    && IsAt(ms, 11, f, DiskDiscardBytesTotal, U64(WrappingMul(stat.sectorsDiscarded, SECTOR_SIZE)))
    && IsAt(ms, 12, f, DiskDiscardsCompletedTotal, U64(stat.discardsCompleted))
    && IsAt(ms, 13, f, DiskDiscardsMergedTotal, U64(stat.discardsMerged))
    && IsAt(ms, 14, f, DiskDiscardTimeMsTotal, U64(stat.discardMs))
  }

  /** Then flushes. */
  ghost predicate Flushes(stat: DiskStat, ms: seq<Metric>, f: Metric -> Number) {
    && |ms| == 17
    && IsAt(ms, 15, f, DiskFlushRequestsTotal, U64(stat.flushRequests))
    && IsAt(ms, 16, f, DiskFlushTimeMsTotal, U64(stat.flushMs))
  }

  method PushReadsAndWrites(
    group: SampleGroup, stat: DiskStat, ghost base: seq<SampleValue>, ghost ms: seq<Metric>, ghost f: Metric -> Number)
    returns (grown: SampleGroup)
    requires Reads(stat, ms, f) && Writes(stat, ms, f) && Reports(group.values, base, ms, 0, f)
    ensures grown.attrs == group.attrs && Reports(grown.values, base, ms, 8, f)
  {
    grown := Push(group, base, ms, 0, 1, f, DiskReadBytesTotal, U64(WrappingMul(stat.sectorsRead, SECTOR_SIZE)));
    grown := Push(grown, base, ms, 1, 2, f, DiskReadsCompletedTotal, U64(stat.readsCompleted));
    grown := Push(grown, base, ms, 2, 3, f, DiskReadsMergedTotal, U64(stat.readsMerged));
    grown := Push(grown, base, ms, 3, 4, f, DiskReadTimeMsTotal, U64(stat.readMs));
    grown := Push(grown, base, ms, 4, 5, f, DiskWriteBytesTotal, U64(WrappingMul(stat.sectorsWritten, SECTOR_SIZE)));
    grown := Push(grown, base, ms, 5, 6, f, DiskWritesCompletedTotal, U64(stat.writesCompleted));
    grown := Push(grown, base, ms, 6, 7, f, DiskWritesMergedTotal, U64(stat.writesMerged));
    grown := Push(grown, base, ms, 7, 8, f, DiskWriteTimeMsTotal, U64(stat.writeMs));
  }

  method PushRest(
    group: SampleGroup, stat: DiskStat, ghost base: seq<SampleValue>, ghost ms: seq<Metric>, ghost f: Metric -> Number)
    returns (grown: SampleGroup)
    requires InProgress(stat, ms, f) && Discards(stat, ms, f) && Flushes(stat, ms, f)
    requires Reports(group.values, base, ms, 8, f)
    ensures grown.attrs == group.attrs && Reports(grown.values, base, ms, 17, f)
  {
    grown := Push(group, base, ms, 8, 9, f, DiskIoInProgress, U64(stat.ioInProgress));
    grown := Push(grown, base, ms, 9, 10, f, DiskIoTimeMsTotal, U64(stat.ioMs));
    grown := Push(grown, base, ms, 10, 11, f, DiskIoTimeWeightedMsTotal, U64(stat.weightedIoMs));
    grown := Push(grown, base, ms, 11, 12, f, DiskDiscardBytesTotal, U64(WrappingMul(stat.sectorsDiscarded, SECTOR_SIZE)));
    grown := Push(grown, base, ms, 12, 13, f, DiskDiscardsCompletedTotal, U64(stat.discardsCompleted));
    grown := Push(grown, base, ms, 13, 14, f, DiskDiscardsMergedTotal, U64(stat.discardsMerged));
    grown := Push(grown, base, ms, 14, 15, f, DiskDiscardTimeMsTotal, U64(stat.discardMs));
    grown := Push(grown, base, ms, 15, 16, f, DiskFlushRequestsTotal, U64(stat.flushRequests));
    grown := Push(grown, base, ms, 16, 17, f, DiskFlushTimeMsTotal, U64(stat.flushMs));
  }

  /** The group of one device, filled in the order of the source. */
  method PushAll(group: SampleGroup, stat: DiskStat, ghost ms: seq<Metric>, ghost f: Metric -> Number)
    returns (grown: SampleGroup)
    requires group.values == [] && Reads(stat, ms, f) && Writes(stat, ms, f)
    requires InProgress(stat, ms, f) && Discards(stat, ms, f) && Flushes(stat, ms, f)
    ensures grown == SampleGroup(group.attrs, Values(ms, f))
  {
    NothingReported([], ms, f);
    grown := PushReadsAndWrites(group, stat, [], ms, f);
    grown := PushRest(grown, stat, [], ms, f);
    AllReported(grown.values, [], ms, 17, f);
  }

  lemma ReadsInOrder(stat: DiskStat)
    ensures Reads(stat, RowsOf(Disks), Numbers(stat))
  {
  }

  lemma WritesInOrder(stat: DiskStat)
    ensures Writes(stat, RowsOf(Disks), Numbers(stat))
  {
  }

  lemma InProgressInOrder(stat: DiskStat)
    ensures InProgress(stat, RowsOf(Disks), Numbers(stat))
  {
  }

  lemma DiscardsInOrder(stat: DiskStat)
    ensures Discards(stat, RowsOf(Disks), Numbers(stat))
  {
  }

  lemma FlushesInOrder(stat: DiskStat)
    ensures Flushes(stat, RowsOf(Disks), Numbers(stat))
  {
  }

  method Fill(host: KeyValue, stat: DiskStat) returns (group: SampleGroup)
    ensures group == Group(host, stat)
  {
    ReadsInOrder(stat);
    WritesInOrder(stat);
    InProgressInOrder(stat);
    DiscardsInOrder(stat);
    FlushesInOrder(stat);
    group := SampleGroup([host, KeyValue("device", Str(stat.name))], []);
    group := PushAll(group, stat, RowsOf(Disks), Numbers(stat));
  }

  /** `collect_disk_devices`. */
  method CollectDiskDevices(host: KeyValue, filter: DiskFilter, disks: seq<DiskStat>, out: Buffer)
    modifies out
    ensures out.groups == old(out.groups) + Groups(host, filter, disks)
  {
    ghost var groupsOf := d => GroupsOf(host, filter, d);
    for i := 0 to |disks|
      invariant out.groups == old(out.groups) + Flat(groupsOf, disks[..i])
    {
      FlatSnoc(groupsOf, disks, i);
      var stat := disks[i];
      if filter.exclude.Some? && filter.exclude.value(stat.name) {
        continue;
      }
      var group := Fill(host, stat);
      out.Push(group);
    }
    assert disks[..|disks|] == disks;
  }

  function Read(host: KeyValue, filter: DiskFilter, disks: Option<seq<DiskStat>>): Snapshot {
    match disks case None => [] case Some(list) => Groups(host, filter, list)
  }

  /** `collect_disk_metrics`: nothing if the file cannot be read. */
  method CollectDiskMetrics(host: KeyValue, filter: DiskFilter, disks: Option<seq<DiskStat>>, out: Buffer)
    modifies out
    ensures out.groups == old(out.groups) + Read(host, filter, disks)
  {
    if disks.None? {
      return;
    }
    CollectDiskDevices(host, filter, disks.value, out);
  }

  // ------------------------------------------------------------------ which devices are reported

  /** Without a regex every device has its group, in order. */
  lemma {:induction false} NoRegexKeepsAll(host: KeyValue, filter: DiskFilter, disks: seq<DiskStat>)
    requires filter.exclude.None?
    ensures |Groups(host, filter, disks)| == |disks|
    ensures forall i :: 0 <= i < |disks| ==> Groups(host, filter, disks)[i] == Group(host, disks[i])
  {
    if disks != [] {
      NoRegexKeepsAll(host, filter, disks[..|disks| - 1]);
    }
  }

  /** A group of a device whose name is in a class, such as that of the whole disks. */
  predicate IsOfClass(host: KeyValue, wanted: string -> bool, g: SampleGroup) {
    |g.attrs| == 2 && g.attrs[1].value.Str? && wanted(g.attrs[1].value.s) && g.attrs == Attrs(host, g.attrs[1].value.s)
  }

  /**
   Only devices of a class are reported if and only if the regex drops every listed device that is not in it;
   without a regex, if and only if no other device is listed.
   */
  lemma {:induction false} OnlyClassIff(
    host: KeyValue, filter: DiskFilter, disks: seq<DiskStat>, wanted: string -> bool)
    ensures (forall g <- Groups(host, filter, disks) :: IsOfClass(host, wanted, g))
        <==> forall d <- disks :: filter.exclude.None? || !filter.exclude.value(d.name) ==> wanted(d.name)
  {
    if disks != [] {
      var n := |disks| - 1;
      OnlyClassIff(host, filter, disks[..n], wanted);
      assert disks == disks[..n] + [disks[n]];
      assert filter.Keeps(disks[n].name) ==> Group(host, disks[n]) in Groups(host, filter, disks);
    }
  }
}
