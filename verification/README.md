# A verified model of the host metrics agent

The program samples `/proc` once per interval, keeps the newest snapshot of each collector in a cache behind a
reader-writer lock, and lets OpenTelemetry instrument callbacks read those caches whenever an export runs.
This project models three layers of it and proves them together:

* **the runtime** (`crates/metrics-framework`): one sampling thread per collector, any number of callbacks, and
  the owner that adds collectors and shuts down. `Framework.dfy` has the sequential code as classes and methods.
  `Runtime.dfy` has the threads as a transition system whose single steps are: reading the stop flag, clearing
  scratch, each append of `collect`, taking the write lock, the swap, releasing, sleeping; taking a read lock,
  each value of a scan, releasing; each flag and each join of `shutdown`. Every interleaving is a run.
* **the parsers** (`crates/procfs`) over bytes: `StatFile`, `StatusFile`, `DiskStats`, `NetDev`, `CpuStat`,
  `MemInfoFile`, on the tokeniser and line laws of `Text` and `KeyedLines`. The repository has no printer; each
  file has one here, for the layout of the kernel with arbitrary spacing, names, widths and foreign lines, so
  that "parse undoes print" can be stated.
* **the collectors** (`crates/linux-metrics`), which filter, convert units and push values under names that must
  agree with the table of items: `Names`, `NameScheme`, `Descriptions`, `Samples`, `DiskMetrics`, `NetMetrics`,
  `CpuMetrics`, `MemMetrics`, `ProcessMetrics`, `ProcessWalk`, `Host`, `Switches`.

`DiskText`, `NetText`, `CpuText`, `MemText`, `ProcessText` and `HostText` join parsers and collectors; `EndToEnd`
joins them to the threads.

The main results, from the bottom up:

1. Every parser reads a printed file back, whatever the spacing, noise lines, short or long layouts and process
   names; table parsers are homomorphisms over lines; `parse_status` and `parse_meminfo` are the last well-formed
   value under the text of each key, whatever the file contains (`*RoundTrip`, `ReadingByText`, `LinesCommute`,
   `Text.TokensIff`).
2. For every content of the files, well-formed or not, what each instrument is told is, line by line, the column
   or key of its metric in its unit (`HostText.TextToObservation`); a unit conversion is exact, and free memory
   stays below total memory, under conditions that are exact themselves (`DiskText.ReportIsExact`,
   `MemText.OrderHoldsIff`, `MemText.OrderIsKeptIff`).
3. Nothing is lost or exported twice: an export reports exactly the values of the snapshot
   (`Conservation.HostExportConserves`), and no two of them belong to one series (`Uniqueness`). Turning a switch of
   the configuration off takes away exactly the items and groups of its own names and attributes (`Switches`).
4. In every interleaving a callback sees one whole published snapshot (`Runtime.SnapshotAtomicity`); the runtime
   refines a machine whose caches change and are read in one step (`Refinement.RunRefines`). A callback can run to
   its end whenever the write lock is free (`Callback.UndisturbedRead`).
5. `shutdown` can be called at any time and ends, each thread publishes at most the tick it is in, and nothing
   changes afterwards (`Shutdown`).
6. In every run, a callback of any metric was told what the file of its metric was worth in one tick
   (`EndToEnd.RunReportsText`); the callbacks of one export on one version report each value of that tick once
   (`EndToEnd.RunConserves`); and those that finish after `shutdown` returned report the last tick, each value once
   (`EndToEnd.FinalFlushConserves`).
7. In every run with a clock, the ticks of a thread start at least an interval apart (`Pacing.TicksOfRunArePaced`).

Where the code and its comments disagree, the model follows the code:

* `crates/procfs/src/meminfo.rs:48-51` says that a missing core field fails the snapshot. The loop has no
  seen-flags, so only a malformed one fails; `MemInfoFile.CommentHoldsIff` says for which files the comment holds,
  and `MemInfoFile.EmptyFileIsAccepted` is a file for which it does not.
* `crates/linux-metrics/src/disk.rs:29-31` and `src/config.rs:81` describe a list of devices, or whole disks only.
  The code excludes what a regex matches and keeps every device when there is none
  (`DiskMetrics.NoRegexKeepsAll`), so only whole disks are reported exactly when the regex drops every other listed
  device (`DiskMetrics.OnlyClassIff`).
* `crates/linux-metrics/src/disk.rs:5-6` says that times are converted from milliseconds to seconds. They are
  reported in milliseconds, under names and units that say so (`DiskText.NumberIsColumn`).
* `crates/procfs/src/process/stat.rs:1-2`, `crates/procfs/src/process/status.rs:1-2` and
  `crates/procfs/src/process.rs:61-64` say that rows of threads come from `/proc/<pid>/task/<tid>`.
  `crates/procfs/src/process/task.rs:27` makes a process of the thread id, so its files are those of `/proc/<tid>`.
* The test comment at `crates/metrics-framework/src/lib.rs:336` says scratch is drained by the swap. It holds
  what the cache held before, which is empty only at the first tick (`Framework.SampleOnce`).
* Byte products of the release build wrap around; the model has `WrappingMul` for them.

## Model

| member | source | states |
|---|---|---|
| Framework.ObserveU64 | crates/metrics-framework/src/lib.rs:255-270 | the instrument is told, after what it was told before, exactly the u64 values of this name in the cache, in order, with the attributes of their groups |
| Framework.ObserveF64 | crates/metrics-framework/src/lib.rs:272-287 | the same for f64 values |
| Framework.SelectIsFilter | crates/metrics-framework/src/lib.rs:261-269 | an observation is selected as often as it occurs if it has the name and number type, else never |
| Framework.ObservedConcat | crates/metrics-framework/src/lib.rs:260-269 | what is observed of two snapshots one after the other is what is observed of each |
| Framework.Meter.RegisterItem | crates/metrics-framework/src/lib.rs:208-253 | one more instrument, a counter or gauge as the kind says, with the item's name, unit and description, the callback of the kind's number type and this cache; the others stay |
| Framework.Meter.Export | crates/metrics-framework/src/lib.rs:217-249 | running every registered callback once, of any number of collectors, reports in registration order what each selects from its own cache |
| Framework.ToldOfItems | crates/metrics-framework/src/lib.rs:208-253 | the instruments registered for a list of items on one cache report between them what the items select from it |
| Framework.ExportedCount | crates/metrics-framework/src/lib.rs:208-287 | with distinct names, a value is exported as often as it is in the cache if some item has its name and type, else dropped |
| Framework.ExportConserves | crates/metrics-framework/src/lib.rs:34-36 | with distinct names, an export reports every value exactly once if and only if every value has an instrument of its name and type |
| Framework.SampleOnce | crates/metrics-framework/src/lib.rs:197-206 | the cache holds the new output of `collect` alone and scratch holds what the cache held |
| Framework.RunSampler | crates/metrics-framework/src/lib.rs:153-166 | the thread ticks once for each read of the flag before the first `true`, and leaves the output of its last tick, or nothing |
| Framework.Registry.Add | crates/metrics-framework/src/lib.rs:133-174 | instruments in item order on one fresh empty cache; an entry with a clear flag if and only if there are items and the thread was granted; older entries stay |
| Framework.Registry.Shutdown | crates/metrics-framework/src/lib.rs:177-193 | every flag is set, in order, before the first join; then every handle that is left is taken and joined once, in order; a second call joins nobody and changes nothing |
| Runtime.MoveKeepsReaders | crates/metrics-framework/src/lib.rs:153-166 | no step of a sampling thread changes the progress of a running callback, the vector it reads or what is in it |
| Runtime.StepKeepsInv | crates/metrics-framework/src/lib.rs:153-206 | every step of thread, callback or owner keeps the invariant on buffers, locks, progress of scans, log and flags |
| Runtime.RunKeepsInv | crates/metrics-framework/src/lib.rs:153-206 | the invariant holds along every run |
| Runtime.SnapshotAtomicity | crates/metrics-framework/src/lib.rs:197-287 | in every interleaving a finished callback observed the in-order selection from one whole output of `collect`, or from the empty cache, and callbacks on one cache finish in version order |
| Runtime.PublicationOrder | crates/metrics-framework/src/lib.rs:147-206 | in every reachable state cache and scratch are the same two distinct vectors, exchanged once for each publication; the cache is the last published output, idle scratch the one before it; the write lock is held only from the swap to its release |
| Callback.UndisturbedRead | crates/metrics-framework/src/lib.rs:255-287 | in every reachable state in which the write lock of a cache is free, a callback on it can start and run to its end, and leaves the state as it was with the selection from the published version in the log |
| Callback.EveryVersionCanBeRead | crates/metrics-framework/src/lib.rs:133-287 | from every reachable state outside `shutdown` a collector can be added, tick any number of times, and have its newest output observed by a callback of any name and type |
| Tick.UndisturbedTick | crates/metrics-framework/src/lib.rs:157-206 | the single steps of a tick that finds the lock free can be run to the end, and together they do what `sample_once` does and touch nothing else |
| Refinement.StepRefines | crates/metrics-framework/src/lib.rs:153-287 | every step is invisible or one step of a machine with atomic publications and observations |
| Refinement.RunRefines | crates/metrics-framework/src/lib.rs:153-287 | every run, seen from outside, is a run of that machine |
| Refinement.CacheIsNewest | crates/metrics-framework/src/lib.rs:195-206 | in that machine a cache holds the output of its last publication, and its version counts them |
| Shutdown.FlaggedThreadIsBounded | crates/metrics-framework/src/lib.rs:157-164 | once flagged, a thread makes exactly `Left` more moves up to its exit in any interleaving and publishes the tick it is in and no other |
| Shutdown.JoiningIsNeverStuck | crates/metrics-framework/src/lib.rs:177-186 | while the owner joins, the owner, a thread or a callback can go on |
| Shutdown.FlagsCanBeSet | crates/metrics-framework/src/lib.rs:177-181 | whenever it is not running, `shutdown` can be called and set all flags, whatever threads and callbacks do; nothing else changes up to the first join |
| Shutdown.ShutdownCanReturn | crates/metrics-framework/src/lib.rs:176-186 | from every reachable state in which it is not running, `shutdown` can be run to its return |
| Shutdown.ShutdownTerminates | crates/metrics-framework/src/lib.rs:177-186 | from all flags set, runs without new callbacks are no longer than the work left, and one that cannot go on has reached the return |
| Shutdown.ReturnedMeansExited | crates/metrics-framework/src/lib.rs:176-186 | when `shutdown` has returned, every thread has exited and every handle is gone |
| Shutdown.FrozenAfterShutdown | crates/metrics-framework/src/lib.rs:177-193 | after `shutdown` no run of any steps changes a cache, a version or a flag |
| Shutdown.FinalFlush | src/main.rs:62-70 | a callback that ends after `shutdown` observed the last published snapshot whole, or nothing if there was none |
| Shutdown.SecondShutdownChangesNothing | crates/metrics-framework/src/lib.rs:189-193 | the steps of a second `shutdown` can all be taken at once and lead back to the same state |
| Pacing.SleepRequest | crates/metrics-framework/src/lib.rs:160-163 | the sleep fills up the interval exactly, is asked for only if the tick was shorter, and the subtraction never underflows |
| Pacing.LaterTicksKeepDistance | crates/metrics-framework/src/lib.rs:157-164 | if neighbouring ticks start an interval apart, the n-th later one starts at least n intervals later |
| Pacing.WindowBound | crates/metrics-framework/src/lib.rs:157-164 | then a window of length T holds at most T / interval + 1 tick starts |
| Pacing.RunKeepsWatch | crates/metrics-framework/src/lib.rs:157-164 | along every timed run the thread's start time, measurement and place in the loop stay consistent, and finished rounds are its ticks in order |
| Pacing.TicksOfRunArePaced | crates/metrics-framework/src/lib.rs:153-166 | in every run of all the threads with a clock, the ticks of one thread start at least an interval apart, and the window bound holds of them |
| Pacing.ExactSleepNeverDrifts | crates/metrics-framework/src/lib.rs:157-164 | with exact sleeps and ticks within the interval, the n-th tick starts exactly n intervals after the first |
| Text.TokensOfInterleave | crates/procfs/src/process/stat.rs:65-67 | however a list of tokens is spaced out, the tokeniser gives it back |
| Text.TokensAreMaximalRuns | crates/procfs/src/diskstats.rs:83-85 | every byte string is its tokens spaced out |
| Text.TokensIff | crates/procfs/src/process/status.rs:117-119 | a text has these tokens if and only if they are its maximal runs of bytes other than those with the codes 9, 10, 12, 13 and 32, in order |
| Text.WhitespaceInsensitive | crates/procfs/src/cpu.rs:58-60 | replacing a run of whitespace by another non-empty one changes no token |
| Text.LinesOfJoin | crates/procfs/src/net.rs:58-58 | splitting undoes joining lines with newlines |
| Text.TableIgnoresNoise | crates/procfs/src/diskstats.rs:82-107 | rejected lines put between any two lines of a table change nothing |
| Text.PieceChanged | crates/procfs/src/diskstats.rs:82-85 | a piece of one line anywhere in a file can be replaced without changing the table if that changes nothing for the line |
| Text.TokenRowsIgnoreSpacing | crates/procfs/src/diskstats.rs:82-85 | a run of whitespace anywhere in a file can be replaced by another that breaks no line, if rows see only the tokens of their line |
| Text.FillSlots | crates/procfs/src/diskstats.rs:103-109 | the array takes the number of each token, 0 where there is none; it fails exactly when one of the tokens it reads is no number |
| Text.ParseDecimal | crates/procfs/src/parse.rs:15-17 | a printed natural number reads back if and only if it is below 2^64 |
| Text.ParseU64Iff | crates/procfs/src/parse.rs:15-17 | the texts that read as a number are that number printed, with any zeros before it, and no others |
| Text.ParseSignedDecimal | crates/procfs/src/parse.rs:31-33 | every printed i32 reads back |
| Text.ParseI32Iff | crates/procfs/src/parse.rs:31-33 | the same of i32, with a minus sign before the zeros unless the number is positive |
| Text.TrimAroundName | crates/procfs/src/net.rs:63-63 | trimming strips the whitespace around a name, which may contain more of it, and nothing else |
| StatFile.StatIsDecidedAfterComm | crates/procfs/src/process/stat.rs:60-82 | for every command name, the text after its closing parenthesis decides; the parse succeeds exactly when 13 tokens follow and tokens 11 and 12 are u64, and gives those |
| StatFile.StatNeedsParenthesis | crates/procfs/src/process/stat.rs:61-63 | a text without `)` fails |
| StatFile.StatRoundTrip | crates/procfs/src/process/stat.rs:54-82 | a printed line reads back as fields 14 and 15, whatever bytes the command name has |
| StatFile.SpacingDoesNotMatter | crates/procfs/src/process/stat.rs:65-67 | whitespace runs after the last parenthesis can be replaced |
| StatusFile.ReadField | crates/procfs/src/process/status.rs:120-193 | one key and value update one field, or fail exactly for a malformed value of a required key |
| StatusFile.ParseStatus | crates/procfs/src/process/status.rs:103-201 | succeeds exactly when PPid, State, VmSize and VmRSS occur and none of their lines is malformed; each field is then the last well-formed value of its key |
| StatusFile.ReadingDependsOnValues | crates/procfs/src/process/status.rs:120-193 | files with the same values of each known key have the same result |
| StatusFile.LinesCommute | crates/procfs/src/process/status.rs:110-193 | neighbouring lines that do not share a known key can change places |
| StatusFile.OtherLinesAreIgnored | crates/procfs/src/process/status.rs:111-119 | a line without a colon or with an unknown key can be put in anywhere |
| StatusFile.KeysAreExact | crates/procfs/src/process/status.rs:120-193 | each arm of the match takes one text and no other |
| StatusFile.StatusRoundTrip | crates/procfs/src/process/status.rs:103-201 | a file that prints each field once under its own text, in any order and spacing and with lines of no known key between, reads back as the status |
| StatusFile.KernelLayoutIsRead | crates/procfs/src/process/status.rs:110-119 | in the layout of the kernel, text, colon, tab, any number of blanks, value and perhaps a note, the file reads back as the status |
| StatusFile.ReadingByText | crates/procfs/src/process/status.rs:94-201 | for any content: the parse succeeds if and only if there is a line of each of the four required texts and none of these is malformed; each field is then the last well-formed value under its own text |
| StatusFile.LastStateIsFirstByte | crates/procfs/src/process/status.rs:125-133 | the state is the first byte of its last value, whatever follows |
| KeyedLines.LastU64IsLast | crates/procfs/src/process/status.rs:142-191 | the value of an optional key is its last u64, or 0 if it has none |
| KeyedLines.ValuesOfPrinted | crates/procfs/src/process/status.rs:110-120 | in a file that prints every key once, in any order and spacing and among other lines, each key has exactly the value printed for it |
| DiskStats.ParseDiskstats | crates/procfs/src/diskstats.rs:75-134 | the devices are those of the accepted lines, in order |
| DiskStats.NoiseIff | crates/procfs/src/diskstats.rs:82-109 | a line gives no device if and only if it has fewer than three tokens, one of the first two is no number, or one of its 17 counters is none |
| DiskStats.DiskstatsRoundTrip | crates/procfs/src/diskstats.rs:75-134 | any printed table, short and long layouts and noise mixed, reads back: the first 17 counters, 0 for missing ones, columns past the 17th ignored even if malformed |
| DiskStats.RecordsRoundTrip | crates/procfs/src/diskstats.rs:103-130 | a table printed from records in column order reads back as the records, every column in its field |
| DiskStats.Concatenation | crates/procfs/src/diskstats.rs:82-131 | parsing two texts joined by a newline is parsing each |
| DiskStats.SpacingDoesNotMatter | crates/procfs/src/diskstats.rs:82-85 | a run of whitespace within a line, anywhere in the file, can be replaced by any other without changing a device |
| NetDev.ParseIface | crates/procfs/src/net.rs:68-139 | the sixteen columns in their fields, or nothing exactly when one of them is missing or no number |
| NetDev.ParseDev | crates/procfs/src/net.rs:51-143 | the interfaces are those of the accepted lines, in order |
| NetDev.NoiseIff | crates/procfs/src/net.rs:58-119 | a line gives no interface if and only if it has no colon, nothing before it, fewer than sixteen columns after it, or a malformed one |
| NetDev.NetDevRoundTrip | crates/procfs/src/net.rs:51-143 | interface lines among headers and malformed lines read back in order |
| NetDev.RecordsRoundTrip | crates/procfs/src/net.rs:121-139 | a table printed from records reads back as the records |
| NetDev.ColumnsAfterColon | crates/procfs/src/net.rs:59-70 | the first colon separates the trimmed name from the columns |
| NetDev.Concatenation | crates/procfs/src/net.rs:58-140 | parsing two texts joined by a newline is parsing each |
| NetDev.SpacingDoesNotMatter | crates/procfs/src/net.rs:58-70 | a run of whitespace after the first colon of a line, anywhere in the file, can be replaced by any other without changing an interface |
| NetDev.PaddingDoesNotMatter | crates/procfs/src/net.rs:59-63 | whitespace around the name before the colon, on any line of the file, changes nothing |
| NetDev.SpacingInNameMatters | crates/procfs/src/net.rs:59-63 | another run inside the name gives the same entry if and only if the line gives none |
| CpuStat.ParseStat | crates/procfs/src/cpu.rs:50-93 | the cpus are those of the accepted `cpu` lines, in order |
| CpuStat.NoiseIff | crates/procfs/src/cpu.rs:57-75 | a line gives no cpu if and only if it has no token, the first does not begin with `cpu`, or one of its ten times is malformed |
| CpuStat.CpuStatRoundTrip | crates/procfs/src/cpu.rs:50-93 | lines named `cpu`, or `cpu` and anything more, of any width among any other lines read back in order, missing times as 0 |
| CpuStat.RecordsRoundTrip | crates/procfs/src/cpu.rs:69-89 | a table printed from records reads back as the records |
| CpuStat.Concatenation | crates/procfs/src/cpu.rs:57-90 | parsing two texts joined by a newline is parsing each |
| CpuStat.SpacingDoesNotMatter | crates/procfs/src/cpu.rs:57-60 | the same of the cpus of `/proc/stat` |
| MemInfoFile.ParseMeminfo | crates/procfs/src/meminfo.rs:52-93 | fails exactly when a line with a required key has no u64; otherwise each field is the last u64 of its key, or 0 |
| MemInfoFile.ReadingByText | crates/procfs/src/meminfo.rs:52-93 | for any content: the parse fails if and only if a line with one of the four required texts has no number; each size is else the last number under its own text, or 0 |
| MemInfoFile.MeminfoRoundTrip | crates/procfs/src/meminfo.rs:52-93 | a file that prints the eight sizes once each under their own texts, in any order and spacing and with foreign lines between, reads back as those sizes |
| MemInfoFile.KeysAreExact | crates/procfs/src/meminfo.rs:70-90 | each arm of the match takes one text and no other |
| MemInfoFile.CommentHoldsIff | crates/procfs/src/meminfo.rs:46-51 | the documented promise is kept exactly for files with every core field, or with a malformed one |
| MemInfoFile.MissingFieldIsZero | crates/procfs/src/meminfo.rs:53-92 | where it is not kept, a missing core field is reported as 0 |
| MemInfoFile.EmptyFileIsAccepted | crates/procfs/src/meminfo.rs:52-93 | the empty file breaks the promise: all sizes 0 instead of an error |
| Names.RowsAreComplete | crates/linux-metrics/src/host.rs:31-438 | every metric name has a row in the table |
| Names.RowsAreDistinct | crates/linux-metrics/src/host.rs:31-438 | no row is there twice, or under another item type |
| Names.NamesAreDistinct | crates/linux-metrics/src/names.rs:6-66 | no two metrics share a name |
| NameScheme.PrefixTellsFamily | crates/linux-metrics/src/names.rs:6-66 | a name begins as those of one item type (`iface_`, `disk_`, `process_`, `cpu_`, `loadavg_`, `uptime`, or `mem_`, `swap_` and `huge_pages_`), and that is the item type of its row |
| NameScheme.SuffixTellsKind | crates/metrics-framework/src/lib.rs:208-253 | what is registered for an item of the table is a counter if and only if its name ends in `_total`, with the unit and description of the item |
| DiskMetrics.CollectDiskDevices | crates/linux-metrics/src/disk.rs:46-115 | after an unchanged prefix, one group for each device the filter keeps, in order, with the 17 values of the table |
| NetMetrics.CollectNetDevices | crates/linux-metrics/src/net.rs:26-53 | the same for interfaces |
| CpuMetrics.CollectCpuTimes | crates/linux-metrics/src/cpu.rs:40-77 | the aggregate always and cores if wanted, each with one group per mode |
| MemMetrics.CollectMemValues | crates/linux-metrics/src/mem.rs:28-59 | one group with the seven sizes in bytes |
| ProcessMetrics.CollectIoMetrics | crates/linux-metrics/src/process.rs:101-116 | the seven I/O counters after the values the group had |
| ProcessMetrics.CollectStatusMetrics | crates/linux-metrics/src/process.rs:127-163 | the ten status values after the values the group had |
| ProcessMetrics.CollectCpuTimeMetrics | crates/linux-metrics/src/process.rs:174-184 | the two times in seconds after the values the group had |
| ProcessMetrics.CollectProcess | crates/linux-metrics/src/process.rs:26-99 | the recursive walk ends and appends, after an unchanged prefix, the rows of each process directly followed by those of its tasks |
| ProcessWalk.WalkIsFlat | crates/linux-metrics/src/process.rs:26-99 | those rows are one group for each visit of a flat list, in order, and nothing else |
| ProcessWalk.VisitsIff | crates/linux-metrics/src/process.rs:33-97 | the visits are exactly the admitted readable leaders and, with threads, the admitted readable tasks of admitted leaders: a rejected leader hides its tasks, an unreadable one does not |
| ProcessWalk.TaskVisitsIff | crates/procfs/src/process/task.rs:6-32 | the tasks are those listed except the leader itself |
| Host.HostCollector.EnabledRows | crates/linux-metrics/src/host.rs:492-508 | the items are the rows of the enabled item types, in table order |
| Switches.WantedIff | crates/linux-metrics/src/host.rs:497-505 | a metric is collected if and only if no switch that is for the prefix of its name is off |
| Switches.SwitchTakesItems | crates/linux-metrics/src/host.rs:492-508 | whatever the other switches: turning one off takes from the items exactly those whose names have its prefix |
| Switches.AllOnIsWholeTable | crates/linux-metrics/src/host.rs:492-508 | with all switches on, the items are the whole table in order |
| Host.HostCollector.Collect | crates/linux-metrics/src/host.rs:510-542 | after an unchanged prefix, the sections of the enabled sources that can be read, in order |
| Switches.SwitchTakesGroups | crates/linux-metrics/src/host.rs:510-542 | whatever the other switches and the files: turning one off takes from a snapshot exactly the groups with the attribute `iface`, `device`, `mode` or `pid`, or with values of memory |
| Host.CollectLoadavgMetrics | crates/linux-metrics/src/host.rs:546-557 | one group with the five load values of the table |
| Conservation.TableHasDistinctNames | crates/linux-metrics/src/host.rs:31-438 | the items of every configuration have pairwise distinct names |
| Conservation.SectionRegistered | crates/linux-metrics/src/host.rs:510-542 | every value a source pushes carries the name of a row of its item type and the number type of that row's kind |
| Conservation.HostExportConserves | crates/linux-metrics/src/host.rs:492-542 | for every configuration and every content of `/proc`, an export over a snapshot reports exactly its values with their attributes, each once |
| Conservation.RegisterSampleExport | crates/metrics-framework/src/lib.rs:133-287 | the same of the methods one after the other, items, `add`, a tick, an export, on a meter with any other instruments: what those report comes first, unchanged |
| Uniqueness.SnapshotHasUniqueSeries | crates/linux-metrics/src/host.rs:510-557 | if the kernel lists nothing twice, no two values of a snapshot have the same name and the same attribute set |
| Uniqueness.ProcessesUnique | crates/linux-metrics/src/process.rs:26-99 | with distinct process and thread ids the walk repeats no series, a process and a thread of the same id included |
| Uniqueness.CpuUnique | crates/linux-metrics/src/cpu.rs:46-76 | with distinct cpu names no two (cpu, mode) groups have the same attributes |
| Uniqueness.CallbackHasNoDuplicates | crates/metrics-framework/src/lib.rs:255-287 | no callback observes one attribute set twice in an export |
| DiskMetrics.NoRegexKeepsAll | crates/linux-metrics/src/disk.rs:50-55 | without a regex every parsed device has its group, in order |
| DiskMetrics.OnlyClassIff | crates/linux-metrics/src/disk.rs:27-55 | only devices of a class are reported if and only if the filter drops every listed device outside it |
| DiskText.NumberIsColumn | crates/linux-metrics/src/disk.rs:59-113 | each disk metric is the counter of its column, sectors times 512, times in milliseconds as they are |
| DiskText.ReportIsExact | crates/linux-metrics/src/disk.rs:59-113 | what a line reports is exact if and only if the counter times its unit fits 64 bits |
| DiskText.TextToObservation | crates/linux-metrics/src/disk.rs:46-115 | from any content of diskstats: each disk instrument is told, line by line, of every device the filter keeps, the counter of its column in its unit |
| NetText.TextToObservation | crates/linux-metrics/src/net.rs:26-53 | from any content of net/dev: each interface instrument is told its column of every line that is an interface the filter keeps |
| CpuText.TextToObservation | crates/linux-metrics/src/cpu.rs:40-77 | from any content of stat: ten modes in seconds of the aggregate, and of each core if wanted |
| MemText.TextToObservation | crates/linux-metrics/src/mem.rs:16-59 | from any content of meminfo: nothing if it does not parse, else 1024 times the last value of the key, or pages times page size, modulo 2^64 |
| MemText.OrderHoldsIff | crates/linux-metrics/src/mem.rs:30-57 | for any file, a free size is reported at most as large as its total if and only if it is so in KiB modulo 2^54, huge pages included |
| MemText.OrderIsKeptIff | crates/linux-metrics/src/mem.rs:30-57 | a total is reported above every part of it if and only if it is below 2^54 KiB or 2^54 - 1 modulo 2^54 |
| MemText.ReportOutOfOrder | crates/linux-metrics/src/mem.rs:30-37 | a file with 18014398509481984 kB in total and 1 kB free parses, and is reported as 0 bytes in total and 1024 free |
| ProcessText.RowObserved | crates/linux-metrics/src/process.rs:45-90 | the callback of a process metric sees one value of a row if the file it comes from was read, else none |
| ProcessText.NumberIsValue | crates/linux-metrics/src/process.rs:101-184 | from any text: a status metric is the last value of its key in its unit, shared memory the saturating sum of two keys, a time the ticks of its field in seconds; and a row has it exactly if its file was read and parsed |
| ProcessText.IoWritten | crates/linux-metrics/src/process.rs:101-116 | the seven I/O counters under their names |
| ProcessText.StatusWritten | crates/linux-metrics/src/process.rs:127-163 | the ten status values under their names, sizes times 1024 |
| ProcessText.TimesWritten | crates/linux-metrics/src/process.rs:174-184 | the two times under their names, in hundredths of a second |
| ProcessText.StatusBytesExact | crates/linux-metrics/src/process.rs:127-151 | a memory size of a process is exact, the saturating sum included, if and only if it fits 64 bits |
| ProcessText.StatTextToObservation | crates/linux-metrics/src/process.rs:174-184 | from a stat text with any command name: fields 14 and 15 in seconds |
| ProcessText.TextToObservation | crates/linux-metrics/src/process.rs:26-99 | whatever the files of processes and tasks contain and whichever can be read: each process instrument is told the values of the admitted ones, each leader directly followed by its tasks |
| HostText.HostObservesSection | crates/linux-metrics/src/host.rs:510-542 | over a whole host snapshot the callback of a metric sees what it sees of the section of its item type |
| HostText.LoadavgWritten | crates/linux-metrics/src/host.rs:546-557 | the five load values under their names |
| HostText.TextToObservation | crates/linux-metrics/src/host.rs:510-557 | for every configuration and every content of all the files, readable or not: over the snapshot of one pass the callback of any metric is told exactly what its one file is worth to it |
| EndToEnd.RunConserves | crates/metrics-framework/src/lib.rs:153-287 | in every interleaving, callbacks of one export that found the same version report between them each value of that tick exactly once, or nothing of the empty version |
| EndToEnd.RunHasNoDuplicates | crates/metrics-framework/src/lib.rs:255-287 | in every interleaving no finished callback observed one attribute set twice |
| EndToEnd.FinalFlushConserves | src/main.rs:62-70 | in every run, one callback per enabled item, each finished after `shutdown` returned, report between them each value of the collector's last tick exactly once, or nothing if it never ticked |
| EndToEnd.RunReportsText | crates/metrics-framework/src/lib.rs:153-287 | in every interleaving, whatever the files contained in each tick, a finished callback of any metric was told what its file was worth in one tick, and nothing of any other |

## Left out

- Reading files and listing directories, host name, clock and threads of the operating system: each file is an input that was read or not, an instant is a number, a thread is a program counter.
- `String::from_utf8_lossy`: names are kept as their bytes; names that are not UTF-8 are converted by the program and two of them could become equal.
- `RegexSet`: the process and disk filters are arbitrary predicates on names.
- The `lexical` crate: numbers are plain decimals with an optional minus sign for i32, as `Text.ParseU64Iff` and `Text.ParseI32Iff` say; nothing is claimed about other spellings that the crate may accept, such as a leading `+`.
- `f64`: values are real numbers without rounding; the parsers of `/proc/loadavg` and `/proc/uptime` are not modelled, their results are inputs.
- `crates/procfs/src/process/io.rs`, `crates/procfs/src/process/util.rs`, configuration, logging, CPU affinity, the collector list and `main`: easy members without a new property; `Io` is an arbitrary record.
- The OpenTelemetry SDK, export and tokio: an export is that every registered callback runs.
- Builds with overflow checks: they stop at a product that does not fit, where the model wraps around as the release build does.
- Fairness of the lock: `Shutdown.ShutdownTerminates` is for runs in which no new callback starts; a stream of new callbacks could keep a writer waiting. Each thread's own moves are bounded without that assumption by `Shutdown.FlaggedThreadIsBounded`.
- Runtime.SnapshotAtomicity: speaks of one callback; different callbacks of one export take their own guards and may find different versions.
- A collector that is skipped for having no items, or whose thread is not granted, is in `Framework.Registry.Add` but adds no thread in `Runtime`.
- Text.FillSlots: the slot loop that two parsers share is one method; likewise NetDev.ParseIface, StatusFile.ReadField and the pushes and loop bodies of the collectors are methods of their own where the source has one function.
- A group under construction is a value that is passed in and returned where the source borrows it mutably; only `out`, caches, instruments and registry entries are objects.
- Pacing.TicksOfRunArePaced: assumes that the clock never goes back and a sleep lasts at least as long as requested (`Pacing.Timed`).
