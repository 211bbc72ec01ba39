# pi — metrics and process aggregation, modelled in Dafny

`pi` is a Linux system monitor. Its engine sits between the kernel's text
files under `/proc` and `/sys` and the GUI. This project models that engine
and proves properties of the model:

- `Series`, the fixed-capacity history ring buffer (`HISTORY` = 3601 slots).
  It is a class over an array. `push` is proved to drop the oldest value and
  append the new one. `iter` is the rotation of the buffer, oldest first.
  `chunks` tiles that rotation.
- The window moving average and the forward-only `Key: value` extractor
  (`TextualKeyValue::extract_from`).
- The kernel text parsers:
  - the CPU lines of `/proc/stat`, `/proc/meminfo` and `/proc/diskstats`;
  - the sysfs attribute files, and the max-temperature folds;
  - the snapshot `retire` projection.

  `crates/ingest/src/snapshot.rs` and `crates/sysinfo/src/snapshot.rs` hold
  the same parsers. They are modelled once, in module `Snapshot`, and the
  table cites the ingest copy:
  - the sysinfo `CpuStat` parser is at lines 251-275;
  - `MemInfo` is at lines 180-212;
  - `DiskStats` is at lines 143-170;
  - the CPU line selection is at lines 59-65;
  - `retire` is at lines 37-43;
  - the temperature folds are at lines 73-79 and 104-110.

  The only sysinfo-specific part is the 8196-byte read bound (`SysReadFile`).
- The delta and reconciliation engine of `crates/ingest/src/system.rs`:
  - CPU busy fractions, with the zero-denominator guard;
  - resizing of the per-CPU vector, and sum-of-latest totals;
  - memory figures;
  - the keyed map merge `intersect_old_new` behind partitions and network
    interfaces;
  - the GPU reconciliation.
- The per-process reader `crates/procinfo`:
  - the `/proc/<pid>` readers with their errno policy (`procfs.rs`). The
    stat reader is modelled both as written and with corrected field
    positions (see Findings); the ingestion uses the corrected one;
  - the per-thread counters carried across ticks with saturating differences
    (`ingest.rs`);
  - the aggregation `ProcInfo::update` (`info.rs`). It turns threads into
    processes, runs of equal session id into sessions, and sessions into the
    two login-session buckets, summing `ProcStat` bottom-up.

Every file read, directory listing and `pread` result is an input:
- `ProcFs` is an oracle from paths to open/read outcomes and directory listings.
- `SnapshotFiles` holds the texts of the snapshot files.
- `/etc/passwd` and `/etc/group` are passed as text.

A Rust panic (`unwrap`, `expect`, `assert!`, `unreachable!`, an out-of-range
slice) is the `Panic` case of a `Result` datatype. Each loop of the source is
a method. The method is proved equal to a reference function, and the
properties are proved about that function. Where a loop body calls another
operation, the loop method takes that step as a function value, so that its
proof does not unfold the step.

Modules:
- `Base`: Option, Result, sorted map keys, saturating arithmetic.
- `Text`: Rust string helpers (`lines`, `split`, `split_ascii_whitespace`,
  `trim`, integer `parse`).
- `Util`
- `Series`
- `Snapshot`
- `System`
- `Procfs`
- `ProcIngest`
- `ProcInfo`

## Model

| member | source | states |
|---|---|---|
| Base.SortedKeys | crates/procinfo/src/info.rs:94-96 | the keys of a map, each exactly once, strictly ascending (BTreeMap iteration order) |
| Base.MinKey | crates/procinfo/src/info.rs:111 | `first_key_value` of a non-empty map: a key of the map no larger than any other key |
| Base.SaturatingSub | crates/procinfo/src/ingest.rs:142-157 | `saturating_sub`: the exact difference when it is non-negative, 0 otherwise |
| Base.Truncate | crates/procinfo/src/ingest.rs:149-157 | an `as u32` cast: below the limit, and the identity on values already below it |
| Text.SplitOnJoin | crates/procinfo/src/info.rs:211 | `split(c)` undoes joining words that do not contain `c` |
| Text.LinesJoin | crates/ingest/src/snapshot.rs:63-64 | `lines()` undoes joining newline-free lines with `\n` |
| Text.SplitAsciiWhitespaceJoin | crates/ingest/src/snapshot.rs:159 | `split_ascii_whitespace` undoes joining non-empty, space-free words with single spaces |
| Text.ParseDecimal | crates/ingest/src/snapshot.rs:161-162 | `parse` (an optional `+`, then decimal digits that fit the type) of the decimal rendering of a number below the type's limit gives the number back |
| Text.ReplaceChar | crates/procinfo/src/procfs.rs:22 | `replace('\0', " ")` keeps the length and replaces exactly the NUL characters |
| Text.TrimPadded | crates/ingest/src/snapshot.rs:205 | `trim` removes the padding around a word |
| Util.HistoryValue | crates/util/src/lib.rs:3-5 | `HISTORY` = 60·SUBSEC+1 = 3601 |
| Util.WindowMovingAverage.Default | crates/util/src/lib.rs:27-34 | a fresh window has index 0 and every sample 0 |
| Util.WindowMovingAverage.Add | crates/util/src/lib.rs:19-22 | writes only slot `i` and advances `i`, wrapping to 0 at the window size; `i` stays below the window size |
| Util.WindowMovingAverage.Get | crates/util/src/lib.rs:23-25 | the mean over the window of the most recent samples, with unfilled slots counting as 0 |
| Util.WindowMovingAverage.Smooth | crates/util/src/lib.rs:14-17 | is `add` followed by `get`: the mean of the recent window that includes the new sample |
| Util.RotateOverwrite | crates/util/src/lib.rs:19-22 | overwriting the slot at the ring index drops the oldest value and appends the new one, in ring order |
| Util.SumRotate | crates/util/src/lib.rs:23-25 | the slot sum does not depend on the ring position |
| Util.RecentFull | crates/util/src/lib.rs:23-25 | after at least a window of samples, the window is exactly the last samples |
| Util.RecentPartial | crates/util/src/lib.rs:23-25 | before that, the window is zeros followed by every sample so far |
| Util.RecentPush | crates/util/src/lib.rs:19-22 | one more sample shifts the window by one |
| Util.MeanOfLastWindow | crates/util/src/lib.rs:23-25 | after at least a window of adds, `get` is the mean of the last window-size samples |
| Util.MeanOfPartialWindow | crates/util/src/lib.rs:23-25 | before the window fills, `get` sums exactly the samples added so far |
| Util.ExtractFrom | crates/util/src/lib.rs:41-61 | the loop over the schema with a shared line cursor equals the reference extraction over the lines of the text |
| Util.ExtractShape | crates/util/src/lib.rs:42-46 | on success there is one slot per schema entry, filled exactly where the entry is present (`None` entries are skipped) |
| Util.ScanFirstMatch | crates/util/src/lib.rs:44-56 | the value is read from the first remaining line that starts with the key, and the cursor resumes after that line (for any value reader; `ScanKey` uses the `:`-value reader) |
| Util.ScanKeyMissing | crates/util/src/lib.rs:45-46 | a key that no remaining line starts with panics |
| Util.ScanKeyNoColon | crates/util/src/lib.rs:48-49 | a matching line without `:` right after the key panics |
| Util.ParseKeyValueExample | crates/util/src/lib.rs:47-56 | `":\t  1234 kB"` gives 1234 (tabs, then spaces, then the first word) |
| Util.ExtractVmRssExample | crates/util/src/lib.rs:41-61 | a status text with `Name:` then `VmRSS:\t  1234 kB` extracts `VmRSS` = 1234 |
| Util.ExtractKeysInOrder | crates/util/src/lib.rs:42-46 | a key found only on lines up to the previous key's line is never found, and extraction panics |
| Util.ExtractOutOfOrderExample | crates/util/src/lib.rs:42-46 | keys requested in the opposite order to the text panic, because the cursor only moves forward |
| Series.Series.Default | crates/sysinfo/src/series.rs:8-15 | every slot holds the default, and `last` = HISTORY-1 |
| Series.Series.Push | crates/sysinfo/src/series.rs:17-23 | only `inner[last]` changes; `last` advances and wraps to 0; the replayed history drops its oldest value and ends with the pushed item |
| Series.Series.Iter | crates/sysinfo/src/series.rs:30-35 | exactly HISTORY values, `inner[last+1..]` then `inner[..=last]`, ending with the newest |
| Series.Series.Capacity | crates/sysinfo/src/series.rs:24-26 | is HISTORY = 3601 |
| Series.Series.Latest | crates/sysinfo/src/series.rs:27-29 | is the last value of the replayed history, so it is the item just pushed |
| Series.Series.Chunks | crates/sysinfo/src/series.rs:36-46 | panics exactly for chunk size 0; otherwise first chunk ++ all middle chunks ++ last chunk is the replayed history, every middle chunk has exactly the chunk size, and the two ends are shorter |
| Series.PushAllKeepsWindow | crates/sysinfo/src/series.rs:17-35 | pushing `xs` into a history keeps the last HISTORY values of history ++ `xs`, in order |
| Series.ChunksExactTiles | crates/sysinfo/src/series.rs:40-44 | `chunks_exact` pieces followed by the remainder rebuild the sequence |
| Series.RChunksExactTiles | crates/sysinfo/src/series.rs:38-43 | the `rchunks_exact` remainder followed by the reversed pieces rebuilds the sequence |
| Snapshot.ParseEach | crates/ingest/src/snapshot.rs:63-66 | one record per line, in order; panics exactly when some line does not parse |
| Snapshot.SkipCpuLabel | crates/ingest/src/snapshot.rs:273-275 | drops the leading empty or `cpu`-prefixed words, and only those |
| Snapshot.CpuCountersOk | crates/ingest/src/snapshot.rs:276-285 | parsing succeeds exactly when there are at least ten counter words (any beyond the tenth are ignored) and all of the first ten but the fifth parse as u64 |
| Snapshot.ParseCpuStatRoundTrip | crates/ingest/src/snapshot.rs:264-287 | a line `cpuN f1 … f10` gives user = f1+f2, system = f3+f6+f7+f8, idle = f4, guest = f9+f10, with f5 ignored |
| Snapshot.ParseCpuStatExample | crates/ingest/src/snapshot.rs:276-285 | `cpu3 3417 151 2626 706482 159 0 8 0 0 0` gives user 3568, system 2634, idle 706482, guest 0 |
| Snapshot.TakeWhileStarts | crates/ingest/src/snapshot.rs:73 | the longest prefix of lines that start with the prefix |
| Snapshot.SkipWhileStarts | crates/ingest/src/snapshot.rs:74 | the lines after the longest prefix that start with the prefix |
| Snapshot.CpuLinesOfStat | crates/ingest/src/snapshot.rs:70-76 | for the aggregate `cpu ` line, then the per-core lines, then other lines, the selected lines are exactly the per-core ones, in order |
| Snapshot.CpusStat | crates/ingest/src/snapshot.rs:70-76 | one `CpuStat` per selected line |
| Snapshot.ParseDiskStats | crates/ingest/src/snapshot.rs:156-183 | panics with fewer than 20 words; otherwise minor = word 2, name = word 3, and the sectors read, written and discarded are words 6, 10 and 17 |
| Snapshot.DiskStatsRoundTrip | crates/ingest/src/snapshot.rs:156-183 | printing a record's 20 columns and parsing the line gives the record back |
| Snapshot.DiskStatsOf | crates/ingest/src/snapshot.rs:62-66 | one record per diskstats line |
| Snapshot.ExtractMemMissing | crates/ingest/src/snapshot.rs:201-204 | a key that no remaining line starts with panics |
| Snapshot.ParseMemInfoLines | crates/ingest/src/snapshot.rs:216-221 | `MemTotal` is the first key read, and its absence panics |
| Snapshot.MemLineValue | crates/ingest/src/snapshot.rs:205 | the value is the text between the key and the last two characters, trimmed and parsed |
| Snapshot.MemInfoRoundTrip | crates/ingest/src/snapshot.rs:193-225 | a meminfo text with the five keys in order, any padding and other lines in between, parses back to the five values |
| Snapshot.MemTotalExample | crates/ingest/src/snapshot.rs:205 | `MemTotal:       131860364 kB` gives 131860364 |
| Snapshot.ParseAttribute | crates/ingest/src/snapshot.rs:51-60 | a sysfs attribute is its trimmed text parsed as an integer below the type's limit, or a panic |
| Snapshot.MaxReadingIsMaximum | crates/ingest/src/snapshot.rs:86-92 | succeeds exactly when every reading parses, and is then the largest reading, or 0 with no sensors |
| Snapshot.MaxTemperature | crates/ingest/src/snapshot.rs:86-92 | the `ret = ret.max(..)` loop computes that maximum |
| Snapshot.GpuMaxTemperature | crates/ingest/src/snapshot.rs:117-123 | a GPU's `max_temperature` bounds every sensor reading, and is 0 with no sensors |
| Snapshot.Retire | crates/ingest/src/snapshot.rs:43-49 | keeps `disk_stats`, `cpus_stat` and `by_net_interface` unchanged |
| Snapshot.RetireForgets | crates/ingest/src/snapshot.rs:43-49 | two snapshots retire alike exactly when those three fields agree, so everything else is dropped |
| Snapshot.ParseNetInterface | crates/ingest/src/snapshot.rs:96-103 | succeeds exactly when both byte counters parse as u64, and then holds the two parsed counters |
| Snapshot.NetInterfaceOfFiles | crates/ingest/src/snapshot.rs:96-103 | counter files holding `rx` and `tx` and a line break give an interface with exactly those counters |
| Snapshot.ParseGpu | crates/ingest/src/snapshot.rs:106-127 | succeeds exactly when VRAM used and total parse as u64, both busy percentages as u16 and every sensor as u32; then holds those readings and the fold of the sensors |
| Snapshot.GpuOfFiles | crates/ingest/src/snapshot.rs:106-127 | attribute files holding the four readings give a GPU with exactly those readings and the sensors' maximum |
| Snapshot.AttributeOfLine | crates/ingest/src/snapshot.rs:51-60 | a file holding a number below the type's limit and a line break reads as that number |
| Snapshot.ParseMap | crates/ingest/src/snapshot.rs:93-105 | keeps the key set and parses every value; panics when any value does not parse |
| Snapshot.NewSnapshot | crates/ingest/src/snapshot.rs:50-129 | panics exactly when some file does not parse; otherwise each field is its parser's result, with one interface and one GPU per name, each parsed from its own files |
| Snapshot.SysReadFile | crates/sysinfo/src/snapshot.rs:293-298 | succeeds exactly when the read returned fewer than 8196 bytes, and is then exactly those bytes |
| System.Push | crates/sysinfo/src/series.rs:17-23 | a history push ends with the new value after the old values minus the oldest |
| System.SharesAreFractions | crates/ingest/src/system.rs:98-109 | with non-decreasing counters, all four pushed fractions lie in [0, 1], and busy = user + system + guest |
| System.SharesOfElapsed | crates/ingest/src/system.rs:99-105 | when ticks elapsed, the busy fraction is busy/(busy+idle) of the counter deltas |
| System.SharesOfIdleTick | crates/ingest/src/system.rs:104 | with no elapsed ticks the denominator is 1 and all four fractions are 0 |
| System.UpdateCpuPushesShares | crates/ingest/src/system.rs:98-109 | each of the four series gets its fraction pushed, and the older samples of all four move one place towards the front |
| System.UpdateCpuWithoutHistory | crates/ingest/src/system.rs:95 | a CPU compared against itself pushes four zeros |
| System.UpdateAllCpus | crates/ingest/src/system.rs:92-97 | the CPU vector is resized to the new count; core `i` is updated from its old reading, or from itself when it has none |
| System.NewCoreShowsZero | crates/ingest/src/system.rs:93-95 | a core without an old reading shows 0 |
| System.PushSumOfOthers | crates/ingest/src/system.rs:110-118 | the latest total/user/system/guest of `total_cpu` are the sums of the per-CPU latest values |
| System.UpdatedCoresBusyIsSum | crates/ingest/src/system.rs:103-108 | every updated core's latest busy value is user + system + guest |
| System.SumLatestKeepsBusy | crates/ingest/src/system.rs:110-118 | so is the latest busy value of `total_cpu` |
| System.GlobalUsedWithinTotal | crates/ingest/src/system.rs:79-85 | totals are 1024 × the kB figures; the pushed used memory and swap are 1024 × (total − available / free) and lie within the totals; older samples move one place towards the front |
| System.IntersectOldNew | crates/ingest/src/system.rs:175-189 | the key set is old ∩ new; each surviving key gets `f` once, on its prior state or the default, with its old and new readings |
| System.UpdatePartition | crates/ingest/src/system.rs:151-156 | pushes 512 × the sector deltas for read, written and discarded |
| System.ByDeviceName | crates/ingest/src/system.rs:130-133 | keys are exactly the device names, each mapping to a record with that name |
| System.ByDeviceNameLastWins | crates/ingest/src/system.rs:130-133 | the last record with a name wins |
| System.Partitions | crates/ingest/src/system.rs:126-129 | keeps exactly the records with a non-zero minor device number |
| System.PartitionsAppend | crates/ingest/src/system.rs:126-129 | the filter keeps order and multiplicity: filtering a concatenation concatenates the filtered parts |
| System.PartitionsOne | crates/ingest/src/system.rs:126-129 | one record is kept exactly when its minor device number is non-zero |
| System.UpdateAllPartitions | crates/ingest/src/system.rs:121-144 | the partition map is the intersection merge of old partitions with new disks |
| System.PartitionsOnly | crates/ingest/src/system.rs:124-133 | every key afterwards names an old partition (minor ≠ 0) and a new disk, so whole disks never appear |
| System.UpdateNetInterface | crates/ingest/src/system.rs:160-163 | pushes the rx and tx byte deltas |
| System.UpdateAllNetInterfaces | crates/ingest/src/system.rs:61-66 | the interface map is the intersection merge of old and new interfaces |
| System.GpuBusyIsFraction | crates/ingest/src/system.rs:166-172 | percentages are divided by 100 and lie in [0, 1] |
| System.UpdateEach | crates/ingest/src/system.rs:68-74 | the keys become exactly the new keys; each is updated once, from its prior state or the default |
| System.ReconcileGpus | crates/ingest/src/system.rs:67-75 | `by_gpu` keys equal the new GPU keys, each updated from its new reading |
| System.SystemInfo.Default | crates/ingest/src/system.rs:7-15 | all parts are default and all maps are empty |
| System.SystemInfo.Update | crates/ingest/src/system.rs:54-76 | the new state is the global, CPU, total, partition, interface and GPU updates of the old state |
| Procfs.ReadFileToString | crates/procinfo/src/procfs.rs:152-159 | ENOENT, ESRCH and EACCES give `None`; any other errno panics; a successful read gives at most 4096 bytes of the file |
| Procfs.CheckIoErr | crates/procinfo/src/procfs.rs:165-170 | only NotFound and PermissionDenied are tolerated |
| Procfs.OpenChecked | crates/procinfo/src/procfs.rs:116-122 | an open succeeds, is soft-failed (NotFound, PermissionDenied) or panics |
| Procfs.ClassifyKernelIff | crates/procinfo/src/procfs.rs:19-23 | kernel iff the cmdline is empty; kernel processes are named `[name]` with no cmdline, others keep their name and the cmdline with NULs replaced by spaces |
| Procfs.NameOfStatus | crates/procinfo/src/procfs.rs:12-18 | the name is the first status line without `Name:\t`, trimmed |
| Procfs.KernelThreadIdentity | crates/procinfo/src/procfs.rs:9-23 | an empty cmdline file with a status `Name:` line identifies a kernel thread |
| Procfs.VanishedProcess | crates/procinfo/src/procfs.rs:10 | a cmdline that cannot be opened gives `None` |
| Procfs.NumericEntries | crates/procinfo/src/procfs.rs:29-31 | live pids are u32 values, at most one per entry |
| Procfs.NumericEntriesKeep | crates/procinfo/src/procfs.rs:142-144 | a pid is listed exactly when some entry name parses to it |
| Procfs.ParseEntries | crates/procinfo/src/procfs.rs:26-28 | task entries are parsed one for one, in order |
| Procfs.PidStatusNew | crates/procinfo/src/procfs.rs:38-45 | a status handle exists exactly when the status file opens |
| Procfs.StatusSchema | crates/procinfo/src/procfs.rs:51-69 | four keys are requested, and `VmRSS` is skipped exactly for kernel processes |
| Procfs.GetUidGidVmRssKbThreads | crates/procinfo/src/procfs.rs:46-73 | the method equals the read-then-extract reference |
| Procfs.StatusFieldsBounds | crates/procinfo/src/procfs.rs:61-72 | uid and gid fit u16 and threads fit u32; a kernel process reports 0 kB of RSS |
| Procfs.TidIoNew | crates/procinfo/src/procfs.rs:80-89 | an io handle exists exactly when the io file opens and a trial read succeeds |
| Procfs.GetCumulativeReadWriteBytes | crates/procinfo/src/procfs.rs:90-107 | the method equals the read-then-extract reference |
| Procfs.TidStatNew | crates/procinfo/src/procfs.rs:114-124 | a stat handle exists exactly when the stat file opens |
| Procfs.StatTimesOfLine | crates/procinfo/src/procfs.rs:125-139 | the fields are counted after the last `)`: sid is field 6, user field 14, system field 15, guest field 43 (corrected) |
| Procfs.GuestTokenIsChildrenGuest | crates/procinfo/src/procfs.rs:132 | the guest time as written is field 44 (`cguest_time`), not field 43 |
| Procfs.SpaceInNameShiftsTokens | crates/procinfo/src/procfs.rs:128 | as written, a space in the command name shifts every field read |
| Procfs.ReadStatOutcomes | crates/procinfo/src/procfs.rs:124-139 | a vanished thread reads as `None` and a read error panics, both as written and corrected; on a well-formed stat line the function as written takes the guest time from field 44 and the corrected one from field 43, the other values agreeing |
| ProcIngest.TickThread | crates/procinfo/src/ingest.rs:129-159 | one thread's tick equals the reference step |
| ProcIngest.TickDifferences | crates/procinfo/src/ingest.rs:136-159 | keeps the handles; each delta is new − stored cumulative when that is non-negative, else 0; times fit u32 |
| ProcIngest.NoIoNoBytes | crates/procinfo/src/ingest.rs:129-132 | a thread without an io handle reports 0 bytes read and written |
| ProcIngest.FreshThreadFirstTick | crates/procinfo/src/ingest.rs:113-127 | a new thread starts from 0, so its first deltas are its whole cumulative readings |
| ProcIngest.TwoTicks | crates/procinfo/src/ingest.rs:136-157 | across two ticks the user-time delta is the difference of the two readings |
| ProcIngest.UserJiffies | crates/procinfo/src/ingest.rs:149-151 | 250 more jiffies of user time show as 2500 ms |
| ProcIngest.VisitTids | crates/procinfo/src/ingest.rs:107-161 | the tid loop equals its reference fold |
| ProcIngest.NewByTid | crates/procinfo/src/ingest.rs:102-162 | the method equals the reference over the candidate tids |
| ProcIngest.ByTidFromKeys | crates/procinfo/src/ingest.rs:107-160 | the result's tids are exactly the listed tids |
| ProcIngest.ByTidFromSteps | crates/procinfo/src/ingest.rs:112-159 | each listed tid maps to its own step's result |
| ProcIngest.ByTidFromUntouched | crates/procinfo/src/ingest.rs:136-159 | tids already collected and not listed again keep their entries |
| ProcIngest.StepperIsLocal | crates/procinfo/src/ingest.rs:112 | a thread's step reads only that thread's old entry |
| ProcIngest.OneThreadGoneDropsProcess | crates/procinfo/src/ingest.rs:112-135 | if any thread's step gives `None`, the whole map is `None` |
| ProcIngest.ThreadsAreSteps | crates/procinfo/src/ingest.rs:112-159 | a known thread is ticked from its old entry; a new one is created fresh and then ticked |
| ProcIngest.SingleThreadedKeys | crates/procinfo/src/ingest.rs:108-109 | single-threaded: the only tid is the pid, and the task directory is not listed |
| ProcIngest.NewFromOldStep | crates/procinfo/src/ingest.rs:74-99 | the method equals the reference |
| ProcIngest.NewFromOldKeepsIdentity | crates/procinfo/src/ingest.rs:88-98 | a reused entry keeps kernel, name, cmdline and status handle; uid, gid and RSS are re-read |
| ProcIngest.SingleThreadedProcess | crates/procinfo/src/ingest.rs:93 | `Threads: 1` gives exactly the tid `pid` |
| ProcIngest.CollectKeys | crates/procinfo/src/ingest.rs:63-70 | collected pids come from the listing |
| ProcIngest.CollectUntouched | crates/procinfo/src/ingest.rs:63-70 | entries already collected and not listed again stay |
| ProcIngest.CollectSteps | crates/procinfo/src/ingest.rs:64-69 | a listed pid is kept exactly when `new_from_old` gives `Some`, and then maps to that result |
| ProcIngest.UpdatedKeysAreLive | crates/procinfo/src/ingest.rs:62-71 | every pid after `update` is a numeric `/proc` entry |
| ProcIngest.ProcIngest.Empty | crates/procinfo/src/ingest.rs:56-58 | starts with no processes |
| ProcIngest.ProcIngest.Update | crates/procinfo/src/ingest.rs:62-71 | panics exactly when the reference does, and otherwise sets `by_pid` to its result |
| ProcInfo.AddMonoid | crates/procinfo/src/info.rs:164-193 | `ProcStat` addition is commutative and associative with identity `ZERO` |
| ProcInfo.TotalAppend | crates/procinfo/src/info.rs:116-123 | the fold of `add` over a concatenation is the sum of the two folds |
| ProcInfo.ThreadRows | crates/procinfo/src/info.rs:96-109 | one row per tid, with `parent_pid` = pid and disk rates = bytes / update_hz |
| ProcInfo.ProcessStatIsThreadSum | crates/procinfo/src/info.rs:110-123 | a process's stat is the fieldwise sum of its threads', except `mem_bytes`, which is the process's own RSS; `parent_sid` is the lowest tid's sid |
| ProcInfo.FlattenPanicsIff | crates/procinfo/src/info.rs:111 | flattening panics exactly when some process has no threads |
| ProcInfo.FlattenProcesses | crates/procinfo/src/info.rs:94-125 | one process row per pid, in the order visited |
| ProcInfo.ProcessRowsInOrder | crates/procinfo/src/info.rs:96 | one process's thread rows are in strictly ascending tid order |
| ProcInfo.FlattenThreadsSorted | crates/procinfo/src/info.rs:94-109 | thread rows name real (pid, tid) pairs, contiguous per pid and sorted by (pid, tid) |
| ProcInfo.FlattenPids | crates/procinfo/src/info.rs:94-125 | process rows are strictly ascending by pid, and cover exactly the ingested pids |
| ProcInfo.FlattenTids | crates/procinfo/src/info.rs:94-109 | thread rows are sorted by (pid, tid), name ingested threads, and every ingested thread has its row with its stat |
| ProcInfo.ProcessRowsCover | crates/procinfo/src/info.rs:96-108 | a process's rows include the row of each of its threads |
| ProcInfo.FlattenThreadsCover | crates/procinfo/src/info.rs:94-109 | when each process's rows cover its threads, the flattened rows cover every thread of every visited process |
| ProcInfo.AbsorbCases | crates/procinfo/src/info.rs:127-142 | a process opens a session holding its stat exactly when there is none or the last has another sid; otherwise its stat is added to the last session; earlier sessions are kept |
| ProcInfo.AbsorbStep | crates/procinfo/src/info.rs:127-142 | the same, with the sessions kept well formed and their sum grown by the process's stat |
| ProcInfo.SessionsInvariant | crates/procinfo/src/info.rs:126-143 | each session's lsid is Kernel iff its sid is 0; there are no more sessions than processes; the sum over sessions equals the sum over processes |
| ProcInfo.Runs | crates/procinfo/src/info.rs:126-143 | the maximal runs of neighbouring processes with one sid; none is empty |
| ProcInfo.RunsSplit | crates/procinfo/src/info.rs:126-143 | the runs concatenate to the processes, each has one sid, and neighbouring runs differ in it |
| ProcInfo.RunSplitUnique | crates/procinfo/src/info.rs:126-143 | there is only one split into maximal runs |
| ProcInfo.SessionsAreRuns | crates/procinfo/src/info.rs:126-143 | one session per run, in order, with the run's sid, `Kernel` iff that sid is 0, and the sum of the run's stats |
| ProcInfo.SessionsOfAnyRunSplit | crates/procinfo/src/info.rs:126-143 | the same for any split of the processes into maximal runs |
| ProcInfo.SessionPartsOfProcesses | crates/procinfo/src/info.rs:126-161 | the sessions' kernel part is the sum of the processes with sid 0, their services part that of the others |
| ProcInfo.Credit | crates/procinfo/src/info.rs:154-161 | crediting keeps the two buckets and their lsids |
| ProcInfo.CreditStep | crates/procinfo/src/info.rs:155-160 | a session's stat goes to the Kernel or the SystemdServices bucket, per its lsid |
| ProcInfo.LoginSessionsOf | crates/procinfo/src/info.rs:144-161 | the result has exactly two login sessions, `[Kernel, SystemdServices]` |
| ProcInfo.LoginSessionsSplit | crates/procinfo/src/info.rs:144-161 | each bucket sums exactly its own sessions |
| ProcInfo.PartsSum | crates/procinfo/src/info.rs:133-137 | the two buckets together sum every session |
| ProcInfo.SessionsLogIn | crates/procinfo/src/info.rs:155-158 | sessions built by `update` never reach `unreachable!()` |
| ProcInfo.ProcInfoTotals | crates/procinfo/src/info.rs:89-161 | two login sessions, `Kernel` summing the processes with sid 0 and `SystemdServices` the others; one process per pid; no more sessions than processes; the login, session and process levels carry the same total (the thread level differs, since each process's memBytes replaces its threads' sum) |
| ProcInfo.ProcInfoPanics | crates/procinfo/src/info.rs:111 | `update` panics exactly when some ingested process has no threads |
| ProcInfo.ProcInfoRows | crates/procinfo/src/info.rs:94-125 | processes are sorted by pid and cover exactly the ingested pids; threads are sorted by (pid, tid), name ingested threads, and include a row for every ingested thread |
| ProcInfo.UserKindRule | crates/procinfo/src/info.rs:224-230 | Root iff uid 0; Nologin iff uid ≠ 0 and the shell ends with `nologin`; User otherwise |
| ProcInfo.UserInfoOfLine | crates/procinfo/src/info.rs:210-232 | a passwd line built from seven fields parses back to its name, uid, gid, description and kind |
| ProcInfo.GroupInfoOfLine | crates/procinfo/src/info.rs:242-254 | a group line parses back to its name, gid and comma-separated users |
| ProcInfo.Table | crates/procinfo/src/info.rs:62-69 | every entry of the uid and gid tables is stored under its own id |
| ProcInfo.TableDefined | crates/procinfo/src/info.rs:62-77 | building a table succeeds exactly when every line parses, and every line's id is then a key |
| ProcInfo.TableLastWins | crates/procinfo/src/info.rs:65-69 | a table entry comes from the last line with that id |
| ProcInfo.ProcInfo.constructor | crates/procinfo/src/info.rs:61-88 | the tables come from the passwd and group texts, and the four vectors start empty |
| ProcInfo.ProcInfo.Update | crates/procinfo/src/info.rs:89-162 | panics exactly when the reference does; otherwise the four vectors are rebuilt from the ingest alone; the tables are unchanged |
| ProcInfo.FlattenAll | crates/procinfo/src/info.rs:94-125 | the pid loop equals the flattening reference, including its panic |
| ProcInfo.VisitPids | crates/procinfo/src/info.rs:94-125 | the same for any row and process builders |
| ProcInfo.PushThreads | crates/procinfo/src/info.rs:96-109 | the tid loop pushes exactly the process's thread rows |
| ProcInfo.PushRows | crates/procinfo/src/info.rs:96-109 | visiting tids in a given order pushes one row per tid, in that order, each with that thread's counters and the process's resident set |
| ProcInfo.GroupSessions | crates/procinfo/src/info.rs:126-143 | the session loop equals the session grouping |
| ProcInfo.SumLoginSessions | crates/procinfo/src/info.rs:144-161 | the login-session loop equals the bucket sums, including the `unreachable!()` panic |

## Left out

- Floating point: series values, moving averages and CPU fractions are reals.
  The u64 deltas in `crates/ingest/src/system.rs` are signed real differences.
  The source's u64 subtraction would panic or wrap on a counter that went
  backwards; the fraction lemmas assume counters that do not decrease.
- Overflow of u64 counters, ignored for these sums:
  - the `ProcStat` sums (fields are unbounded integers);
  - the `× 10` jiffy-to-ms scaling;
  - the `1024 ×` and `512 ×` scalings;
  - the `CpuStat` additions.

  The `as u16` / `as u32` casts and `saturating_sub` are modelled.
- Uptime (`Uptime::from_str`, `GlobalInfo::update`'s uptime fields):
  `Duration::from_secs_f64` is floating point.
- `PartitionToMountpath::from_str`: it calls `Path::canonicalize`, which
  depends on the file system.
- The `statfs` capacity and used figures of `PartitionInfo::update`: a system
  call. Only the sector-delta pushes are modelled.
- `ProcIngest::new`'s `getconf CLK_TCK` check and `setrlimit`: process
  environment. The model starts from `Empty` followed by `Update`.
- The reads of `/etc/passwd` and `/etc/group` in `ProcInfo::new`: the texts
  are constructor parameters.
- `ProcInfo.ProcInfo.constructor`: when a table text does not parse, the
  source panics. The model leaves both tables empty and states nothing else.
- `std::str::from_utf8`, the per-entry errors of `read_dir`, and short `pread`
  reads. Files are already strings, and one read returns the whole file up
  to the buffer size.
- `crates/ingest/src/handles.rs` (file handles, hashing of directory names)
  is not part of this model. Snapshot files arrive as texts.
- Sorting and name interning (`ProcSortBy`): not implemented in the source
  shown.
- `System.IntersectOldNew`, `System.UpdateEach`: the result is stated as a
  map. The order in which `f` is applied to the keys is not modelled.
- `crates/procinfo/src/info.rs:106` reads `vm_rss_bytes`, but the ingest
  record has `vm_rss_kb`. The model uses the ingested number as it is, as
  the process's `mem_bytes`.
- `info.rs:115` copies an `Option<String>` cmdline, and the model keeps it
  as an option.
- `crates/procinfo/src/procfs.rs:71` applies `?` to `extract_from`, which
  returns unit. The model follows `extract_from`'s signature, so a missing
  key panics.
- `ProcInfo.VisitPids`, `ProcIngest.VisitTids`: these loops take the inner
  step as a function value. They do not call `ProcInfo.PushThreads` or
  `ProcIngest.TickThread`. Those two methods are proved equal to the step
  functions separately.
- `ProcInfo.ThreadRows`: `update_hz` is the constant 1 that `ProcInfo::new`
  sets.
- `ProcIngest.TickThread`, `ProcIngest.ProcIngest.Update`: a thread's times
  are read with the corrected field positions (`Procfs.ReadStat`, built on
  `Procfs.StatTimesOf`; see Findings). The function as written is
  `Procfs.ReadStatAsWritten`; it differs in the guest time on every stat
  line, and in all four values when the command name holds a space. The
  ingested guest, user and system times, and every sum built from them, are
  those of the corrected reader.
- `Snapshot.ParseCpuStatExample`: stated over the words of the example line,
  not over the literal 38-character string.
- `System.SystemInfo.Update`: the series in `system.rs` are kept as their
  replayed histories (`System.Push`), not as `Series` objects.

## Findings

| source | as written | input that shows it | evidently intended | confidence | as-written member | corrected member |
|---|---|---|---|---|---|---|
| crates/procinfo/src/procfs.rs:132 | after `nth(7)` and `nth(0)`, `nth(28)` reads token 43, which is field 44 `cguest_time` (children's guest time) | any stat line: the guest time read is the 44th field | field 43 `guest_time`, the thread's own guest time | not executed | Procfs.GuestTokenIsChildrenGuest | Procfs.StatTimesOfLine |
| crates/procinfo/src/procfs.rs:128 | `split(' ')` counts the words of the command name `(comm)`, so a name with a space shifts every later token | a thread named `a b` (e.g. `tmux: server`): sid, user, system and guest are read from the wrong fields | count fields after the last `)` of the line | not executed | Procfs.SpaceInNameShiftsTokens | Procfs.StatTimesOfLine |
