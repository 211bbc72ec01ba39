/** crates/ingest/src/snapshot.rs and crates/sysinfo/src/snapshot.rs: one
    point-in-time record of the kernel's counters, parsed from the text of
    `/proc/stat`, `/proc/meminfo`, `/proc/diskstats` and the sysfs attribute
    files. The two source files carry the same parsers; they differ only in how
    a file is read, and the sysinfo read bound is `SysReadFile` below. */
module Snapshot {
  import opened Base
  import opened Text

  // ---------------------------------------------------------------------------
  // Shared parsing helpers

  /** Every word parses with `parse`; the values in order. */
  function ParseAll(words: seq<string>, parse: string -> Option<nat>): (r: Option<seq<nat>>)
    ensures r.Some? <==> forall i :: 0 <= i < |words| ==> parse(words[i]).Some?
    ensures r.Some? ==> |r.value| == |words|
    ensures r.Some? ==> forall i :: 0 <= i < |words| ==> r.value[i] == parse(words[i]).value
    decreases |words|
  {
    if words == [] then Some([])
    else
      match parse(words[0])
      case None => None
      case Some(v) =>
        match ParseAll(words[1..], parse)
        case None =>
          assert exists i :: 1 <= i < |words| && parse(words[i]).None? by {
            var j :| 0 <= j < |words[1..]| && parse(words[1..][j]).None?;
            assert words[j + 1] == words[1..][j];
          }
          None
        case Some(vs) => Some([v] + vs)
  }

  /** `lines.map(|line| line.parse().unwrap()).collect()`: every line must
      parse, or the whole read panics. */
  function ParseEach<T>(lines: seq<string>, parse: string -> Result<T>): (r: Result<seq<T>>)
    ensures r.Ok? <==> forall i :: 0 <= i < |lines| ==> parse(lines[i]).Ok?
    ensures r.Ok? ==> |r.value| == |lines|
    ensures r.Ok? ==> forall i :: 0 <= i < |lines| ==> r.value[i] == parse(lines[i]).value
    decreases |lines|
  {
    if lines == [] then Ok([])
    else
      match parse(lines[0])
      case Panic => Panic
      case Ok(v) =>
        match ParseEach(lines[1..], parse)
        case Panic =>
          assert exists i :: 1 <= i < |lines| && parse(lines[i]).Panic? by {
            var j :| 0 <= j < |lines[1..]| && parse(lines[1..][j]).Panic?;
            assert lines[j + 1] == lines[1..][j];
          }
          Panic
        case Ok(vs) => Ok([v] + vs)
  }

  // ---------------------------------------------------------------------------
  // CpuStat: one `cpu<N>` line of /proc/stat

  /** Cumulative jiffies since boot of one core. */
  datatype CpuStat = CpuStat(user: nat, system: nat, idle: nat, guest: nat)

  /** The leading words that are empty or name the core (`cpu`, `cpu3`) are skipped. */
  function SkipCpuLabel(words: seq<string>): (r: seq<string>)
    ensures |r| <= |words| && r == words[|words| - |r|..]
    ensures r == [] || (r[0] != [] && !StartsWith(r[0], "cpu"))
    decreases |words|
  {
    if words != [] && (words[0] == [] || StartsWith(words[0], "cpu")) then
      SkipCpuLabel(words[1..])
    else words
  }

  /** The ten counters after the label, in the order /proc/stat prints them:
      user = f1 + f2 (user, nice), system = f3 + f6 + f7 + f8 (system, irq,
      softirq, steal), idle = f4, guest = f9 + f10 (guest, guest_nice). The
      iowait counter f5 is stepped over without being parsed. A missing or
      non-numeric counter panics. */
  function ParseCpuCounters(w: seq<string>): Result<CpuStat> {
    if |w| < 10 then Panic
    else
      match ParseAll(w[..4] + w[5..10], ParseU64)
      case None => Panic
      case Some(f) => Ok(CpuStat(f[0] + f[1], f[2] + f[4] + f[5] + f[6], f[3], f[7] + f[8]))
  }

  /** `CpuStat::from_str`: split on single spaces, skip the label, read the counters. */
  function ParseCpuStat(line: string): Result<CpuStat> {
    ParseCpuCounters(SkipCpuLabel(SplitOn(line, ' ')))
  }

  /** The words of the counters that are parsed: all but the fifth. */
  lemma CountedWords(w: seq<string>, counted: seq<string>)
    requires |w| >= 10 && counted == w[..4] + w[5..10]
    ensures |counted| == 9
    ensures forall i :: 0 <= i < 4 ==> counted[i] == w[i]
    ensures forall i :: 4 <= i < 9 ==> counted[i] == w[i + 1]
  {
  }

  /** The counters parse exactly when there are at least ten of them and each
      one but iowait is a `u64`. */
  lemma CpuCountersOk(w: seq<string>)
    ensures ParseCpuCounters(w).Ok? <==>
              |w| >= 10 && forall i :: 0 <= i < 10 && i != 4 ==> ParseU64(w[i]).Some?
  {
    if |w| >= 10 {
      var counted := w[..4] + w[5..10];
      CountedWords(w, counted);
      if ParseAll(counted, ParseU64).None? {
        var j :| 0 <= j < 9 && ParseU64(counted[j]).None?;
        if j < 4 { assert ParseU64(w[j]).None?; } else { assert ParseU64(w[j + 1]).None?; }
      } else {
        forall i | 0 <= i < 10 && i != 4 ensures ParseU64(w[i]).Some? {
          if i < 4 { assert counted[i] == w[i]; } else { assert counted[i - 1] == w[i]; }
        }
      }
    }
  }

  /** The decimal renderings of some numbers. */
  function Decimals(f: seq<nat>): (r: seq<string>)
    ensures |r| == |f| && forall i :: 0 <= i < |f| ==> r[i] == Decimal(f[i])
  {
    seq(|f|, i requires 0 <= i < |f| => Decimal(f[i]))
  }

  /** A per-core line as the kernel writes it: the label and ten counters. */
  function CpuWords(tag: string, f: seq<nat>): (w: seq<string>)
    requires |f| == 10
    ensures |w| == 11 && w[0] == tag && w[1..] == Decimals(f)
  {
    [tag] + Decimals(f)
  }

  lemma SkipCpuWordsLabel(tag: string, f: seq<nat>)
    requires |f| == 10 && StartsWith(tag, "cpu")
    ensures SkipCpuLabel(CpuWords(tag, f)) == Decimals(f)
  {
    var d := Decimal(f[0]);
    assert CpuWords(tag, f)[1] == d;
    assert IsDigit(d[0]);
    assert d[0] != "cpu"[0];
  }

  lemma ParseCpuDecimals(f: seq<nat>)
    requires |f| == 10 && forall i :: 0 <= i < 10 ==> f[i] < U64_LIMIT
    ensures ParseAll(Decimals(f)[..4] + Decimals(f)[5..10], ParseU64) == Some(f[..4] + f[5..10])
  {
    var c := Decimals(f);
    var counted := c[..4] + c[5..10];
    var want := f[..4] + f[5..10];
    forall i | 0 <= i < 9 ensures ParseU64(counted[i]) == Some(want[i]) {
      var j := if i < 4 then i else i + 1;
      assert counted[i] == Decimal(f[j]) && want[i] == f[j];
      ParseDecimal(f[j], U64_LIMIT);
    }
    var p := ParseAll(counted, ParseU64);
    assert p.Some?;
    assert p.value == want;
  }

  lemma ParseCpuCountersOf(w: seq<string>, g: seq<nat>)
    requires |w| >= 10
    requires |g| == 9 && ParseAll(w[..4] + w[5..10], ParseU64) == Some(g)
    ensures ParseCpuCounters(w) == Ok(CpuStat(g[0] + g[1], g[2] + g[4] + g[5] + g[6], g[3], g[7] + g[8]))
  {
    var counted := w[..4] + w[5..10];
    assert ParseAll(counted, ParseU64) == Some(g);
    assert !(|w| < 10);
  }

  /** Reading back what the kernel writes: a line whose words are a `cpu`
      label and ten `u64` counters gives user f1+f2, system f3+f6+f7+f8,
      idle f4 and guest f9+f10 (f5, iowait, is ignored). */
  lemma ParseCpuStatRoundTrip(line: string, tag: string, f: seq<nat>)
    requires |f| == 10 && forall i :: 0 <= i < 10 ==> f[i] < U64_LIMIT
    requires StartsWith(tag, "cpu")
    requires SplitOn(line, ' ') == CpuWords(tag, f)
    ensures ParseCpuStat(line) == Ok(CpuStat(f[0] + f[1], f[2] + f[5] + f[6] + f[7], f[3], f[8] + f[9]))
  {
    SkipCpuWordsLabel(tag, f);
    ParseCpuDecimals(f);
    var g := f[..4] + f[5..10];
    ParseCpuCountersOf(Decimals(f), g);
    assert g[4] == f[5] && g[5] == f[6] && g[6] == f[7] && g[7] == f[8] && g[8] == f[9];
  }

  /** Such a line exists: the words joined by single spaces. */
  lemma CpuWordsSplit(tag: string, f: seq<nat>)
    requires |f| == 10 && ' ' !in tag
    ensures SplitOn(Join(CpuWords(tag, f), ' '), ' ') == CpuWords(tag, f)
  {
    var w := CpuWords(tag, f);
    forall k | 0 <= k < 11 ensures ' ' !in w[k] {
      if k > 0 { DecimalIsWord(f[k - 1]); WordHasNoNewline(Decimal(f[k - 1])); }
    }
    SplitOnJoin(w, ' ');
  }

  lemma CpuExampleSums(f: seq<nat>, c: CpuStat)
    requires |f| == 10 && f[0] == 3417 && f[1] == 151 && f[2] == 2626 && f[3] == 706482 && f[4] == 159
    requires f[5] == 0 && f[6] == 8 && f[7] == 0 && f[8] == 0 && f[9] == 0
    requires c == CpuStat(f[0] + f[1], f[2] + f[5] + f[6] + f[7], f[3], f[8] + f[9])
    ensures c == CpuStat(3568, 2634, 706482, 0)
  {
  }

  /** A per-core line `cpuN 3417 151 2626 706482 159 0 8 0 0 0` parses to
      user 3568, system 2634, idle 706482 and guest 0. */
  lemma ParseCpuStatExample(line: string, tag: string, f: seq<nat>)
    requires |f| == 10 && f[0] == 3417 && f[1] == 151 && f[2] == 2626 && f[3] == 706482 && f[4] == 159
    requires f[5] == 0 && f[6] == 8 && f[7] == 0 && f[8] == 0 && f[9] == 0
    requires SplitOn(line, ' ') == CpuWords(tag, f) && StartsWith(tag, "cpu")
    ensures ParseCpuStat(line) == Ok(CpuStat(3568, 2634, 706482, 0))
  {
    forall i | 0 <= i < 10 ensures f[i] < U64_LIMIT {
      assert i == 0 || i == 1 || i == 2 || i == 3 || i == 4 || i == 5 || i == 6 || i == 7 || i == 8 || i == 9;
    }
    ParseCpuStatRoundTrip(line, tag, f);
    CpuExampleSums(f, ParseCpuStat(line).value);
  }

  // ---------------------------------------------------------------------------
  // Per-core line selection in /proc/stat

  /** `take_while(|line| line.starts_with(prefix))`. */
  function TakeWhileStarts(lines: seq<string>, prefix: string): (r: seq<string>)
    ensures |r| <= |lines| && r == lines[..|r|]
    ensures forall k :: 0 <= k < |r| ==> StartsWith(r[k], prefix)
    ensures |r| < |lines| ==> !StartsWith(lines[|r|], prefix)
    decreases |lines|
  {
    if lines != [] && StartsWith(lines[0], prefix) then [lines[0]] + TakeWhileStarts(lines[1..], prefix)
    else []
  }

  /** `skip_while(|line| line.starts_with(prefix))`. */
  function SkipWhileStarts(lines: seq<string>, prefix: string): (r: seq<string>)
    ensures |r| <= |lines| && r == lines[|lines| - |r|..]
    ensures r == [] || !StartsWith(r[0], prefix)
    ensures forall k :: 0 <= k < |lines| - |r| ==> StartsWith(lines[k], prefix)
    decreases |lines|
  {
    if lines != [] && StartsWith(lines[0], prefix) then
      var r := SkipWhileStarts(lines[1..], prefix);
      assert forall k :: 1 <= k < |lines| - |r| ==> lines[k] == lines[1..][k - 1];
      r
    else lines
  }

  /** The lines that become `cpus_stat`: the leading run of `cpu` lines,
      without the aggregate `cpu ` line in front. */
  function CpuLines(lines: seq<string>): seq<string> {
    SkipWhileStarts(TakeWhileStarts(lines, "cpu"), "cpu ")
  }

  lemma {:induction false} TakeWhileRun(run: seq<string>, rest: seq<string>, prefix: string)
    requires forall k :: 0 <= k < |run| ==> StartsWith(run[k], prefix)
    requires rest == [] || !StartsWith(rest[0], prefix)
    ensures TakeWhileStarts(run + rest, prefix) == run
    decreases |run|
  {
    if run != [] {
      assert (run + rest)[1..] == run[1..] + rest;
      TakeWhileRun(run[1..], rest, prefix);
    } else {
      assert run + rest == rest;
    }
  }

  lemma AggregateIsCpu(aggregate: string)
    requires StartsWith(aggregate, "cpu ")
    ensures StartsWith(aggregate, "cpu")
  {
    assert aggregate[..3] == aggregate[..4][..3];
  }

  /** The shape of /proc/stat: the aggregate `cpu ` line, one line per core,
      then the other counters; exactly the per-core lines are selected, in order. */
  lemma CpuLinesOfStat(aggregate: string, cores: seq<string>, rest: seq<string>)
    requires StartsWith(aggregate, "cpu ")
    requires forall k :: 0 <= k < |cores| ==> StartsWith(cores[k], "cpu") && !StartsWith(cores[k], "cpu ")
    requires rest == [] || !StartsWith(rest[0], "cpu")
    ensures CpuLines([aggregate] + cores + rest) == cores
  {
    AggregateIsCpu(aggregate);
    var run := [aggregate] + cores;
    assert [aggregate] + cores + rest == run + rest;
    TakeWhileRun(run, rest, "cpu");
    assert run[1..] == cores;
  }

  /** `cpus_stat`: one record per selected line of /proc/stat, in order. */
  function CpusStat(stat: string): (r: Result<seq<CpuStat>>)
    ensures r.Ok? ==> |r.value| == |CpuLines(Lines(stat))|
  {
    ParseEach(CpuLines(Lines(stat)), ParseCpuStat)
  }

  // ---------------------------------------------------------------------------
  // DiskStats: one line of /proc/diskstats

  /** A block device's cumulative counters; times are in milliseconds. */
  datatype DiskStats = DiskStats(
    majorDeviceNumber: nat,
    minorDeviceNumber: nat,
    deviceName: string,
    readsCompleted: nat,
    readsMerged: nat,
    sectorsRead: nat,
    timeSpentReadingMs: nat,
    writesCompleted: nat,
    writesMerged: nat,
    sectorsWritten: nat,
    timeSpentWritingMs: nat,
    ioCurrentlyInProgress: nat,
    timeSpentIoMs: nat,
    weightedTimeSpentIoMs: nat,
    discardsCompleted: nat,
    discardsMerged: nat,
    sectorsDiscarded: nat,
    timeSpentDiscardingMs: nat,
    flushRequestsCompleted: nat,
    timeSpentFlushingMs: nat)

  /** The integer type of each of the 20 columns, as the exclusive upper bound
      of its values; 0 marks the device name, which is kept as text. */
  const DISKSTATS_COLUMNS: seq<nat> := [
    U16_LIMIT, U16_LIMIT, 0,
    U64_LIMIT, U64_LIMIT, U64_LIMIT, U64_LIMIT, U64_LIMIT, U64_LIMIT, U64_LIMIT, U64_LIMIT,
    U32_LIMIT,
    U64_LIMIT, U64_LIMIT, U64_LIMIT, U64_LIMIT, U64_LIMIT, U64_LIMIT, U64_LIMIT, U64_LIMIT]

  /** Parse each numeric column with its own bound; a text column reads as 0. */
  function ParseColumns(words: seq<string>, limits: seq<nat>): (r: Option<seq<nat>>)
    requires |words| == |limits|
    ensures r.Some? <==> forall i :: 0 <= i < |words| && limits[i] > 0 ==> ParseUnsigned(words[i], limits[i]).Some?
    ensures r.Some? ==> |r.value| == |words|
    ensures r.Some? ==> forall i :: 0 <= i < |words| ==>
              r.value[i] == if limits[i] == 0 then 0 else ParseUnsigned(words[i], limits[i]).value
    decreases |words|
  {
    if words == [] then Some([])
    else
      var head := if limits[0] == 0 then Some(0) else ParseUnsigned(words[0], limits[0]);
      match head
      case None => None
      case Some(v) =>
        match ParseColumns(words[1..], limits[1..])
        case None =>
          ColumnsTailFails(words, limits);
          None
        case Some(vs) =>
          ColumnsCons(words, limits, v, vs);
          Some([v] + vs)
  }

  /** A column after the first that fails to parse makes the whole row fail. */
  lemma ColumnsTailFails(words: seq<string>, limits: seq<nat>)
    requires |words| == |limits| > 0
    requires exists i :: 0 <= i < |words[1..]| && limits[1..][i] > 0 && ParseUnsigned(words[1..][i], limits[1..][i]).None?
    ensures exists i :: 0 <= i < |words| && limits[i] > 0 && ParseUnsigned(words[i], limits[i]).None?
  {
    var j :| 0 <= j < |words[1..]| && limits[1..][j] > 0 && ParseUnsigned(words[1..][j], limits[1..][j]).None?;
    assert words[j + 1] == words[1..][j] && limits[j + 1] == limits[1..][j];
  }

  /** The first column's value in front of the values of the others. */
  lemma ColumnsCons(words: seq<string>, limits: seq<nat>, v: nat, vs: seq<nat>)
    requires |words| == |limits| > 0
    requires limits[0] > 0 ==> ParseUnsigned(words[0], limits[0]) == Some(v)
    requires limits[0] == 0 ==> v == 0
    requires forall i :: 0 <= i < |words[1..]| && limits[1..][i] > 0 ==> ParseUnsigned(words[1..][i], limits[1..][i]).Some?
    requires |vs| == |words| - 1
    requires forall i :: 0 <= i < |words[1..]| ==>
               vs[i] == if limits[1..][i] == 0 then 0 else ParseUnsigned(words[1..][i], limits[1..][i]).value
    ensures forall i :: 0 <= i < |words| && limits[i] > 0 ==> ParseUnsigned(words[i], limits[i]).Some?
    ensures forall i :: 0 <= i < |words| ==>
              ([v] + vs)[i] == if limits[i] == 0 then 0 else ParseUnsigned(words[i], limits[i]).value
  {
    forall i | 0 < i < |words| ensures words[i] == words[1..][i - 1] && limits[i] == limits[1..][i - 1] {
    }
  }

  /** `DiskStats::from_str`: the first 20 whitespace-separated words; fewer
      words, or a word that does not parse as its column's type, panics. */
  function ParseDiskStats(line: string): (r: Result<DiskStats>)
    ensures |SplitAsciiWhitespace(line)| < 20 ==> r.Panic?
    ensures var w := SplitAsciiWhitespace(line);
            r.Ok? ==> && |w| >= 20
                      && ParseU16(w[1]) == Some(r.value.minorDeviceNumber)
                      && r.value.deviceName == w[2]
                      && ParseU64(w[5]) == Some(r.value.sectorsRead)
                      && ParseU64(w[9]) == Some(r.value.sectorsWritten)
                      && ParseU64(w[16]) == Some(r.value.sectorsDiscarded)
  {
    var w := SplitAsciiWhitespace(line);
    if |w| < 20 then Panic
    else
      match ParseColumns(w[..20], DISKSTATS_COLUMNS)
      case None => Panic
      case Some(v) =>
        Ok(DiskStats(v[0], v[1], w[2], v[3], v[4], v[5], v[6], v[7], v[8], v[9], v[10],
                     v[11], v[12], v[13], v[14], v[15], v[16], v[17], v[18], v[19]))
  }

  /** The numbers of a record, column by column (0 in the name's column). */
  function DiskColumnValues(d: DiskStats): (v: seq<nat>)
    ensures |v| == 20
  {
    [d.majorDeviceNumber, d.minorDeviceNumber, 0, d.readsCompleted, d.readsMerged,
     d.sectorsRead, d.timeSpentReadingMs, d.writesCompleted, d.writesMerged, d.sectorsWritten,
     d.timeSpentWritingMs, d.ioCurrentlyInProgress, d.timeSpentIoMs, d.weightedTimeSpentIoMs,
     d.discardsCompleted, d.discardsMerged, d.sectorsDiscarded, d.timeSpentDiscardingMs,
     d.flushRequestsCompleted, d.timeSpentFlushingMs]
  }

  /** A record the kernel can print: every number fits its column's type and
      the device name is one word. */
  predicate Printable(d: DiskStats) {
    && IsWord(d.deviceName)
    && forall i :: 0 <= i < 20 && DISKSTATS_COLUMNS[i] > 0 ==> DiskColumnValues(d)[i] < DISKSTATS_COLUMNS[i]
  }

  /** The record as the kernel prints it: its 20 columns, the name third. */
  function DiskWords(d: DiskStats): (w: seq<string>)
    ensures |w| == 20
  {
    var v := DiskColumnValues(d);
    Decimals(v[..2]) + [d.deviceName] + Decimals(v[3..])
  }

  lemma DiskWordsColumns(d: DiskStats)
    ensures forall i :: 0 <= i < 20 && i != 2 ==> DiskWords(d)[i] == Decimal(DiskColumnValues(d)[i])
    ensures DiskWords(d)[2] == d.deviceName
  {
  }

  lemma DiskWordsAreWords(d: DiskStats)
    requires Printable(d)
    ensures forall i :: 0 <= i < 20 ==> IsWord(DiskWords(d)[i])
  {
    DiskWordsColumns(d);
    forall i | 0 <= i < 20 && i != 2 ensures IsWord(DiskWords(d)[i]) {
      DecimalIsWord(DiskColumnValues(d)[i]);
    }
  }

  lemma ParseDiskColumn(d: DiskStats, i: nat)
    requires Printable(d) && i < 20 && DISKSTATS_COLUMNS[i] > 0
    ensures ParseUnsigned(DiskWords(d)[i], DISKSTATS_COLUMNS[i]) == Some(DiskColumnValues(d)[i])
  {
    DiskWordsColumns(d);
    ParseDecimal(DiskColumnValues(d)[i], DISKSTATS_COLUMNS[i]);
  }

  lemma ParseDiskColumns(d: DiskStats)
    requires Printable(d)
    ensures ParseColumns(DiskWords(d), DISKSTATS_COLUMNS) == Some(DiskColumnValues(d))
  {
    var w, v := DiskWords(d), DiskColumnValues(d);
    forall i | 0 <= i < 20 && DISKSTATS_COLUMNS[i] > 0
      ensures ParseUnsigned(w[i], DISKSTATS_COLUMNS[i]) == Some(v[i])
    {
      ParseDiskColumn(d, i);
    }
    NameIsOnlyTextColumn();
    forall i | 0 <= i < 20 && DISKSTATS_COLUMNS[i] == 0 ensures v[i] == 0 {
      assert i == 2;
    }
    ParseColumnsOf(w, DISKSTATS_COLUMNS, v);
  }

  /** Columns that each parse to their value give back all the values. */
  lemma ParseColumnsOf(words: seq<string>, limits: seq<nat>, v: seq<nat>)
    requires |words| == |limits| == |v|
    requires forall i :: 0 <= i < |words| && limits[i] > 0 ==> ParseUnsigned(words[i], limits[i]) == Some(v[i])
    requires forall i :: 0 <= i < |words| && limits[i] == 0 ==> v[i] == 0
    ensures ParseColumns(words, limits) == Some(v)
  {
    var p := ParseColumns(words, limits);
    assert p.Some?;
    forall i | 0 <= i < |v| ensures p.value[i] == v[i] {
      if limits[i] > 0 {
        assert ParseUnsigned(words[i], limits[i]) == Some(v[i]);
      }
    }
    assert p.value == v;
  }

  /** Only the third column, the device name, is kept as text. */
  lemma NameIsOnlyTextColumn()
    ensures forall i :: 0 <= i < 20 && i != 2 ==> DISKSTATS_COLUMNS[i] > 0
    ensures DISKSTATS_COLUMNS[2] == 0
  {
    forall i | 0 <= i < 20 && i != 2 ensures DISKSTATS_COLUMNS[i] > 0 {
      assert i == 0 || i == 1 || i == 3 || i == 4 || i == 5 || i == 6 || i == 7 || i == 8 || i == 9 || i == 10
          || i == 11 || i == 12 || i == 13 || i == 14 || i == 15 || i == 16 || i == 17 || i == 18 || i == 19;
    }
  }

  lemma DiskStatsOfColumns(line: string, d: DiskStats)
    requires SplitAsciiWhitespace(line) == DiskWords(d)
    requires ParseColumns(DiskWords(d), DISKSTATS_COLUMNS) == Some(DiskColumnValues(d))
    ensures ParseDiskStats(line) == Ok(d)
  {
    assert DiskWords(d)[..20] == DiskWords(d);
  }

  /** Parsing a printed line gives back the record: the parser reads every
      column from the place the kernel writes it. */
  lemma DiskStatsRoundTrip(d: DiskStats)
    requires Printable(d)
    ensures ParseDiskStats(Join(DiskWords(d), ' ')) == Ok(d)
  {
    DiskWordsAreWords(d);
    SplitAsciiWhitespaceJoin(DiskWords(d));
    ParseDiskColumns(d);
    DiskStatsOfColumns(Join(DiskWords(d), ' '), d);
  }

  /** `disk_stats`: one record per line of /proc/diskstats. */
  function DiskStatsOf(diskstats: string): (r: Result<seq<DiskStats>>)
    ensures r.Ok? ==> |r.value| == |Lines(diskstats)|
  {
    ParseEach(Lines(diskstats), ParseDiskStats)
  }

  // ---------------------------------------------------------------------------
  // MemInfo: /proc/meminfo

  /** Sizes in kibibytes. */
  datatype MemInfo = MemInfo(memTotal: nat, memFree: nat, memAvailable: nat, swapTotal: nat, swapFree: nat)

  /** The value on a key's line: the text between the key and the last two
      characters (the `kB` unit), trimmed, as a `u64`. A line too short to
      slice, or a value that does not parse, panics. */
  function MemValue(line: string, crib: string): Result<nat> {
    if |line| < |crib| + 2 then Panic
    else
      match ParseU64(Trim(line[|crib|..|line| - 2]))
      case None => Panic
      case Some(kb) => Ok(kb)
  }

  /** `extract(lines, field, crib)`: skip to the first line that starts with
      `crib` and read its value; hand back the lines after it. A missing crib
      panics. */
  function ExtractMem(lines: seq<string>, crib: string): (r: Result<(nat, seq<string>)>) {
    var j := FindKey(lines, crib);
    if j == |lines| then Panic
    else
      match MemValue(lines[j], crib)
      case Panic => Panic
      case Ok(kb) => Ok((kb, lines[j + 1..]))
  }

  /** A key absent from the remaining lines panics. */
  lemma ExtractMemMissing(lines: seq<string>, crib: string)
    requires forall i :: 0 <= i < |lines| ==> !StartsWith(lines[i], crib)
    ensures ExtractMem(lines, crib) == Panic
  {
  }

  /** The keys, in the order they are looked for. */
  const MEMINFO_CRIBS: seq<string> := ["MemTotal:", "MemFree:", "MemAvailable:", "SwapTotal:", "SwapFree:"]

  /** `MemInfo::from_str` on the lines of the file: the five keys in this order,
      each searched for after the line of the one before. */
  function ParseMemInfoLines(l0: seq<string>): (r: Result<MemInfo>)
    ensures r.Ok? ==> ExtractMem(l0, "MemTotal:").Ok? && r.value.memTotal == ExtractMem(l0, "MemTotal:").value.0
    ensures ExtractMem(l0, "MemTotal:").Panic? ==> r.Panic?
  {
    match ExtractMem(l0, "MemTotal:")
    case Panic => Panic
    case Ok((memTotal, l1)) =>
      match ExtractMem(l1, "MemFree:")
      case Panic => Panic
      case Ok((memFree, l2)) =>
        match ExtractMem(l2, "MemAvailable:")
        case Panic => Panic
        case Ok((memAvailable, l3)) =>
          match ExtractMem(l3, "SwapTotal:")
          case Panic => Panic
          case Ok((swapTotal, l4)) =>
            match ExtractMem(l4, "SwapFree:")
            case Panic => Panic
            case Ok((swapFree, _)) => Ok(MemInfo(memTotal, memFree, memAvailable, swapTotal, swapFree))
  }

  function ParseMemInfo(s: string): Result<MemInfo> {
    ParseMemInfoLines(Lines(s))
  }

  /** A meminfo line: the key, `pad` spaces, the value and ` kB`. */
  function MemLine(crib: string, pad: nat, kb: nat): string {
    crib + Spaces(pad) + Decimal(kb) + " kB"
  }

  lemma MemLineSlice(crib: string, pad: nat, kb: nat)
    ensures var line := MemLine(crib, pad, kb);
            && StartsWith(line, crib) && |line| >= |crib| + 2
            && line[|crib|..|line| - 2] == Spaces(pad) + Decimal(kb) + " "
  {
    var line := MemLine(crib, pad, kb);
    assert line[..|crib|] == crib;
  }

  lemma TrimDecimal(pad: nat, kb: nat)
    ensures Trim(Spaces(pad) + Decimal(kb) + " ") == Decimal(kb)
  {
    var d := Decimal(kb);
    DecimalIsWord(kb);
    assert IsDigit(d[0]) && IsDigit(d[|d| - 1]);
    TrimPadded(pad, d);
  }

  /** The value on a line the kernel writes is the number written there. */
  lemma MemLineValue(crib: string, pad: nat, kb: nat)
    requires kb < U64_LIMIT
    ensures StartsWith(MemLine(crib, pad, kb), crib)
    ensures MemValue(MemLine(crib, pad, kb), crib) == Ok(kb)
  {
    MemLineSlice(crib, pad, kb);
    TrimDecimal(pad, kb);
    ParseDecimal(kb, U64_LIMIT);
  }

  /** The first line with the key is found past lines without it. */
  lemma {:induction false} FindKeyAfterNoise(noise: seq<string>, line: string, crib: string, rest: seq<string>)
    requires StartsWith(line, crib)
    requires forall i :: 0 <= i < |noise| ==> !StartsWith(noise[i], crib)
    ensures FindKey(noise + [line] + rest, crib) == |noise|
  {
    var lines := noise + [line] + rest;
    forall k | 0 <= k < |noise| ensures lines[k] == noise[k] { }
    assert lines[|noise|] == line;
  }

  /** Lines that do not start with the crib are skipped; the crib's own line
      gives its value. */
  lemma ExtractMemAfterNoise(noise: seq<string>, line: string, crib: string, kb: nat, rest: seq<string>)
    requires StartsWith(line, crib) && MemValue(line, crib) == Ok(kb)
    requires forall i :: 0 <= i < |noise| ==> !StartsWith(noise[i], crib)
    ensures ExtractMem(noise + [line] + rest, crib) == Ok((kb, rest))
  {
    var lines := noise + [line] + rest;
    FindKeyAfterNoise(noise, line, crib, rest);
    assert lines[|noise|] == line;
    assert lines[|noise| + 1..] == rest;
  }

  /** The lines of a meminfo file holding `m`, key `k` padded with `pads[k]`
      spaces and preceded by the lines `noise[k]`. */
  function MemInfoText(m: MemInfo, pads: seq<nat>, noise: seq<seq<string>>): seq<string>
    requires |pads| == 5 && |noise| == 5
  {
    noise[0] + [MemLine("MemTotal:", pads[0], m.memTotal)]
    + (noise[1] + [MemLine("MemFree:", pads[1], m.memFree)]
    + (noise[2] + [MemLine("MemAvailable:", pads[2], m.memAvailable)]
    + (noise[3] + [MemLine("SwapTotal:", pads[3], m.swapTotal)]
    + (noise[4] + [MemLine("SwapFree:", pads[4], m.swapFree)] + []))))
  }

  /** No line starts with the key. */
  predicate NoKey(lines: seq<string>, crib: string) {
    forall i :: 0 <= i < |lines| ==> !StartsWith(lines[i], crib)
  }

  /** One key of the file: skipping its noise, reading its line. */
  lemma ExtractMemLine(noise: seq<string>, crib: string, pad: nat, kb: nat, rest: seq<string>)
    requires kb < U64_LIMIT && NoKey(noise, crib)
    ensures ExtractMem(noise + [MemLine(crib, pad, kb)] + rest, crib) == Ok((kb, rest))
  {
    MemLineValue(crib, pad, kb);
    ExtractMemAfterNoise(noise, MemLine(crib, pad, kb), crib, kb, rest);
  }

  lemma ParseMemInfoOfKeys(m: MemInfo, l0: seq<string>, l1: seq<string>, l2: seq<string>,
                           l3: seq<string>, l4: seq<string>, l5: seq<string>)
    requires ExtractMem(l0, "MemTotal:") == Ok((m.memTotal, l1))
    requires ExtractMem(l1, "MemFree:") == Ok((m.memFree, l2))
    requires ExtractMem(l2, "MemAvailable:") == Ok((m.memAvailable, l3))
    requires ExtractMem(l3, "SwapTotal:") == Ok((m.swapTotal, l4))
    requires ExtractMem(l4, "SwapFree:") == Ok((m.swapFree, l5))
    ensures ParseMemInfoLines(l0) == Ok(m)
  {
  }

  /** Reading what the kernel writes: five key lines in order, each possibly
      preceded by unrelated lines, give back the five values. */
  lemma MemInfoRoundTrip(m: MemInfo, pads: seq<nat>, noise: seq<seq<string>>)
    requires |pads| == 5 && |noise| == 5
    requires m.memTotal < U64_LIMIT && m.memFree < U64_LIMIT && m.memAvailable < U64_LIMIT
    requires m.swapTotal < U64_LIMIT && m.swapFree < U64_LIMIT
    requires forall k :: 0 <= k < 5 ==> NoKey(noise[k], MEMINFO_CRIBS[k])
    ensures ParseMemInfoLines(MemInfoText(m, pads, noise)) == Ok(m)
  {
    var l4 := noise[4] + [MemLine("SwapFree:", pads[4], m.swapFree)] + [];
    var l3 := noise[3] + [MemLine("SwapTotal:", pads[3], m.swapTotal)] + l4;
    var l2 := noise[2] + [MemLine("MemAvailable:", pads[2], m.memAvailable)] + l3;
    var l1 := noise[1] + [MemLine("MemFree:", pads[1], m.memFree)] + l2;
    var l0 := noise[0] + [MemLine("MemTotal:", pads[0], m.memTotal)] + l1;
    assert MemInfoText(m, pads, noise) == l0;
    assert NoKey(noise[0], MEMINFO_CRIBS[0]) && NoKey(noise[1], MEMINFO_CRIBS[1]) && NoKey(noise[2], MEMINFO_CRIBS[2]);
    assert NoKey(noise[3], MEMINFO_CRIBS[3]) && NoKey(noise[4], MEMINFO_CRIBS[4]);
    ExtractMemLine(noise[0], "MemTotal:", pads[0], m.memTotal, l1);
    ExtractMemLine(noise[1], "MemFree:", pads[1], m.memFree, l2);
    ExtractMemLine(noise[2], "MemAvailable:", pads[2], m.memAvailable, l3);
    ExtractMemLine(noise[3], "SwapTotal:", pads[3], m.swapTotal, l4);
    ExtractMemLine(noise[4], "SwapFree:", pads[4], m.swapFree, []);
    ParseMemInfoOfKeys(m, l0, l1, l2, l3, l4, []);
  }

  lemma MemTotalConcat(line: string)
    requires line == "MemTotal:       131860364 kB"
    ensures line == "MemTotal:" + "       " + "131860364" + " kB"
  {
  }

  lemma MemTotalParts(crib: string, pad: nat, kb: nat)
    requires pad == 7 && kb == 131860364
    ensures MemLine(crib, pad, kb) == crib + "       " + "131860364" + " kB"
  {
    MemTotalDigits(kb);
    SevenSpaces(pad);
  }

  /** Appending one digit to a number's decimal text. */
  lemma DecimalAppend(n: nat, d: nat, s: string)
    requires 0 < n && d < 10 && Decimal(n) == s
    ensures Decimal(10 * n + d) == s + [('0' as int + d) as char]
  {
    assert (10 * n + d) / 10 == n && (10 * n + d) % 10 == d;
  }

  lemma MemTotalDigits(kb: nat)
    requires kb == 131860364
    ensures Decimal(kb) == "131860364"
  {
    assert Decimal(1) == "1";
    DecimalAppend(1, 3, "1");
    DecimalAppend(13, 1, "13");
    DecimalAppend(131, 8, "131");
    DecimalAppend(1318, 6, "1318");
    DecimalAppend(13186, 0, "13186");
    DecimalAppend(131860, 3, "131860");
    DecimalAppend(1318603, 6, "1318603");
    DecimalAppend(13186036, 4, "13186036");
  }

  lemma SevenSpaces(pad: nat)
    requires pad == 7
    ensures Spaces(pad) == "       "
  {
  }

  /** The line `MemTotal:       131860364 kB` holds the value 131860364. */
  lemma MemTotalExample(line: string)
    requires line == "MemTotal:       131860364 kB"
    ensures StartsWith(line, "MemTotal:") && MemValue(line, "MemTotal:") == Ok(131860364)
  {
    MemTotalConcat(line);
    MemTotalParts("MemTotal:", 7, 131860364);
    MemLineValue("MemTotal:", 7, 131860364);
  }

  // ---------------------------------------------------------------------------
  // Sensor and sysfs attribute files

  /** `parse(file)`: the whole file's text, trimmed, parsed as an unsigned
      integer below `limit`; anything else panics. */
  function ParseAttribute(text: string, limit: nat): (r: Result<nat>)
    ensures r.Ok? <==> ParseUnsigned(Trim(text), limit).Some?
    ensures r.Ok? ==> r.value == ParseUnsigned(Trim(text), limit).value && r.value < limit
  {
    match ParseUnsigned(Trim(text), limit)
    case None => Panic
    case Some(v) => Ok(v)
  }

  /** A temperature sensor file holds a `u32` in millidegrees Celsius. */
  function ParseTemperature(text: string): Result<nat> {
    ParseAttribute(text, U32_LIMIT)
  }

  /** The fold `ret = ret.max(parse(temp))` from 0 over the sensor files, in
      order; the first reading that does not parse panics. */
  function MaxReading(texts: seq<string>, parse: string -> Result<nat>): Result<nat>
    decreases |texts|
  {
    if texts == [] then Ok(0)
    else
      match MaxReading(texts[..|texts| - 1], parse)
      case Panic => Panic
      case Ok(ret) =>
        match parse(texts[|texts| - 1])
        case Panic => Panic
        case Ok(t) => Ok(if ret >= t then ret else t)
  }

  /** The fold is the maximum of the readings, or 0 without sensors; it panics
      exactly when some reading does not parse. */
  lemma {:induction false} MaxReadingIsMaximum(texts: seq<string>, parse: string -> Result<nat>)
    ensures MaxReading(texts, parse).Ok? <==> forall i :: 0 <= i < |texts| ==> parse(texts[i]).Ok?
    ensures MaxReading(texts, parse).Ok? ==>
              && (forall i :: 0 <= i < |texts| ==> parse(texts[i]).value <= MaxReading(texts, parse).value)
              && (texts == [] ==> MaxReading(texts, parse).value == 0)
              && (texts != [] ==> exists i :: 0 <= i < |texts| && MaxReading(texts, parse).value == parse(texts[i]).value)
    decreases |texts|
  {
    if texts != [] {
      var front := texts[..|texts| - 1];
      MaxReadingIsMaximum(front, parse);
      assert forall i :: 0 <= i < |front| ==> front[i] == texts[i];
      if MaxReading(texts, parse).Ok? && front != [] {
        var i :| 0 <= i < |front| && MaxReading(front, parse).value == parse(front[i]).value;
        assert texts[i] == front[i];
      }
    }
  }

  /** The temperature loop: `ret = 0; for temp in temps { ret = ret.max(parse(temp)) }`. */
  method MaxTemperature(texts: seq<string>) returns (r: Result<nat>)
    ensures r == MaxReading(texts, ParseTemperature)
  {
    var ret := 0;
    for k := 0 to |texts|
      invariant MaxReading(texts[..k], ParseTemperature) == Ok(ret)
    {
      assert texts[..k + 1][..k] == texts[..k];
      var t := ParseTemperature(texts[k]);
      if t.Panic? {
        MaxReadingIsMaximum(texts, ParseTemperature);
        return Panic;
      }
      ret := if ret >= t.value then ret else t.value;
    }
    assert texts[..|texts|] == texts;
    return Ok(ret);
  }

  // ---------------------------------------------------------------------------
  // The snapshot and its retired form

  datatype NetInterfaceSnapshot = NetInterfaceSnapshot(rxBytes: nat, txBytes: nat)

  datatype GpuSnapshot = GpuSnapshot(
    memInfoVramUsed: nat,
    memInfoVramTotal: nat,
    memBusyPercent: nat,
    gpuBusyPercent: nat,
    maxTemperature: nat)

  datatype Snapshot = Snapshot(
    diskStats: seq<DiskStats>,
    memInfo: MemInfo,
    cpusStat: seq<CpuStat>,
    cpuMaxTempMillicelsius: nat,
    byNetInterface: map<string, NetInterfaceSnapshot>,
    byGpu: map<string, GpuSnapshot>)

  /** What the next tick needs of this one. */
  datatype OldSnapshot = OldSnapshot(
    diskStats: seq<DiskStats>,
    cpusStat: seq<CpuStat>,
    byNetInterface: map<string, NetInterfaceSnapshot>)

  /** `retire`: keep the disk, CPU and interface counters, drop the rest. */
  function Retire(s: Snapshot): (o: OldSnapshot)
    ensures o.diskStats == s.diskStats && o.cpusStat == s.cpusStat && o.byNetInterface == s.byNetInterface
  {
    OldSnapshot(s.diskStats, s.cpusStat, s.byNetInterface)
  }

  /** Retiring forgets exactly the memory, temperature and GPU readings: two
      snapshots retire alike if and only if their kept fields agree. */
  lemma RetireForgets(a: Snapshot, b: Snapshot)
    ensures Retire(a) == Retire(b) <==>
              a.diskStats == b.diskStats && a.cpusStat == b.cpusStat && a.byNetInterface == b.byNetInterface
  {
  }

  /** The text of every file one tick reads: the global files, one text per
      CPU sensor, the two counter files of each interface and the attribute
      files of each GPU. */
  datatype GpuFiles = GpuFiles(vramUsed: string, vramTotal: string, memBusy: string, gpuBusy: string, temperatures: seq<string>)

  datatype SnapshotFiles = SnapshotFiles(
    diskstats: string,
    stat: string,
    meminfo: string,
    cpuTemperatures: seq<string>,
    netInterfaces: map<string, (string, string)>,
    gpus: map<string, GpuFiles>)

  /** An interface's two counter files, `rx_bytes` and `tx_bytes`. */
  function ParseNetInterface(files: (string, string)): (r: Result<NetInterfaceSnapshot>)
    ensures r.Ok? <==> ParseAttribute(files.0, U64_LIMIT).Ok? && ParseAttribute(files.1, U64_LIMIT).Ok?
    ensures r.Ok? ==> && Ok(r.value.rxBytes) == ParseAttribute(files.0, U64_LIMIT)
                      && Ok(r.value.txBytes) == ParseAttribute(files.1, U64_LIMIT)
  {
    var rx, tx := ParseAttribute(files.0, U64_LIMIT), ParseAttribute(files.1, U64_LIMIT);
    if rx.Ok? && tx.Ok? then Ok(NetInterfaceSnapshot(rx.value, tx.value)) else Panic
  }

  /** A GPU's attribute files: VRAM use and size as `u64`, busy percentages as
      `u16`, and the largest of its temperature sensors. */
  function ParseGpu(files: GpuFiles): (r: Result<GpuSnapshot>)
    ensures r.Ok? <==> && ParseAttribute(files.vramUsed, U64_LIMIT).Ok? && ParseAttribute(files.vramTotal, U64_LIMIT).Ok?
                       && ParseAttribute(files.memBusy, U16_LIMIT).Ok? && ParseAttribute(files.gpuBusy, U16_LIMIT).Ok?
                       && MaxReading(files.temperatures, ParseTemperature).Ok?
    ensures r.Ok? ==> && Ok(r.value.memInfoVramUsed) == ParseAttribute(files.vramUsed, U64_LIMIT)
                      && Ok(r.value.memInfoVramTotal) == ParseAttribute(files.vramTotal, U64_LIMIT)
                      && Ok(r.value.memBusyPercent) == ParseAttribute(files.memBusy, U16_LIMIT)
                      && Ok(r.value.gpuBusyPercent) == ParseAttribute(files.gpuBusy, U16_LIMIT)
                      && MaxReading(files.temperatures, ParseTemperature) == Ok(r.value.maxTemperature)
  {
    var used, total := ParseAttribute(files.vramUsed, U64_LIMIT), ParseAttribute(files.vramTotal, U64_LIMIT);
    var memBusy, gpuBusy := ParseAttribute(files.memBusy, U16_LIMIT), ParseAttribute(files.gpuBusy, U16_LIMIT);
    var temp := MaxReading(files.temperatures, ParseTemperature);
    if used.Ok? && total.Ok? && memBusy.Ok? && gpuBusy.Ok? && temp.Ok? then
      Ok(GpuSnapshot(used.value, total.value, memBusy.value, gpuBusy.value, temp.value))
    else Panic
  }

  /** Parse every value of a map, panicking if any one fails. */
  function ParseMap<V, T>(m: map<string, V>, parse: V -> Result<T>): (r: Result<map<string, T>>)
    ensures r.Ok? <==> forall k :: k in m ==> parse(m[k]).Ok?
    ensures r.Ok? ==> r.value.Keys == m.Keys && forall k :: k in m ==> r.value[k] == parse(m[k]).value
  {
    if forall k :: k in m ==> parse(m[k]).Ok? then Ok(map k | k in m :: parse(m[k]).value) else Panic
  }

  /** `Snapshot::new`: parse every file read this tick. The meminfo text is
      trimmed before parsing; /proc/stat and /proc/diskstats are split into
      lines as read. Any parse failure panics. */
  function NewSnapshot(f: SnapshotFiles): (r: Result<Snapshot>)
    ensures r.Ok? ==> && DiskStatsOf(f.diskstats) == Ok(r.value.diskStats)
                      && CpusStat(f.stat) == Ok(r.value.cpusStat)
                      && ParseMemInfo(Trim(f.meminfo)) == Ok(r.value.memInfo)
                      && MaxReading(f.cpuTemperatures, ParseTemperature) == Ok(r.value.cpuMaxTempMillicelsius)
                      && r.value.byNetInterface.Keys == f.netInterfaces.Keys
                      && r.value.byGpu.Keys == f.gpus.Keys
                      && (forall name :: name in f.netInterfaces ==> ParseNetInterface(f.netInterfaces[name]) == Ok(r.value.byNetInterface[name]))
                      && (forall name :: name in f.gpus ==> ParseGpu(f.gpus[name]) == Ok(r.value.byGpu[name]))
    ensures r.Panic? <==> || DiskStatsOf(f.diskstats).Panic? || CpusStat(f.stat).Panic?
                          || ParseMemInfo(Trim(f.meminfo)).Panic?
                          || MaxReading(f.cpuTemperatures, ParseTemperature).Panic?
                          || (exists name :: name in f.netInterfaces && ParseNetInterface(f.netInterfaces[name]).Panic?)
                          || (exists name :: name in f.gpus && ParseGpu(f.gpus[name]).Panic?)
  {
    var disks, cpus := DiskStatsOf(f.diskstats), CpusStat(f.stat);
    var mem, temp := ParseMemInfo(Trim(f.meminfo)), MaxReading(f.cpuTemperatures, ParseTemperature);
    var nets, gpus := ParseMap(f.netInterfaces, ParseNetInterface), ParseMap(f.gpus, ParseGpu);
    if disks.Ok? && cpus.Ok? && mem.Ok? && temp.Ok? && nets.Ok? && gpus.Ok? then
      Ok(Snapshot(disks.value, mem.value, cpus.value, temp.value, nets.value, gpus.value))
    else Panic
  }

  /** A sysfs attribute file holding a number and a line break reads as
      that number. */
  lemma AttributeOfLine(v: nat, limit: nat)
    requires v < limit
    ensures ParseAttribute(Decimal(v) + "\n", limit) == Ok(v)
  {
    TrimDigitsLine(Decimal(v));
    ParseDecimal(v, limit);
  }

  /** Trimming a line of digits drops just its line break. */
  lemma TrimDigitsLine(w: string)
    requires w != [] && AllDigits(w)
    ensures Trim(w + "\n") == w
  {
    var t := w + "\n";
    var first, last := w[0], w[|w| - 1];
    assert IsDigit(first) && IsDigit(last);
    assert !IsWhitespace(first) && !IsWhitespace(last);
    assert TrimStart(t) == t by {
      assert t[0] == first;
    }
    assert TrimEnd(w) == w;
    assert TrimEnd(t) == TrimEnd(w) by {
      assert t[|t| - 1] == '\n' && t[..|t| - 1] == w;
    }
  }

  /** Counter files holding `rx` and `tx` give an interface with those
      counters. */
  lemma NetInterfaceOfFiles(rx: nat, tx: nat)
    requires rx < U64_LIMIT && tx < U64_LIMIT
    ensures ParseNetInterface((Decimal(rx) + "\n", Decimal(tx) + "\n")) == Ok(NetInterfaceSnapshot(rx, tx))
  {
    AttributeOfLine(rx, U64_LIMIT);
    AttributeOfLine(tx, U64_LIMIT);
  }

  /** Attribute files holding the four readings give a GPU with those
      readings and the largest sensor temperature. */
  lemma GpuOfFiles(used: nat, total: nat, memBusy: nat, gpuBusy: nat, temperatures: seq<string>, t: nat)
    requires used < U64_LIMIT && total < U64_LIMIT && memBusy < U16_LIMIT && gpuBusy < U16_LIMIT
    requires MaxReading(temperatures, ParseTemperature) == Ok(t)
    ensures ParseGpu(GpuFiles(Decimal(used) + "\n", Decimal(total) + "\n", Decimal(memBusy) + "\n",
                              Decimal(gpuBusy) + "\n", temperatures))
         == Ok(GpuSnapshot(used, total, memBusy, gpuBusy, t))
  {
    AttributeOfLine(used, U64_LIMIT);
    AttributeOfLine(total, U64_LIMIT);
    AttributeOfLine(memBusy, U16_LIMIT);
    AttributeOfLine(gpuBusy, U16_LIMIT);
  }

  /** The GPU's `max_temperature` is the largest of its sensors, 0 without any. */
  lemma GpuMaxTemperature(files: GpuFiles, g: GpuSnapshot)
    requires ParseGpu(files) == Ok(g)
    ensures forall i :: 0 <= i < |files.temperatures| ==>
              ParseTemperature(files.temperatures[i]).Ok? && ParseTemperature(files.temperatures[i]).value <= g.maxTemperature
    ensures files.temperatures == [] ==> g.maxTemperature == 0
    ensures files.temperatures != [] ==>
              exists i :: 0 <= i < |files.temperatures| && ParseTemperature(files.temperatures[i]) == Ok(g.maxTemperature)
  {
    MaxReadingIsMaximum(files.temperatures, ParseTemperature);
  }

  // ---------------------------------------------------------------------------
  // crates/sysinfo: reading a file in one `pread`

  /** `read_file_to_string` of crates/sysinfo: one `pread` of at most 8196
      bytes from offset 0 (an error panics), the assertion that fewer than 8196
      bytes came back, and the bytes read. `read` is the file's content, or
      `None` when the read fails. */
  function SysReadFile(read: Option<string>): (r: Result<string>)
    ensures r.Ok? <==> read.Some? && |read.value| < 8196
    ensures r.Ok? ==> r.value == read.value
  {
    match read
    case None => Panic
    case Some(content) =>
      var len := if |content| < 8196 then |content| else 8196;
      if len < 8196 then Ok(content[..len]) else Panic
  }
}
