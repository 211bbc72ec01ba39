/** crates/procinfo/src/procfs.rs: reading one process's and one thread's files
    under /proc. The file system is an oracle value, `ProcFs`, that fixes for
    one tick which paths open, what a read of each returns and what each
    directory lists. A handle (`PidStatus`, `TidIo`, `TidStat`) is the path it
    was opened on; reading through it consults the oracle of the tick at hand. */
module Procfs {
  import opened Base
  import opened Text
  import opened Util

  // ---------------------------------------------------------------------------
  // The /proc oracle

  /** The error numbers a read can report: the three the source tolerates, and the rest. */
  datatype Errno = ENOENT | ESRCH | EACCES | OtherErrno(code: nat)

  /** What `pread(file, buf, 0)` reports: the file's text, or an error number. */
  datatype Pread = Data(content: string) | Failed(errno: Errno)

  /** The `io::ErrorKind` of a failed `File::open`, as far as `check_io_err` looks. */
  datatype IoErrorKind = NotFound | PermissionDenied | OtherKind

  /** One path at one tick: opening it fails, or it opens and a read gives `pread`. */
  datatype ProcFile = Unopenable(kind: IoErrorKind) | Readable(pread: Pread)

  datatype ProcFs = ProcFs(files: map<string, ProcFile>, dirs: map<string, seq<string>>)

  /** `File::open(path)`: a path the oracle does not know is not found. */
  function Open(fs: ProcFs, path: string): ProcFile {
    if path in fs.files then fs.files[path] else Unopenable(NotFound)
  }

  /** A read through a handle opened on `path` in an earlier tick: once the
      task is gone the kernel answers ESRCH. */
  function PreadAt(fs: ProcFs, path: string): Pread {
    if path in fs.files && fs.files[path].Readable? then fs.files[path].pread else Failed(ESRCH)
  }

  function ProcPath(pid: nat, leaf: string): string {
    "/proc/" + Decimal(pid) + "/" + leaf
  }

  function TaskDir(pid: nat): string {
    "/proc/" + Decimal(pid) + "/task"
  }

  function TaskPath(pid: nat, tid: nat, leaf: string): string {
    TaskDir(pid) + "/" + Decimal(tid) + "/" + leaf
  }

  /** The stack buffer every read goes through. */
  const BUFFER_SIZE: nat := 4096

  // ---------------------------------------------------------------------------
  // Error mapping

  /** `read_file_to_string`: one read of at most BUFFER_SIZE bytes from offset
      0; ENOENT, ESRCH and EACCES mean the task is gone or hidden, any other
      error number panics. */
  function ReadFileToString(p: Pread): (r: Result<Option<string>>)
    ensures r.Panic? <==> p.Failed? && p.errno.OtherErrno?
    ensures r == Ok(None) <==> p.Failed? && !p.errno.OtherErrno?
    ensures r.Ok? && r.value.Some? ==> |r.value.value| <= BUFFER_SIZE && StartsWith(p.content, r.value.value)
    ensures p.Data? && |p.content| <= BUFFER_SIZE ==> r == Ok(Some(p.content))
  {
    match p
    case Data(content) => Ok(Some(if |content| <= BUFFER_SIZE then content else content[..BUFFER_SIZE]))
    case Failed(errno) => if errno.OtherErrno? then Panic else Ok(None)
  }

  /** `check_io_err`: a failed open is tolerated only when the file is missing
      or access is denied. */
  function CheckIoErr(kind: IoErrorKind): (r: Result<()>)
    ensures r.Ok? <==> kind.NotFound? || kind.PermissionDenied?
  {
    if kind.OtherKind? then Panic else Ok(())
  }

  /** `File::open(path)` followed by `check_io_err` on failure: `Ok(true)` when
      the file opened, `Ok(false)` for a tolerated failure. */
  function OpenChecked(fs: ProcFs, path: string): (r: Result<bool>)
    ensures r == Ok(true) <==> Open(fs, path).Readable?
    ensures r == Ok(false) <==> Open(fs, path).Unopenable? && !Open(fs, path).kind.OtherKind?
  {
    match Open(fs, path)
    case Readable(_) => Ok(true)
    case Unopenable(kind) => if CheckIoErr(kind).Ok? then Ok(false) else Panic
  }

  /** `read_to_string(path)`: any failure to open gives `None` (no `check_io_err`). */
  function ReadToString(fs: ProcFs, path: string): Result<Option<string>> {
    match Open(fs, path)
    case Unopenable(_) => Ok(None)
    case Readable(p) => ReadFileToString(p)
  }

  // ---------------------------------------------------------------------------
  // Kernel thread or user process, name and command line

  datatype Identity = Identity(kernel: bool, name: string, cmdline: Option<string>)

  /** The first status line, `Name:\t` stripped, trimmed; a status without
      lines or whose first line lacks the prefix panics. */
  function NameOf(status: string): Result<string> {
    var lines := Lines(status);
    if lines == [] || !StartsWith(lines[0], "Name:\t") then Panic
    else Ok(Trim(lines[0][6..]))
  }

  /** A kernel thread has an empty command line; it is shown as `[name]`. */
  function Classify(name: string, cmdline: string): Identity {
    if cmdline == [] then Identity(true, "[" + name + "]", None)
    else Identity(false, name, Some(ReplaceChar(cmdline, '\0', ' ')))
  }

  /** `get_is_kernel_name_cmdline`: `None` when either file cannot be read. */
  function GetIsKernelNameCmdline(fs: ProcFs, pid: nat): Result<Option<Identity>> {
    var cmdline := ReadToString(fs, ProcPath(pid, "cmdline"));
    if cmdline.Panic? then Panic
    else if cmdline.value.None? then Ok(None)
    else
      var status := ReadToString(fs, ProcPath(pid, "status"));
      if status.Panic? then Panic
      else if status.value.None? then Ok(None)
      else
        var name := NameOf(status.value.value);
        if name.Panic? then Panic else Ok(Some(Classify(name.value, cmdline.value.value)))
  }

  /** A process is a kernel thread exactly when its command line is empty; a
      kernel thread gets a bracketed name and no command line, any other
      process its plain name and its command line with every NUL turned into
      a space. */
  lemma ClassifyKernelIff(name: string, cmdline: string)
    ensures Classify(name, cmdline).kernel <==> cmdline == []
    ensures cmdline == [] ==> Classify(name, cmdline).name == "[" + name + "]" && Classify(name, cmdline).cmdline == None
    ensures cmdline != [] ==> var id := Classify(name, cmdline);
              && id.name == name && id.cmdline.Some? && |id.cmdline.value| == |cmdline| && '\0' !in id.cmdline.value
              && forall i :: 0 <= i < |cmdline| && cmdline[i] != '\0' ==> id.cmdline.value[i] == cmdline[i]
  {
  }

  /** The name is read from a first line `Name:\t<n>`: `n`, trimmed. */
  lemma NameOfStatus(n: string, rest: string)
    requires '\n' !in n && (n == [] || n[|n| - 1] != '\r')
    ensures NameOf("Name:\t" + n + "\n" + rest) == Ok(Trim(n))
  {
    var first := "Name:\t" + n;
    var s := first + ['\n'] + rest;
    assert "Name:\t" + n + "\n" + rest == s;
    IndexOfAfter(first, '\n', rest);
    assert s[..|first|] == first;
    assert Lines(s)[0] == first;
    assert first[..6] == "Name:\t" && first[6..] == n;
  }

  /** A process whose command-line file is empty and whose status begins
      `Name:\t<n>` is the kernel thread `[n]`; a missing command-line file
      hides the process. */
  lemma KernelThreadIdentity(fs: ProcFs, pid: nat, n: string, rest: string)
    requires Open(fs, ProcPath(pid, "cmdline")) == Readable(Data(""))
    requires Open(fs, ProcPath(pid, "status")).Readable?
    requires Open(fs, ProcPath(pid, "status")).pread == Data("Name:\t" + n + "\n" + rest)
    requires |"Name:\t" + n + "\n" + rest| <= BUFFER_SIZE
    requires '\n' !in n && (n == [] || n[|n| - 1] != '\r')
    ensures GetIsKernelNameCmdline(fs, pid) == Ok(Some(Identity(true, "[" + Trim(n) + "]", None)))
  {
    var status := "Name:\t" + n + "\n" + rest;
    assert ReadToString(fs, ProcPath(pid, "cmdline")) == Ok(Some(""));
    assert ReadToString(fs, ProcPath(pid, "status")) == Ok(Some(status));
    NameOfStatus(n, rest);
    assert NameOf(status) == Ok(Trim(n));
    assert Classify(Trim(n), "") == Identity(true, "[" + Trim(n) + "]", None);
  }

  lemma VanishedProcess(fs: ProcFs, pid: nat)
    requires Open(fs, ProcPath(pid, "cmdline")).Unopenable?
    ensures GetIsKernelNameCmdline(fs, pid) == Ok(None)
  {
  }

  // ---------------------------------------------------------------------------
  // Directory listings

  /** `direntry_as_u32`: the entry's name parsed as a `u32`. */
  function DirentryAsU32(name: string): Option<nat> {
    ParseU32(name)
  }

  /** `filter_map(direntry_as_u32)`. */
  function NumericEntries(names: seq<string>): (r: seq<nat>)
    ensures forall k :: 0 <= k < |r| ==> r[k] < U32_LIMIT
    ensures |r| <= |names|
    decreases |names|
  {
    if names == [] then []
    else
      var rest := NumericEntries(names[1..]);
      match DirentryAsU32(names[0])
      case Some(n) => ParseUnsignedBound(names[0], U32_LIMIT); [n] + rest
      case None => rest
  }

  /** Exactly the entries whose name is a `u32` are kept. */
  lemma {:induction false} NumericEntriesKeep(names: seq<string>, n: nat)
    ensures n in NumericEntries(names) <==> exists i :: 0 <= i < |names| && DirentryAsU32(names[i]) == Some(n)
    decreases |names|
  {
    if names != [] {
      NumericEntriesKeep(names[1..], n);
      if exists i :: 0 <= i < |names[1..]| && DirentryAsU32(names[1..][i]) == Some(n) {
        var i :| 0 <= i < |names[1..]| && DirentryAsU32(names[1..][i]) == Some(n);
        assert names[i + 1] == names[1..][i];
      }
      if exists i :: 0 <= i < |names| && DirentryAsU32(names[i]) == Some(n) {
        var i :| 0 <= i < |names| && DirentryAsU32(names[i]) == Some(n);
        if i > 0 {
          assert names[1..][i - 1] == names[i];
        }
      }
    }
  }

  /** `get_live_pids`: the numeric entries of /proc; `read_dir` failing panics. */
  function GetLivePids(fs: ProcFs): Result<seq<nat>> {
    if "/proc" in fs.dirs then Ok(NumericEntries(fs.dirs["/proc"])) else Panic
  }

  /** Each entry's name parsed as a `u32`; the caller unwraps them one by one. */
  function ParseEntries(names: seq<string>): (r: seq<Option<nat>>)
    ensures |r| == |names|
    ensures forall k :: 0 <= k < |names| ==> r[k] == DirentryAsU32(names[k])
    decreases |names|
  {
    if names == [] then [] else [DirentryAsU32(names[0])] + ParseEntries(names[1..])
  }

  /** `get_live_tids`: the entries of /proc/<pid>/task. `read_dir` runs at once
      and panics if the directory is gone; each entry is unwrapped only when the
      caller reaches it, so a `None` here is a panic only if it is reached. */
  function GetLiveTids(fs: ProcFs, pid: nat): Result<seq<Option<nat>>> {
    if TaskDir(pid) in fs.dirs then Ok(ParseEntries(fs.dirs[TaskDir(pid)])) else Panic
  }

  // ---------------------------------------------------------------------------
  // /proc/<pid>/status

  datatype PidStatus = PidStatus(pid: nat, isKernel: bool)

  /** `PidStatus::new`. */
  function PidStatusNew(fs: ProcFs, pid: nat, isKernel: bool): (r: Result<Option<PidStatus>>)
    ensures r.Ok? && r.value.Some? <==> Open(fs, ProcPath(pid, "status")).Readable?
    ensures r.Ok? && r.value.Some? ==> r.value.value == PidStatus(pid, isKernel)
  {
    var isOpen := OpenChecked(fs, ProcPath(pid, "status"));
    if isOpen.Panic? then Panic
    else if isOpen.value then Ok(Some(PidStatus(pid, isKernel)))
    else Ok(None)
  }

  /** `Uid`, `Gid`, `VmRSS` and `Threads` in that order; a kernel thread has no
      resident set, so its `VmRSS` key is not asked for. */
  function StatusSchema(isKernel: bool): (r: seq<Option<string>>)
    ensures |r| == 4 && r[0].Some? && r[1].Some? && r[3].Some? && (r[2].None? <==> isKernel)
  {
    [Some("Uid"), Some("Gid"), if isKernel then None else Some("VmRSS"), Some("Threads")]
  }

  datatype StatusFields = StatusFields(uid: nat, gid: nat, vmRssKb: nat, threads: nat)

  /** The slots start at 0, so a key left out of the schema reads 0; then the
      casts `uid as u16`, `gid as u16` and `threads as u32`. */
  function StatusFieldsOf(values: seq<Option<nat>>): StatusFields
    requires |values| == 4
  {
    StatusFields(Truncate(values[0].GetOr(0), U16_LIMIT), Truncate(values[1].GetOr(0), U16_LIMIT),
                 values[2].GetOr(0), Truncate(values[3].GetOr(0), U32_LIMIT))
  }

  /** The value of `get_uid_gid_vm_rss_kb_threads`. */
  function ReadStatus(fs: ProcFs, s: PidStatus): Result<Option<StatusFields>> {
    var text := ReadFileToString(PreadAt(fs, ProcPath(s.pid, "status")));
    if text.Panic? then Panic
    else if text.value.None? then Ok(None)
    else
      var schema := StatusSchema(s.isKernel);
      var values := Extract(schema, Lines(text.value.value));
      if values.Panic? then Panic
      else
        ExtractShape(schema, Lines(text.value.value));
        Ok(Some(StatusFieldsOf(values.value)))
  }

  /** `PidStatus::get_uid_gid_vm_rss_kb_threads`: fill four slots with `extract_from`. */
  method GetUidGidVmRssKbThreads(fs: ProcFs, s: PidStatus) returns (r: Result<Option<StatusFields>>)
    ensures r == ReadStatus(fs, s)
  {
    var text := ReadFileToString(PreadAt(fs, ProcPath(s.pid, "status")));
    if text.Panic? {
      return Panic;
    }
    if text.value.None? {
      return Ok(None);
    }
    var schema := StatusSchema(s.isKernel);
    var values := ExtractFrom(schema, text.value.value);
    if values.Panic? {
      return Panic;
    }
    ExtractShape(schema, Lines(text.value.value));
    r := Ok(Some(StatusFieldsOf(values.value)));
  }

  /** A kernel thread always reports a resident set of 0 kB, and the fields
      are within the ranges of their casts. */
  lemma StatusFieldsBounds(fs: ProcFs, s: PidStatus)
    requires ReadStatus(fs, s).Ok? && ReadStatus(fs, s).value.Some?
    ensures var f := ReadStatus(fs, s).value.value;
            && f.uid < U16_LIMIT && f.gid < U16_LIMIT && f.threads < U32_LIMIT
            && (s.isKernel ==> f.vmRssKb == 0)
  {
    var text := ReadFileToString(PreadAt(fs, ProcPath(s.pid, "status"))).value.value;
    ExtractShape(StatusSchema(s.isKernel), Lines(text));
  }

  // ---------------------------------------------------------------------------
  // /proc/<pid>/task/<tid>/io

  datatype TidIo = TidIo(pid: nat, tid: nat)

  /** `TidIo::new`: open with `check_io_err`, then a trial read
      (`can_read_from`); reading another user's io file needs ptrace
      permission, and then the thread simply has no io handle. */
  function TidIoNew(fs: ProcFs, pid: nat, tid: nat): (r: Result<Option<TidIo>>)
    ensures r == Ok(Some(TidIo(pid, tid))) <==> Open(fs, TaskPath(pid, tid, "io")).Readable? && Open(fs, TaskPath(pid, tid, "io")).pread.Data?
    ensures r == Ok(None) <==>
              || (Open(fs, TaskPath(pid, tid, "io")).Unopenable? && !Open(fs, TaskPath(pid, tid, "io")).kind.OtherKind?)
              || (Open(fs, TaskPath(pid, tid, "io")).Readable? && Open(fs, TaskPath(pid, tid, "io")).pread.Failed?
                  && !Open(fs, TaskPath(pid, tid, "io")).pread.errno.OtherErrno?)
  {
    match Open(fs, TaskPath(pid, tid, "io"))
    case Unopenable(kind) => if CheckIoErr(kind).Ok? then Ok(None) else Panic
    case Readable(p) =>
      var probe := ReadFileToString(p);
      if probe.Panic? then Panic
      else if probe.value.None? then Ok(None)
      else Ok(Some(TidIo(pid, tid)))
  }

  const IO_SCHEMA: seq<Option<string>> := [Some("read_bytes"), Some("write_bytes")]

  /** The value of `get_cumulative_read_write_bytes`. */
  function ReadIo(fs: ProcFs, io: TidIo): Result<Option<(nat, nat)>> {
    var text := ReadFileToString(PreadAt(fs, TaskPath(io.pid, io.tid, "io")));
    if text.Panic? then Panic
    else if text.value.None? then Ok(None)
    else
      var values := Extract(IO_SCHEMA, Lines(text.value.value));
      if values.Panic? then Panic
      else
        ExtractShape(IO_SCHEMA, Lines(text.value.value));
        Ok(Some((values.value[0].value, values.value[1].value)))
  }

  /** `TidIo::get_cumulative_read_write_bytes`: two slots filled by `extract_from`. */
  method GetCumulativeReadWriteBytes(fs: ProcFs, io: TidIo) returns (r: Result<Option<(nat, nat)>>)
    ensures r == ReadIo(fs, io)
  {
    var text := ReadFileToString(PreadAt(fs, TaskPath(io.pid, io.tid, "io")));
    if text.Panic? {
      return Panic;
    }
    if text.value.None? {
      return Ok(None);
    }
    var values := ExtractFrom(IO_SCHEMA, text.value.value);
    if values.Panic? {
      return Panic;
    }
    ExtractShape(IO_SCHEMA, Lines(text.value.value));
    r := Ok(Some((values.value[0].value, values.value[1].value)));
  }

  // ---------------------------------------------------------------------------
  // /proc/<pid>/task/<tid>/stat

  datatype TidStat = TidStat(pid: nat, tid: nat)

  /** `TidStat::new`. */
  function TidStatNew(fs: ProcFs, pid: nat, tid: nat): (r: Result<Option<TidStat>>)
    ensures r.Ok? && r.value.Some? <==> Open(fs, TaskPath(pid, tid, "stat")).Readable?
    ensures r.Ok? && r.value.Some? ==> r.value.value == TidStat(pid, tid)
  {
    var isOpen := OpenChecked(fs, TaskPath(pid, tid, "stat"));
    if isOpen.Panic? then Panic
    else if isOpen.value then Ok(Some(TidStat(pid, tid)))
    else Ok(None)
  }

  /** Session id, and cumulative user, system and guest time in milliseconds
      (10 ms per jiffy at 100 Hz). */
  datatype StatTimes = StatTimes(sid: nat, userMs: nat, systemMs: nat, guestMs: nat)

  function TimesOf(sid: Option<nat>, user: Option<nat>, system: Option<nat>, guest: Option<nat>): Result<StatTimes> {
    if sid.Some? && user.Some? && system.Some? && guest.Some? then
      Ok(StatTimes(sid.value, 10 * user.value, 10 * system.value, 10 * guest.value))
    else Panic
  }

  /** The extraction as written: split on single spaces and take tokens 5, 13,
      14 and 43 (`nth(5)`, `nth(7)`, `nth(0)`, `nth(28)` on one iterator);
      a missing or malformed token panics. */
  function StatTimesAsWritten(data: string): Result<StatTimes> {
    var tokens := SplitOn(data, ' ');
    if |tokens| < 44 then Panic
    else TimesOf(ParseU32(tokens[5]), ParseU64(tokens[13]), ParseU64(tokens[14]), ParseU64(tokens[43]))
  }

  /** Position of the last `c` in `s`. */
  function LastIndexOf(s: string, c: char): (r: Option<nat>)
    ensures r.Some? ==> r.value < |s| && s[r.value] == c
    decreases |s|
  {
    if s == [] then None
    else if s[|s| - 1] == c then Some(|s| - 1)
    else LastIndexOf(s[..|s| - 1], c)
  }

  lemma {:induction false} LastIndexOfAt(a: string, c: char, b: string)
    requires c !in b
    ensures LastIndexOf(a + [c] + b, c) == Some(|a|)
    decreases |b|
  {
    var s := a + [c] + b;
    if b != [] {
      assert s[..|s| - 1] == a + [c] + b[..|b| - 1];
      assert s[|s| - 1] == b[|b| - 1];
      LastIndexOfAt(a, c, b[..|b| - 1]);
    }
  }

  /** The extraction as intended by proc(5): the command name, field 2, is in
      parentheses and may itself hold spaces and parentheses, so fields are
      counted from the last `)`; the guest time is field 43. Field `k >= 3` is
      piece `k - 2` of the text after that `)`. */
  function StatTimesOf(data: string): Result<StatTimes> {
    match LastIndexOf(data, ')')
    case None => Panic
    case Some(i) => TimesAfterName(data[i + 1..])
  }

  /** The fields after the command name: piece `k - 2` is field `k`. */
  function TimesAfterName(rest: string): Result<StatTimes> {
    var fields := SplitOn(rest, ' ');
    if |fields| < 42 then Panic
    else TimesOf(ParseU32(fields[4]), ParseU64(fields[12]), ParseU64(fields[13]), ParseU64(fields[41]))
  }

  /** A stat line: the id, the command name in parentheses, then fields 3
      onward of proc(5) (`f[k - 3]` is field `k`). */
  function StatLine(pidWord: string, comm: string, f: seq<string>): string
    requires |f| >= 1
  {
    pidWord + " (" + comm + ") " + Join(f, ' ')
  }

  predicate IsStatField(w: string) {
    ' ' !in w && ')' !in w
  }

  /** A stat line around its command name's closing parenthesis. */
  lemma StatLineAround(pidWord: string, comm: string, f: seq<string>)
    requires |f| >= 1
    ensures StatLine(pidWord, comm, f) == (pidWord + " (" + comm) + [')'] + ([' '] + Join(f, ' '))
  {
  }

  lemma FieldsAvoidParen(f: seq<string>)
    requires |f| >= 1 && forall k :: 0 <= k < |f| ==> IsStatField(f[k])
    ensures ')' !in [' '] + Join(f, ' ')
  {
    JoinAvoids(f, ' ', ')');
  }

  lemma LastParen(head: string, tail: string)
    requires ')' !in tail
    ensures LastIndexOf(head + [')'] + tail, ')') == Some(|head|)
    ensures (head + [')'] + tail)[|head| + 1..] == tail
  {
    LastIndexOfAt(head, ')', tail);
  }

  /** The command name's closing parenthesis is the last one on the line. */
  lemma StatLineParen(pidWord: string, comm: string, f: seq<string>)
    requires |f| >= 1 && forall k :: 0 <= k < |f| ==> IsStatField(f[k])
    ensures LastIndexOf(StatLine(pidWord, comm, f), ')') == Some(|pidWord| + 2 + |comm|)
  {
    StatLineAround(pidWord, comm, f);
    FieldsAvoidParen(f);
    LastParen(pidWord + " (" + comm, [' '] + Join(f, ' '));
  }

  lemma StatLineTail(pidWord: string, comm: string, f: seq<string>)
    requires |f| >= 1
    ensures StatLine(pidWord, comm, f)[|pidWord| + 3 + |comm|..] == [' '] + Join(f, ' ')
  {
    var head := pidWord + " (" + comm;
    var tail := [' '] + Join(f, ' ');
    assert StatLine(pidWord, comm, f) == head + [')'] + tail;
    assert (head + [')'] + tail)[|head| + 1..] == tail;
  }

  /** The text after the command name's `)` splits into an empty piece and the fields. */
  lemma StatTailFields(f: seq<string>)
    requires |f| >= 1 && forall k :: 0 <= k < |f| ==> ' ' !in f[k]
    ensures SplitOn([' '] + Join(f, ' '), ' ') == [""] + f
  {
    var s := [' '] + Join(f, ' ');
    assert IndexOf(s, ' ') == 0;
    assert s[1..] == Join(f, ' ');
    SplitOnJoin(f, ' ');
  }

  lemma TimesAfterNameOf(f: seq<string>)
    requires |f| >= 42 && forall k :: 0 <= k < |f| ==> ' ' !in f[k]
    ensures TimesAfterName([' '] + Join(f, ' ')) == TimesOf(ParseU32(f[3]), ParseU64(f[11]), ParseU64(f[12]), ParseU64(f[40]))
  {
    StatTailFields(f);
    var fields := [""] + f;
    assert SplitOn([' '] + Join(f, ' '), ' ') == fields;
    assert fields[4] == f[3] && fields[12] == f[11] && fields[13] == f[12] && fields[41] == f[40];
  }

  /** Reading a well-formed stat line: session id from field 6, user and
      system time from fields 14 and 15, guest time from field 43, times
      scaled to milliseconds; the command name may be anything. */
  lemma StatTimesOfLine(pidWord: string, comm: string, f: seq<string>)
    requires |f| >= 42 && forall k :: 0 <= k < |f| ==> IsStatField(f[k])
    ensures StatTimesOf(StatLine(pidWord, comm, f)) == TimesOf(ParseU32(f[3]), ParseU64(f[11]), ParseU64(f[12]), ParseU64(f[40]))
  {
    StatLineParen(pidWord, comm, f);
    StatLineTail(pidWord, comm, f);
    TimesAfterNameOf(f);
  }

  /** Every piece of a line joined by single spaces. */
  lemma AsWrittenTokens(words: seq<string>)
    requires |words| >= 1 && forall k :: 0 <= k < |words| ==> ' ' !in words[k]
    ensures SplitOn(Join(words, ' '), ' ') == words
  {
    SplitOnJoin(words, ' ');
  }

  /** As written, token 43 is field 44 of proc(5), the children's guest time:
      for a thread with guest time `g` and children's guest time `cg`, the
      extraction reports `10 * cg` where `10 * g` is meant. */
  lemma GuestTokenIsChildrenGuest(pidWord: string, comm: string, f: seq<string>)
    requires |f| >= 42 && forall k :: 0 <= k < |f| ==> IsStatField(f[k])
    requires ' ' !in pidWord && ' ' !in comm
    ensures StatTimesAsWritten(StatLine(pidWord, comm, f)) == TimesOf(ParseU32(f[3]), ParseU64(f[11]), ParseU64(f[12]), ParseU64(f[41]))
    ensures StatTimesOf(StatLine(pidWord, comm, f)) == TimesOf(ParseU32(f[3]), ParseU64(f[11]), ParseU64(f[12]), ParseU64(f[40]))
  {
    var words := [pidWord, "(" + comm + ")"] + f;
    assert StatLine(pidWord, comm, f) == Join(words, ' ') by {
      assert words[1..] == ["(" + comm + ")"] + f;
      assert words[1..][1..] == f;
    }
    AsWrittenTokens(words);
    StatTimesOfLine(pidWord, comm, f);
  }

  /** As written, a command name holding one space shifts every token by one:
      the process group (field 5) is read as the session id, and so on. */
  lemma SpaceInNameShiftsTokens(pidWord: string, a: string, b: string, f: seq<string>)
    requires |f| >= 42 && forall k :: 0 <= k < |f| ==> IsStatField(f[k])
    requires ' ' !in pidWord && ' ' !in a && ' ' !in b
    ensures StatTimesAsWritten(StatLine(pidWord, a + " " + b, f)) == TimesOf(ParseU32(f[2]), ParseU64(f[10]), ParseU64(f[11]), ParseU64(f[40]))
    ensures StatTimesOf(StatLine(pidWord, a + " " + b, f)) == TimesOf(ParseU32(f[3]), ParseU64(f[11]), ParseU64(f[12]), ParseU64(f[40]))
  {
    var words := [pidWord, "(" + a, b + ")"] + f;
    var j := Join(f, ' ');
    assert StatLine(pidWord, a + " " + b, f) == Join(words, ' ') by {
      assert words[1..][1..] == [b + ")"] + f && words[1..][1..][1..] == f;
      assert Join(words[1..][1..], ' ') == (b + ")") + [' '] + j;
      assert words[1..] == ["(" + a, b + ")"] + f;
      assert Join(words[1..], ' ') == ("(" + a) + [' '] + ((b + ")") + [' '] + j);
      assert Join(words, ' ') == pidWord + [' '] + (("(" + a) + [' '] + ((b + ")") + [' '] + j));
    }
    AsWrittenTokens(words);
    StatTimesOfLine(pidWord, a + " " + b, f);
  }

  /** `get_sid_cumulative_user_system_guest_time` given how the times are
      read from the text: a vanished thread gives `None`, any other read
      error or malformed text panics. */
  function ReadStatWith(fs: ProcFs, st: TidStat, times: string -> Result<StatTimes>): Result<Option<StatTimes>> {
    var text := ReadFileToString(PreadAt(fs, TaskPath(st.pid, st.tid, "stat")));
    if text.Panic? then Panic
    else if text.value.None? then Ok(None)
    else
      var t := times(text.value.value);
      if t.Panic? then Panic else Ok(Some(t.value))
  }

  /** The function as written, with its token positions. */
  function ReadStatAsWritten(fs: ProcFs, st: TidStat): Result<Option<StatTimes>> {
    ReadStatWith(fs, st, StatTimesAsWritten)
  }

  /** The function with the corrected positions of `StatTimesOf`; this is the
      reading the ingestion uses. */
  function ReadStat(fs: ProcFs, st: TidStat): Result<Option<StatTimes>> {
    ReadStatWith(fs, st, StatTimesOf)
  }

  /** The outcome of reading one stat file: a thread that has vanished reads
      as `None` both ways; on a well-formed stat line the function as written
      takes the guest time from field 44 (`cguest_time`), the corrected one
      from field 43 (`guest_time`), and both agree on the session id and
      the user and system times. */
  lemma ReadStatOutcomes(fs: ProcFs, st: TidStat, pidWord: string, comm: string, f: seq<string>)
    requires |f| >= 42 && forall k :: 0 <= k < |f| ==> IsStatField(f[k])
    requires ' ' !in pidWord && ' ' !in comm
    ensures var text := ReadFileToString(PreadAt(fs, TaskPath(st.pid, st.tid, "stat")));
            && (text == Ok(None) ==> ReadStat(fs, st) == Ok(None) && ReadStatAsWritten(fs, st) == Ok(None))
            && (text.Panic? ==> ReadStat(fs, st).Panic? && ReadStatAsWritten(fs, st).Panic?)
    ensures var text := ReadFileToString(PreadAt(fs, TaskPath(st.pid, st.tid, "stat")));
            var written := TimesOf(ParseU32(f[3]), ParseU64(f[11]), ParseU64(f[12]), ParseU64(f[41]));
            var corrected := TimesOf(ParseU32(f[3]), ParseU64(f[11]), ParseU64(f[12]), ParseU64(f[40]));
            text == Ok(Some(StatLine(pidWord, comm, f))) ==>
              && ReadStatAsWritten(fs, st) == (if written.Panic? then Panic else Ok(Some(written.value)))
              && ReadStat(fs, st) == (if corrected.Panic? then Panic else Ok(Some(corrected.value)))
  {
    GuestTokenIsChildrenGuest(pidWord, comm, f);
  }
}
