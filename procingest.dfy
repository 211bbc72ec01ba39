/** crates/procinfo/src/ingest.rs: the per-tick process table. Each live
    process keeps the handles it was first seen with and, per thread, the
    cumulative counters of the previous tick; every tick rereads the counters
    and stores the difference. */
module ProcIngest {
  import opened Base
  import opened Text
  import opened Procfs

  // ---------------------------------------------------------------------------
  // Threads

  /** One thread: its handles, the cumulative counters read last, and the
      per-tick differences (bytes, and milliseconds cast to `u32`). */
  datatype ThreadIngest = ThreadIngest(
    io: Option<TidIo>,
    cumulativeReadBytes: nat, cumulativeWriteBytes: nat,
    readBytes: nat, writeBytes: nat,
    stat: TidStat, sid: nat,
    cumulativeUserMs: nat, cumulativeSystemMs: nat, cumulativeGuestMs: nat,
    userMs: nat, systemMs: nat, guestMs: nat)

  /** The `or_else` arm of `new_by_tid`: a thread seen for the first time. The
      io handle is optional, the stat handle is not; every counter starts at 0. */
  function FreshThread(fs: ProcFs, pid: nat, tid: nat): Result<Option<ThreadIngest>> {
    var io := TidIoNew(fs, pid, tid);
    if io.Panic? then Panic
    else
      var stat := TidStatNew(fs, pid, tid);
      if stat.Panic? then Panic
      else if stat.value.None? then Ok(None)
      else Ok(Some(ThreadIngest(io.value, 0, 0, 0, 0, stat.value.value, 0, 0, 0, 0, 0, 0, 0)))
  }

  /** The counters of one tick: bytes through the io handle, or (0, 0) without
      one; session id and times through the stat handle. */
  function TickWith(t: ThreadIngest, bytes: (nat, nat), times: StatTimes): ThreadIngest {
    ThreadIngest(
      t.io, bytes.0, bytes.1,
      SaturatingSub(bytes.0, t.cumulativeReadBytes), SaturatingSub(bytes.1, t.cumulativeWriteBytes),
      t.stat, times.sid, times.userMs, times.systemMs, times.guestMs,
      Truncate(SaturatingSub(times.userMs, t.cumulativeUserMs), U32_LIMIT),
      Truncate(SaturatingSub(times.systemMs, t.cumulativeSystemMs), U32_LIMIT),
      Truncate(SaturatingSub(times.guestMs, t.cumulativeGuestMs), U32_LIMIT))
  }

  /** One tick of one thread; a read that finds the thread gone gives `None`. */
  function Tick(fs: ProcFs, t: ThreadIngest): Result<Option<ThreadIngest>> {
    var bytes := if t.io.Some? then ReadIo(fs, t.io.value) else Ok(Some((0, 0)));
    if bytes.Panic? then Panic
    else if bytes.value.None? then Ok(None)
    else
      var times := ReadStat(fs, t.stat);
      if times.Panic? then Panic
      else if times.value.None? then Ok(None)
      else Ok(Some(TickWith(t, bytes.value.value, times.value.value)))
  }

  /** The same tick, reading the io counters through their method. */
  method TickThread(fs: ProcFs, t: ThreadIngest) returns (r: Result<Option<ThreadIngest>>)
    ensures r == Tick(fs, t)
  {
    var bytes: Result<Option<(nat, nat)>> := Ok(Some((0, 0)));
    if t.io.Some? {
      bytes := GetCumulativeReadWriteBytes(fs, t.io.value);
    }
    if bytes.Panic? {
      return Panic;
    }
    if bytes.value.None? {
      return Ok(None);
    }
    var times := ReadStat(fs, t.stat);
    if times.Panic? {
      return Panic;
    }
    if times.value.None? {
      return Ok(None);
    }
    r := Ok(Some(TickWith(t, bytes.value.value, times.value.value)));
  }

  /** A tick keeps the handles, stores this tick's readings and reports the
      saturating differences: never negative, 0 for a counter that went
      backwards, times cast to `u32`. */
  lemma TickDifferences(fs: ProcFs, t: ThreadIngest)
    requires Tick(fs, t).Ok? && Tick(fs, t).value.Some?
    ensures var u := Tick(fs, t).value.value;
            && u.io == t.io && u.stat == t.stat
            && (u.cumulativeReadBytes >= t.cumulativeReadBytes ==> u.readBytes + t.cumulativeReadBytes == u.cumulativeReadBytes)
            && (u.cumulativeReadBytes < t.cumulativeReadBytes ==> u.readBytes == 0)
            && (u.cumulativeWriteBytes >= t.cumulativeWriteBytes ==> u.writeBytes + t.cumulativeWriteBytes == u.cumulativeWriteBytes)
            && (u.cumulativeWriteBytes < t.cumulativeWriteBytes ==> u.writeBytes == 0)
            && u.userMs < U32_LIMIT && u.systemMs < U32_LIMIT && u.guestMs < U32_LIMIT
            && (t.cumulativeUserMs <= u.cumulativeUserMs < t.cumulativeUserMs + U32_LIMIT ==> u.userMs + t.cumulativeUserMs == u.cumulativeUserMs)
            && (u.cumulativeUserMs < t.cumulativeUserMs ==> u.userMs == 0)
            && (u.cumulativeSystemMs < t.cumulativeSystemMs ==> u.systemMs == 0)
            && (u.cumulativeGuestMs < t.cumulativeGuestMs ==> u.guestMs == 0)
  {
  }

  /** A thread without an io handle reports no disk traffic. */
  lemma NoIoNoBytes(fs: ProcFs, t: ThreadIngest)
    requires t.io.None? && Tick(fs, t).Ok? && Tick(fs, t).value.Some?
    ensures Tick(fs, t).value.value.readBytes == 0 && Tick(fs, t).value.value.writeBytes == 0
  {
  }

  /** A thread seen for the first time has stored counters of 0, so its first
      tick reports its whole cumulative reading. */
  lemma FreshThreadFirstTick(fs: ProcFs, pid: nat, tid: nat)
    requires FreshThread(fs, pid, tid).Ok? && FreshThread(fs, pid, tid).value.Some?
    requires Tick(fs, FreshThread(fs, pid, tid).value.value).Ok?
    requires Tick(fs, FreshThread(fs, pid, tid).value.value).value.Some?
    ensures var u := Tick(fs, FreshThread(fs, pid, tid).value.value).value.value;
            && u.readBytes == u.cumulativeReadBytes && u.writeBytes == u.cumulativeWriteBytes
            && u.userMs == Truncate(u.cumulativeUserMs, U32_LIMIT)
            && u.systemMs == Truncate(u.cumulativeSystemMs, U32_LIMIT)
            && u.guestMs == Truncate(u.cumulativeGuestMs, U32_LIMIT)
  {
  }

  /** Two consecutive ticks: the second reports what the counters grew by
      between the two readings. */
  lemma TwoTicks(fs1: ProcFs, fs2: ProcFs, t: ThreadIngest, s1: StatTimes, s2: StatTimes)
    requires ReadStat(fs1, t.stat) == Ok(Some(s1)) && ReadStat(fs2, t.stat) == Ok(Some(s2))
    requires Tick(fs1, t).Ok? && Tick(fs1, t).value.Some?
    requires Tick(fs2, Tick(fs1, t).value.value).Ok? && Tick(fs2, Tick(fs1, t).value.value).value.Some?
    requires s1.userMs <= s2.userMs < s1.userMs + U32_LIMIT
    ensures Tick(fs2, Tick(fs1, t).value.value).value.value.userMs == s2.userMs - s1.userMs
  {
    var u1 := Tick(fs1, t).value.value;
    assert u1.cumulativeUserMs == s1.userMs;
    assert u1.stat == t.stat;
    var u2 := Tick(fs2, u1).value.value;
    assert u2.cumulativeUserMs == s2.userMs;
    TickDifferences(fs2, u1);
  }

  /** With the ×10 of the stat parser: 250 more jiffies of user time between
      two ticks are 2500 ms in the second. */
  lemma UserJiffies(fs1: ProcFs, fs2: ProcFs, t: ThreadIngest, j: nat)
    requires ReadStat(fs1, t.stat).Ok? && ReadStat(fs1, t.stat).value.Some?
    requires ReadStat(fs2, t.stat).Ok? && ReadStat(fs2, t.stat).value.Some?
    requires ReadStat(fs1, t.stat).value.value.userMs == 10 * j
    requires ReadStat(fs2, t.stat).value.value.userMs == 10 * (j + 250)
    requires Tick(fs1, t).Ok? && Tick(fs1, t).value.Some?
    requires Tick(fs2, Tick(fs1, t).value.value).Ok? && Tick(fs2, Tick(fs1, t).value.value).value.Some?
    ensures Tick(fs2, Tick(fs1, t).value.value).value.value.userMs == 2500
  {
    TwoTicks(fs1, fs2, t, ReadStat(fs1, t.stat).value.value, ReadStat(fs2, t.stat).value.value);
  }

  /** One loop turn of `new_by_tid`: the stored thread, or a fresh one, ticked. */
  function ThreadStep(fs: ProcFs, pid: nat, tid: nat, prev: map<nat, ThreadIngest>): Result<Option<ThreadIngest>> {
    var base := if tid in prev then Ok(Some(prev[tid])) else FreshThread(fs, pid, tid);
    if base.Panic? then Panic
    else if base.value.None? then Ok(None)
    else Tick(fs, base.value.value)
  }

  /** The loop turn of one process, as a value. */
  function Stepper(fs: ProcFs, pid: nat): (nat, map<nat, ThreadIngest>) -> Result<Option<ThreadIngest>> {
    (tid, prev) => ThreadStep(fs, pid, tid, prev)
  }

  /** The rest of the loop: `tids` still to visit, `prev` the stored entries
      not yet taken, `acc` the entries built so far. An unreadable tid panics;
      an entry that cannot be stepped ends the loop with `None`. */
  function ByTidFrom<T>(step: (nat, map<nat, T>) -> Result<Option<T>>, tids: seq<Option<nat>>, prev: map<nat, T>, acc: map<nat, T>): Result<Option<map<nat, T>>>
    decreases |tids|
  {
    if tids == [] then Ok(Some(acc))
    else if tids[0].None? then Panic
    else
      var tid := tids[0].value;
      var t := step(tid, prev);
      if t.Panic? then Panic
      else if t.value.None? then Ok(None)
      else ByTidFrom(step, tids[1..], prev - {tid}, acc[tid := t.value.value])
  }

  /** The loop of `new_by_tid`: take each entry out of `prev`, step it and
      insert it into the result. */
  method VisitTids<T>(step: (nat, map<nat, T>) -> Result<Option<T>>, tids: seq<Option<nat>>, prev: map<nat, T>) returns (r: Result<Option<map<nat, T>>>)
    ensures r == ByTidFrom(step, tids, prev, map[])
  {
    var stored := prev;
    var acc: map<nat, T> := map[];
    var i := 0;
    while i < |tids|
      invariant i <= |tids|
      invariant ByTidFrom(step, tids, prev, map[]) == ByTidFrom(step, tids[i..], stored, acc)
    {
      assert tids[i..][1..] == tids[i + 1..];
      if tids[i].None? {
        return Panic;
      }
      var tid := tids[i].value;
      var t := step(tid, stored);
      stored := stored - {tid};
      if t.Panic? {
        return Panic;
      }
      if t.value.None? {
        return Ok(None);
      }
      acc := acc[tid := t.value.value];
      i := i + 1;
    }
    r := Ok(Some(acc));
  }

  /** The tids to visit: only the pid itself for a single-threaded process,
      otherwise the task directory's listing. */
  function Candidates(fs: ProcFs, pid: nat, singleThreaded: bool): Result<seq<Option<nat>>> {
    if singleThreaded then Ok([Some(pid)]) else GetLiveTids(fs, pid)
  }

  /** The value of `new_by_tid`. */
  function NewByTidSpec(fs: ProcFs, pid: nat, prev: map<nat, ThreadIngest>, singleThreaded: bool): Result<Option<map<nat, ThreadIngest>>> {
    var tids := Candidates(fs, pid, singleThreaded);
    if tids.Panic? then Panic else ByTidFrom(Stepper(fs, pid), tids.value, prev, map[])
  }

  /** `ThreadIngest::new_by_tid`. */
  method NewByTid(fs: ProcFs, pid: nat, prev: map<nat, ThreadIngest>, singleThreaded: bool) returns (r: Result<Option<map<nat, ThreadIngest>>>)
    ensures r == NewByTidSpec(fs, pid, prev, singleThreaded)
  {
    var tids := Candidates(fs, pid, singleThreaded);
    if tids.Panic? {
      return Panic;
    }
    r := VisitTids(Stepper(fs, pid), tids.value, prev);
  }

  /** The tids a listing names, once every entry parsed. */
  function ListedTids(tids: seq<Option<nat>>): (r: set<nat>)
    ensures forall k :: 0 <= k < |tids| && tids[k].Some? ==> tids[k].value in r
    ensures forall t :: t in r ==> exists k :: 0 <= k < |tids| && tids[k] == Some(t)
    decreases |tids|
  {
    if tids == [] then {}
    else
      var rest := ListedTids(tids[1..]);
      assert forall k :: 1 <= k < |tids| ==> tids[k] == tids[1..][k - 1];
      if tids[0].Some? then {tids[0].value} + rest else rest
  }

  /** A completed loop holds exactly the entries it started with plus the listed tids. */
  lemma {:induction false} ByTidFromKeys<T>(step: (nat, map<nat, T>) -> Result<Option<T>>, tids: seq<Option<nat>>, prev: map<nat, T>, acc: map<nat, T>)
    requires ByTidFrom(step, tids, prev, acc).Ok? && ByTidFrom(step, tids, prev, acc).value.Some?
    ensures ByTidFrom(step, tids, prev, acc).value.value.Keys == acc.Keys + ListedTids(tids)
    decreases |tids|
  {
    if tids != [] {
      var tid := tids[0].value;
      var t := step(tid, prev);
      ByTidFromKeys(step, tids[1..], prev - {tid}, acc[tid := t.value.value]);
    }
  }

  predicate Distinct(tids: seq<Option<nat>>) {
    forall j, k :: 0 <= j < k < |tids| ==> tids[j] != tids[k]
  }

  /** With distinct tids, every listed entry is the step of its stored state
      (or of a fresh one): the counters carried from the previous tick are the
      ones it is differenced against. */
  lemma {:induction false} ByTidFromSteps<T(!new)>(step: (nat, map<nat, T>) -> Result<Option<T>>, tids: seq<Option<nat>>, prev: map<nat, T>, acc: map<nat, T>, k: nat)
    requires Local(step) && Distinct(tids) && k < |tids| && tids[k].Some?
    requires ByTidFrom(step, tids, prev, acc).Ok? && ByTidFrom(step, tids, prev, acc).value.Some?
    ensures tids[k].value in ByTidFrom(step, tids, prev, acc).value.value
    ensures step(tids[k].value, prev) == Ok(Some(ByTidFrom(step, tids, prev, acc).value.value[tids[k].value]))
    decreases |tids|
  {
    var tid := tids[0].value;
    var t := step(tid, prev);
    var rest := tids[1..];
    var next := acc[tid := t.value.value];
    assert ByTidFrom(step, tids, prev, acc) == ByTidFrom(step, rest, prev - {tid}, next);
    if k == 0 {
      ByTidFromKeys(step, rest, prev - {tid}, next);
      ByTidFromUntouched(step, rest, prev - {tid}, next, tid);
    } else {
      assert rest[k - 1] == tids[k];
      assert Distinct(rest) by {
        forall j, l | 0 <= j < l < |rest| ensures rest[j] != rest[l] {
          assert rest[j] == tids[j + 1] && rest[l] == tids[l + 1];
        }
      }
      assert tids[k].value != tid;
      ByTidFromSteps(step, rest, prev - {tid}, next, k - 1);
    }
  }

  /** A loop turn looks at no stored entry but its own tid's. */
  ghost predicate Local<T(!new)>(step: (nat, map<nat, T>) -> Result<Option<T>>) {
    forall tid: nat, prev: map<nat, T>, other: nat {:trigger step(tid, prev - {other})} ::
      other != tid ==> step(tid, prev - {other}) == step(tid, prev)
  }

  lemma StepperIsLocal(fs: ProcFs, pid: nat)
    ensures Local(Stepper(fs, pid))
  {
    forall tid: nat, prev: map<nat, ThreadIngest>, other: nat | other != tid
      ensures Stepper(fs, pid)(tid, prev - {other}) == Stepper(fs, pid)(tid, prev)
    {
      assert (tid in prev - {other}) == (tid in prev);
    }
  }

  /** A tid the rest of the listing does not name keeps its accumulated entry. */
  lemma {:induction false} ByTidFromUntouched<T>(step: (nat, map<nat, T>) -> Result<Option<T>>, tids: seq<Option<nat>>, prev: map<nat, T>, acc: map<nat, T>, tid: nat)
    requires tid in acc && tid !in ListedTids(tids)
    requires ByTidFrom(step, tids, prev, acc).Ok? && ByTidFrom(step, tids, prev, acc).value.Some?
    ensures tid in ByTidFrom(step, tids, prev, acc).value.value
    ensures ByTidFrom(step, tids, prev, acc).value.value[tid] == acc[tid]
    decreases |tids|
  {
    if tids != [] {
      var t0 := tids[0].value;
      var t := step(t0, prev);
      assert t0 in ListedTids(tids);
      ByTidFromUntouched(step, tids[1..], prev - {t0}, acc[t0 := t.value.value], tid);
    }
  }

  /** If one listed thread cannot be stepped (its stat handle does not open,
      or a read finds it gone), the whole process is left out of the tick. */
  lemma OneThreadGoneDropsProcess(fs: ProcFs, pid: nat, tids: seq<Option<nat>>, prev: map<nat, ThreadIngest>, k: nat)
    requires Distinct(tids) && k < |tids| && tids[k].Some?
    requires ThreadStep(fs, pid, tids[k].value, prev) == Ok(None)
    ensures !(ByTidFrom(Stepper(fs, pid), tids, prev, map[]).Ok? && ByTidFrom(Stepper(fs, pid), tids, prev, map[]).value.Some?)
  {
    if ByTidFrom(Stepper(fs, pid), tids, prev, map[]).Ok? && ByTidFrom(Stepper(fs, pid), tids, prev, map[]).value.Some? {
      StepperIsLocal(fs, pid);
      ByTidFromSteps(Stepper(fs, pid), tids, prev, map[], k);
    }
  }

  /** Every thread of a completed loop over distinct tids is the tick of its
      stored state, or of a fresh thread when none was stored. */
  lemma ThreadsAreSteps(fs: ProcFs, pid: nat, tids: seq<Option<nat>>, prev: map<nat, ThreadIngest>, k: nat)
    requires Distinct(tids) && k < |tids| && tids[k].Some?
    requires ByTidFrom(Stepper(fs, pid), tids, prev, map[]).Ok? && ByTidFrom(Stepper(fs, pid), tids, prev, map[]).value.Some?
    ensures var m := ByTidFrom(Stepper(fs, pid), tids, prev, map[]).value.value;
            var tid := tids[k].value;
            && tid in m
            && (tid in prev ==> Tick(fs, prev[tid]) == Ok(Some(m[tid])))
            && (tid !in prev ==> FreshThread(fs, pid, tid).Ok? && FreshThread(fs, pid, tid).value.Some?
                                 && Tick(fs, FreshThread(fs, pid, tid).value.value) == Ok(Some(m[tid])))
  {
    StepperIsLocal(fs, pid);
    ByTidFromSteps(Stepper(fs, pid), tids, prev, map[], k);
  }

  /** A single-threaded process is stepped as its one thread, the pid itself,
      without listing the task directory. */
  lemma SingleThreadedKeys(fs: ProcFs, pid: nat, prev: map<nat, ThreadIngest>)
    requires NewByTidSpec(fs, pid, prev, true).Ok? && NewByTidSpec(fs, pid, prev, true).value.Some?
    ensures NewByTidSpec(fs, pid, prev, true).value.value.Keys == {pid}
  {
    ByTidFromKeys(Stepper(fs, pid), [Some(pid)], prev, map[]);
    assert ListedTids([Some(pid)]) == {pid};
  }

  // ---------------------------------------------------------------------------
  // Processes

  /** One process: identity and status handle from its first sighting, the
      status fields of this tick, and its threads. */
  datatype ProcessIngest = ProcessIngest(
    kernel: bool, name: string, cmdline: Option<string>,
    byTid: map<nat, ThreadIngest>,
    status: PidStatus, uid: nat, gid: nat, vmRssKb: nat)

  /** The `or_else` arm of `new_from_old`: a process seen for the first time. */
  function FreshProcess(fs: ProcFs, pid: nat): Result<Option<ProcessIngest>> {
    var id := GetIsKernelNameCmdline(fs, pid);
    if id.Panic? then Panic
    else if id.value.None? then Ok(None)
    else
      var identity := id.value.value;
      var status := PidStatusNew(fs, pid, identity.kernel);
      if status.Panic? then Panic
      else if status.value.None? then Ok(None)
      else Ok(Some(ProcessIngest(identity.kernel, identity.name, identity.cmdline, map[], status.value.value, 0, 0, 0)))
  }

  /** The value of `new_from_old`: the stored entry (or a fresh one) with this
      tick's status fields and threads. */
  function NewFromOld(fs: ProcFs, pid: nat, prev: Option<ProcessIngest>): Result<Option<ProcessIngest>> {
    var base := if prev.Some? then Ok(prev) else FreshProcess(fs, pid);
    if base.Panic? then Panic
    else if base.value.None? then Ok(None)
    else
      var p := base.value.value;
      var fields := ReadStatus(fs, p.status);
      if fields.Panic? then Panic
      else if fields.value.None? then Ok(None)
      else
        var f := fields.value.value;
        var byTid := NewByTidSpec(fs, pid, p.byTid, f.threads == 1);
        if byTid.Panic? then Panic
        else if byTid.value.None? then Ok(None)
        else Ok(Some(ProcessIngest(p.kernel, p.name, p.cmdline, byTid.value.value, p.status, f.uid, f.gid, f.vmRssKb)))
  }

  /** `ProcessIngest::new_from_old`. */
  method NewFromOldStep(fs: ProcFs, pid: nat, prev: Option<ProcessIngest>) returns (r: Result<Option<ProcessIngest>>)
    ensures r == NewFromOld(fs, pid, prev)
  {
    var base := if prev.Some? then Ok(prev) else FreshProcess(fs, pid);
    if base.Panic? {
      return Panic;
    }
    if base.value.None? {
      return Ok(None);
    }
    var p := base.value.value;
    var fields := GetUidGidVmRssKbThreads(fs, p.status);
    if fields.Panic? {
      return Panic;
    }
    if fields.value.None? {
      return Ok(None);
    }
    var f := fields.value.value;
    var byTid := NewByTid(fs, pid, p.byTid, f.threads == 1);
    if byTid.Panic? {
      return Panic;
    }
    if byTid.value.None? {
      return Ok(None);
    }
    r := Ok(Some(ProcessIngest(p.kernel, p.name, p.cmdline, byTid.value.value, p.status, f.uid, f.gid, f.vmRssKb)));
  }

  /** A process seen before keeps its kind, name, command line and status
      handle; its uid, gid and resident set are this tick's. */
  lemma NewFromOldKeepsIdentity(fs: ProcFs, pid: nat, p: ProcessIngest)
    requires NewFromOld(fs, pid, Some(p)).Ok? && NewFromOld(fs, pid, Some(p)).value.Some?
    ensures var q := NewFromOld(fs, pid, Some(p)).value.value;
            && q.kernel == p.kernel && q.name == p.name && q.cmdline == p.cmdline && q.status == p.status
            && ReadStatus(fs, p.status).Ok? && ReadStatus(fs, p.status).value.Some?
            && var f := ReadStatus(fs, p.status).value.value;
            && q.uid == f.uid && q.gid == f.gid && q.vmRssKb == f.vmRssKb
  {
  }

  /** A process whose status reports one thread has exactly that thread, the pid. */
  lemma SingleThreadedProcess(fs: ProcFs, pid: nat, prev: Option<ProcessIngest>)
    requires NewFromOld(fs, pid, prev).Ok? && NewFromOld(fs, pid, prev).value.Some?
    ensures var q := NewFromOld(fs, pid, prev).value.value;
            ReadStatus(fs, q.status).Ok? && ReadStatus(fs, q.status).value.Some?
            && (ReadStatus(fs, q.status).value.value.threads == 1 ==> q.byTid.Keys == {pid})
  {
    var base := if prev.Some? then Ok(prev) else FreshProcess(fs, pid);
    var p := base.value.value;
    var f := ReadStatus(fs, p.status).value.value;
    if f.threads == 1 {
      SingleThreadedKeys(fs, pid, p.byTid);
    }
  }

  // ---------------------------------------------------------------------------
  // The table

  /** The entry stored for `pid`, taken out of the old table by `remove`. */
  function Stored(prev: map<nat, ProcessIngest>, pid: nat): Option<ProcessIngest> {
    if pid in prev then Some(prev[pid]) else None
  }

  /** The rest of the collection in `ProcIngest::update`: `pids` still to
      visit, `prev` the stored entries not yet taken, `acc` the table so far;
      a process that cannot be read this tick is left out. */
  function Collect(fs: ProcFs, pids: seq<nat>, prev: map<nat, ProcessIngest>, acc: map<nat, ProcessIngest>): Result<map<nat, ProcessIngest>>
    decreases |pids|
  {
    if pids == [] then Ok(acc)
    else
      var pid := pids[0];
      var p := NewFromOld(fs, pid, Stored(prev, pid));
      if p.Panic? then Panic
      else Collect(fs, pids[1..], prev - {pid}, if p.value.Some? then acc[pid := p.value.value] else acc)
  }

  /** The table after `ProcIngest::update`. */
  function UpdatedByPid(fs: ProcFs, byPid: map<nat, ProcessIngest>): Result<map<nat, ProcessIngest>> {
    var pids := GetLivePids(fs);
    if pids.Panic? then Panic else Collect(fs, pids.value, byPid, map[])
  }

  /** Only visited pids are added to the table. */
  lemma {:induction false} CollectKeys(fs: ProcFs, pids: seq<nat>, prev: map<nat, ProcessIngest>, acc: map<nat, ProcessIngest>)
    requires Collect(fs, pids, prev, acc).Ok?
    ensures forall pid :: pid in Collect(fs, pids, prev, acc).value ==> pid in acc || pid in pids
    decreases |pids|
  {
    if pids != [] {
      var pid := pids[0];
      var p := NewFromOld(fs, pid, Stored(prev, pid));
      CollectKeys(fs, pids[1..], prev - {pid}, if p.value.Some? then acc[pid := p.value.value] else acc);
    }
  }

  /** A pid the rest of the listing does not name keeps its entry. */
  lemma {:induction false} CollectUntouched(fs: ProcFs, pids: seq<nat>, prev: map<nat, ProcessIngest>, acc: map<nat, ProcessIngest>, pid: nat)
    requires pid in acc && pid !in pids && Collect(fs, pids, prev, acc).Ok?
    ensures pid in Collect(fs, pids, prev, acc).value && Collect(fs, pids, prev, acc).value[pid] == acc[pid]
    decreases |pids|
  {
    if pids != [] {
      var p0 := pids[0];
      var p := NewFromOld(fs, p0, Stored(prev, p0));
      assert pid !in pids[1..];
      CollectUntouched(fs, pids[1..], prev - {p0}, if p.value.Some? then acc[p0 := p.value.value] else acc, pid);
    }
  }

  predicate DistinctPids(pids: seq<nat>) {
    forall j, k :: 0 <= j < k < |pids| ==> pids[j] != pids[k]
  }

  /** Dropping the first of distinct pids leaves distinct pids without it. */
  lemma DistinctTail(pids: seq<nat>)
    requires DistinctPids(pids) && pids != []
    ensures DistinctPids(pids[1..]) && pids[0] !in pids[1..]
  {
    var rest := pids[1..];
    forall j | 0 <= j < |rest| ensures rest[j] != pids[0] {
      assert rest[j] == pids[j + 1];
    }
    forall j, l | 0 <= j < l < |rest| ensures rest[j] != rest[l] {
      assert rest[j] == pids[j + 1] && rest[l] == pids[l + 1];
    }
  }

  /** With distinct live pids, a pid is in the new table exactly when
      `new_from_old` gives it an entry this tick, and then that entry is built
      from the stored one (identity and handles kept) or from a fresh sighting. */
  lemma {:induction false} CollectSteps(fs: ProcFs, pids: seq<nat>, prev: map<nat, ProcessIngest>, acc: map<nat, ProcessIngest>, k: nat)
    requires DistinctPids(pids) && k < |pids| && pids[k] !in acc
    requires Collect(fs, pids, prev, acc).Ok?
    ensures NewFromOld(fs, pids[k], Stored(prev, pids[k])).Ok?
    ensures var q := NewFromOld(fs, pids[k], Stored(prev, pids[k])).value;
            && (pids[k] in Collect(fs, pids, prev, acc).value <==> q.Some?)
            && (q.Some? ==> Collect(fs, pids, prev, acc).value[pids[k]] == q.value)
    decreases |pids|
  {
    var p0 := pids[0];
    var p := NewFromOld(fs, p0, Stored(prev, p0));
    var rest := pids[1..];
    var next := if p.value.Some? then acc[p0 := p.value.value] else acc;
    assert Collect(fs, pids, prev, acc) == Collect(fs, rest, prev - {p0}, next);
    DistinctTail(pids);
    if k == 0 {
      if p.value.Some? {
        CollectUntouched(fs, rest, prev - {p0}, next, p0);
      } else {
        CollectKeys(fs, rest, prev - {p0}, next);
      }
    } else {
      assert rest[k - 1] == pids[k] && pids[k] != p0;
      assert Stored(prev - {p0}, pids[k]) == Stored(prev, pids[k]);
      CollectSteps(fs, rest, prev - {p0}, next, k - 1);
    }
  }

  /** After a tick the table holds only live pids: a pid whose /proc entry is
      gone is dropped with everything stored for it. */
  lemma UpdatedKeysAreLive(fs: ProcFs, byPid: map<nat, ProcessIngest>)
    requires UpdatedByPid(fs, byPid).Ok?
    ensures "/proc" in fs.dirs
    ensures forall pid :: pid in UpdatedByPid(fs, byPid).value ==>
              exists i :: 0 <= i < |fs.dirs["/proc"]| && DirentryAsU32(fs.dirs["/proc"][i]) == Some(pid)
  {
    var pids := GetLivePids(fs).value;
    CollectKeys(fs, pids, byPid, map[]);
    forall pid | pid in UpdatedByPid(fs, byPid).value
      ensures exists i :: 0 <= i < |fs.dirs["/proc"]| && DirentryAsU32(fs.dirs["/proc"][i]) == Some(pid)
    {
      NumericEntriesKeep(fs.dirs["/proc"], pid);
    }
  }

  class ProcIngest {
    var byPid: map<nat, ProcessIngest>

    /** An empty table; `ProcIngest::new` then runs one `update`. */
    constructor Empty()
      ensures byPid == map[]
    {
      byPid := map[];
    }

    /** `ProcIngest::update`: rebuild the table from the live pids, taking each
        stored entry out of the old table as its pid is visited. Returns whether
        the tick panicked; otherwise the table is `UpdatedByPid`. */
    method Update(fs: ProcFs) returns (panicked: bool)
      modifies this
      ensures panicked <==> UpdatedByPid(fs, old(byPid)).Panic?
      ensures !panicked ==> byPid == UpdatedByPid(fs, old(byPid)).value
    {
      var pids := GetLivePids(fs);
      if pids.Panic? {
        return true;
      }
      var ps := pids.value;
      var stored := byPid;
      var acc: map<nat, ProcessIngest> := map[];
      var i := 0;
      while i < |ps|
        invariant i <= |ps| && byPid == old(byPid)
        invariant UpdatedByPid(fs, byPid) == Collect(fs, ps[i..], stored, acc)
      {
        assert ps[i..][1..] == ps[i + 1..];
        var pid := ps[i];
        var prevEntry := if pid in stored then Some(stored[pid]) else None;
        stored := stored - {pid};
        var p := NewFromOldStep(fs, pid, prevEntry);
        if p.Panic? {
          return true;
        }
        if p.value.Some? {
          acc := acc[pid := p.value.value];
        }
        i := i + 1;
      }
      byPid := acc;
      panicked := false;
    }
  }
}
