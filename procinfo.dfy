/** crates/procinfo/src/info.rs: the process hierarchy shown to the user.
    Each tick the ingested table is flattened into threads, then processes
    (pid order), then runs of processes sharing a session id, then two login
    sessions; every level's `ProcStat` is the sum of the level below. */
module ProcInfo {
  import opened Base
  import opened Text
  import opened Ingest = ProcIngest

  // ---------------------------------------------------------------------------
  // ProcStat

  /** The `u64` counters are unbounded integers here; every value put in them
      is a sum of naturals. */
  datatype ProcStat = ProcStat(
    guestMs: int, userMs: int, systemMs: int,
    diskReadPerSecond: int, diskWritePerSecond: int, memBytes: int)

  /** `ProcStat::ZERO`. */
  const ZERO: ProcStat := ProcStat(0, 0, 0, 0, 0, 0)

  /** `impl Add for ProcStat`: fieldwise. */
  function Add(a: ProcStat, b: ProcStat): ProcStat {
    ProcStat(a.guestMs + b.guestMs, a.userMs + b.userMs, a.systemMs + b.systemMs,
             a.diskReadPerSecond + b.diskReadPerSecond, a.diskWritePerSecond + b.diskWritePerSecond,
             a.memBytes + b.memBytes)
  }

  /** `ZERO` is the identity of `Add`, which is commutative and associative:
      a fold of stats does not depend on how it is grouped. */
  lemma AddMonoid(a: ProcStat, b: ProcStat, c: ProcStat)
    ensures Add(ZERO, a) == a && Add(a, ZERO) == a
    ensures Add(a, b) == Add(b, a)
    ensures Add(Add(a, b), c) == Add(a, Add(b, c))
  {
  }

  /** `iter().map(stat).fold(ZERO, add)`: the left fold of the stats. */
  function Total<T>(xs: seq<T>, stat: T -> ProcStat): ProcStat
    decreases |xs|
  {
    if xs == [] then ZERO else Add(Total(xs[..|xs| - 1], stat), stat(xs[|xs| - 1]))
  }

  /** Summing two runs is summing their sums. */
  lemma {:induction false} TotalAppend<T>(a: seq<T>, b: seq<T>, stat: T -> ProcStat)
    ensures Total(a + b, stat) == Add(Total(a, stat), Total(b, stat))
    decreases |b|
  {
    if b == [] {
      assert a + b == a;
    } else {
      var c := a + b;
      assert c[..|c| - 1] == a + b[..|b| - 1];
      TotalAppend(a, b[..|b| - 1], stat);
      AddMonoid(Total(a, stat), Total(b[..|b| - 1], stat), stat(b[|b| - 1]));
    }
  }

  // ---------------------------------------------------------------------------
  // The four levels

  datatype Lsid = Kernel | SystemdServices | SystemdSession(seat: nat)

  datatype LoginSessionInfo = LoginSessionInfo(lsid: Lsid, stat: ProcStat)
  datatype SessionInfo = SessionInfo(parentLsid: Lsid, sid: nat, stat: ProcStat)
  datatype ProcessInfo = ProcessInfo(parentSid: nat, pid: nat, uid: nat, gid: nat, cmdline: Option<string>, stat: ProcStat)
  datatype ThreadInfo = ThreadInfo(parentPid: nat, tid: nat, stat: ProcStat)

  function ThreadStatOf(t: ThreadInfo): ProcStat { t.stat }
  function ProcessStatOf(p: ProcessInfo): ProcStat { p.stat }
  function SessionStatOf(s: SessionInfo): ProcStat { s.stat }

  /** `update_hz`, fixed at 1 by `ProcInfo::new`. */
  const UPDATE_HZ: nat := 1

  /** A thread's row: its per-tick times, its disk traffic per second, and the
      resident set of its process. */
  function ThreadStat(t: ThreadIngest, memBytes: nat): ProcStat {
    ProcStat(t.guestMs, t.userMs, t.systemMs, t.readBytes / UPDATE_HZ, t.writeBytes / UPDATE_HZ, memBytes)
  }

  /** The rows pushed for the threads `tids` of process `pid`, in that order. */
  function ThreadRows(pid: nat, p: ProcessIngest, tids: seq<nat>): (r: seq<ThreadInfo>)
    requires forall k :: 0 <= k < |tids| ==> tids[k] in p.byTid
    ensures |r| == |tids|
    ensures forall k :: 0 <= k < |tids| ==> r[k] == ThreadInfo(pid, tids[k], ThreadStat(p.byTid[tids[k]], p.vmRssKb))
    decreases |tids|
  {
    if tids == [] then []
    else
      var n := |tids| - 1;
      ThreadRows(pid, p, tids[..n]) + [ThreadInfo(pid, tids[n], ThreadStat(p.byTid[tids[n]], p.vmRssKb))]
  }

  /** The rows of one process's threads, in ascending tid order. */
  function ProcessRows(pid: nat, p: ProcessIngest): seq<ThreadInfo> {
    ThreadRows(pid, p, SortedKeys(p.byTid))
  }

  /** A process's row: the session of its lowest-numbered thread, and the sum
      of its threads' rows with the resident set counted once. A process
      without threads never gets a row (it panics first); its session is
      then left at 0. */
  function ProcessOf(pid: nat, p: ProcessIngest, rows: seq<ThreadInfo>): ProcessInfo {
    var sid := if p.byTid.Keys == {} then 0 else p.byTid[MinKey(p.byTid.Keys)].sid;
    ProcessInfo(sid, pid, p.uid, p.gid, p.cmdline, Total(rows, ThreadStatOf).(memBytes := p.vmRssKb))
  }

  /** Threads and processes after visiting `pids` in order, given how one
      process's thread rows and its own row are formed; a process without
      threads makes `first_key_value().unwrap()` panic. */
  function FlattenWith(byPid: map<nat, ProcessIngest>, pids: seq<nat>,
                       rowsOf: (nat, ProcessIngest) -> seq<ThreadInfo>,
                       procOf: (nat, ProcessIngest, seq<ThreadInfo>) -> ProcessInfo)
    : Result<(seq<ThreadInfo>, seq<ProcessInfo>)>
    requires forall k :: 0 <= k < |pids| ==> pids[k] in byPid
    decreases |pids|
  {
    if pids == [] then Ok(([], []))
    else
      var before := FlattenWith(byPid, pids[..|pids| - 1], rowsOf, procOf);
      var pid := pids[|pids| - 1];
      var p := byPid[pid];
      if before.Panic? || |p.byTid| == 0 then Panic
      else
        var rows := rowsOf(pid, p);
        Ok((before.value.0 + rows, before.value.1 + [procOf(pid, p, rows)]))
  }

  /** The first loop of `update`: every process in pid order. */
  function Flatten(byPid: map<nat, ProcessIngest>): Result<(seq<ThreadInfo>, seq<ProcessInfo>)> {
    FlattenWith(byPid, SortedKeys(byPid), ProcessRows, ProcessOf)
  }

  /** Session 0 holds the kernel threads; every other session is a service. */
  function LsidOf(sid: nat): Lsid {
    if sid == 0 then Kernel else SystemdServices
  }

  /** The process starts a session: there is none yet, or the last one has
      another id. */
  predicate Opens(ss: seq<SessionInfo>, p: ProcessInfo) {
    ss == [] || ss[|ss| - 1].sid != p.parentSid
  }

  /** A new session, with a zero stat, unless the last one already has the
      process's session id. */
  function OpenSession(ss: seq<SessionInfo>, p: ProcessInfo): seq<SessionInfo> {
    if Opens(ss, p)
    then ss + [SessionInfo(LsidOf(p.parentSid), p.parentSid, ZERO)]
    else ss
  }

  /** One step of the second loop of `update`: add the process's stat to the
      last session, opened for it if need be. */
  function Absorb(ss: seq<SessionInfo>, p: ProcessInfo): seq<SessionInfo> {
    var grown := OpenSession(ss, p);
    var last := grown[|grown| - 1];
    grown[..|grown| - 1] + [last.(stat := Add(last.stat, p.stat))]
  }

  /** The sessions after visiting `ps`. */
  function SessionsOf(ps: seq<ProcessInfo>): seq<SessionInfo>
    decreases |ps|
  {
    if ps == [] then [] else Absorb(SessionsOf(ps[..|ps| - 1]), ps[|ps| - 1])
  }

  /** Which of the two login sessions a session belongs to; the source marks a
      seat session unreachable. */
  function LoginIndex(l: Lsid): Result<nat> {
    match l
    case Kernel => Ok(0)
    case SystemdServices => Ok(1)
    case SystemdSession(_) => Panic
  }

  /** The two login sessions `update` starts the third loop with. */
  const NO_LOGINS: seq<LoginSessionInfo> := [LoginSessionInfo(Kernel, ZERO), LoginSessionInfo(SystemdServices, ZERO)]

  /** One step of the third loop of `update`: add the session's stat to its
      login session. */
  function Credit(ls: seq<LoginSessionInfo>, s: SessionInfo): (r: Result<seq<LoginSessionInfo>>)
    requires |ls| == 2
    ensures r.Ok? ==> |r.value| == 2 && r.value[0].lsid == ls[0].lsid && r.value[1].lsid == ls[1].lsid
  {
    var idx := LoginIndex(s.parentLsid);
    if idx.Panic? then Panic
    else Ok(ls[idx.value := ls[idx.value].(stat := Add(ls[idx.value].stat, s.stat))])
  }

  /** The two login sessions after visiting `ss`. */
  function LoginSessionsOf(ss: seq<SessionInfo>): (r: Result<seq<LoginSessionInfo>>)
    ensures r.Ok? ==> |r.value| == 2 && r.value[0].lsid == Kernel && r.value[1].lsid == SystemdServices
    decreases |ss|
  {
    if ss == [] then Ok(NO_LOGINS)
    else
      var before := LoginSessionsOf(ss[..|ss| - 1]);
      if before.Panic? then Panic else Credit(before.value, ss[|ss| - 1])
  }

  /** Everything `update` rebuilds. */
  datatype View = View(loginSessions: seq<LoginSessionInfo>, sessions: seq<SessionInfo>,
                       processes: seq<ProcessInfo>, threads: seq<ThreadInfo>)

  /** The value of `ProcInfo::update` on the ingested table `byPid`. */
  function ProcInfoOf(byPid: map<nat, ProcessIngest>): Result<View> {
    var flat := Flatten(byPid);
    if flat.Panic? then Panic
    else
      var sessions := SessionsOf(flat.value.1);
      var logins := LoginSessionsOf(sessions);
      if logins.Panic? then Panic
      else Ok(View(logins.value, sessions, flat.value.1, flat.value.0))
  }

  // ---------------------------------------------------------------------------
  // Properties of the processes and threads

  /** Flattening panics exactly when a visited process has no threads. */
  lemma {:induction false} FlattenPanics(byPid: map<nat, ProcessIngest>, pids: seq<nat>,
                                         rowsOf: (nat, ProcessIngest) -> seq<ThreadInfo>,
                                         procOf: (nat, ProcessIngest, seq<ThreadInfo>) -> ProcessInfo)
    requires forall k :: 0 <= k < |pids| ==> pids[k] in byPid
    ensures FlattenWith(byPid, pids, rowsOf, procOf).Panic? <==> exists k :: 0 <= k < |pids| && |byPid[pids[k]].byTid| == 0
    decreases |pids|
  {
    if pids != [] {
      var n := |pids| - 1;
      var front := pids[..n];
      assert forall k :: 0 <= k < n ==> front[k] == pids[k];
      FlattenPanics(byPid, front, rowsOf, procOf);
      if exists k :: 0 <= k < n && |byPid[pids[k]].byTid| == 0 {
        var k :| 0 <= k < n && |byPid[pids[k]].byTid| == 0;
        assert |byPid[front[k]].byTid| == 0;
      }
    }
  }

  /** Once a prefix panics, so does every longer one. */
  lemma {:induction false} FlattenPanicPersists(byPid: map<nat, ProcessIngest>, pids: seq<nat>, n: nat,
                                                rowsOf: (nat, ProcessIngest) -> seq<ThreadInfo>,
                                                procOf: (nat, ProcessIngest, seq<ThreadInfo>) -> ProcessInfo)
    requires forall k :: 0 <= k < |pids| ==> pids[k] in byPid
    requires n <= |pids| && FlattenWith(byPid, pids[..n], rowsOf, procOf).Panic?
    ensures FlattenWith(byPid, pids, rowsOf, procOf).Panic?
    decreases |pids| - n
  {
    if n < |pids| {
      assert pids[..n + 1][..n] == pids[..n];
      FlattenPanicPersists(byPid, pids, n + 1, rowsOf, procOf);
    } else {
      assert pids[..n] == pids;
    }
  }

  /** One process row per visited pid, in order, each formed from that
      process and its own thread rows. */
  lemma {:induction false} FlattenProcesses(byPid: map<nat, ProcessIngest>, pids: seq<nat>,
                                            rowsOf: (nat, ProcessIngest) -> seq<ThreadInfo>,
                                            procOf: (nat, ProcessIngest, seq<ThreadInfo>) -> ProcessInfo)
    requires forall k :: 0 <= k < |pids| ==> pids[k] in byPid
    requires FlattenWith(byPid, pids, rowsOf, procOf).Ok?
    ensures var ps := FlattenWith(byPid, pids, rowsOf, procOf).value.1;
            && |ps| == |pids|
            && forall k :: 0 <= k < |pids| ==> ps[k] == procOf(pids[k], byPid[pids[k]], rowsOf(pids[k], byPid[pids[k]]))
    decreases |pids|
  {
    if pids != [] {
      var n := |pids| - 1;
      var front := pids[..n];
      assert forall k :: 0 <= k < n ==> front[k] == pids[k];
      FlattenProcesses(byPid, front, rowsOf, procOf);
    }
  }

  /** The thread rows of one process name it, name its threads, and go up in tid. */
  ghost predicate RowsInOrder(pid: nat, p: ProcessIngest, rows: seq<ThreadInfo>) {
    && (forall k :: 0 <= k < |rows| ==> rows[k].parentPid == pid && rows[k].tid in p.byTid)
    && (forall k :: 0 <= k < |rows| - 1 ==> rows[k].tid < rows[k + 1].tid)
  }

  ghost predicate AllRowsInOrder(rowsOf: (nat, ProcessIngest) -> seq<ThreadInfo>) {
    forall pid: nat, p: ProcessIngest {:trigger rowsOf(pid, p)} :: RowsInOrder(pid, p, rowsOf(pid, p))
  }

  predicate RowBefore(a: ThreadInfo, b: ThreadInfo) {
    a.parentPid < b.parentPid || (a.parentPid == b.parentPid && a.tid < b.tid)
  }

  /** Each process's rows are its threads in ascending order. */
  lemma ProcessRowsInOrder()
    ensures AllRowsInOrder(ProcessRows)
  {
    forall pid: nat, p: ProcessIngest
      ensures RowsInOrder(pid, p, ProcessRows(pid, p))
    {
      ProcessRowsOrdered(pid, p);
    }
  }

  lemma ProcessRowsOrdered(pid: nat, p: ProcessIngest)
    ensures RowsInOrder(pid, p, ProcessRows(pid, p))
  {
    ThreadRowsOrdered(pid, p, SortedKeys(p.byTid));
  }

  /** Rows pushed for increasing tids of the process are in order. */
  lemma ThreadRowsOrdered(pid: nat, p: ProcessIngest, tids: seq<nat>)
    requires forall k :: 0 <= k < |tids| ==> tids[k] in p.byTid
    requires StrictlyIncreasing(tids)
    ensures RowsInOrder(pid, p, ThreadRows(pid, p, tids))
  {
    var rows := ThreadRows(pid, p, tids);
    forall k | 0 <= k < |rows| ensures rows[k].parentPid == pid && rows[k].tid in p.byTid {
    }
    forall k | 0 <= k < |rows| - 1 ensures rows[k].tid < rows[k + 1].tid {
      assert rows[k].tid == tids[k] && rows[k + 1].tid == tids[k + 1];
    }
  }

  /** Visiting pids in ascending order lists the thread rows sorted by
      (pid, tid) with no repeats, each naming a thread its process has. */
  lemma {:induction false} FlattenThreadsSorted(byPid: map<nat, ProcessIngest>, pids: seq<nat>,
                                                rowsOf: (nat, ProcessIngest) -> seq<ThreadInfo>,
                                                procOf: (nat, ProcessIngest, seq<ThreadInfo>) -> ProcessInfo)
    requires forall k :: 0 <= k < |pids| ==> pids[k] in byPid
    requires StrictlyIncreasing(pids) && AllRowsInOrder(rowsOf)
    requires FlattenWith(byPid, pids, rowsOf, procOf).Ok?
    ensures var ts := FlattenWith(byPid, pids, rowsOf, procOf).value.0;
            && (forall k :: 0 <= k < |ts| ==> ts[k].parentPid in byPid && ts[k].tid in byPid[ts[k].parentPid].byTid)
            && (pids != [] ==> forall k :: 0 <= k < |ts| ==> ts[k].parentPid <= pids[|pids| - 1])
            && forall k :: 0 <= k < |ts| - 1 ==> RowBefore(ts[k], ts[k + 1])
    decreases |pids|
  {
    if pids != [] {
      var n := |pids| - 1;
      var front := pids[..n];
      assert forall k :: 0 <= k < n ==> front[k] == pids[k];
      FlattenThreadsSorted(byPid, front, rowsOf, procOf);
      var before := FlattenWith(byPid, front, rowsOf, procOf).value.0;
      var pid := pids[n];
      var p := byPid[pid];
      var rows := rowsOf(pid, p);
      assert RowsInOrder(pid, p, rows);
      assert FlattenWith(byPid, pids, rowsOf, procOf).value.0 == before + rows;
      var bound := if n == 0 then -1 else pids[n - 1];
      assert n > 0 ==> pids[n - 1] < pid;
      AppendRowsSorted(byPid, before, bound, pid, rows);
    }
  }

  /** The row `update` pushes for thread `tid` of process `pid`. */
  function RowOf(pid: nat, p: ProcessIngest, tid: nat): ThreadInfo
    requires tid in p.byTid
  {
    ThreadInfo(pid, tid, ThreadStat(p.byTid[tid], p.vmRssKb))
  }

  /** Every thread of the process has its row among `rows`. */
  ghost predicate CoversThreads(pid: nat, p: ProcessIngest, rows: seq<ThreadInfo>) {
    forall tid :: tid in p.byTid ==> RowOf(pid, p, tid) in rows
  }

  /** Each process's rows include one for every thread it has. */
  lemma ProcessRowsCover(pid: nat, p: ProcessIngest)
    ensures CoversThreads(pid, p, ProcessRows(pid, p))
  {
    var tids := SortedKeys(p.byTid);
    var rows := ProcessRows(pid, p);
    forall tid | tid in p.byTid
      ensures RowOf(pid, p, tid) in rows
    {
      var j :| 0 <= j < |tids| && tids[j] == tid;
      assert rows[j] == RowOf(pid, p, tid);
    }
  }

  /** When each process's rows cover its threads, the flattened rows hold
      the row of every thread of every visited process. */
  lemma {:induction false} FlattenThreadsCover(byPid: map<nat, ProcessIngest>, pids: seq<nat>,
                                               rowsOf: (nat, ProcessIngest) -> seq<ThreadInfo>,
                                               procOf: (nat, ProcessIngest, seq<ThreadInfo>) -> ProcessInfo)
    requires forall k :: 0 <= k < |pids| ==> pids[k] in byPid
    requires forall k :: 0 <= k < |pids| ==> CoversThreads(pids[k], byPid[pids[k]], rowsOf(pids[k], byPid[pids[k]]))
    requires FlattenWith(byPid, pids, rowsOf, procOf).Ok?
    ensures var ts := FlattenWith(byPid, pids, rowsOf, procOf).value.0;
            forall k, tid :: 0 <= k < |pids| && tid in byPid[pids[k]].byTid ==> RowOf(pids[k], byPid[pids[k]], tid) in ts
    decreases |pids|
  {
    if pids != [] {
      var n := |pids| - 1;
      var front := pids[..n];
      assert forall k :: 0 <= k < n ==> front[k] == pids[k];
      FlattenThreadsCover(byPid, front, rowsOf, procOf);
      var before := FlattenWith(byPid, front, rowsOf, procOf).value.0;
      var rows := rowsOf(pids[n], byPid[pids[n]]);
      assert FlattenWith(byPid, pids, rowsOf, procOf).value.0 == before + rows;
      forall k, tid | 0 <= k < |pids| && tid in byPid[pids[k]].byTid
        ensures RowOf(pids[k], byPid[pids[k]], tid) in before + rows
      {
        if k < n {
          assert RowOf(front[k], byPid[front[k]], tid) in before;
        } else {
          assert RowOf(pids[n], byPid[pids[n]], tid) in rows;
        }
      }
    }
  }

  /** Appending one process's ordered rows after rows of lower pids keeps the
      rows sorted by (pid, tid). */
  lemma AppendRowsSorted(byPid: map<nat, ProcessIngest>, before: seq<ThreadInfo>, bound: int,
                         pid: nat, rows: seq<ThreadInfo>)
    requires pid in byPid && bound < pid
    requires forall k :: 0 <= k < |before| ==>
               && before[k].parentPid in byPid && before[k].tid in byPid[before[k].parentPid].byTid
               && before[k].parentPid <= bound
    requires forall k :: 0 <= k < |before| - 1 ==> RowBefore(before[k], before[k + 1])
    requires RowsInOrder(pid, byPid[pid], rows)
    ensures var ts := before + rows;
            && (forall k :: 0 <= k < |ts| ==> ts[k].parentPid in byPid && ts[k].tid in byPid[ts[k].parentPid].byTid)
            && (forall k :: 0 <= k < |ts| ==> ts[k].parentPid <= pid)
            && forall k :: 0 <= k < |ts| - 1 ==> RowBefore(ts[k], ts[k + 1])
  {
    var ts := before + rows;
    forall k | 0 <= k < |ts| - 1
      ensures RowBefore(ts[k], ts[k + 1])
    {
      if k + 1 < |before| {
        assert ts[k] == before[k] && ts[k + 1] == before[k + 1];
      } else if k + 1 == |before| {
        assert ts[k] == before[k] && ts[k + 1] == rows[0];
      } else {
        assert ts[k] == rows[k - |before|] && ts[k + 1] == rows[k - |before| + 1];
      }
    }
    forall k | 0 <= k < |ts|
      ensures ts[k].parentPid in byPid && ts[k].tid in byPid[ts[k].parentPid].byTid
      ensures ts[k].parentPid <= pid
    {
      if k < |before| {
        assert ts[k] == before[k];
      } else {
        assert ts[k] == rows[k - |before|];
      }
    }
  }

  /** A process row's stat is its threads' sum, except that the resident set
      is the process's own, once; its session is that of its lowest thread. */
  lemma ProcessStatIsThreadSum(pid: nat, p: ProcessIngest)
    requires |p.byTid| > 0
    ensures var rows := ProcessRows(pid, p);
            var s := ProcessOf(pid, p, rows).stat;
            var t := Total(rows, ThreadStatOf);
            && s.guestMs == t.guestMs && s.userMs == t.userMs && s.systemMs == t.systemMs
            && s.diskReadPerSecond == t.diskReadPerSecond && s.diskWritePerSecond == t.diskWritePerSecond
            && s.memBytes == p.vmRssKb
    ensures ProcessOf(pid, p, ProcessRows(pid, p)).parentSid == p.byTid[SortedKeys(p.byTid)[0]].sid
  {
    var keys := SortedKeys(p.byTid);
    assert keys[0] in p.byTid;
    var m := MinKey(p.byTid.Keys);
    assert keys[0] == m by {
      assert m in keys;
      assert forall j :: 0 <= j < |keys| ==> keys[0] <= keys[j];
    }
  }

  // ---------------------------------------------------------------------------
  // Properties of the sessions

  /** Neighbouring sessions differ and each is labelled by its id. */
  ghost predicate SessionsWellFormed(ss: seq<SessionInfo>) {
    && (forall k :: 0 <= k < |ss| - 1 ==> ss[k].sid != ss[k + 1].sid)
    && (forall k :: 0 <= k < |ss| ==> ss[k].parentLsid == LsidOf(ss[k].sid))
  }

  /** One step keeps the sessions well formed, grows them by at most one,
      and ends them at the process's session. */
  lemma AbsorbShape(ss: seq<SessionInfo>, p: ProcessInfo)
    requires SessionsWellFormed(ss)
    ensures var r := Absorb(ss, p);
            SessionsWellFormed(r) && |ss| <= |r| <= |ss| + 1 && r[|r| - 1].sid == p.parentSid
  {
    var grown := OpenSession(ss, p);
    var r := Absorb(ss, p);
    assert SessionsWellFormed(grown);
    assert forall k :: 0 <= k < |r| - 1 ==> r[k] == grown[k];
  }

  /** One step adds the process's stat to the sessions' sum. */
  lemma AbsorbTotal(ss: seq<SessionInfo>, p: ProcessInfo)
    ensures Total(Absorb(ss, p), SessionStatOf) == Add(Total(ss, SessionStatOf), p.stat)
  {
    var grown := OpenSession(ss, p);
    var last := grown[|grown| - 1];
    var r := Absorb(ss, p);
    assert Total(grown, SessionStatOf) == Total(ss, SessionStatOf) by {
      if grown != ss {
        assert grown[..|grown| - 1] == ss;
        AddMonoid(Total(ss, SessionStatOf), ZERO, ZERO);
      }
    }
    assert r[..|r| - 1] == grown[..|grown| - 1];
    AddMonoid(Total(grown[..|grown| - 1], SessionStatOf), last.stat, p.stat);
  }

  /** One step either opens a session holding just the process's stat, or
      adds that stat to the last session; the earlier sessions are kept. */
  lemma AbsorbCases(ss: seq<SessionInfo>, p: ProcessInfo)
    ensures Opens(ss, p) ==> Absorb(ss, p) == ss + [SessionInfo(LsidOf(p.parentSid), p.parentSid, p.stat)]
    ensures !Opens(ss, p) ==> Absorb(ss, p) == ss[..|ss| - 1] + [ss[|ss| - 1].(stat := Add(ss[|ss| - 1].stat, p.stat))]
  {
    if Opens(ss, p) {
      var grown := OpenSession(ss, p);
      assert grown[..|grown| - 1] == ss;
      AddMonoid(p.stat, ZERO, ZERO);
    }
  }

  /** One step keeps the sessions well formed, opens a session exactly when
      the process's id differs from the last one's, keeps the earlier
      sessions, credits the process's stat to the last session, and adds it
      to their sum. */
  lemma AbsorbStep(ss: seq<SessionInfo>, p: ProcessInfo)
    requires SessionsWellFormed(ss)
    ensures var r := Absorb(ss, p);
            && SessionsWellFormed(r) && r[|r| - 1].sid == p.parentSid
            && (Opens(ss, p) ==> r == ss + [SessionInfo(LsidOf(p.parentSid), p.parentSid, p.stat)])
            && (!Opens(ss, p) ==> r == ss[..|ss| - 1] + [ss[|ss| - 1].(stat := Add(ss[|ss| - 1].stat, p.stat))])
            && Total(r, SessionStatOf) == Add(Total(ss, SessionStatOf), p.stat)
  {
    AbsorbShape(ss, p);
    AbsorbCases(ss, p);
    AbsorbTotal(ss, p);
  }

  /** Sessions are maximal runs of processes with one session id: at most as
      many sessions as processes, neighbours differ, the kernel session is
      the one with id 0, and the sessions sum to the processes. */
  lemma {:induction false} SessionsInvariant(ps: seq<ProcessInfo>)
    ensures var ss := SessionsOf(ps);
            && SessionsWellFormed(ss) && |ss| <= |ps|
            && (ps != [] ==> |ss| >= 1 && ss[|ss| - 1].sid == ps[|ps| - 1].parentSid)
            && Total(ss, SessionStatOf) == Total(ps, ProcessStatOf)
    decreases |ps|
  {
    if ps != [] {
      var front, p := ps[..|ps| - 1], ps[|ps| - 1];
      SessionsInvariant(front);
      AbsorbStep(SessionsOf(front), p);
      assert SessionsOf(ps) == Absorb(SessionsOf(front), p);
      assert Total(ps, ProcessStatOf) == Add(Total(front, ProcessStatOf), p.stat);
    }
  }

  /** The maximal runs of neighbouring processes sharing a session id, in
      order; none is empty. */
  function Runs(ps: seq<ProcessInfo>): (rs: seq<seq<ProcessInfo>>)
    ensures forall j :: 0 <= j < |rs| ==> rs[j] != []
    decreases |ps|
  {
    if ps == [] then []
    else
      var rs := Runs(ps[..|ps| - 1]);
      var p := ps[|ps| - 1];
      if rs != [] && rs[|rs| - 1][0].parentSid == p.parentSid
      then rs[..|rs| - 1] + [rs[|rs| - 1] + [p]]
      else rs + [[p]]
  }

  /** `rs` cuts `ps` into maximal runs: together they are `ps`, none is
      empty, each has one session id, and neighbouring runs differ in it. */
  ghost predicate IsRunSplit(ps: seq<ProcessInfo>, rs: seq<seq<ProcessInfo>>) {
    && Concat(rs) == ps
    && (forall j :: 0 <= j < |rs| ==> rs[j] != [])
    && (forall j, k :: 0 <= j < |rs| && 0 <= k < |rs[j]| ==> rs[j][k].parentSid == rs[j][0].parentSid)
    && (forall j :: 0 <= j < |rs| - 1 ==> rs[j][0].parentSid != rs[j + 1][0].parentSid)
  }

  /** `Runs` cuts the processes into maximal runs. */
  lemma {:induction false} RunsSplit(ps: seq<ProcessInfo>)
    ensures IsRunSplit(ps, Runs(ps))
    decreases |ps|
  {
    if ps != [] {
      var front: seq<ProcessInfo>, p: ProcessInfo := ps[..|ps| - 1], ps[|ps| - 1];
      var rs: seq<seq<ProcessInfo>> := Runs(front);
      RunsSplit(front);
      if rs != [] && rs[|rs| - 1][0].parentSid == p.parentSid {
        RunsExtend(front, rs, p);
      } else {
        RunsOpen(front, rs, p);
      }
    }
  }

  /** Appending a process with the last run's id to that run keeps a split. */
  lemma RunsExtend(ps: seq<ProcessInfo>, rs: seq<seq<ProcessInfo>>, p: ProcessInfo)
    requires IsRunSplit(ps, rs) && rs != [] && rs[|rs| - 1][0].parentSid == p.parentSid
    ensures IsRunSplit(ps + [p], rs[..|rs| - 1] + [rs[|rs| - 1] + [p]])
  {
    var front, last := rs[..|rs| - 1], rs[|rs| - 1];
    var r := front + [last + [p]];
    assert rs == front + [last];
    ConcatAppend(front, [last]);
    ConcatAppend(front, [last + [p]]);
    assert Concat([last]) == last by {
      assert [last][1..] == [];
    }
    assert Concat([last + [p]]) == last + [p] by {
      assert [last + [p]][1..] == [];
    }
    assert forall j :: 0 <= j < |front| ==> r[j] == rs[j];
  }

  /** Appending a run of one process with a new id keeps a split. */
  lemma RunsOpen(ps: seq<ProcessInfo>, rs: seq<seq<ProcessInfo>>, p: ProcessInfo)
    requires IsRunSplit(ps, rs) && (rs == [] || rs[|rs| - 1][0].parentSid != p.parentSid)
    ensures IsRunSplit(ps + [p], rs + [[p]])
  {
    ConcatAppend(rs, [[p]]);
    assert Concat([[p]]) == [p] by {
      assert [[p]][1..] == [];
    }
  }

  /** A split into maximal runs is unique: `Runs` is the only one. */
  lemma {:induction false} RunSplitUnique(ps: seq<ProcessInfo>, a: seq<seq<ProcessInfo>>, b: seq<seq<ProcessInfo>>)
    requires IsRunSplit(ps, a) && IsRunSplit(ps, b)
    ensures a == b
    decreases |ps|
  {
    if a == [] || b == [] {
      RunSplitEmpty(ps, a);
      RunSplitEmpty(ps, b);
    } else {
      RunHeadNoLonger(ps, a, b);
      RunHeadNoLonger(ps, b, a);
      var n := |a[0]|;
      assert a[0] == ps[..n] == b[0];
      RunSplitTail(ps, a);
      RunSplitTail(ps, b);
      RunSplitUnique(ps[n..], a[1..], b[1..]);
      assert a == [a[0]] + a[1..] && b == [b[0]] + b[1..];
    }
  }

  /** A split has no runs exactly when there are no processes. */
  lemma RunSplitEmpty(ps: seq<ProcessInfo>, rs: seq<seq<ProcessInfo>>)
    requires IsRunSplit(ps, rs)
    ensures rs == [] <==> ps == []
  {
    if rs != [] {
      assert ps == rs[0] + Concat(rs[1..]);
    }
  }

  /** The first run of a split is a prefix, and the other runs split the rest. */
  lemma RunSplitTail(ps: seq<ProcessInfo>, rs: seq<seq<ProcessInfo>>)
    requires IsRunSplit(ps, rs) && rs != []
    ensures 0 < |rs[0]| <= |ps| && ps[..|rs[0]|] == rs[0]
    ensures IsRunSplit(ps[|rs[0]|..], rs[1..])
  {
    assert ps == rs[0] + Concat(rs[1..]);
    var tail := rs[1..];
    assert forall j :: 0 <= j < |tail| ==> tail[j] == rs[j + 1];
  }

  /** In two splits of the same processes, the first run of one is no longer
      than that of the other: the process after the shorter first run already
      has another session id. */
  lemma RunHeadNoLonger(ps: seq<ProcessInfo>, a: seq<seq<ProcessInfo>>, b: seq<seq<ProcessInfo>>)
    requires IsRunSplit(ps, a) && IsRunSplit(ps, b) && a != [] && b != []
    ensures |a[0]| <= |b[0]|
  {
    RunHeadUniform(ps, a);
    RunBreak(ps, b);
  }

  /** Every process of the first run has the first process's session id. */
  lemma RunHeadUniform(ps: seq<ProcessInfo>, rs: seq<seq<ProcessInfo>>)
    requires IsRunSplit(ps, rs) && rs != []
    ensures |rs[0]| <= |ps|
    ensures forall k :: 0 <= k < |rs[0]| ==> ps[k].parentSid == ps[0].parentSid
  {
    RunSplitTail(ps, rs);
  }

  /** The process right after the first run has another session id. */
  lemma RunBreak(ps: seq<ProcessInfo>, rs: seq<seq<ProcessInfo>>)
    requires IsRunSplit(ps, rs) && rs != []
    ensures |rs[0]| <= |ps|
    ensures |rs[0]| < |ps| ==> ps[|rs[0]|].parentSid != ps[0].parentSid
  {
    RunSplitTail(ps, rs);
    var n := |rs[0]|;
    if n < |ps| {
      RunSplitEmpty(ps[n..], rs[1..]);
      assert Concat(rs[1..]) == rs[1] + Concat(rs[2..]);
      assert ps[n] == rs[1][0];
    }
  }

  /** Session `s` is the one a run forms: its id, labelled by it, with the
      sum of the run's stats. */
  predicate SessionOfRun(s: SessionInfo, run: seq<ProcessInfo>)
    requires run != []
  {
    s == SessionInfo(LsidOf(run[0].parentSid), run[0].parentSid, Total(run, ProcessStatOf))
  }

  /** One session per run, each formed from its run. */
  ghost predicate SessionsOfRuns(ss: seq<SessionInfo>, rs: seq<seq<ProcessInfo>>) {
    && |ss| == |rs|
    && forall j :: 0 <= j < |rs| ==> rs[j] != [] && SessionOfRun(ss[j], rs[j])
  }

  /** Sessions are the maximal runs of the processes: one session per run,
      with the run's session id, labelled by it, and the sum of the run's
      stats. */
  lemma {:induction false} SessionsAreRuns(ps: seq<ProcessInfo>)
    ensures SessionsOfRuns(SessionsOf(ps), Runs(ps))
    decreases |ps|
  {
    if ps != [] {
      var front: seq<ProcessInfo>, p: ProcessInfo := ps[..|ps| - 1], ps[|ps| - 1];
      SessionsAreRuns(front);
      var ss: seq<SessionInfo>, rs: seq<seq<ProcessInfo>> := SessionsOf(front), Runs(front);
      assert SessionsOf(ps) == Absorb(ss, p);
      if rs != [] && rs[|rs| - 1][0].parentSid == p.parentSid {
        SessionsRunsExtend(ss, rs, p);
      } else {
        SessionsRunsOpen(ss, rs, p);
      }
    }
  }

  /** A process with the last run's id joins the last session. */
  lemma SessionsRunsExtend(ss: seq<SessionInfo>, rs: seq<seq<ProcessInfo>>, p: ProcessInfo)
    requires SessionsOfRuns(ss, rs)
    requires rs != [] && rs[|rs| - 1][0].parentSid == p.parentSid
    ensures SessionsOfRuns(Absorb(ss, p), rs[..|rs| - 1] + [rs[|rs| - 1] + [p]])
  {
    var n := |rs| - 1;
    var last, run := ss[n], rs[n];
    assert SessionOfRun(last, run);
    AbsorbCases(ss, p);
    RunTotalExtend(run, p);
    var credited := last.(stat := Add(last.stat, p.stat));
    assert Absorb(ss, p) == ss[..n] + [credited];
    assert (run + [p])[0] == run[0];
    assert SessionOfRun(credited, run + [p]);
    SessionsOfRunsFront(ss, rs);
    SessionsOfRunsSnoc(ss[..n], rs[..n], credited, run + [p]);
  }

  /** A process with a new id opens a session of its own. */
  lemma SessionsRunsOpen(ss: seq<SessionInfo>, rs: seq<seq<ProcessInfo>>, p: ProcessInfo)
    requires SessionsOfRuns(ss, rs)
    requires rs == [] || rs[|rs| - 1][0].parentSid != p.parentSid
    ensures SessionsOfRuns(Absorb(ss, p), rs + [[p]])
  {
    if rs != [] {
      assert SessionOfRun(ss[|ss| - 1], rs[|rs| - 1]);
    }
    AbsorbCases(ss, p);
    RunTotalExtend([], p);
    assert [] + [p] == [p];
    SessionsOfRunsSnoc(ss, rs, SessionInfo(LsidOf(p.parentSid), p.parentSid, p.stat), [p]);
  }

  /** Dropping the last run drops the last session. */
  lemma SessionsOfRunsFront(ss: seq<SessionInfo>, rs: seq<seq<ProcessInfo>>)
    requires SessionsOfRuns(ss, rs) && rs != []
    ensures SessionsOfRuns(ss[..|ss| - 1], rs[..|rs| - 1])
  {
    var n := |rs| - 1;
    forall j | 0 <= j < n
      ensures rs[..n][j] != [] && SessionOfRun(ss[..n][j], rs[..n][j])
    {
      assert rs[..n][j] == rs[j] && ss[..n][j] == ss[j];
    }
  }

  /** A run appended with its session keeps the correspondence. */
  lemma SessionsOfRunsSnoc(ss: seq<SessionInfo>, rs: seq<seq<ProcessInfo>>, s: SessionInfo, run: seq<ProcessInfo>)
    requires SessionsOfRuns(ss, rs) && run != [] && SessionOfRun(s, run)
    ensures SessionsOfRuns(ss + [s], rs + [run])
  {
    var n := |rs|;
    forall j | 0 <= j <= n
      ensures (rs + [run])[j] != [] && SessionOfRun((ss + [s])[j], (rs + [run])[j])
    {
      if j < n {
        assert (rs + [run])[j] == rs[j] && (ss + [s])[j] == ss[j];
      }
    }
  }

  /** Whatever split into maximal runs one takes, the sessions are formed
      from its runs, one by one. */
  lemma SessionsOfAnyRunSplit(ps: seq<ProcessInfo>, rs: seq<seq<ProcessInfo>>)
    requires IsRunSplit(ps, rs)
    ensures SessionsOfRuns(SessionsOf(ps), rs)
  {
    RunsSplit(ps);
    RunSplitUnique(ps, Runs(ps), rs);
    SessionsAreRuns(ps);
  }

  /** A run's sum grows by the stat of the process appended to it. */
  lemma RunTotalExtend(run: seq<ProcessInfo>, p: ProcessInfo)
    ensures Total(run + [p], ProcessStatOf) == Add(Total(run, ProcessStatOf), p.stat)
  {
    assert (run + [p])[..|run|] == run;
  }

  /** The part of a process's stat counted towards one login session. */
  function ProcessKernelPart(p: ProcessInfo): ProcStat { if p.parentSid == 0 then p.stat else ZERO }
  function ProcessServicesPart(p: ProcessInfo): ProcStat { if p.parentSid == 0 then ZERO else p.stat }

  /** The stat of a session counted towards one login session. */
  function KernelPart(s: SessionInfo): ProcStat { if s.sid == 0 then s.stat else ZERO }
  function ServicesPart(s: SessionInfo): ProcStat { if s.sid == 0 then ZERO else s.stat }

  /** A session labelled by its id credits exactly its own login session. */
  lemma CreditStep(ls: seq<LoginSessionInfo>, s: SessionInfo)
    requires |ls| == 2 && s.parentLsid == LsidOf(s.sid)
    ensures var r := Credit(ls, s);
            && r.Ok?
            && r.value[0].stat == Add(ls[0].stat, KernelPart(s))
            && r.value[1].stat == Add(ls[1].stat, ServicesPart(s))
  {
    AddMonoid(ls[0].stat, ZERO, ZERO);
    AddMonoid(ls[1].stat, ZERO, ZERO);
  }

  /** With every session labelled by its id there is no seat session, and
      the two login sessions sum the sessions with id 0 and the others. */
  lemma {:induction false} LoginSessionsSplit(ss: seq<SessionInfo>)
    requires forall k :: 0 <= k < |ss| ==> ss[k].parentLsid == LsidOf(ss[k].sid)
    ensures LoginSessionsOf(ss).Ok?
    ensures LoginSessionsOf(ss).value[0].stat == Total(ss, KernelPart)
    ensures LoginSessionsOf(ss).value[1].stat == Total(ss, ServicesPart)
    decreases |ss|
  {
    if ss != [] {
      var front := ss[..|ss| - 1];
      assert forall k :: 0 <= k < |front| ==> front[k] == ss[k];
      LoginSessionsSplit(front);
      CreditStep(LoginSessionsOf(front).value, ss[|ss| - 1]);
    }
  }

  /** Splitting every session between the two login sessions loses nothing. */
  lemma PartsSum(ss: seq<SessionInfo>)
    ensures Add(Total(ss, KernelPart), Total(ss, ServicesPart)) == Total(ss, SessionStatOf)
  {
    forall s: SessionInfo
      ensures Add(KernelPart(s), ServicesPart(s)) == SessionStatOf(s)
    {
      AddMonoid(s.stat, ZERO, ZERO);
    }
    TotalSplit(ss, KernelPart, ServicesPart, SessionStatOf);
  }

  /** One step credits the process's stat to the part of its session id. */
  lemma AbsorbParts(ss: seq<SessionInfo>, p: ProcessInfo)
    ensures Total(Absorb(ss, p), KernelPart) == Add(Total(ss, KernelPart), ProcessKernelPart(p))
    ensures Total(Absorb(ss, p), ServicesPart) == Add(Total(ss, ServicesPart), ProcessServicesPart(p))
  {
    AbsorbCases(ss, p);
    if Opens(ss, p) {
      var s := SessionInfo(LsidOf(p.parentSid), p.parentSid, p.stat);
      TotalSnoc(ss, s, KernelPart);
      TotalSnoc(ss, s, ServicesPart);
    } else {
      var front, last := ss[..|ss| - 1], ss[|ss| - 1];
      assert ss == front + [last];
      CreditKernelPart(front, last, p);
      CreditServicesPart(front, last, p);
    }
  }

  /** Summing one more element adds its stat. */
  lemma TotalSnoc<T>(xs: seq<T>, x: T, stat: T -> ProcStat)
    ensures Total(xs + [x], stat) == Add(Total(xs, stat), stat(x))
  {
    assert (xs + [x])[..|xs|] == xs;
  }

  /** Crediting a process to the last session, which has its id, adds the
      process's kernel part to the sessions' kernel part. */
  lemma CreditKernelPart(front: seq<SessionInfo>, last: SessionInfo, p: ProcessInfo)
    requires last.sid == p.parentSid
    ensures Total(front + [last.(stat := Add(last.stat, p.stat))], KernelPart)
         == Add(Total(front + [last], KernelPart), ProcessKernelPart(p))
  {
    var credited := last.(stat := Add(last.stat, p.stat));
    TotalSnoc(front, credited, KernelPart);
    TotalSnoc(front, last, KernelPart);
    KernelPartCredit(last, p);
    AddMonoid(Total(front, KernelPart), KernelPart(last), ProcessKernelPart(p));
  }

  /** Crediting a process to a session with its id adds the process's
      kernel part to the session's. */
  lemma KernelPartCredit(s: SessionInfo, p: ProcessInfo)
    requires s.sid == p.parentSid
    ensures KernelPart(s.(stat := Add(s.stat, p.stat))) == Add(KernelPart(s), ProcessKernelPart(p))
  {
    if s.sid != 0 {
      AddMonoid(ZERO, ZERO, ZERO);
    }
  }

  /** The same for the services part. */
  lemma ServicesPartCredit(s: SessionInfo, p: ProcessInfo)
    requires s.sid == p.parentSid
    ensures ServicesPart(s.(stat := Add(s.stat, p.stat))) == Add(ServicesPart(s), ProcessServicesPart(p))
  {
    if s.sid == 0 {
      AddMonoid(ZERO, ZERO, ZERO);
    }
  }

  /** The same for the services part. */
  lemma CreditServicesPart(front: seq<SessionInfo>, last: SessionInfo, p: ProcessInfo)
    requires last.sid == p.parentSid
    ensures Total(front + [last.(stat := Add(last.stat, p.stat))], ServicesPart)
         == Add(Total(front + [last], ServicesPart), ProcessServicesPart(p))
  {
    var credited := last.(stat := Add(last.stat, p.stat));
    TotalSnoc(front, credited, ServicesPart);
    TotalSnoc(front, last, ServicesPart);
    ServicesPartCredit(last, p);
    AddMonoid(Total(front, ServicesPart), ServicesPart(last), ProcessServicesPart(p));
  }

  /** The sessions' kernel part is the stat of the processes with session id
      0, and their services part that of the others. */
  lemma {:induction false} SessionPartsOfProcesses(ps: seq<ProcessInfo>)
    ensures Total(SessionsOf(ps), KernelPart) == Total(ps, ProcessKernelPart)
    ensures Total(SessionsOf(ps), ServicesPart) == Total(ps, ProcessServicesPart)
    decreases |ps|
  {
    if ps != [] {
      var front := ps[..|ps| - 1];
      SessionPartsOfProcesses(front);
      AbsorbParts(SessionsOf(front), ps[|ps| - 1]);
    }
  }

  /** Summing two parts of every element sums the parts of the whole. */
  lemma {:induction false} TotalSplit<T>(xs: seq<T>, f: T -> ProcStat, g: T -> ProcStat, h: T -> ProcStat)
    requires forall x :: Add(f(x), g(x)) == h(x)
    ensures Add(Total(xs, f), Total(xs, g)) == Total(xs, h)
    decreases |xs|
  {
    if xs != [] {
      var front := xs[..|xs| - 1];
      var x := xs[|xs| - 1];
      TotalSplit(front, f, g, h);
      Interchange(Total(front, f), Total(front, g), f(x), g(x));
    } else {
      assert Total(xs, f) == ZERO && Total(xs, g) == ZERO && Total(xs, h) == ZERO;
      assert Add(ZERO, ZERO) == ZERO;
    }
  }

  /** Four stats can be summed in either pairing. */
  lemma Interchange(a: ProcStat, b: ProcStat, c: ProcStat, d: ProcStat)
    ensures Add(Add(a, c), Add(b, d)) == Add(Add(a, b), Add(c, d))
  {
  }

  /** Sessions built from processes always find their login session. */
  lemma SessionsLogIn(ps: seq<ProcessInfo>)
    ensures LoginSessionsOf(SessionsOf(ps)).Ok?
  {
    SessionsInvariant(ps);
    LoginSessionsSplit(SessionsOf(ps));
  }

  /** What a successful `update` shows: two login sessions over all sessions,
      which are runs of the processes, one per ingested process, whose stats
      add up level by level. */
  lemma ProcInfoTotals(byPid: map<nat, ProcessIngest>)
    requires ProcInfoOf(byPid).Ok?
    ensures var v := ProcInfoOf(byPid).value;
            && |v.loginSessions| == 2 && v.loginSessions[0].lsid == Kernel && v.loginSessions[1].lsid == SystemdServices
            && |v.processes| == |byPid| && |v.sessions| <= |v.processes|
            && Add(v.loginSessions[0].stat, v.loginSessions[1].stat) == Total(v.sessions, SessionStatOf)
            && Total(v.sessions, SessionStatOf) == Total(v.processes, ProcessStatOf)
            && v.loginSessions[0].stat == Total(v.processes, ProcessKernelPart)
            && v.loginSessions[1].stat == Total(v.processes, ProcessServicesPart)
  {
    var pids := SortedKeys(byPid);
    FlattenProcesses(byPid, pids, ProcessRows, ProcessOf);
    var ps := Flatten(byPid).value.1;
    SessionsInvariant(ps);
    LoginSessionsSplit(SessionsOf(ps));
    PartsSum(SessionsOf(ps));
    SessionPartsOfProcesses(ps);
  }

  /** Flattening the whole table panics exactly when some process has no threads. */
  lemma FlattenPanicsIff(byPid: map<nat, ProcessIngest>)
    ensures Flatten(byPid).Panic? <==> exists pid :: pid in byPid && |byPid[pid].byTid| == 0
  {
    var pids := SortedKeys(byPid);
    FlattenPanics(byPid, pids, ProcessRows, ProcessOf);
    if exists pid :: pid in byPid && |byPid[pid].byTid| == 0 {
      var pid :| pid in byPid && |byPid[pid].byTid| == 0;
      assert pid in pids;
      var k :| 0 <= k < |pids| && pids[k] == pid;
      assert |byPid[pids[k]].byTid| == 0;
    }
  }

  /** `update` panics exactly when some ingested process has no threads. */
  lemma ProcInfoPanics(byPid: map<nat, ProcessIngest>)
    ensures ProcInfoOf(byPid).Panic? <==> exists pid :: pid in byPid && |byPid[pid].byTid| == 0
  {
    ProcInfoPanicsWhenFlattenDoes(byPid);
    FlattenPanicsIff(byPid);
  }

  /** Once the processes are flattened, forming sessions cannot panic. */
  lemma ProcInfoPanicsWhenFlattenDoes(byPid: map<nat, ProcessIngest>)
    ensures ProcInfoOf(byPid).Panic? <==> Flatten(byPid).Panic?
  {
    var flat := Flatten(byPid);
    if flat.Ok? {
      SessionsLogIn(flat.value.1);
    }
  }

  /** The process row formed for a pid carries that pid. */
  ghost predicate KeepsPid(procOf: (nat, ProcessIngest, seq<ThreadInfo>) -> ProcessInfo) {
    forall pid: nat, p: ProcessIngest, rows: seq<ThreadInfo> {:trigger procOf(pid, p, rows)} :: procOf(pid, p, rows).pid == pid
  }

  /** Visiting pids in ascending order gives process rows in ascending pid
      order, one for each visited pid. */
  lemma FlattenPidsWith(byPid: map<nat, ProcessIngest>, pids: seq<nat>,
                        rowsOf: (nat, ProcessIngest) -> seq<ThreadInfo>,
                        procOf: (nat, ProcessIngest, seq<ThreadInfo>) -> ProcessInfo)
    requires forall k :: 0 <= k < |pids| ==> pids[k] in byPid
    requires StrictlyIncreasing(pids) && KeepsPid(procOf)
    requires FlattenWith(byPid, pids, rowsOf, procOf).Ok?
    ensures var ps := FlattenWith(byPid, pids, rowsOf, procOf).value.1;
            && (forall k :: 0 <= k < |ps| - 1 ==> ps[k].pid < ps[k + 1].pid)
            && (forall pid :: pid in pids <==> exists k :: 0 <= k < |ps| && ps[k].pid == pid)
  {
    FlattenProcesses(byPid, pids, rowsOf, procOf);
    var ps := FlattenWith(byPid, pids, rowsOf, procOf).value.1;
    assert forall k :: 0 <= k < |ps| ==> ps[k].pid == pids[k];
    forall pid | pid in pids
      ensures exists k :: 0 <= k < |ps| && ps[k].pid == pid
    {
      var k :| 0 <= k < |pids| && pids[k] == pid;
      assert ps[k].pid == pid;
    }
  }

  /** Flattening the whole table gives one process row per ingested process,
      in ascending pid order. */
  lemma FlattenPids(byPid: map<nat, ProcessIngest>)
    requires Flatten(byPid).Ok?
    ensures var ps := Flatten(byPid).value.1;
            && (forall k :: 0 <= k < |ps| - 1 ==> ps[k].pid < ps[k + 1].pid)
            && (forall pid :: pid in byPid <==> exists k :: 0 <= k < |ps| && ps[k].pid == pid)
  {
    assert KeepsPid(ProcessOf);
    FlattenPidsWith(byPid, SortedKeys(byPid), ProcessRows, ProcessOf);
  }

  /** Flattening the whole table lists the thread rows sorted by (pid, tid),
      each naming a thread its process has, and every ingested thread has
      its row there. */
  lemma FlattenTids(byPid: map<nat, ProcessIngest>)
    requires Flatten(byPid).Ok?
    ensures var ts := Flatten(byPid).value.0;
            && (forall k :: 0 <= k < |ts| ==> ts[k].parentPid in byPid && ts[k].tid in byPid[ts[k].parentPid].byTid)
            && (forall k :: 0 <= k < |ts| - 1 ==> RowBefore(ts[k], ts[k + 1]))
            && (forall pid, tid :: pid in byPid && tid in byPid[pid].byTid ==> RowOf(pid, byPid[pid], tid) in ts)
  {
    ProcessRowsInOrder();
    var pids := SortedKeys(byPid);
    FlattenThreadsSorted(byPid, pids, ProcessRows, ProcessOf);
    forall k | 0 <= k < |pids|
      ensures CoversThreads(pids[k], byPid[pids[k]], ProcessRows(pids[k], byPid[pids[k]]))
    {
      ProcessRowsCover(pids[k], byPid[pids[k]]);
    }
    FlattenThreadsCover(byPid, pids, ProcessRows, ProcessOf);
    forall pid, tid | pid in byPid && tid in byPid[pid].byTid
      ensures RowOf(pid, byPid[pid], tid) in Flatten(byPid).value.0
    {
      var k :| 0 <= k < |pids| && pids[k] == pid;
    }
  }

  /** The rows of a successful `update`: one process row per ingested process
      in pid order, thread rows sorted by (pid, tid), each a real thread,
      and a row for every ingested thread. */
  lemma ProcInfoRows(byPid: map<nat, ProcessIngest>)
    requires ProcInfoOf(byPid).Ok?
    ensures var v := ProcInfoOf(byPid).value;
            && (forall k :: 0 <= k < |v.processes| - 1 ==> v.processes[k].pid < v.processes[k + 1].pid)
            && (forall pid :: pid in byPid <==> exists k :: 0 <= k < |v.processes| && v.processes[k].pid == pid)
            && (forall k :: 0 <= k < |v.threads| ==> v.threads[k].parentPid in byPid && v.threads[k].tid in byPid[v.threads[k].parentPid].byTid)
            && (forall k :: 0 <= k < |v.threads| - 1 ==> RowBefore(v.threads[k], v.threads[k + 1]))
            && (forall pid, tid :: pid in byPid && tid in byPid[pid].byTid ==> RowOf(pid, byPid[pid], tid) in v.threads)
  {
    FlattenPids(byPid);
    FlattenTids(byPid);
  }

  // ---------------------------------------------------------------------------
  // /etc/passwd and /etc/group lines

  datatype UserKind = Root | User | Nologin

  datatype UserInfo = UserInfo(name: string, uid: nat, gid: nat, description: string, kind: UserKind)

  /** `UserInfo::new`: seven `:`-separated fields of the trimmed line; uid and
      gid parse as `u16`; any missing or malformed field panics. */
  function UserInfoNew(line: string): Result<UserInfo> {
    var words := SplitOn(Trim(line), ':');
    if |words| < 7 then Panic
    else
      var uid := ParseU16(words[2]);
      var gid := ParseU16(words[3]);
      if uid.None? || gid.None? then Panic
      else
        var kind := if uid.value == 0 then Root else if EndsWith(words[6], "nologin") then Nologin else User;
        Ok(UserInfo(words[0], uid.value, gid.value, words[4], kind))
  }

  /** The kind of a user: root by uid 0 whatever the shell, else a login
      shell ending in `nologin` marks a system account. */
  lemma UserKindRule(line: string)
    requires UserInfoNew(line).Ok?
    ensures var u := UserInfoNew(line).value;
            var shell := SplitOn(Trim(line), ':')[6];
            && (u.kind == Root <==> u.uid == 0)
            && (u.kind == Nologin <==> u.uid != 0 && EndsWith(shell, "nologin"))
            && (u.kind == User <==> u.uid != 0 && !EndsWith(shell, "nologin"))
            && u.uid < U16_LIMIT && u.gid < U16_LIMIT
  {
  }

  /** A passwd line written from its fields reads back as those fields. */
  lemma UserInfoOfLine(fields: seq<string>, uid: nat, gid: nat)
    requires |fields| == 7 && fields[2] == Decimal(uid) && fields[3] == Decimal(gid)
    requires uid < U16_LIMIT && gid < U16_LIMIT
    requires forall k :: 0 <= k < 7 ==> ':' !in fields[k]
    requires fields[0] != [] && !IsWhitespace(fields[0][0])
    requires fields[6] != [] && !IsWhitespace(fields[6][|fields[6]| - 1])
    ensures UserInfoNew(Join(fields, ':')) == Ok(UserInfo(fields[0], uid, gid, fields[4],
              if uid == 0 then Root else if EndsWith(fields[6], "nologin") then Nologin else User))
  {
    var line := Join(fields, ':');
    JoinEnds(fields, ':');
    TrimNoPadding(line);
    SplitOnJoin(fields, ':');
    ParseDecimal(uid, U16_LIMIT);
    ParseDecimal(gid, U16_LIMIT);
  }

  datatype GroupInfo = GroupInfo(name: string, gid: nat, users: seq<string>)

  /** `GroupInfo::new`: four `:`-separated fields, the gid as `u16`, the
      members `,`-separated (an empty list gives one empty name). */
  function GroupInfoNew(line: string): Result<GroupInfo> {
    var words := SplitOn(Trim(line), ':');
    if |words| < 4 then Panic
    else
      var gid := ParseU16(words[2]);
      if gid.None? then Panic else Ok(GroupInfo(words[0], gid.value, SplitOn(words[3], ',')))
  }

  /** A group line written from its fields reads back as those fields. */
  lemma GroupInfoOfLine(name: string, x: string, gid: nat, users: seq<string>)
    requires gid < U16_LIMIT && |users| >= 1
    requires ':' !in name && ':' !in x
    requires forall k :: 0 <= k < |users| ==> ':' !in users[k] && ',' !in users[k]
    requires name != [] && !IsWhitespace(name[0])
    requires users[|users| - 1] != [] && !IsWhitespace(users[|users| - 1][|users[|users| - 1]| - 1])
    ensures GroupInfoNew(Join([name, x, Decimal(gid), Join(users, ',')], ':')) == Ok(GroupInfo(name, gid, users))
  {
    var members := Join(users, ',');
    JoinEnds(users, ',');
    JoinAvoids(users, ',', ':');
    var fields := [name, x, Decimal(gid), members];
    JoinEnds(fields, ':');
    TrimNoPadding(Join(fields, ':'));
    assert ':' !in Decimal(gid) by {
      assert forall i :: 0 <= i < |Decimal(gid)| ==> '0' <= Decimal(gid)[i] <= '9';
    }
    SplitOnJoin(fields, ':');
    SplitOnJoin(users, ',');
    ParseDecimal(gid, U16_LIMIT);
  }

  /** `lines().map(..).collect()` into a map: one entry per line under the key
      of its parsed value, so a later line replaces an earlier one. */
  function Table<T>(lines: seq<string>, parse: string -> Result<T>, key: T -> nat): (r: Result<map<nat, T>>)
    ensures r.Ok? ==> forall k :: k in r.value ==> key(r.value[k]) == k
    decreases |lines|
  {
    if lines == [] then Ok(map[])
    else
      var before := Table(lines[..|lines| - 1], parse, key);
      var x := parse(lines[|lines| - 1]);
      if before.Panic? || x.Panic? then Panic else Ok(before.value[key(x.value) := x.value])
  }

  /** A table is built exactly when every line parses, and then holds each line's key. */
  lemma {:induction false} TableDefined<T>(lines: seq<string>, parse: string -> Result<T>, key: T -> nat)
    ensures Table(lines, parse, key).Ok? <==> forall k :: 0 <= k < |lines| ==> parse(lines[k]).Ok?
    ensures Table(lines, parse, key).Ok? ==>
              forall k :: 0 <= k < |lines| ==> key(parse(lines[k]).value) in Table(lines, parse, key).value
    decreases |lines|
  {
    if lines != [] {
      var n := |lines| - 1;
      var front := lines[..n];
      assert forall k :: 0 <= k < n ==> front[k] == lines[k];
      TableDefined(front, parse, key);
    }
  }

  /** Every entry of a table is the value of the last line with its key. */
  lemma {:induction false} TableLastWins<T>(lines: seq<string>, parse: string -> Result<T>, key: T -> nat, id: nat)
    requires Table(lines, parse, key).Ok? && id in Table(lines, parse, key).value
    ensures exists k :: 0 <= k < |lines| && parse(lines[k]) == Ok(Table(lines, parse, key).value[id])
                          && LastWithKey(lines, parse, key, k, id)
    decreases |lines|
  {
    var n := |lines| - 1;
    var front := lines[..n];
    var t := Table(lines, parse, key).value;
    TableDefined(lines, parse, key);
    if id == key(parse(lines[n]).value) {
      assert parse(lines[n]) == Ok(t[id]);
      assert LastWithKey(lines, parse, key, n, id);
    } else {
      TableLastWins(front, parse, key, id);
      var k :| 0 <= k < n && parse(front[k]) == Ok(Table(front, parse, key).value[id])
               && LastWithKey(front, parse, key, k, id);
      assert parse(lines[k]) == Ok(t[id]);
      assert LastWithKey(lines, parse, key, k, id) by {
        forall j | k < j < |lines| && parse(lines[j]).Ok?
          ensures key(parse(lines[j]).value) != id
        {
          if j < n {
            assert front[j] == lines[j];
          }
        }
      }
    }
  }

  /** No line after line `k` has key `id`. */
  ghost predicate LastWithKey<T>(lines: seq<string>, parse: string -> Result<T>, key: T -> nat, k: nat, id: nat) {
    forall j :: k < j < |lines| && parse(lines[j]).Ok? ==> key(parse(lines[j]).value) != id
  }

  function UidOf(u: UserInfo): nat { u.uid }
  function GidOf(g: GroupInfo): nat { g.gid }

  /** The uid table of `ProcInfo::new`, from the text of /etc/passwd. */
  function UserTable(passwd: string): Result<map<nat, UserInfo>> {
    Table(Lines(passwd), UserInfoNew, UidOf)
  }

  /** The gid table of `ProcInfo::new`, from the text of /etc/group. */
  function GroupTable(group: string): Result<map<nat, GroupInfo>> {
    Table(Lines(group), GroupInfoNew, GidOf)
  }

  // ---------------------------------------------------------------------------
  // The hierarchy object

  class ProcInfo {
    var uidToUser: map<nat, UserInfo>
    var gidToGroup: map<nat, GroupInfo>
    var loginSessions: seq<LoginSessionInfo>
    var sessions: seq<SessionInfo>
    var processes: seq<ProcessInfo>
    var threads: seq<ThreadInfo>

    /** `ProcInfo::new`, given the text of /etc/passwd and /etc/group: the
        two tables, and every level empty. Where a line does not parse the
        source panics; the tables are then left empty here. */
    constructor (passwd: string, group: string)
      ensures UserTable(passwd).Ok? && GroupTable(group).Ok? ==>
                uidToUser == UserTable(passwd).value && gidToGroup == GroupTable(group).value
      ensures loginSessions == [] && sessions == [] && processes == [] && threads == []
    {
      var users := UserTable(passwd);
      var groups := GroupTable(group);
      uidToUser := if users.Ok? then users.value else map[];
      gidToGroup := if groups.Ok? then groups.value else map[];
      loginSessions := [];
      sessions := [];
      processes := [];
      threads := [];
    }

    /** `ProcInfo::update`: discard the four levels and rebuild them from the
        ingested table alone. Returns whether the update panicked. */
    method Update(src: Ingest.ProcIngest) returns (panicked: bool)
      modifies this
      ensures panicked <==> ProcInfoOf(src.byPid).Panic?
      ensures !panicked ==> View(loginSessions, sessions, processes, threads) == ProcInfoOf(src.byPid).value
      ensures uidToUser == old(uidToUser) && gidToGroup == old(gidToGroup)
    {
      var byPid := src.byPid;
      var ts, ps := FlattenAll(byPid);
      if ts.Panic? {
        ProcInfoOfStages(byPid, Flatten(byPid), Panic);
        return true;
      }
      var ss := GroupSessions(ps);
      var ls := SumLoginSessions(ss);
      ProcInfoOfStages(byPid, Ok((ts.value, ps)), ls);
      if ls.Panic? {
        return true;
      }
      loginSessions, sessions, processes, threads := ls.value, ss, ps, ts.value;
      panicked := false;
    }
  }

  /** `update` panics when flattening or the login sums do, and otherwise
      shows their results. */
  lemma ProcInfoOfStages(byPid: map<nat, ProcessIngest>, flat: Result<(seq<ThreadInfo>, seq<ProcessInfo>)>,
                         ls: Result<seq<LoginSessionInfo>>)
    requires flat == Flatten(byPid)
    requires flat.Ok? ==> ls == LoginSessionsOf(SessionsOf(flat.value.1))
    ensures ProcInfoOf(byPid).Panic? <==> flat.Panic? || ls.Panic?
    ensures flat.Ok? && ls.Ok? ==> ProcInfoOf(byPid) == Ok(View(ls.value, SessionsOf(flat.value.1), flat.value.1, flat.value.0))
  {
  }

  /** The first loop of `update`: every process in pid order. */
  method FlattenAll(byPid: map<nat, ProcessIngest>) returns (threads: Result<seq<ThreadInfo>>, processes: seq<ProcessInfo>)
    ensures threads.Panic? <==> Flatten(byPid).Panic?
    ensures threads.Ok? ==> Flatten(byPid).value == (threads.value, processes)
  {
    threads, processes := VisitPids(byPid, SortedKeys(byPid), ProcessRows, ProcessOf);
  }

  /** The first loop of `update` over `pids`: for each process push its
      threads' rows (`rowsOf`, the inner loop `PushThreads`), then its own
      row; stop at a process without threads. */
  method VisitPids(byPid: map<nat, ProcessIngest>, pids: seq<nat>,
                   rowsOf: (nat, ProcessIngest) -> seq<ThreadInfo>,
                   procOf: (nat, ProcessIngest, seq<ThreadInfo>) -> ProcessInfo)
    returns (threads: Result<seq<ThreadInfo>>, processes: seq<ProcessInfo>)
    requires forall k :: 0 <= k < |pids| ==> pids[k] in byPid
    ensures threads.Panic? <==> FlattenWith(byPid, pids, rowsOf, procOf).Panic?
    ensures threads.Ok? ==> FlattenWith(byPid, pids, rowsOf, procOf).value == (threads.value, processes)
  {
    var ts: seq<ThreadInfo> := [];
    processes := [];
    var i := 0;
    while i < |pids|
      invariant i <= |pids|
      invariant FlattenWith(byPid, pids[..i], rowsOf, procOf) == Ok((ts, processes))
    {
      var pid := pids[i];
      var p := byPid[pid];
      var rows := rowsOf(pid, p);
      if |p.byTid| == 0 {
        FlattenStuck(byPid, pids, i, rowsOf, procOf);
        return Panic, processes;
      }
      FlattenExtend(byPid, pids, i, rowsOf, procOf, ts, processes);
      ts := ts + rows;
      processes := processes + [procOf(pid, p, rows)];
      i := i + 1;
    }
    assert pids[..i] == pids;
    threads := Ok(ts);
  }

  /** The inner loop of the first loop: one row per thread, in tid order. */
  method PushThreads(pid: nat, p: ProcessIngest) returns (rows: seq<ThreadInfo>)
    ensures rows == ProcessRows(pid, p)
  {
    rows := PushRows(pid, p, SortedKeys(p.byTid));
  }

  /** The loop itself, over the tids in the order the map yields them. */
  method PushRows(pid: nat, p: ProcessIngest, tids: seq<nat>) returns (rows: seq<ThreadInfo>)
    requires forall k :: 0 <= k < |tids| ==> tids[k] in p.byTid
    ensures rows == ThreadRows(pid, p, tids)
  {
    rows := [];
    var j := 0;
    while j < |tids|
      invariant j <= |tids| && rows == ThreadRows(pid, p, tids[..j])
    {
      ThreadRowsPush(pid, p, tids, j);
      rows := rows + [ThreadInfo(pid, tids[j], ThreadStat(p.byTid[tids[j]], p.vmRssKb))];
      j := j + 1;
    }
    assert tids[..j] == tids;
  }

  /** Pushing the row of one more thread. */
  lemma ThreadRowsPush(pid: nat, p: ProcessIngest, tids: seq<nat>, j: nat)
    requires forall k :: 0 <= k < |tids| ==> tids[k] in p.byTid
    requires j < |tids|
    ensures ThreadRows(pid, p, tids[..j + 1])
              == ThreadRows(pid, p, tids[..j]) + [ThreadInfo(pid, tids[j], ThreadStat(p.byTid[tids[j]], p.vmRssKb))]
  {
    assert tids[..j + 1][..j] == tids[..j];
  }

  /** Visiting one more pid, whose process has threads. */
  lemma FlattenExtend(byPid: map<nat, ProcessIngest>, pids: seq<nat>, i: nat,
                      rowsOf: (nat, ProcessIngest) -> seq<ThreadInfo>,
                      procOf: (nat, ProcessIngest, seq<ThreadInfo>) -> ProcessInfo,
                      ts: seq<ThreadInfo>, ps: seq<ProcessInfo>)
    requires forall k :: 0 <= k < |pids| ==> pids[k] in byPid
    requires i < |pids| && |byPid[pids[i]].byTid| > 0
    requires FlattenWith(byPid, pids[..i], rowsOf, procOf) == Ok((ts, ps))
    ensures var p := byPid[pids[i]];
            FlattenWith(byPid, pids[..i + 1], rowsOf, procOf)
              == Ok((ts + rowsOf(pids[i], p), ps + [procOf(pids[i], p, rowsOf(pids[i], p))]))
  {
    assert pids[..i + 1][..i] == pids[..i];
  }

  /** Visiting a pid whose process has no threads panics, now and later. */
  lemma FlattenStuck(byPid: map<nat, ProcessIngest>, pids: seq<nat>, i: nat,
                     rowsOf: (nat, ProcessIngest) -> seq<ThreadInfo>,
                     procOf: (nat, ProcessIngest, seq<ThreadInfo>) -> ProcessInfo)
    requires forall k :: 0 <= k < |pids| ==> pids[k] in byPid
    requires i < |pids| && |byPid[pids[i]].byTid| == 0
    ensures FlattenWith(byPid, pids, rowsOf, procOf).Panic?
  {
    assert pids[..i + 1][..i] == pids[..i];
    FlattenPanicPersists(byPid, pids, i + 1, rowsOf, procOf);
  }

  /** The second loop of `update`: open a session when the session id changes,
      add the process's stat to the last session. */
  method GroupSessions(ps: seq<ProcessInfo>) returns (ss: seq<SessionInfo>)
    ensures ss == SessionsOf(ps)
  {
    ss := [];
    var i := 0;
    while i < |ps|
      invariant i <= |ps| && ss == SessionsOf(ps[..i])
    {
      assert ps[..i + 1][..i] == ps[..i];
      var p := ps[i];
      if ss == [] || ss[|ss| - 1].sid != p.parentSid {
        ss := ss + [SessionInfo(LsidOf(p.parentSid), p.parentSid, ZERO)];
      }
      var last := ss[|ss| - 1];
      ss := ss[..|ss| - 1] + [last.(stat := Add(last.stat, p.stat))];
      i := i + 1;
    }
    assert ps[..i] == ps;
  }

  /** The third loop of `update`: add each session's stat to its login session. */
  method SumLoginSessions(ss: seq<SessionInfo>) returns (r: Result<seq<LoginSessionInfo>>)
    ensures r == LoginSessionsOf(ss)
  {
    var ls := NO_LOGINS;
    var i := 0;
    while i < |ss|
      invariant i <= |ss| && LoginSessionsOf(ss[..i]) == Ok(ls)
    {
      assert ss[..i + 1][..i] == ss[..i];
      var idx := LoginIndex(ss[i].parentLsid);
      if idx.Panic? {
        LoginPanicPersists(ss, i + 1);
        return Panic;
      }
      ls := ls[idx.value := ls[idx.value].(stat := Add(ls[idx.value].stat, ss[i].stat))];
      i := i + 1;
    }
    assert ss[..i] == ss;
    r := Ok(ls);
  }

  /** Once a prefix of the sessions panics, so does every longer one. */
  lemma {:induction false} LoginPanicPersists(ss: seq<SessionInfo>, n: nat)
    requires n <= |ss| && LoginSessionsOf(ss[..n]).Panic?
    ensures LoginSessionsOf(ss).Panic?
    decreases |ss| - n
  {
    if n < |ss| {
      assert ss[..n + 1][..n] == ss[..n];
      LoginPanicPersists(ss, n + 1);
    } else {
      assert ss[..n] == ss;
    }
  }
}
