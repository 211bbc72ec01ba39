/** crates/ingest/src/system.rs: the metrics shown to the user, derived tick by
    tick from the newest snapshot (`cur`, the source's `new`) and the retired
    one before it (`prev`, the source's `old`). Every metric is a `Series<f64>`;
    here a series is its contents, HISTORY samples oldest first, and a push is
    `Series.Pushed` (the ring buffer itself is proved to implement it). */
module System {
  import opened Base
  import opened Util
  import opened Series
  import opened Snapshot

  // ---------------------------------------------------------------------------
  // Histories

  /** The contents of a `Series<f64>`: always exactly HISTORY samples. */
  type History = h: seq<real> | |h| == HISTORY witness Zeros(HISTORY)

  /** `Series::default()`: every sample 0. */
  function EmptyHistory(): (h: History)
    ensures forall i :: 0 <= i < HISTORY ==> h[i] == 0.0
  {
    Zeros(HISTORY)
  }

  /** `series.push(x)`. */
  function Push(h: History, x: real): (r: History)
    ensures r[HISTORY - 1] == x
    ensures r[..HISTORY - 1] == h[1..]
  {
    Pushed(h, x)
  }

  /** `series.latest()`: the newest sample. */
  function Latest(h: History): real {
    h[HISTORY - 1]
  }

  // ---------------------------------------------------------------------------
  // CpuInfo

  datatype CpuInfo = CpuInfo(total: History, user: History, system: History, guest: History)

  function DefaultCpuInfo(): CpuInfo {
    CpuInfo(EmptyHistory(), EmptyHistory(), EmptyHistory(), EmptyHistory())
  }

  /** The four values one tick pushes for a core. */
  datatype CpuShares = CpuShares(busy: real, user: real, system: real, guest: real)

  /** The jiffies a core spent in each state since the previous reading. The
      counters are subtracted as plain numbers (see README on u64 subtraction). */
  function Delta(cur: nat, prev: nat): real {
    cur as real - prev as real
  }

  /** `CpuInfo::update`'s arithmetic: each state's share of the elapsed
      jiffies; busy is user + system + guest, and when no jiffies elapsed the
      denominator is 1 instead. */
  function Shares(cur: CpuStat, prev: CpuStat): CpuShares {
    SharesOf(Delta(cur.user, prev.user), Delta(cur.system, prev.system),
             Delta(cur.guest, prev.guest), Delta(cur.idle, prev.idle))
  }

  function SharesOf(user: real, system: real, guest: real, idle: real): CpuShares {
    var busy := user + system + guest;
    var total := if busy + idle > 0.0 then busy + idle else 1.0;
    CpuShares(busy / total, user / total, system / total, guest / total)
  }

  /** Kernel counters never go backwards. */
  predicate Monotone(cur: CpuStat, prev: CpuStat) {
    prev.user <= cur.user && prev.system <= cur.system && prev.idle <= cur.idle && prev.guest <= cur.guest
  }

  lemma FractionBounds(a: real, t: real)
    requires 0.0 <= a <= t && t > 0.0
    ensures 0.0 <= a / t <= 1.0
  {
    assert a / t * t == a;
  }

  lemma FractionSum(a: real, b: real, c: real, t: real)
    requires t > 0.0
    ensures (a + b + c) / t == a / t + b / t + c / t
  {
  }

  lemma SharesOfParts(user: real, system: real, guest: real, idle: real)
    requires 0.0 <= user && 0.0 <= system && 0.0 <= guest && 0.0 <= idle
    ensures var s := SharesOf(user, system, guest, idle);
            && 0.0 <= s.user <= 1.0 && 0.0 <= s.system <= 1.0 && 0.0 <= s.guest <= 1.0
            && 0.0 <= s.busy <= 1.0
            && s.busy == s.user + s.system + s.guest
  {
    var busy := user + system + guest;
    var total := if busy + idle > 0.0 then busy + idle else 1.0;
    FractionBounds(user, total);
    FractionBounds(system, total);
    FractionBounds(guest, total);
    FractionBounds(busy, total);
    FractionSum(user, system, guest, total);
  }

  /** With monotone counters every share lies in [0, 1], and the busy share is
      the sum of the user, system and guest shares. */
  lemma SharesAreFractions(cur: CpuStat, prev: CpuStat)
    requires Monotone(cur, prev)
    ensures var s := Shares(cur, prev);
            && 0.0 <= s.user <= 1.0 && 0.0 <= s.system <= 1.0 && 0.0 <= s.guest <= 1.0
            && 0.0 <= s.busy <= 1.0
            && s.busy == s.user + s.system + s.guest
  {
    SharesOfParts(Delta(cur.user, prev.user), Delta(cur.system, prev.system),
                  Delta(cur.guest, prev.guest), Delta(cur.idle, prev.idle));
  }

  /** When some jiffies elapsed, the busy share is busy / (busy + idle). */
  lemma SharesOfElapsed(cur: CpuStat, prev: CpuStat)
    requires Monotone(cur, prev)
    requires cur.user + cur.system + cur.guest + cur.idle > prev.user + prev.system + prev.guest + prev.idle
    ensures var busy := Delta(cur.user, prev.user) + Delta(cur.system, prev.system) + Delta(cur.guest, prev.guest);
            Shares(cur, prev).busy == busy / (busy + Delta(cur.idle, prev.idle))
  {
  }

  /** When no jiffies elapsed (the zero-denominator guard), every share is 0. */
  lemma SharesOfIdleTick(cur: CpuStat, prev: CpuStat)
    requires Monotone(cur, prev)
    requires cur.user + cur.system + cur.guest + cur.idle == prev.user + prev.system + prev.guest + prev.idle
    ensures Shares(cur, prev) == CpuShares(0.0, 0.0, 0.0, 0.0)
  {
  }

  /** `CpuInfo::update`: push the four shares. */
  function UpdateCpu(c: CpuInfo, cur: CpuStat, prev: CpuStat): CpuInfo {
    var s := Shares(cur, prev);
    CpuInfo(Push(c.total, s.busy), Push(c.user, s.user), Push(c.system, s.system), Push(c.guest, s.guest))
  }

  /** The newest samples of a core after an update are its shares, and the
      older ones move one place towards the front. */
  lemma UpdateCpuPushesShares(c: CpuInfo, cur: CpuStat, prev: CpuStat)
    ensures var u, s := UpdateCpu(c, cur, prev), Shares(cur, prev);
            && Latest(u.total) == s.busy && Latest(u.user) == s.user
            && Latest(u.system) == s.system && Latest(u.guest) == s.guest
            && u.total[..HISTORY - 1] == c.total[1..] && u.user[..HISTORY - 1] == c.user[1..]
            && u.system[..HISTORY - 1] == c.system[1..] && u.guest[..HISTORY - 1] == c.guest[1..]
  {
  }

  /** A core compared with its own reading (one with no previous reading)
      shows 0 in all four series. */
  lemma UpdateCpuWithoutHistory(c: CpuInfo, s: CpuStat)
    ensures var u := UpdateCpu(c, s, s);
            Latest(u.total) == 0.0 && Latest(u.user) == 0.0 && Latest(u.system) == 0.0 && Latest(u.guest) == 0.0
  {
    assert Monotone(s, s);
    SharesOfIdleTick(s, s);
  }

  /** Entry `i` of `by_cpu` after `update_all`: the old entry `i` (or a
      default one past the old length) updated with reading `i` against the
      old reading `i`, or against itself when there is no old reading `i`. */
  function CoreUpdate(before: seq<CpuInfo>, cur: seq<CpuStat>, prev: seq<CpuStat>, i: nat): CpuInfo
    requires i < |cur|
  {
    UpdateCpu(if i < |before| then before[i] else DefaultCpuInfo(), cur[i], if i < |prev| then prev[i] else cur[i])
  }

  /** `by_cpu` after `update_all`: one entry per current reading. */
  predicate IsCpusUpdate(r: seq<CpuInfo>, before: seq<CpuInfo>, cur: seq<CpuStat>, prev: seq<CpuStat>) {
    && |r| == |cur|
    && forall i {:trigger CoreUpdate(before, cur, prev, i)} :: 0 <= i < |cur| ==> r[i] == CoreUpdate(before, cur, prev, i)
  }

  /** `CpuInfo::update_all`: `resize_with(new.len(), default)`, then update each
      entry in index order. */
  method UpdateAllCpus(before: seq<CpuInfo>, cur: seq<CpuStat>, prev: seq<CpuStat>) returns (r: seq<CpuInfo>)
    ensures IsCpusUpdate(r, before, cur, prev)
  {
    // resize_with
    if |cur| <= |before| {
      r := before[..|cur|];
    } else {
      r := before;
      while |r| < |cur|
        invariant |r| <= |cur|
        invariant forall i :: 0 <= i < |r| ==> r[i] == if i < |before| then before[i] else DefaultCpuInfo()
        decreases |cur| - |r|
      {
        r := r + [DefaultCpuInfo()];
      }
    }
    // for i in 0..new.len()
    for i := 0 to |cur|
      invariant |r| == |cur|
      invariant forall j :: 0 <= j < i ==> r[j] == CoreUpdate(before, cur, prev, j)
      invariant forall j :: i <= j < |cur| ==> r[j] == if j < |before| then before[j] else DefaultCpuInfo()
    {
      var oldStat := if i < |prev| then prev[i] else cur[i];
      r := r[i := UpdateCpu(r[i], cur[i], oldStat)];
    }
  }

  /** A core that appeared since the previous tick shows 0 in all four series. */
  lemma NewCoreShowsZero(r: seq<CpuInfo>, before: seq<CpuInfo>, cur: seq<CpuStat>, prev: seq<CpuStat>, i: nat)
    requires IsCpusUpdate(r, before, cur, prev)
    requires |prev| <= i < |cur|
    ensures Latest(r[i].total) == 0.0 && Latest(r[i].user) == 0.0
    ensures Latest(r[i].system) == 0.0 && Latest(r[i].guest) == 0.0
  {
    assert r[i] == CoreUpdate(before, cur, prev, i);
    UpdateCpuWithoutHistory(if i < |before| then before[i] else DefaultCpuInfo(), cur[i]);
  }

  /** One of the four series of a core. */
  datatype CpuMetric = Total | User | System | Guest

  function Metric(c: CpuInfo, m: CpuMetric): History {
    match m
    case Total => c.total
    case User => c.user
    case System => c.system
    case Guest => c.guest
  }

  /** `others.iter().map(|o| o.<metric>.latest()).sum()`. */
  function SumLatest(others: seq<CpuInfo>, m: CpuMetric): real
    decreases |others|
  {
    if others == [] then 0.0 else SumLatest(others[..|others| - 1], m) + Latest(Metric(others[|others| - 1], m))
  }

  /** `push_sum_of_others`: the machine-wide series gets the sum of every
      core's newest sample, metric by metric. */
  function PushSumOfOthers(c: CpuInfo, others: seq<CpuInfo>): (r: CpuInfo)
    ensures forall m :: Latest(Metric(r, m)) == SumLatest(others, m)
    ensures forall m :: Metric(r, m)[..HISTORY - 1] == Metric(c, m)[1..]
  {
    CpuInfo(Push(c.total, SumLatest(others, Total)), Push(c.user, SumLatest(others, User)),
            Push(c.system, SumLatest(others, System)), Push(c.guest, SumLatest(others, Guest)))
  }

  /** Every core's newest busy sample is the sum of its user, system and guest samples. */
  predicate BusyIsSum(c: CpuInfo) {
    Latest(c.total) == Latest(c.user) + Latest(c.system) + Latest(c.guest)
  }

  /** Summing over the cores keeps busy = user + system + guest. */
  lemma {:induction false} SumLatestKeepsBusy(others: seq<CpuInfo>)
    requires forall k :: 0 <= k < |others| ==> BusyIsSum(others[k])
    ensures SumLatest(others, Total) == SumLatest(others, User) + SumLatest(others, System) + SumLatest(others, Guest)
    decreases |others|
  {
    if others != [] {
      var front := others[..|others| - 1];
      assert forall k :: 0 <= k < |front| ==> front[k] == others[k];
      SumLatestKeepsBusy(front);
      assert BusyIsSum(others[|others| - 1]);
    }
  }

  /** After a tick with monotone counters, every core, and so the machine-wide
      total, shows busy = user + system + guest. */
  lemma UpdatedCoresBusyIsSum(r: seq<CpuInfo>, before: seq<CpuInfo>, cur: seq<CpuStat>, prev: seq<CpuStat>)
    requires IsCpusUpdate(r, before, cur, prev)
    requires forall i :: 0 <= i < |cur| && i < |prev| ==> Monotone(cur[i], prev[i])
    ensures forall i :: 0 <= i < |r| ==> BusyIsSum(r[i])
  {
    forall i | 0 <= i < |r| ensures BusyIsSum(r[i]) {
      var p := if i < |prev| then prev[i] else cur[i];
      assert r[i] == CoreUpdate(before, cur, prev, i);
      SharesAreFractions(cur[i], p);
    }
  }

  // ---------------------------------------------------------------------------
  // GlobalInfo

  /** Memory sizes in bytes; uptime is not part of this model. */
  datatype GlobalInfo = GlobalInfo(memTotal: nat, swapTotal: nat, memUsed: History, swapUsed: History)

  function DefaultGlobalInfo(): GlobalInfo {
    GlobalInfo(0, 0, EmptyHistory(), EmptyHistory())
  }

  /** `GlobalInfo::update`: /proc/meminfo counts kibibytes; totals are stored
      in bytes, and the used amounts (total - available, swap total - swap
      free) are pushed in bytes. */
  function UpdateGlobal(g: GlobalInfo, m: MemInfo): GlobalInfo {
    GlobalInfo(1024 * m.memTotal, 1024 * m.swapTotal,
               Push(g.memUsed, 1024.0 * Delta(m.memTotal, m.memAvailable)),
               Push(g.swapUsed, 1024.0 * Delta(m.swapTotal, m.swapFree)))
  }

  /** The totals are the kibibyte counts in bytes, the newest samples are
      the used amounts in bytes and never exceed the totals (with available
      memory and free swap within their totals), and the older samples move
      one place towards the front. */
  lemma GlobalUsedWithinTotal(g: GlobalInfo, m: MemInfo)
    requires m.memAvailable <= m.memTotal && m.swapFree <= m.swapTotal
    ensures var u := UpdateGlobal(g, m);
            && u.memTotal == 1024 * m.memTotal && u.swapTotal == 1024 * m.swapTotal
            && 0.0 <= Latest(u.memUsed) <= u.memTotal as real
            && 0.0 <= Latest(u.swapUsed) <= u.swapTotal as real
            && Latest(u.memUsed) == (u.memTotal - 1024 * m.memAvailable) as real
            && Latest(u.swapUsed) == (u.swapTotal - 1024 * m.swapFree) as real
            && u.memUsed[..HISTORY - 1] == g.memUsed[1..] && u.swapUsed[..HISTORY - 1] == g.swapUsed[1..]
  {
  }

  // ---------------------------------------------------------------------------
  // Keyed reconciliation

  /** `intersect_old_new(ret, old, new, f)`: keep exactly the keys present in
      both readings; a key keeps its state if it had one and starts from
      `dflt` otherwise, and is updated once with `f(state, old[k], new[k])`.
      The source visits the keys in ascending order; since each key's update
      reads only that key, the order does not show in the result. */
  method IntersectOldNew<T, U>(ret: map<string, U>, prev: map<string, T>, cur: map<string, T>,
                               dflt: U, f: (U, T, T) -> U)
    returns (r: map<string, U>)
    ensures r.Keys == prev.Keys * cur.Keys
    ensures forall k :: k in r ==> r[k] == f(if k in ret then ret[k] else dflt, prev[k], cur[k])
  {
    var both := prev.Keys * cur.Keys;
    // ret.retain(|k, _| new.contains_key(k))
    r := map k | k in ret && k in both :: ret[k];
    var todo := both;
    while todo != {}
      invariant todo <= both
      invariant r.Keys == (ret.Keys * both) + (both - todo)
      invariant forall k :: k in todo && k in r ==> r[k] == ret[k]
      invariant forall k :: k in both - todo ==> r[k] == f(if k in ret then ret[k] else dflt, prev[k], cur[k])
      decreases todo
    {
      var k :| k in todo;
      var slot := if k in r then r[k] else dflt;
      r := r[k := f(slot, prev[k], cur[k])];
      todo := todo - {k};
    }
  }

  // ---------------------------------------------------------------------------
  // Partitions

  /** Bytes moved per tick; `capacity` and `used` come from `statfs`, which is
      not part of this model, and stay as they are. */
  datatype PartitionInfo = PartitionInfo(capacity: nat, used: nat, read: History, written: History, discarded: History)

  function DefaultPartitionInfo(): PartitionInfo {
    PartitionInfo(0, 0, EmptyHistory(), EmptyHistory(), EmptyHistory())
  }

  /** `PartitionInfo::update`: a sector is 512 bytes. */
  function UpdatePartition(p: PartitionInfo, prev: DiskStats, cur: DiskStats): (r: PartitionInfo)
    ensures Latest(r.read) == 512.0 * Delta(cur.sectorsRead, prev.sectorsRead)
    ensures Latest(r.written) == 512.0 * Delta(cur.sectorsWritten, prev.sectorsWritten)
    ensures Latest(r.discarded) == 512.0 * Delta(cur.sectorsDiscarded, prev.sectorsDiscarded)
    ensures r.capacity == p.capacity && r.used == p.used
  {
    PartitionInfo(p.capacity, p.used,
                  Push(p.read, 512.0 * Delta(cur.sectorsRead, prev.sectorsRead)),
                  Push(p.written, 512.0 * Delta(cur.sectorsWritten, prev.sectorsWritten)),
                  Push(p.discarded, 512.0 * Delta(cur.sectorsDiscarded, prev.sectorsDiscarded)))
  }

  /** `.map(|stats| (&stats.device_name, stats)).collect()`: records keyed by
      device name, a later record replacing an earlier one of the same name. */
  function ByDeviceName(stats: seq<DiskStats>): (m: map<string, DiskStats>)
    ensures forall k :: k in m ==> m[k].deviceName == k
    ensures forall k :: k in m <==> exists i :: 0 <= i < |stats| && stats[i].deviceName == k
    decreases |stats|
  {
    if stats == [] then map[]
    else
      var front := stats[..|stats| - 1];
      var d := stats[|stats| - 1];
      var m := ByDeviceName(front);
      assert forall i :: 0 <= i < |front| ==> front[i] == stats[i];
      m[d.deviceName := d]
  }

  /** The record a name maps to is the last one with that name. */
  lemma {:induction false} ByDeviceNameLastWins(stats: seq<DiskStats>, i: nat)
    requires i < |stats|
    requires forall j :: i < j < |stats| ==> stats[j].deviceName != stats[i].deviceName
    ensures ByDeviceName(stats)[stats[i].deviceName] == stats[i]
    decreases |stats|
  {
    if i < |stats| - 1 {
      var front := stats[..|stats| - 1];
      assert front[i] == stats[i];
      assert forall j :: i < j < |front| ==> front[j] == stats[j];
      ByDeviceNameLastWins(front, i);
    }
  }

  /** `.filter(|stats| stats.minor_device_number != 0)`: partitions only. */
  function Partitions(stats: seq<DiskStats>): (r: seq<DiskStats>)
    ensures forall i :: 0 <= i < |r| ==> r[i].minorDeviceNumber != 0
    ensures forall d :: d in r <==> d in stats && d.minorDeviceNumber != 0
    decreases |stats|
  {
    if stats == [] then []
    else
      var rest := Partitions(stats[1..]);
      if stats[0].minorDeviceNumber != 0 then [stats[0]] + rest else rest
  }

  /** The filter keeps order and multiplicity: filtering a concatenation
      filters each part, and one record is kept exactly when it is a
      partition. */
  lemma {:induction false} PartitionsAppend(a: seq<DiskStats>, b: seq<DiskStats>)
    ensures Partitions(a + b) == Partitions(a) + Partitions(b)
    decreases |a|
  {
    if a == [] {
      assert a + b == b;
    } else {
      assert (a + b)[1..] == a[1..] + b;
      PartitionsAppend(a[1..], b);
    }
  }

  lemma PartitionsOne(d: DiskStats)
    ensures Partitions([d]) == if d.minorDeviceNumber != 0 then [d] else []
  {
    assert [d][1..] == [];
  }

  /** `by_partition` after `update_all`: exactly the names that were a
      partition in the old snapshot and a block device in the new one, each
      updated from its previous state (or the default) with its old and new
      records. */
  predicate IsPartitionsUpdate(r: map<string, PartitionInfo>, before: map<string, PartitionInfo>,
                               prev: seq<DiskStats>, cur: seq<DiskStats>)
  {
    var prevParts, curDevices := ByDeviceName(Partitions(prev)), ByDeviceName(cur);
    && r.Keys == prevParts.Keys * curDevices.Keys
    && forall k :: k in r ==>
         r[k] == UpdatePartition(if k in before then before[k] else DefaultPartitionInfo(), prevParts[k], curDevices[k])
  }

  /** `PartitionInfo::update_all`: reconcile against the old partitions and all
      new block devices. */
  method UpdateAllPartitions(byPartition: map<string, PartitionInfo>, prev: seq<DiskStats>, cur: seq<DiskStats>)
    returns (r: map<string, PartitionInfo>)
    ensures IsPartitionsUpdate(r, byPartition, prev, cur)
  {
    r := IntersectOldNew(byPartition, ByDeviceName(Partitions(prev)), ByDeviceName(cur),
                         DefaultPartitionInfo(), UpdatePartition);
  }

  /** Whole disks never appear: every partition shown was, in the old
      snapshot, a block device with a non-zero minor number, and is still
      present in the new one. */
  lemma PartitionsOnly(r: map<string, PartitionInfo>, before: map<string, PartitionInfo>,
                       prev: seq<DiskStats>, cur: seq<DiskStats>, k: string)
    requires IsPartitionsUpdate(r, before, prev, cur)
    requires k in r
    ensures exists i :: 0 <= i < |prev| && prev[i].deviceName == k && prev[i].minorDeviceNumber != 0
    ensures exists i :: 0 <= i < |cur| && cur[i].deviceName == k
  {
    var parts := Partitions(prev);
    assert k in ByDeviceName(parts);
    var j :| 0 <= j < |parts| && parts[j].deviceName == k;
    assert parts[j] in prev && parts[j].minorDeviceNumber != 0;
    var i :| 0 <= i < |prev| && prev[i] == parts[j];
    assert k in ByDeviceName(cur);
  }

  // ---------------------------------------------------------------------------
  // Network interfaces

  /** Bytes received and sent per tick. */
  datatype NetInterfaceInfo = NetInterfaceInfo(rx: History, tx: History)

  function DefaultNetInterfaceInfo(): NetInterfaceInfo {
    NetInterfaceInfo(EmptyHistory(), EmptyHistory())
  }

  /** `NetInterfaceInfo::update`. */
  function UpdateNetInterface(n: NetInterfaceInfo, prev: NetInterfaceSnapshot, cur: NetInterfaceSnapshot): (r: NetInterfaceInfo)
    ensures Latest(r.rx) == Delta(cur.rxBytes, prev.rxBytes) && Latest(r.tx) == Delta(cur.txBytes, prev.txBytes)
    ensures r.rx[..HISTORY - 1] == n.rx[1..] && r.tx[..HISTORY - 1] == n.tx[1..]
  {
    NetInterfaceInfo(Push(n.rx, Delta(cur.rxBytes, prev.rxBytes)), Push(n.tx, Delta(cur.txBytes, prev.txBytes)))
  }

  /** `by_net_interface` after `update`: the interfaces present in both
      snapshots, each updated from its previous state or the default. */
  predicate IsNetInterfacesUpdate(r: map<string, NetInterfaceInfo>, before: map<string, NetInterfaceInfo>,
                                  prev: map<string, NetInterfaceSnapshot>, cur: map<string, NetInterfaceSnapshot>)
  {
    && r.Keys == prev.Keys * cur.Keys
    && forall k :: k in r ==>
         r[k] == UpdateNetInterface(if k in before then before[k] else DefaultNetInterfaceInfo(), prev[k], cur[k])
  }

  /** The `by_net_interface` block of `SystemInfo::update`. */
  method UpdateAllNetInterfaces(byNetInterface: map<string, NetInterfaceInfo>,
                                prev: map<string, NetInterfaceSnapshot>, cur: map<string, NetInterfaceSnapshot>)
    returns (r: map<string, NetInterfaceInfo>)
    ensures IsNetInterfacesUpdate(r, byNetInterface, prev, cur)
  {
    r := IntersectOldNew(byNetInterface, prev, cur, DefaultNetInterfaceInfo(), UpdateNetInterface);
  }

  // ---------------------------------------------------------------------------
  // GPUs

  /** VRAM in bytes, busy fractions, temperature in millidegrees Celsius. */
  datatype GpuInfo = GpuInfo(vramTotal: nat, vramUsed: History, vramBusy: History, gpuBusy: History, maxTemperature: History)

  function DefaultGpuInfo(): GpuInfo {
    GpuInfo(0, EmptyHistory(), EmptyHistory(), EmptyHistory(), EmptyHistory())
  }

  /** `GpuInfo::update`: percentages become fractions. */
  function UpdateGpu(g: GpuInfo, cur: GpuSnapshot): GpuInfo {
    GpuInfo(cur.memInfoVramTotal,
            Push(g.vramUsed, cur.memInfoVramUsed as real),
            Push(g.vramBusy, cur.memBusyPercent as real / 100.0),
            Push(g.gpuBusy, cur.gpuBusyPercent as real / 100.0),
            Push(g.maxTemperature, cur.maxTemperature as real))
  }

  /** A busy percentage of at most 100 shows as a fraction in [0, 1]. */
  lemma GpuBusyIsFraction(g: GpuInfo, cur: GpuSnapshot)
    requires cur.memBusyPercent <= 100 && cur.gpuBusyPercent <= 100
    ensures var u := UpdateGpu(g, cur);
            && 0.0 <= Latest(u.vramBusy) <= 1.0 && 0.0 <= Latest(u.gpuBusy) <= 1.0
            && 100.0 * Latest(u.gpuBusy) == cur.gpuBusyPercent as real
  {
  }

  /** `by_gpu` after an update: exactly the GPUs of the new snapshot, each
      updated from its previous state, or the default for a new GPU. */
  predicate IsGpusUpdate(r: map<string, GpuInfo>, before: map<string, GpuInfo>, cur: map<string, GpuSnapshot>) {
    && r.Keys == cur.Keys
    && forall k :: k in r ==> r[k] == UpdateGpu(if k in before then before[k] else DefaultGpuInfo(), cur[k])
  }

  /** The `by_gpu` block of `SystemInfo::update`: drop the GPUs no longer
      present, then update every current GPU, starting a new one from the
      default. Unlike the other maps, the old snapshot plays no part. */
  method ReconcileGpus(byGpu: map<string, GpuInfo>, cur: map<string, GpuSnapshot>) returns (r: map<string, GpuInfo>)
    ensures IsGpusUpdate(r, byGpu, cur)
  {
    r := UpdateEach(byGpu, cur, DefaultGpuInfo(), UpdateGpu);
  }

  /** Keep exactly the keys of `cur`; each is updated once with `f(state,
      cur[k])`, starting from `dflt` when it had no state. */
  method UpdateEach<T, U>(ret: map<string, U>, cur: map<string, T>, dflt: U, f: (U, T) -> U)
    returns (r: map<string, U>)
    ensures r.Keys == cur.Keys
    ensures forall k :: k in r ==> r[k] == f(if k in ret then ret[k] else dflt, cur[k])
  {
    r := map k | k in ret && k in cur :: ret[k];
    var todo := cur.Keys;
    while todo != {}
      invariant todo <= cur.Keys
      invariant r.Keys == (ret.Keys * cur.Keys) + (cur.Keys - todo)
      invariant forall k :: k in todo && k in r ==> r[k] == ret[k]
      invariant forall k :: k in cur.Keys - todo ==> r[k] == f(if k in ret then ret[k] else dflt, cur[k])
      decreases todo
    {
      var k :| k in todo;
      var slot := if k in r then r[k] else dflt;
      r := r[k := f(slot, cur[k])];
      todo := todo - {k};
    }
  }

  // ---------------------------------------------------------------------------
  // SystemInfo

  class SystemInfo {
    var global: GlobalInfo
    var byCpu: seq<CpuInfo>
    var totalCpu: CpuInfo
    var byPartition: map<string, PartitionInfo>
    var byNetInterface: map<string, NetInterfaceInfo>
    var byGpu: map<string, GpuInfo>

    /** `SystemInfo::default()`. */
    constructor Default()
      ensures global == DefaultGlobalInfo() && byCpu == [] && totalCpu == DefaultCpuInfo()
      ensures byPartition == map[] && byNetInterface == map[] && byGpu == map[]
    {
      global := DefaultGlobalInfo();
      byCpu := [];
      totalCpu := DefaultCpuInfo();
      byPartition := map[];
      byNetInterface := map[];
      byGpu := map[];
    }

    /** `SystemInfo::update`: one tick of every metric. */
    method Update(cur: Snapshot, prev: OldSnapshot)
      modifies this
      ensures global == UpdateGlobal(old(global), cur.memInfo)
      ensures IsCpusUpdate(byCpu, old(byCpu), cur.cpusStat, prev.cpusStat)
      ensures totalCpu == PushSumOfOthers(old(totalCpu), byCpu)
      ensures IsPartitionsUpdate(byPartition, old(byPartition), prev.diskStats, cur.diskStats)
      ensures IsNetInterfacesUpdate(byNetInterface, old(byNetInterface), prev.byNetInterface, cur.byNetInterface)
      ensures IsGpusUpdate(byGpu, old(byGpu), cur.byGpu)
    {
      var global0, cpus0, total0 := global, byCpu, totalCpu;
      var partitions0, interfaces0, gpus0 := byPartition, byNetInterface, byGpu;
      var cpus := UpdateAllCpus(cpus0, cur.cpusStat, prev.cpusStat);
      var partitions := UpdateAllPartitions(partitions0, prev.diskStats, cur.diskStats);
      var interfaces := UpdateAllNetInterfaces(interfaces0, prev.byNetInterface, cur.byNetInterface);
      var gpus := ReconcileGpus(gpus0, cur.byGpu);
      global, byCpu, totalCpu, byPartition, byNetInterface, byGpu :=
        UpdateGlobal(global0, cur.memInfo), cpus, PushSumOfOthers(total0, cpus), partitions, interfaces, gpus;
    }
  }
}
