/** Shared vocabulary: optional values, the outcome of code that may panic,
    and the ascending key order in which a BTreeMap is traversed. */
module Base {

  datatype Option<T> = None | Some(value: T) {
    function GetOr(default: T): T {
      match this
      case Some(v) => v
      case None => default
    }
  }

  /** The outcome of Rust code that either returns a value or panics
      (`unwrap`, `expect`, `assert!`, an out-of-range slice). A panic aborts the
      whole program, so no message is kept. */
  datatype Result<T> = Ok(value: T) | Panic

  /** Saturating subtraction on unsigned integers (`u64::saturating_sub`). */
  function SaturatingSub(a: nat, b: nat): (r: nat)
    ensures a >= b ==> r + b == a
    ensures a < b ==> r == 0
  {
    if a >= b then a - b else 0
  }

  const U16_LIMIT: nat := 0x1_0000
  const U32_LIMIT: nat := 0x1_0000_0000
  const U64_LIMIT: nat := 0x1_0000_0000_0000_0000

  /** A truncating cast (`x as u16`, `x as u32`): keeps `x` modulo `limit`. */
  function Truncate(x: nat, limit: nat): (r: nat)
    requires limit > 0
    ensures r < limit
    ensures x < limit ==> r == x
  {
    x % limit
  }

  // ---------------------------------------------------------------------------
  // Ascending key order of a BTreeMap<u32, _>

  ghost predicate StrictlyIncreasing(s: seq<nat>) {
    forall i, j :: 0 <= i < j < |s| ==> s[i] < s[j]
  }

  /** Every finite, non-empty set of naturals has a least element: descend
      from any member to a smaller one while there is one. */
  lemma {:induction false} MinBelow(s: set<nat>, x: nat)
    requires x in s
    ensures exists k :: k in s && forall j :: j in s ==> k <= j
    decreases x
  {
    if !(forall j :: j in s ==> x <= j) {
      var y :| y in s && y < x;
      MinBelow(s, y);
    }
  }

  function MinKey(s: set<nat>): (k: nat)
    requires s != {}
    ensures k in s && forall j :: j in s ==> k <= j
  {
    var x :| x in s;
    MinBelow(s, x);
    var k :| k in s && forall j :: j in s ==> k <= j;
    k
  }

  /** The members of `s` in ascending order. */
  function Ascending(s: set<nat>): (r: seq<nat>)
    ensures |r| == |s|
    ensures forall k :: k in s <==> k in r
    ensures StrictlyIncreasing(r)
    decreases |s|
  {
    if s == {} then []
    else
      var k := MinKey(s);
      var tail := Ascending(s - {k});
      AscendingCons(s, k, tail);
      [k] + tail
  }

  /** Putting the least member in front of the ascending rest. */
  lemma AscendingCons(s: set<nat>, k: nat, tail: seq<nat>)
    requires k in s && forall j :: j in s ==> k <= j
    requires |tail| == |s - {k}| && (forall j :: j in s - {k} <==> j in tail)
    requires StrictlyIncreasing(tail)
    ensures |[k] + tail| == |s|
    ensures forall j :: j in s <==> j in [k] + tail
    ensures StrictlyIncreasing([k] + tail)
  {
    assert s == (s - {k}) + {k};
    assert |s| == |s - {k}| + 1;
    var r := [k] + tail;
    forall i, j | 0 <= i < j < |r| ensures r[i] < r[j] {
      assert r[j] == tail[j - 1] && r[j] in s - {k};
      if i > 0 {
        assert r[i] == tail[i - 1];
      }
    }
  }

  /** The keys of `m` in the order a BTreeMap iterates them: ascending. */
  function SortedKeys<V>(m: map<nat, V>): (r: seq<nat>)
    ensures |r| == |m|
    ensures forall k :: k in m <==> k in r
    ensures StrictlyIncreasing(r)
  {
    assert |m.Keys| == |m|;
    Ascending(m.Keys)
  }

  // ---------------------------------------------------------------------------
  // Sequences of sequences

  /** The concatenation of the pieces, in order. */
  function Concat<T>(ss: seq<seq<T>>): seq<T> {
    if ss == [] then [] else ss[0] + Concat(ss[1..])
  }

  lemma {:induction false} ConcatAppend<T>(a: seq<seq<T>>, b: seq<seq<T>>)
    ensures Concat(a + b) == Concat(a) + Concat(b)
    decreases |a|
  {
    if a == [] {
      assert a + b == b;
    } else {
      assert (a + b)[1..] == a[1..] + b;
      ConcatAppend(a[1..], b);
    }
  }
}
