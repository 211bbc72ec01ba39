/** crates/sysinfo/src/series.rs: a ring buffer holding the last HISTORY
    samples of one metric. `last` is the slot of the newest sample, so the
    oldest one sits just after it. */
module Series {
  import opened Base
  import opened Util

  // ---------------------------------------------------------------------------
  // The abstract history: HISTORY samples, oldest first

  /** The history after one push: the oldest sample falls out, `x` comes in. */
  function Pushed<T>(h: seq<T>, x: T): (r: seq<T>)
    requires |h| >= 1
    ensures |r| == |h|
  {
    h[1..] + [x]
  }

  /** The history after pushing every element of `xs` in order. */
  function PushAll<T>(h: seq<T>, xs: seq<T>): (r: seq<T>)
    requires |h| >= 1
    ensures |r| == |h|
    decreases |xs|
  {
    if xs == [] then h else PushAll(Pushed(h, xs[0]), xs[1..])
  }

  /** A series always holds the most recent `|h|` values of everything pushed
      into it, the initial contents counting as pushed first. */
  lemma {:induction false} PushAllKeepsWindow<T>(h: seq<T>, xs: seq<T>)
    requires |h| >= 1
    ensures PushAll(h, xs) == (h + xs)[|xs|..]
    decreases |xs|
  {
    if xs != [] {
      PushAllKeepsWindow(Pushed(h, xs[0]), xs[1..]);
      assert (h[1..] + [xs[0]]) + xs[1..] == (h + xs)[1..];
    } else {
      assert h + xs == h;
    }
  }

  // ---------------------------------------------------------------------------
  // Slices cut into chunks (`chunks_exact`, `rchunks_exact`)

  function Reverse<T>(s: seq<T>): (r: seq<T>)
    ensures |r| == |s|
    ensures forall k :: 0 <= k < |s| ==> r[k] == s[|s| - 1 - k]
  {
    if s == [] then [] else Reverse(s[1..]) + [s[0]]
  }

  /** `s.chunks_exact(n)`: the chunks of length `n` from the front. */
  function ChunksExact<T>(s: seq<T>, n: nat): (r: seq<seq<T>>)
    requires n > 0
    ensures forall k :: 0 <= k < |r| ==> |r[k]| == n
    decreases |s|
  {
    if |s| < n then [] else [s[..n]] + ChunksExact(s[n..], n)
  }

  /** `chunks_exact(n).remainder()`: the short piece left at the back. */
  function ChunksRemainder<T>(s: seq<T>, n: nat): (r: seq<T>)
    requires n > 0
    ensures |r| < n
    decreases |s|
  {
    if |s| < n then s else ChunksRemainder(s[n..], n)
  }

  /** `s.rchunks_exact(n)`: the chunks of length `n` from the back, last first. */
  function RChunksExact<T>(s: seq<T>, n: nat): (r: seq<seq<T>>)
    requires n > 0
    ensures forall k :: 0 <= k < |r| ==> |r[k]| == n
    decreases |s|
  {
    if |s| < n then [] else [s[|s| - n..]] + RChunksExact(s[..|s| - n], n)
  }

  /** `rchunks_exact(n).remainder()`: the short piece left at the front. */
  function RChunksRemainder<T>(s: seq<T>, n: nat): (r: seq<T>)
    requires n > 0
    ensures |r| < n
    decreases |s|
  {
    if |s| < n then s else RChunksRemainder(s[..|s| - n], n)
  }

  /** The chunks and the remainder of `chunks_exact` tile the slice. */
  lemma {:induction false} ChunksExactTiles<T>(s: seq<T>, n: nat)
    requires n > 0
    ensures Concat(ChunksExact(s, n)) + ChunksRemainder(s, n) == s
    decreases |s|
  {
    if |s| >= n {
      var rest := s[n..];
      ChunksExactTiles(rest, n);
      var cs := [s[..n]] + ChunksExact(rest, n);
      assert cs[1..] == ChunksExact(rest, n);
      assert Concat(cs) == s[..n] + Concat(ChunksExact(rest, n));
      assert ChunksRemainder(s, n) == ChunksRemainder(rest, n);
      assert s[..n] + rest == s;
    }
  }

  /** Reversed, the chunks of `rchunks_exact` follow its remainder in order. */
  lemma {:induction false} RChunksExactTiles<T>(s: seq<T>, n: nat)
    requires n > 0
    ensures RChunksRemainder(s, n) + Concat(Reverse(RChunksExact(s, n))) == s
    decreases |s|
  {
    if |s| >= n {
      var front := s[..|s| - n];
      RChunksExactTiles(front, n);
      var back := s[|s| - n..];
      var cs := [back] + RChunksExact(front, n);
      assert cs[1..] == RChunksExact(front, n);
      ConcatAppend(Reverse(RChunksExact(front, n)), [back]);
      assert Concat([back]) == back by {
        assert [back][1..] == [];
        assert back + [] == back;
      }
      assert front + back == s;
    }
  }

  lemma Regroup<T>(a: seq<T>, b: seq<T>, c: seq<T>, d: seq<T>)
    ensures a + (b + c) + d == (a + b) + (c + d)
  {
  }

  /** The pieces `chunks` cuts from the two halves of the ring, `tail` (older)
      and `head` (newer), tile `tail + head`. */
  lemma ChunksAcrossWrap<T>(tail: seq<T>, head: seq<T>, n: nat)
    requires n > 0
    ensures RChunksRemainder(tail, n) + Concat(Reverse(RChunksExact(tail, n)) + ChunksExact(head, n))
              + ChunksRemainder(head, n) == tail + head
  {
    var front := Reverse(RChunksExact(tail, n));
    var back := ChunksExact(head, n);
    var r := RChunksRemainder(tail, n);
    var c := ChunksRemainder(head, n);
    RChunksExactTiles(tail, n);
    ChunksExactTiles(head, n);
    ConcatAppend(front, back);
    Regroup(r, Concat(front), Concat(back), c);
  }

  /** Every whole chunk `chunks` yields has exactly `n` samples. */
  lemma ChunksAcrossWrapSizes<T>(tail: seq<T>, head: seq<T>, n: nat)
    requires n > 0
    ensures forall k :: 0 <= k < |Reverse(RChunksExact(tail, n)) + ChunksExact(head, n)| ==>
              |(Reverse(RChunksExact(tail, n)) + ChunksExact(head, n))[k]| == n
  {
    var front := Reverse(RChunksExact(tail, n));
    assert forall k :: 0 <= k < |front| ==> |front[k]| == n;
  }

  // ---------------------------------------------------------------------------
  // The ring buffer

  class Series<T> {
    var inner: array<T>
    var last: nat

    ghost predicate Valid()
      reads this
    {
      inner.Length == HISTORY && last < HISTORY
    }

    /** `Series::default()`: every slot holds the default value `d` and the
        newest slot is the final one, so the history reads from slot 0. */
    constructor Default(d: T)
      ensures Valid() && fresh(inner)
      ensures Iter() == seq(HISTORY, _ => d)
      ensures last == HISTORY - 1
    {
      inner := new T[HISTORY](_ => d);
      last := HISTORY - 1;
      new;
      assert inner[last + 1..] == [];
      assert inner[..last + 1] == inner[..];
    }

    /** `iter()`: the samples from the oldest, just after `last`, to the newest,
        at `last`. */
    function Iter(): (r: seq<T>)
      requires Valid()
      reads this, inner
      ensures |r| == HISTORY && r == Rotate(inner[..], last + 1)
      ensures r[HISTORY - 1] == inner[last]
    {
      inner[last + 1..] + inner[..last + 1]
    }

    /** `capacity()`: the fixed number of samples kept. */
    static function Capacity(): (r: nat)
      ensures r == 3601
    {
      HISTORY
    }

    /** `latest()`: the newest sample, the final element of `iter()`. */
    function Latest(): (r: T)
      requires Valid()
      reads this, inner
      ensures r == Iter()[Capacity() - 1]
    {
      inner[last]
    }

    /** `push(item)`: advance `last` (wrapping to 0 at HISTORY) and overwrite
        that slot, which held the oldest sample. */
    method Push(item: T)
      requires Valid()
      modifies this, inner
      ensures Valid() && inner == old(inner)
      ensures last == if old(last) + 1 == HISTORY then 0 else old(last) + 1
      ensures inner[..] == old(inner[..])[last := item]
      ensures Iter() == Pushed(old(Iter()), item)
      ensures Latest() == item
    {
      ghost var before := inner[..];
      last := last + 1;
      if last == HISTORY {
        last := 0;
      }
      inner[last] := item;
      RotateOverwrite(before, last, item);
      if last == 0 {
        RotateFull(before);
      }
    }

    /** `chunks(n)`: the oldest `first` piece, then whole chunks of `n` samples in
        time order, then the newest `last` piece; a chunk size of 0 panics, as
        `chunks_exact` does. */
    function Chunks(n: nat): (r: Result<(seq<T>, seq<seq<T>>, seq<T>)>)
      requires Valid()
      reads this, inner
      ensures r.Panic? <==> n == 0
      ensures r.Ok? ==> r.value.0 + Concat(r.value.1) + r.value.2 == Iter()
      ensures r.Ok? ==> |r.value.0| < n && |r.value.2| < n
      ensures r.Ok? ==> forall k :: 0 <= k < |r.value.1| ==> |r.value.1[k]| == n
    {
      if n == 0 then Panic
      else
        var tail := inner[last + 1..];
        var head := inner[..last + 1];
        ChunksAcrossWrap(tail, head, n);
        ChunksAcrossWrapSizes(tail, head, n);
        Ok((RChunksRemainder(tail, n), Reverse(RChunksExact(tail, n)) + ChunksExact(head, n), ChunksRemainder(head, n)))
    }
  }
}
