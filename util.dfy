/** crates/util: the history length shared by all series, a fixed-window
    moving average, and the forward-only `Key: value` extractor used on
    `/proc/<pid>/status` and `/proc/<pid>/task/<tid>/io`. */
module Util {
  import opened Base
  import opened Text

  /** Sub-second resolution of the sampling schedule: 60 ticks per second. */
  const SUBSEC: nat := 60
  /** Every series keeps one minute of history plus the current sample. */
  const HISTORY: nat := 60 * SUBSEC + 1

  lemma HistoryValue()
    ensures HISTORY == 3601
  {
  }

  // ---------------------------------------------------------------------------
  // Rotations of a fixed-size buffer

  /** The buffer `a` read starting from slot `k`, wrapping around. */
  function Rotate<T>(a: seq<T>, k: nat): (r: seq<T>)
    requires k <= |a|
    ensures |r| == |a|
    ensures forall j :: 0 <= j < |a| ==> r[j] == if k + j < |a| then a[k + j] else a[k + j - |a|]
  {
    a[k..] + a[..k]
  }

  /** Overwriting the oldest slot `k` and advancing past it drops the oldest
      value of the rotated view and appends the new one. */
  lemma RotateOverwrite<T>(a: seq<T>, k: nat, x: T)
    requires k < |a|
    ensures Rotate(a[k := x], k + 1) == Rotate(a, k)[1..] + [x]
  {
    var b := a[k := x];
    assert b[k + 1..] == a[k + 1..];
    assert b[..k + 1] == a[..k] + [x];
    assert Rotate(a, k)[1..] == a[k + 1..] + a[..k];
  }

  lemma RotateFull<T>(a: seq<T>)
    ensures Rotate(a, |a|) == a && Rotate(a, 0) == a
  {
    assert a[|a|..] == [] && a[..|a|] == a;
    assert a[0..] == a && a[..0] == [];
  }

  // ---------------------------------------------------------------------------
  // Sums of samples

  function Sum(s: seq<real>): real {
    if s == [] then 0.0 else s[0] + Sum(s[1..])
  }

  lemma {:induction false} SumConcat(a: seq<real>, b: seq<real>)
    ensures Sum(a + b) == Sum(a) + Sum(b)
    decreases |a|
  {
    if a != [] {
      assert (a + b)[1..] == a[1..] + b;
      SumConcat(a[1..], b);
    } else {
      assert a + b == b;
    }
  }

  lemma SumRotate(a: seq<real>, k: nat)
    requires k <= |a|
    ensures Sum(Rotate(a, k)) == Sum(a)
  {
    assert Rotate(a, k) == a[k..] + a[..k];
    SumConcat(a[k..], a[..k]);
    SumConcat(a[..k], a[k..]);
    assert a[..k] + a[k..] == a;
  }

  function Zeros(n: nat): (r: seq<real>)
    ensures |r| == n && forall j :: 0 <= j < n ==> r[j] == 0.0
  {
    seq(n, _ => 0.0)
  }

  lemma {:induction false} SumZeros(n: nat)
    ensures Sum(Zeros(n)) == 0.0
  {
    if n > 0 {
      assert Zeros(n)[1..] == Zeros(n - 1);
      SumZeros(n - 1);
    }
  }

  /** The `n` most recent samples of history `h`, where slots never written
      count as 0. */
  function Recent(h: seq<real>, n: nat): (r: seq<real>)
    ensures |r| == n
  {
    (Zeros(n) + h)[|h|..]
  }

  /** Once at least `n` samples were added, the window is exactly the last `n`. */
  lemma RecentFull(h: seq<real>, n: nat)
    requires |h| >= n
    ensures Recent(h, n) == h[|h| - n..]
  {
  }

  /** Before that, the window is padded with zeros in front. */
  lemma RecentPartial(h: seq<real>, n: nat)
    requires |h| < n
    ensures Recent(h, n) == Zeros(n - |h|) + h
  {
  }

  lemma RecentPush(h: seq<real>, n: nat, x: real)
    requires n > 0
    ensures Recent(h + [x], n) == Recent(h, n)[1..] + [x]
  {
    assert Zeros(n) + (h + [x]) == (Zeros(n) + h) + [x];
  }

  // ---------------------------------------------------------------------------
  // WindowMovingAverage

  /** A fixed window of the last `windowSize` samples. `i` is the slot the next
      sample overwrites, which is also the oldest sample. */
  class WindowMovingAverage {
    const windowSize: nat
    var i: nat
    var samples: array<real>
    /** Every sample ever added, oldest first. */
    ghost var added: seq<real>

    ghost predicate Valid()
      reads this, samples
    {
      && samples.Length == windowSize
      && (if windowSize == 0 then i == 0 else i < windowSize)
      && Rotate(samples[..], i) == Recent(added, windowSize)
    }

    /** `Default::default()`: slot 0 next, every sample 0. */
    constructor Default(windowSize: nat)
      ensures Valid() && fresh(samples)
      ensures this.windowSize == windowSize && i == 0
      ensures samples[..] == Zeros(windowSize) && added == []
    {
      this.windowSize := windowSize;
      i := 0;
      samples := new real[windowSize](_ => 0.0);
      added := [];
      new;
      RotateFull(samples[..]);
      assert samples[..] == Zeros(windowSize);
    }

    /** `add`: overwrite the oldest slot, then advance the index modulo the window. */
    method Add(sample: real)
      requires Valid() && windowSize > 0
      modifies this, samples
      ensures Valid() && samples == old(samples)
      ensures samples[..] == old(samples[..])[old(i) := sample]
      ensures i == if old(i) + 1 == windowSize then 0 else old(i) + 1
      ensures added == old(added) + [sample]
    {
      ghost var before := samples[..];
      ghost var k := i;
      samples[i] := sample;
      ghost var after := samples[..];
      assert after == before[k := sample];
      // `(i + 1) % windowSize` with `i < windowSize`
      i := if i + 1 == windowSize then 0 else i + 1;
      added := added + [sample];
      assert Rotate(after, k + 1) == Recent(added, windowSize) by {
        RotateOverwrite(before, k, sample);
        RecentPush(old(added), windowSize, sample);
      }
      if i == 0 {
        RotateFull(after);
      }
    }

    /** `get`: the arithmetic mean over the whole window; that is the mean of the
        `windowSize` most recent samples, counting unfilled slots as 0. */
    function Get(): (r: real)
      requires Valid() && windowSize > 0
      reads this, samples
      ensures r == Sum(Recent(added, windowSize)) / (windowSize as real)
    {
      SumRotate(samples[..], i);
      Sum(samples[..]) / (windowSize as real)
    }

    /** `smooth`: `add` followed by `get`. */
    method Smooth(sample: real) returns (r: real)
      requires Valid() && windowSize > 0
      modifies this, samples
      ensures Valid() && samples == old(samples)
      ensures added == old(added) + [sample]
      ensures r == Sum(Recent(added, windowSize)) / (windowSize as real)
    {
      Add(sample);
      r := Get();
    }
  }

  /** After `n` or more samples the moving average is the plain mean of the last `n`. */
  lemma MeanOfLastWindow(h: seq<real>, n: nat)
    requires n > 0 && |h| >= n
    ensures Sum(Recent(h, n)) / (n as real) == Sum(h[|h| - n..]) / (n as real)
  {
    RecentFull(h, n);
  }

  /** Before that, missing samples pull the average towards 0. */
  lemma MeanOfPartialWindow(h: seq<real>, n: nat)
    requires |h| < n
    ensures Sum(Recent(h, n)) == Sum(h)
  {
    RecentPartial(h, n);
    SumConcat(Zeros(n - |h|), h);
    SumZeros(n - |h|);
  }

  // ---------------------------------------------------------------------------
  // TextualKeyValue::extract_from

  /** The value after a matched key: `:` must follow the key immediately; then
      leading tabs, then leading spaces are dropped, and the first
      whitespace-separated word must parse as a `u64`. Anything else panics. */
  function ParseKeyValue(rest: string): Result<nat> {
    if !StartsWith(rest, ":") then Panic
    else
      var words := SplitAsciiWhitespace(TrimStartMatches(TrimStartMatches(rest[1..], '\t'), ' '));
      if words == [] then Panic
      else
        match ParseU64(words[0])
        case None => Panic
        case Some(v) => Ok(v)
  }

  /** Advance the line cursor to the first line starting with `key` and read
      the text after the key with `read`; returns the value and the lines after
      it. Running out of lines panics ("key missing in data"). */
  function Scan(key: string, lines: seq<string>, read: string -> Result<nat>): Result<(nat, seq<string>)>
    decreases |lines|
  {
    if lines == [] then Panic
    else if StartsWith(lines[0], key) then
      match read(lines[0][|key|..])
      case Panic => Panic
      case Ok(v) => Ok((v, lines[1..]))
    else Scan(key, lines[1..], read)
  }

  /** The search for one key of the schema. */
  function ScanKey(key: string, lines: seq<string>): Result<(nat, seq<string>)> {
    Scan(key, lines, ParseKeyValue)
  }

  function Prefixed<T>(acc: seq<T>, r: Result<seq<T>>): Result<seq<T>> {
    match r
    case Ok(v) => Ok(acc + v)
    case Panic => Panic
  }

  /** Reference semantics of `extract_from`: the schema entries in order, each
      `Some(key)` consuming lines up to and including its match, each `None`
      skipped (its slot keeps the caller's value, reported here as `None`). */
  function Extract(schema: seq<Option<string>>, lines: seq<string>): Result<seq<Option<nat>>>
    decreases |schema|
  {
    if schema == [] then Ok([])
    else
      match schema[0]
      case None => Prefixed([None], Extract(schema[1..], lines))
      case Some(key) =>
        match ScanKey(key, lines)
        case Panic => Panic
        case Ok((v, rest)) => Prefixed([Some(v)], Extract(schema[1..], rest))
  }

  lemma PrefixedAssoc<T>(a: seq<T>, b: seq<T>, r: Result<seq<T>>)
    ensures Prefixed(a, Prefixed(b, r)) == Prefixed(a + b, r)
  {
    if r.Ok? {
      assert a + (b + r.value) == (a + b) + r.value;
    }
  }

  /** `TextualKeyValue::extract_from(schema, data)`: one pass over `data.lines()`
      with a shared cursor, filling the slot of each `Some` entry of the schema. */
  method ExtractFrom(schema: seq<Option<string>>, data: string) returns (r: Result<seq<Option<nat>>>)
    ensures r == Extract(schema, Lines(data))
  {
    var lines := Lines(data);
    var pos := 0;
    var acc: seq<Option<nat>> := [];
    assert schema[0..] == schema && lines[0..] == lines;
    assert Extract(schema, lines) == Prefixed(acc, Extract(schema, lines)) by {
      var e := Extract(schema, lines);
      if e.Ok? {
        assert [] + e.value == e.value;
      }
    }
    for k := 0 to |schema|
      invariant pos <= |lines|
      invariant Extract(schema, lines) == Prefixed(acc, Extract(schema[k..], lines[pos..]))
    {
      assert schema[k..][1..] == schema[k + 1..];
      match schema[k]
      case None =>
        PrefixedAssoc(acc, [None], Extract(schema[k + 1..], lines[pos..]));
        acc := acc + [None];
      case Some(key) =>
        var found := false;
        while !found
          invariant pos <= |lines|
          invariant found ==> Extract(schema, lines) == Prefixed(acc, Extract(schema[k + 1..], lines[pos..]))
          invariant !found ==> Extract(schema, lines) == Prefixed(acc, Extract(schema[k..], lines[pos..]))
          decreases |lines| - pos, !found
        {
          if pos == |lines| {
            return Panic;
          }
          var line := lines[pos];
          assert lines[pos..][1..] == lines[pos + 1..];
          pos := pos + 1;
          if StartsWith(line, key) {
            var v := ParseKeyValue(line[|key|..]);
            if v.Panic? {
              return Panic;
            }
            PrefixedAssoc(acc, [Some(v.value)], Extract(schema[k + 1..], lines[pos..]));
            acc := acc + [Some(v.value)];
            found := true;
          }
        }
    }
    assert schema[|schema|..] == [];
    assert acc + [] == acc;
    r := Ok(acc);
  }

  /** A successful extraction fills exactly the `Some` slots of the schema. */
  lemma {:induction false} ExtractShape(schema: seq<Option<string>>, lines: seq<string>)
    requires Extract(schema, lines).Ok?
    ensures |Extract(schema, lines).value| == |schema|
    ensures forall k :: 0 <= k < |schema| ==> (Extract(schema, lines).value[k].Some? <==> schema[k].Some?)
    decreases |schema|
  {
    if schema != [] {
      match schema[0]
      case None => ExtractShape(schema[1..], lines);
      case Some(key) =>
        var rest := ScanKey(key, lines).value.1;
        ExtractShape(schema[1..], rest);
    }
  }

  /** Scanning for a key reads the first line that starts with it. */
  lemma {:induction false} ScanAtFindKey(key: string, lines: seq<string>, read: string -> Result<nat>)
    ensures var j := FindKey(lines, key);
            Scan(key, lines, read) == if j == |lines| then Panic else
              match read(lines[j][|key|..])
              case Panic => Panic
              case Ok(v) => Ok((v, lines[j + 1..]))
    decreases |lines|
  {
    if lines != [] && !StartsWith(lines[0], key) {
      ScanAtFindKey(key, lines[1..], read);
      var j := FindKey(lines[1..], key);
      if j < |lines[1..]| {
        assert lines[1..][j] == lines[j + 1];
        assert lines[1..][j + 1..] == lines[j + 2..];
      }
    }
  }

  /** The cursor only moves forward: the key is read from the first line at or
      after the cursor that starts with it, and the lines after that line are
      all that the following keys can see. */
  lemma ScanFirstMatch(key: string, lines: seq<string>, read: string -> Result<nat>)
    requires Scan(key, lines, read).Ok?
    ensures exists j ::
              && 0 <= j < |lines| && StartsWith(lines[j], key)
              && (forall i :: 0 <= i < j ==> !StartsWith(lines[i], key))
              && read(lines[j][|key|..]) == Ok(Scan(key, lines, read).value.0)
              && Scan(key, lines, read).value.1 == lines[j + 1..]
  {
    ScanAtFindKey(key, lines, read);
    var j := FindKey(lines, key);
    assert j < |lines|;
    assert read(lines[j][|key|..]) == Ok(Scan(key, lines, read).value.0);
  }

  /** A key that no remaining line starts with makes the extraction panic. */
  lemma ScanKeyMissing(key: string, lines: seq<string>)
    requires forall i :: 0 <= i < |lines| ==> !StartsWith(lines[i], key)
    ensures ScanKey(key, lines) == Panic
  {
    ScanAtFindKey(key, lines, ParseKeyValue);
  }

  /** A matching line without `:` right after the key panics too. */
  lemma ScanKeyNoColon(key: string, lines: seq<string>)
    requires lines != [] && StartsWith(lines[0], key)
    requires !StartsWith(lines[0][|key|..], ":")
    ensures ScanKey(key, lines) == Panic
  {
  }

  /** How a value is read once its words are known. */
  lemma ParseKeyValueWords(rest: string, t: string, words: seq<string>, v: nat)
    requires StartsWith(rest, ":") && TrimStartMatches(TrimStartMatches(rest[1..], '\t'), ' ') == t
    requires SplitAsciiWhitespace(t) == words && words != [] && ParseU64(words[0]) == Some(v)
    ensures ParseKeyValue(rest) == Ok(v)
  {
  }

  lemma TrimStartMatchesStep(s: string, c: char)
    requires s != [] && s[0] == c
    ensures TrimStartMatches(s, c) == TrimStartMatches(s[1..], c)
  {
  }

  lemma TrimStartMatchesStop(s: string, c: char)
    requires s == [] || s[0] != c
    ensures TrimStartMatches(s, c) == s
  {
  }

  lemma DropTab(s: string)
    requires s == "\t  1234 kB"
    ensures TrimStartMatches(s, '\t') == "  1234 kB"
  {
    assert s[1..] == "  1234 kB";
    TrimStartMatchesStep(s, '\t');
    TrimStartMatchesStop(s[1..], '\t');
  }

  lemma DropSpaces(s: string)
    requires s == "  1234 kB"
    ensures TrimStartMatches(s, ' ') == "1234 kB"
  {
    assert s[1..] == " 1234 kB" && s[1..][1..] == "1234 kB";
    TrimStartMatchesStep(s, ' ');
    TrimStartMatchesStep(s[1..], ' ');
    TrimStartMatchesStop(s[1..][1..], ' ');
  }

  lemma VmRssPadding(rest: string)
    requires rest == ":\t  1234 kB"
    ensures TrimStartMatches(TrimStartMatches(rest[1..], '\t'), ' ') == "1234 kB"
  {
    assert rest[1..] == "\t  1234 kB";
    DropTab(rest[1..]);
    DropSpaces("  1234 kB");
  }

  lemma VmRssWords()
    ensures SplitAsciiWhitespace("1234 kB") == ["1234", "kB"] && ParseU64("1234") == Some(1234)
  {
    assert "1234 kB" == Join(["1234", "kB"], ' ');
    SplitAsciiWhitespaceJoin(["1234", "kB"]);
    assert Decimal(1234) == "1234";
    ParseDecimal(1234, U64_LIMIT);
  }

  lemma VmRssValue(rest: string)
    requires rest == ":\t  1234 kB"
    ensures ParseKeyValue(rest) == Ok(1234)
  {
    assert rest[..1] == ":";
    VmRssPadding(rest);
    VmRssWords();
    ParseKeyValueWords(rest, "1234 kB", ["1234", "kB"], 1234);
  }

  /** `VmRSS:\t  1234 kB` gives 1234: tabs, then spaces are skipped and the unit
      is not part of the first word. */
  lemma ParseKeyValueExample()
    ensures ParseKeyValue(":\t  1234 kB") == Ok(1234)
  {
    VmRssValue(":\t  1234 kB");
  }

  lemma ScanKeySkip(key: string, lines: seq<string>)
    requires lines != [] && !StartsWith(lines[0], key)
    ensures ScanKey(key, lines) == ScanKey(key, lines[1..])
  {
  }

  lemma ScanKeyHit(key: string, lines: seq<string>, v: nat)
    requires lines != [] && StartsWith(lines[0], key) && ParseKeyValue(lines[0][|key|..]) == Ok(v)
    ensures ScanKey(key, lines) == Ok((v, lines[1..]))
  {
  }

  lemma NameIsNotVmRss(line: string)
    requires line == "Name:\tbash"
    ensures !StartsWith(line, "VmRSS")
  {
    assert line[0] != "VmRSS"[0];
  }

  lemma VmRssLine(line: string)
    requires line == "VmRSS:\t  1234 kB"
    ensures StartsWith(line, "VmRSS") && ParseKeyValue(line[|"VmRSS"|..]) == Ok(1234)
  {
    assert line[..5] == "VmRSS";
    assert line[5..] == ":\t  1234 kB";
    VmRssValue(line[5..]);
  }

  lemma ScanKeyVmRss(lines: seq<string>)
    requires |lines| == 2 && lines[0] == "Name:\tbash" && lines[1] == "VmRSS:\t  1234 kB"
    ensures ScanKey("VmRSS", lines) == Ok((1234, []))
  {
    NameIsNotVmRss(lines[0]);
    ScanKeySkip("VmRSS", lines);
    var tail := lines[1..];
    assert tail[0] == lines[1];
    VmRssLine(tail[0]);
    ScanKeyHit("VmRSS", tail, 1234);
    assert tail[1..] == [];
  }

  lemma StatusLines(data: string)
    requires data == "Name:\tbash\nVmRSS:\t  1234 kB"
    ensures Lines(data) == ["Name:\tbash", "VmRSS:\t  1234 kB"]
  {
    assert data == Join(["Name:\tbash", "VmRSS:\t  1234 kB"], '\n');
    LinesJoin(["Name:\tbash", "VmRSS:\t  1234 kB"]);
  }

  lemma ExtractOne(key: string, lines: seq<string>, v: nat, rest: seq<string>)
    requires ScanKey(key, lines) == Ok((v, rest))
    ensures Extract([Some(key)], lines) == Ok([Some(v)])
  {
    assert [Some(key)][1..] == [];
    assert [Some(v)] + [] == [Some(v)];
  }

  /** Reading `VmRSS` from a two-line status text. */
  lemma ExtractVmRssExample(data: string)
    requires data == "Name:\tbash\nVmRSS:\t  1234 kB"
    ensures Extract([Some("VmRSS")], Lines(data)) == Ok([Some(1234)])
  {
    StatusLines(data);
    ScanKeyVmRss(Lines(data));
    ExtractOne("VmRSS", Lines(data), 1234, []);
  }

  /** One `Some` entry of the schema: scan for its key, then go on from the cursor. */
  lemma ExtractSomeStep(key: string, more: seq<Option<string>>, lines: seq<string>)
    ensures ScanKey(key, lines).Panic? ==> Extract([Some(key)] + more, lines) == Panic
    ensures ScanKey(key, lines).Ok? ==>
              var (v, rest) := ScanKey(key, lines).value;
              Extract([Some(key)] + more, lines) == Prefixed([Some(v)], Extract(more, rest))
  {
    assert ([Some(key)] + more)[1..] == more;
  }

  /** After a successful scan the cursor sits just past the key's first line. */
  lemma ScanKeyRest(key: string, lines: seq<string>)
    requires ScanKey(key, lines).Ok?
    ensures FindKey(lines, key) < |lines|
    ensures ScanKey(key, lines).value.1 == lines[FindKey(lines, key) + 1..]
  {
    ScanAtFindKey(key, lines, ParseKeyValue);
  }

  /** A one-entry schema whose key no line starts with panics. */
  lemma ExtractMissing(key: string, lines: seq<string>)
    requires forall i :: 0 <= i < |lines| ==> !StartsWith(lines[i], key)
    ensures Extract([Some(key)], lines) == Panic
  {
    ScanKeyMissing(key, lines);
    assert [Some(key)] == [Some(key)] + [];
    ExtractSomeStep(key, [], lines);
  }

  /** The cursor only moves forward: a second key that occurs only on lines
      up to the first key's line is never found, and extraction panics. */
  lemma ExtractKeysInOrder(k1: string, k2: string, lines: seq<string>)
    requires forall i :: FindKey(lines, k1) < i < |lines| ==> !StartsWith(lines[i], k2)
    ensures Extract([Some(k1), Some(k2)], lines) == Panic
  {
    assert [Some(k1), Some(k2)] == [Some(k1)] + [Some(k2)];
    ExtractSomeStep(k1, [Some(k2)], lines);
    if ScanKey(k1, lines).Ok? {
      ScanKeyRest(k1, lines);
      var j := FindKey(lines, k1);
      var rest := ScanKey(k1, lines).value.1;
      assert forall i :: 0 <= i < |rest| ==> rest[i] == lines[j + 1 + i];
      ExtractMissing(k2, rest);
    }
  }

  /** Keys must appear in schema order: `Uid` after `Gid` is never found. */
  lemma ExtractOutOfOrderExample(lines: seq<string>)
    requires |lines| == 2 && lines[0] == "Gid:\t5" && lines[1] == "Uid:\t3"
    ensures Extract([Some("Uid"), Some("Gid")], lines) == Panic
  {
    assert lines[0][0] != "Uid"[0];
    assert FindKey(lines, "Uid") >= 1;
    assert lines[1][0] != "Gid"[0];
    ExtractKeysInOrder("Uid", "Gid", lines);
  }
}
