/** The pieces of Rust's `str` API that the kernel-text parsers rely on, on
    strings of `char` (one `char` per byte of the ASCII text the kernel writes). */
module Text {
  import opened Base

  predicate StartsWith(s: string, prefix: string) {
    |prefix| <= |s| && s[..|prefix|] == prefix
  }

  predicate EndsWith(s: string, suffix: string) {
    |suffix| <= |s| && s[|s| - |suffix|..] == suffix
  }

  /** `u8::is_ascii_whitespace`: space, tab, line feed, form feed, carriage return. */
  predicate IsAsciiWhitespace(c: char) {
    c == ' ' || c == '\t' || c == '\n' || c == '\U{C}' || c == '\r'
  }

  /** `char::is_whitespace`: the Unicode `White_Space` characters, that is
      the ASCII set with vertical tab, NEL, no-break space, the Ogham space
      mark, the spaces U+2000 to U+200A, the line and paragraph separators,
      the narrow no-break space, the medium mathematical space and the
      ideographic space. */
  predicate IsWhitespace(c: char) {
    || IsAsciiWhitespace(c) || c == '\U{B}' || c == '\U{85}' || c == '\U{A0}' || c == '\U{1680}'
    || ('\U{2000}' <= c <= '\U{200A}') || c == '\U{2028}' || c == '\U{2029}' || c == '\U{202F}'
    || c == '\U{205F}' || c == '\U{3000}'
  }

  /** Position of the first `c` in `s`, or `|s|` when there is none. */
  function IndexOf(s: string, c: char): (r: nat)
    ensures r <= |s|
    ensures r < |s| ==> s[r] == c
  {
    if s == [] then 0
    else if s[0] == c then 0
    else 1 + IndexOf(s[1..], c)
  }

  /** `s.split(c)`: always at least one piece; adjacent separators give empty pieces. */
  function SplitOn(s: string, c: char): (r: seq<string>)
    ensures |r| >= 1
    decreases |s|
  {
    var i := IndexOf(s, c);
    if i == |s| then [s] else [s[..i]] + SplitOn(s[i + 1..], c)
  }

  /** `s.lines()`: pieces ended by `\n` (or `\r\n`); a final `\n` does not start
      an empty line, and a bare `\r` that is not followed by `\n` is kept. */
  function Lines(s: string): (r: seq<string>)
    decreases |s|
  {
    if s == [] then []
    else
      var i := IndexOf(s, '\n');
      if i == |s| then [s]
      else
        var line := s[..i];
        var line := if line != [] && line[|line| - 1] == '\r' then line[..|line| - 1] else line;
        [line] + Lines(s[i + 1..])
  }

  /** Length of the leading run of non-whitespace characters. */
  function TokenEnd(s: string): (r: nat)
    ensures r <= |s|
    ensures forall j :: 0 <= j < r ==> !IsAsciiWhitespace(s[j])
    ensures r < |s| ==> IsAsciiWhitespace(s[r])
  {
    if s == [] || IsAsciiWhitespace(s[0]) then 0 else 1 + TokenEnd(s[1..])
  }

  /** `s.split_ascii_whitespace()`: the maximal runs of non-whitespace. */
  function SplitAsciiWhitespace(s: string): (r: seq<string>)
    ensures forall k :: 0 <= k < |r| ==> r[k] != []
    decreases |s|
  {
    if s == [] then []
    else if IsAsciiWhitespace(s[0]) then SplitAsciiWhitespace(s[1..])
    else
      var j := TokenEnd(s);
      [s[..j]] + SplitAsciiWhitespace(s[j..])
  }

  function TrimStart(s: string): (r: string)
    ensures r == [] || !IsWhitespace(r[0])
    ensures |r| <= |s| && r == s[|s| - |r|..]
  {
    if s != [] && IsWhitespace(s[0]) then TrimStart(s[1..]) else s
  }

  function TrimEnd(s: string): (r: string)
    ensures r == [] || !IsWhitespace(r[|r| - 1])
    ensures |r| <= |s| && r == s[..|r|]
  {
    if s != [] && IsWhitespace(s[|s| - 1]) then TrimEnd(s[..|s| - 1]) else s
  }

  /** `s.trim()`. */
  function Trim(s: string): string {
    TrimEnd(TrimStart(s))
  }

  /** `s.trim_start_matches(c)`. */
  function TrimStartMatches(s: string, c: char): (r: string)
    ensures r == [] || r[0] != c
    ensures |r| <= |s| && r == s[|s| - |r|..]
  {
    if s != [] && s[0] == c then TrimStartMatches(s[1..], c) else s
  }

  /** `s.replace(a, b)` for single characters. */
  function ReplaceChar(s: string, a: char, b: char): (r: string)
    ensures |r| == |s|
    ensures forall i :: 0 <= i < |s| ==> r[i] == if s[i] == a then b else s[i]
  {
    if s == [] then [] else [if s[0] == a then b else s[0]] + ReplaceChar(s[1..], a, b)
  }

  predicate IsDigit(c: char) {
    '0' <= c <= '9'
  }

  predicate AllDigits(s: string) {
    forall i :: 0 <= i < |s| ==> IsDigit(s[i])
  }

  /** The decimal value of a string of digits. */
  function DecimalValue(s: string): nat
    requires AllDigits(s)
  {
    if s == [] then 0
    else DecimalValue(s[..|s| - 1]) * 10 + (s[|s| - 1] as int - '0' as int)
  }

  /** `s.parse::<uN>()` for an unsigned type whose values are below `limit`:
      an optional `+`, then at least one decimal digit and nothing else; the
      value must fit the type. */
  function ParseUnsigned(s: string, limit: nat): Option<nat> {
    var digits := if s != [] && s[0] == '+' then s[1..] else s;
    if digits == [] || !AllDigits(digits) then None
    else if DecimalValue(digits) < limit then Some(DecimalValue(digits))
    else None
  }

  function ParseU16(s: string): Option<nat> { ParseUnsigned(s, U16_LIMIT) }
  function ParseU32(s: string): Option<nat> { ParseUnsigned(s, U32_LIMIT) }
  function ParseU64(s: string): Option<nat> { ParseUnsigned(s, U64_LIMIT) }

  /** A parsed value is always within the range of its type. */
  lemma ParseUnsignedBound(s: string, limit: nat)
    requires ParseUnsigned(s, limit).Some?
    ensures ParseUnsigned(s, limit).value < limit
  {
  }

  /** Writing digits and reading them back: a decimal rendering of `n` parses to `n`. */
  function Decimal(n: nat): (r: string)
    ensures r != [] && AllDigits(r)
  {
    if n < 10 then [('0' as int + n) as char]
    else Decimal(n / 10) + [('0' as int + n % 10) as char]
  }

  lemma {:induction false} DecimalRoundTrip(n: nat)
    ensures DecimalValue(Decimal(n)) == n
  {
    if n >= 10 {
      var d := Decimal(n);
      assert d[..|d| - 1] == Decimal(n / 10);
      DecimalRoundTrip(n / 10);
    }
  }

  lemma ParseDecimal(n: nat, limit: nat)
    requires n < limit
    ensures ParseUnsigned(Decimal(n), limit) == Some(n)
  {
    DecimalRoundTrip(n);
  }

  // ---------------------------------------------------------------------------
  // Inverses of the splitters, used to evaluate the parsers on concrete text

  /** `words` separated by single `sep` characters. */
  function Join(words: seq<string>, sep: char): string
    requires |words| >= 1
  {
    if |words| == 1 then words[0] else words[0] + [sep] + Join(words[1..], sep)
  }

  /** A character that is neither the separator nor in any word is not in
      the joined string. */
  lemma {:induction false} JoinAvoids(words: seq<string>, sep: char, c: char)
    requires |words| >= 1 && c != sep
    requires forall k :: 0 <= k < |words| ==> c !in words[k]
    ensures c !in Join(words, sep)
    decreases |words|
  {
    if |words| > 1 {
      JoinAvoids(words[1..], sep, c);
    }
  }

  /** A joined line begins with its first word's first character and ends
      with its last word's last character. */
  lemma {:induction false} JoinEnds(words: seq<string>, sep: char)
    requires |words| >= 1
    ensures var s := Join(words, sep);
            && (words[0] != [] ==> s != [] && s[0] == words[0][0])
            && (words[|words| - 1] != [] ==> s != [] && s[|s| - 1] == words[|words| - 1][|words[|words| - 1]| - 1])
    decreases |words|
  {
    if |words| > 1 {
      JoinEnds(words[1..], sep);
    }
  }

  lemma {:induction false} SplitOnJoin(words: seq<string>, c: char)
    requires |words| >= 1
    requires forall k :: 0 <= k < |words| ==> c !in words[k]
    ensures SplitOn(Join(words, c), c) == words
    decreases |words|
  {
    var s := Join(words, c);
    var w := words[0];
    IndexOfAbsent(w, c);
    if |words| == 1 {
    } else {
      IndexOfAfter(w, c, Join(words[1..], c));
      assert s[..|w|] == w;
      assert s[|w| + 1..] == Join(words[1..], c);
      SplitOnJoin(words[1..], c);
    }
  }

  lemma {:induction false} IndexOfAbsent(s: string, c: char)
    requires c !in s
    ensures IndexOf(s, c) == |s|
  {
    if s != [] {
      assert c !in s[1..];
      IndexOfAbsent(s[1..], c);
    }
  }

  lemma {:induction false} IndexOfAfter(w: string, c: char, rest: string)
    requires c !in w
    ensures IndexOf(w + [c] + rest, c) == |w|
  {
    if w != [] {
      assert (w + [c] + rest)[1..] == w[1..] + [c] + rest;
      IndexOfAfter(w[1..], c, rest);
    }
  }

  lemma {:induction false} LinesJoin(lines: seq<string>)
    requires |lines| >= 1
    requires forall k :: 0 <= k < |lines| ==> '\n' !in lines[k]
    requires forall k :: 0 <= k < |lines| ==> lines[k] != [] && lines[k][|lines[k]| - 1] != '\r'
    ensures Lines(Join(lines, '\n')) == lines
    decreases |lines|
  {
    var s := Join(lines, '\n');
    var w := lines[0];
    IndexOfAbsent(w, '\n');
    if |lines| > 1 {
      IndexOfAfter(w, '\n', Join(lines[1..], '\n'));
      assert s[..|w|] == w;
      assert s[|w| + 1..] == Join(lines[1..], '\n');
      LinesJoin(lines[1..]);
    }
  }

  predicate IsWord(w: string) {
    w != [] && forall i :: 0 <= i < |w| ==> !IsAsciiWhitespace(w[i])
  }

  lemma {:induction false} TokenEndWord(w: string, rest: string)
    requires IsWord(w)
    requires rest == [] || IsAsciiWhitespace(rest[0])
    ensures TokenEnd(w + rest) == |w|
    decreases |w|
  {
    if |w| > 1 {
      assert (w + rest)[1..] == w[1..] + rest;
      TokenEndWord(w[1..], rest);
    } else {
      assert (w + rest)[1..] == rest;
    }
  }

  lemma {:induction false} SplitAsciiWhitespaceJoin(words: seq<string>)
    requires |words| >= 1
    requires forall k :: 0 <= k < |words| ==> IsWord(words[k])
    ensures SplitAsciiWhitespace(Join(words, ' ')) == words
    decreases |words|
  {
    var s := Join(words, ' ');
    var w := words[0];
    if |words| == 1 {
      TokenEndWord(w, []);
      assert s == w + [];
      assert s[|w|..] == [];
    } else {
      var rest := Join(words[1..], ' ');
      assert s == w + ([' '] + rest);
      TokenEndWord(w, [' '] + rest);
      assert s[|w|..] == [' '] + rest;
      assert s[|w|..][1..] == rest;
      SplitAsciiWhitespaceJoin(words[1..]);
    }
  }

  lemma TrimNoPadding(s: string)
    requires s != [] && !IsWhitespace(s[0]) && !IsWhitespace(s[|s| - 1])
    ensures Trim(s) == s
  {
  }

  lemma DecimalIsWord(n: nat)
    ensures IsWord(Decimal(n))
  {
  }

  /** A word holds no line break, so it never splits a line. */
  lemma WordHasNoNewline(w: string)
    requires IsWord(w)
    ensures '\n' !in w && ' ' !in w
  {
  }

  function Spaces(n: nat): (r: string)
    ensures |r| == n && forall i :: 0 <= i < n ==> r[i] == ' '
  {
    seq(n, _ => ' ')
  }

  lemma {:induction false} TrimStartSpaces(n: nat, w: string)
    requires w != [] && !IsWhitespace(w[0])
    ensures TrimStart(Spaces(n) + w) == w
    decreases n
  {
    if n == 0 {
      assert Spaces(0) + w == w;
    } else {
      assert (Spaces(n) + w)[1..] == Spaces(n - 1) + w;
      TrimStartSpaces(n - 1, w);
    }
  }

  /** Leading spaces and one trailing space around a word are trimmed away. */
  lemma TrimPadded(n: nat, w: string)
    requires IsWord(w) && !IsWhitespace(w[0]) && !IsWhitespace(w[|w| - 1])
    ensures Trim(Spaces(n) + w + " ") == w
  {
    var t := w + " ";
    assert Spaces(n) + w + " " == Spaces(n) + t;
    TrimStartSpaces(n, t);
    assert IsWhitespace(t[|t| - 1]);
    assert t[..|t| - 1] == w;
    assert TrimEnd(w) == w;
    assert TrimEnd(t) == TrimEnd(w);
  }

  /** The index of the first line that starts with `crib`, or the number of
      lines when none does (`skip_while(|line| !line.starts_with(crib))`). */
  function FindKey(lines: seq<string>, crib: string): (j: nat)
    ensures j <= |lines|
    ensures forall i :: 0 <= i < j ==> !StartsWith(lines[i], crib)
    ensures j < |lines| ==> StartsWith(lines[j], crib)
    decreases |lines|
  {
    if lines == [] || StartsWith(lines[0], crib) then 0
    else
      var j := FindKey(lines[1..], crib);
      assert forall i :: 1 <= i < j + 1 ==> lines[i] == lines[1..][i - 1];
      1 + j
  }
}
