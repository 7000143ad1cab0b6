/** The string operations the pipeline relies on, over a fixed character
    model: whitespace is what Python's `str.isspace` accepts among the ASCII
    characters, and `lower` folds only the ASCII letters. */
module Text {
  import opened Wrappers

  /** `str.isspace` on ASCII: tab, line feed, vertical tab, form feed,
      carriage return, the four separators 0x1C-0x1F, and the space. */
  predicate IsSpace(c: char) {
    var n := c as int;
    n == 32 || 9 <= n <= 13 || 28 <= n <= 31
  }

  /** The characters of the class `[\r\n]`. */
  predicate IsLineBreak(c: char) { c == '\r' || c == '\n' }

  predicate NoLineBreak(s: string) {
    forall k :: 0 <= k < |s| ==> !IsLineBreak(s[k])
  }

  /** Neither the first nor the last character is whitespace. */
  predicate NoEdgeSpace(s: string) {
    s == [] || (!IsSpace(s[0]) && !IsSpace(s[|s| - 1]))
  }

  /** Every whitespace character is a plain space and no two whitespace
      characters are adjacent: the shape `re.sub(r"\s+", " ", _)` leaves. */
  predicate SingleSpaced(s: string) {
    && (forall k :: 0 <= k < |s| && IsSpace(s[k]) ==> s[k] == ' ')
    && (forall k :: 0 <= k < |s| - 1 ==> !(IsSpace(s[k]) && IsSpace(s[k + 1])))
  }

  // ---------------------------------------------------------------- strip

  /** `lstrip()`: drops the leading whitespace run. */
  function TrimStart(s: string): (r: string)
    ensures |r| <= |s| && r == s[|s| - |r|..]
    ensures r != [] ==> !IsSpace(r[0])
  {
    if s != [] && IsSpace(s[0]) then TrimStart(s[1..]) else s
  }

  /** What `lstrip()` drops is whitespace. */
  lemma {:induction false} TrimStartDropsSpace(s: string)
    ensures forall k :: 0 <= k < |s| - |TrimStart(s)| ==> IsSpace(s[k])
    decreases |s|
  {
    if s != [] && IsSpace(s[0]) {
      TrimStartDropsSpace(s[1..]);
      assert forall k :: 1 <= k < |s| ==> s[k] == s[1..][k - 1];
    }
  }

  /** `rstrip()`: drops the trailing whitespace run. */
  function TrimEnd(s: string): (r: string)
    ensures |r| <= |s| && r == s[..|r|]
    ensures r != [] ==> !IsSpace(r[|r| - 1])
  {
    if s != [] && IsSpace(s[|s| - 1]) then TrimEnd(s[..|s| - 1]) else s
  }

  /** What `rstrip()` drops is whitespace. */
  lemma {:induction false} TrimEndDropsSpace(s: string)
    ensures forall k :: |TrimEnd(s)| <= k < |s| ==> IsSpace(s[k])
    decreases |s|
  {
    if s != [] && IsSpace(s[|s| - 1]) {
      TrimEndDropsSpace(s[..|s| - 1]);
    }
  }

  /** Number of leading whitespace characters of `s`. */
  function LeadCount(s: string): nat
  {
    |s| - |TrimStart(s)|
  }

  /** `strip()`: the slice of `s` between its leading and its trailing
      whitespace runs. */
  function Strip(s: string): (r: string)
    ensures NoEdgeSpace(r)
  {
    TrimEnd(TrimStart(s))
  }

  /** The stripped string is the slice of `s` left once its leading and
      trailing whitespace runs are removed. */
  lemma StripIsSlice(s: string)
    ensures LeadCount(s) + |Strip(s)| <= |s| && Strip(s) == s[LeadCount(s)..LeadCount(s) + |Strip(s)|]
    ensures forall k :: 0 <= k < LeadCount(s) ==> IsSpace(s[k])
    ensures forall k :: LeadCount(s) + |Strip(s)| <= k < |s| ==> IsSpace(s[k])
  {
    var t := TrimStart(s);
    assert t == s[LeadCount(s)..];
    TrimStartDropsSpace(s);
    TrimEndDropsSpace(t);
  }

  /** `s[:n]`: the first `n` characters, or all of `s` when it is shorter. */
  function Head(s: string, n: nat): (r: string)
    ensures |r| == Min(n, |s|) && r == s[..|r|]
  {
    s[..Min(n, |s|)]
  }

  /** `[l.strip() for l in pieces]`. */
  function StripEach(pieces: seq<string>): (r: seq<string>)
    ensures |r| == |pieces|
  {
    seq(|pieces|, i requires 0 <= i < |pieces| => Strip(pieces[i]))
  }

  /** A string that neither starts nor ends with whitespace is its own strip. */
  lemma StripIdentity(s: string)
    requires NoEdgeSpace(s)
    ensures Strip(s) == s
  {
  }

  /** Stripping keeps single spacing, as the result is a slice. */
  lemma StripKeepsSingleSpaced(s: string)
    requires SingleSpaced(s)
    ensures SingleSpaced(Strip(s))
  {
    var i := LeadCount(s);
    var r := Strip(s);
    StripIsSlice(s);
    forall k | 0 <= k < |r|
      ensures r[k] == s[i + k]
    {
    }
  }

  // ---------------------------------------------------------------- lower

  function LowerChar(c: char): char {
    if 'A' <= c <= 'Z' then (c as int + 32) as char else c
  }

  /** `lower()` on the ASCII letters. */
  function Lower(s: string): (r: string)
    ensures |r| == |s|
  {
    seq(|s|, k requires 0 <= k < |s| => LowerChar(s[k]))
  }

  // ------------------------------------------------------------- collapse

  /** `re.sub(r"\s+", " ", s)`: every maximal whitespace run becomes one
      space. */
  function Collapse(s: string): (r: string)
    ensures SingleSpaced(r)
    ensures r == [] <==> s == []
    ensures s != [] ==> (IsSpace(r[0]) <==> IsSpace(s[0]))
    decreases |s|
  {
    if s == [] then []
    else if IsSpace(s[0]) then " " + Collapse(TrimStart(s[1..]))
    else [s[0]] + Collapse(s[1..])
  }

  /** The characters of `s` that are not whitespace, in order. */
  function NonSpace(s: string): string
    decreases |s|
  {
    if s == [] then [] else (if IsSpace(s[0]) then [] else [s[0]]) + NonSpace(s[1..])
  }

  lemma {:induction false} NonSpaceTrimStart(s: string)
    ensures NonSpace(TrimStart(s)) == NonSpace(s)
    decreases |s|
  {
    if s != [] && IsSpace(s[0]) {
      NonSpaceTrimStart(s[1..]);
    }
  }

  /** The collapse only rewrites whitespace: the other characters are kept,
      in order. */
  lemma {:induction false} CollapseKeepsText(s: string)
    ensures NonSpace(Collapse(s)) == NonSpace(s)
    decreases |s|
  {
    if s != [] {
      if IsSpace(s[0]) {
        var rest := Collapse(TrimStart(s[1..]));
        CollapseKeepsText(TrimStart(s[1..]));
        NonSpaceTrimStart(s[1..]);
        assert (" " + rest)[1..] == rest;
      } else {
        var rest := Collapse(s[1..]);
        CollapseKeepsText(s[1..]);
        assert ([s[0]] + rest)[1..] == rest;
      }
    }
  }

  /** A single-spaced string has nothing left to collapse. */
  lemma {:induction false} CollapseFixpoint(s: string)
    requires SingleSpaced(s)
    ensures Collapse(s) == s
    decreases |s|
  {
    if s != [] {
      assert SingleSpaced(s[1..]) by {
        forall k | 0 <= k < |s[1..]| - 1
          ensures !(IsSpace(s[1..][k]) && IsSpace(s[1..][k + 1]))
        {
          assert s[1..][k] == s[k + 1] && s[1..][k + 1] == s[k + 2];
        }
      }
      if IsSpace(s[0]) {
        assert s[1..] != [] ==> !IsSpace(s[1]);
        assert TrimStart(s[1..]) == s[1..];
      }
      CollapseFixpoint(s[1..]);
    }
  }

  // --------------------------------------------------------------- split

  /** Index of the first line-break character of `s`, or `|s|`. */
  function FirstBreak(s: string): (i: nat)
    ensures i <= |s|
    ensures forall k :: 0 <= k < i ==> !IsLineBreak(s[k])
    ensures i < |s| ==> IsLineBreak(s[i])
  {
    if s == [] || IsLineBreak(s[0]) then 0 else 1 + FirstBreak(s[1..])
  }

  /** Drops a leading run of line-break characters. */
  function DropBreaks(s: string): (r: string)
    ensures |r| <= |s| && r == s[|s| - |r|..]
    ensures r != [] ==> !IsLineBreak(r[0])
  {
    if s != [] && IsLineBreak(s[0]) then DropBreaks(s[1..]) else s
  }

  /** What `DropBreaks` drops is line breaks. */
  lemma {:induction false} DropBreaksDropsBreaks(s: string)
    ensures forall k :: 0 <= k < |s| - |DropBreaks(s)| ==> IsLineBreak(s[k])
    decreases |s|
  {
    if s != [] && IsLineBreak(s[0]) {
      DropBreaksDropsBreaks(s[1..]);
      assert forall k :: 1 <= k < |s| ==> s[k] == s[1..][k - 1];
    }
  }

  /** `re.split(r"[\r\n]+", s)`: the pieces between maximal runs of line
      breaks. A leading or trailing run yields an empty first or last piece. */
  function SplitLineRuns(s: string): (r: seq<string>)
    ensures |r| >= 1
    ensures forall j :: 0 <= j < |r| ==> NoLineBreak(r[j])
    decreases |s|
  {
    var i := FirstBreak(s);
    if i == |s| then
      assert NoLineBreak(s);
      [s]
    else
      var piece := s[..i];
      var rest := SplitLineRuns(DropBreaks(s[i + 1..]));
      assert NoLineBreak(piece);
      ConsPieces(piece, rest);
      [piece] + rest
  }

  lemma ConsPieces(piece: string, rest: seq<string>)
    requires NoLineBreak(piece)
    requires forall j :: 0 <= j < |rest| ==> NoLineBreak(rest[j])
    ensures forall j :: 0 <= j < |[piece] + rest| ==> NoLineBreak(([piece] + rest)[j])
  {
  }

  /** A single-spaced text holds no line break, as its only whitespace is
      the plain space. */
  lemma SingleSpacedHasNoBreak(s: string)
    requires SingleSpaced(s)
    ensures NoLineBreak(s)
  {
    forall k | 0 <= k < |s|
      ensures !IsLineBreak(s[k])
    {
      if IsLineBreak(s[k]) {
        assert IsSpace(s[k]);
      }
    }
  }

  /** A text without line breaks is one piece. */
  lemma SplitWithoutBreaks(s: string)
    requires NoLineBreak(s)
    ensures SplitLineRuns(s) == [s]
  {
  }

  /** `sep.join(xs)`. */
  function Join(sep: string, xs: seq<string>): string
    decreases |xs|
  {
    if |xs| == 0 then ""
    else if |xs| == 1 then xs[0]
    else xs[0] + sep + Join(sep, xs[1..])
  }

  /** Python's `needle in hay` for two strings: a substring test. */
  predicate IsSubstring(needle: string, hay: string)
    decreases |hay|
  {
    (|needle| <= |hay| && hay[..|needle|] == needle)
    || (hay != [] && IsSubstring(needle, hay[1..]))
  }

  // ------------------------------------------------------------- decimal

  predicate IsDigit(c: char) { '0' <= c <= '9' }

  predicate AllDigits(s: string) {
    forall k :: 0 <= k < |s| ==> IsDigit(s[k])
  }

  function DigitChar(d: nat): (c: char)
    requires d < 10
    ensures IsDigit(c) && c as int - '0' as int == d
  {
    ('0' as int + d) as char
  }

  /** `str(n)` for a natural number: its decimal digits, no leading zero. */
  function Digits(n: nat): (r: string)
    ensures 1 <= |r| && AllDigits(r)
    decreases n
  {
    if n < 10 then [DigitChar(n)] else Digits(n / 10) + [DigitChar(n % 10)]
  }

  /** The number a string of decimal digits denotes. */
  function DecimalValue(s: string): nat
    requires AllDigits(s)
    decreases |s|
  {
    if s == [] then 0
    else 10 * DecimalValue(s[..|s| - 1]) + (s[|s| - 1] as int - '0' as int)
  }

  lemma {:induction false} DigitsRoundTrip(n: nat)
    ensures DecimalValue(Digits(n)) == n
    decreases n
  {
    if n >= 10 {
      var d := Digits(n);
      assert d[..|d| - 1] == Digits(n / 10);
      DigitsRoundTrip(n / 10);
    }
  }

  /** Distinct numbers print differently. */
  lemma DigitsInjective(m: nat, n: nat)
    requires Digits(m) == Digits(n)
    ensures m == n
  {
    DigitsRoundTrip(m);
    DigitsRoundTrip(n);
  }

  lemma {:induction false} DigitsShort(n: nat)
    requires n < 1000
    ensures |Digits(n)| <= 3
  {
    if n >= 100 {
      assert Digits(n) == Digits(n / 10) + [DigitChar(n % 10)];
      assert Digits(n / 10) == Digits(n / 10 / 10) + [DigitChar(n / 10 % 10)];
    }
  }

  function Repeat(c: char, k: nat): (r: string)
    ensures |r| == k && forall j :: 0 <= j < k ==> r[j] == c
  {
    seq(k, j => c)
  }

  /** Left-pads `s` with `'0'` to at least `width` characters. */
  function ZeroPad(s: string, width: nat): (r: string)
    ensures |r| == Max(width, |s|)
  {
    Repeat('0', if |s| < width then width - |s| else 0) + s
  }

  lemma {:induction false} LeadingZeros(k: nat, s: string)
    requires AllDigits(s)
    ensures AllDigits(Repeat('0', k) + s)
    ensures DecimalValue(Repeat('0', k) + s) == DecimalValue(s)
    decreases |s|, k
  {
    var z := Repeat('0', k);
    if s == [] {
      assert z + s == z;
      if k > 0 {
        assert z[..k - 1] == Repeat('0', k - 1);
        LeadingZeros(k - 1, s);
        assert Repeat('0', k - 1) + s == Repeat('0', k - 1);
      }
    } else {
      var s' := s[..|s| - 1];
      assert (z + s)[..|z + s| - 1] == z + s';
      LeadingZeros(k, s');
    }
  }

  /** Python's `f"{n:03d}"`. */
  function Pad3(n: nat): string
  {
    ZeroPad(Digits(n), 3)
  }

  /** The three-digit padding reads back as the number it pads, and is
      exactly three characters below 1000. */
  lemma Pad3RoundTrip(n: nat)
    ensures AllDigits(Pad3(n)) && DecimalValue(Pad3(n)) == n
    ensures n < 1000 ==> |Pad3(n)| == 3
  {
    var d := Digits(n);
    LeadingZeros(if |d| < 3 then 3 - |d| else 0, d);
    DigitsRoundTrip(n);
    if n < 1000 {
      DigitsShort(n);
    }
  }
}
