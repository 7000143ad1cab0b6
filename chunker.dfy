/** `chunkify` of app/ingest_chroma.py: a window of `maxChars` characters
    slides over the stripped text, each window starting `overlap` characters
    before the previous one ended. A stripped text of at most `maxChars`
    characters is returned before the loop, whatever the overlap. The loop
    only advances when `overlap < maxChars`; with `overlap >= maxChars`
    `start` never moves past `end - overlap <= start` and the source loops
    forever, so the model requires one of the two. */
module Chunker {
  import opened Wrappers
  import opened Text

  /** The distance between two consecutive window starts. */
  function Step(maxChars: nat, overlap: nat): nat
    requires overlap < maxChars
  {
    maxChars - overlap
  }

  /** The windows the loop emits from the position `start` on. */
  function WindowsFrom(s: string, maxChars: nat, overlap: nat, start: nat): seq<string>
    requires overlap < maxChars && start < |s|
    decreases |s| - start
  {
    var end := Min(|s|, start + maxChars);
    if end == |s| then [s[start..end]]
    else [s[start..end]] + WindowsFrom(s, maxChars, overlap, Max(0, end - overlap))
  }

  /** The specification of `chunkify(text, maxChars, overlap)`. */
  function Chunks(text: string, maxChars: nat, overlap: nat): seq<string>
    requires overlap < maxChars || |Strip(text)| <= maxChars
  {
    var s := Strip(text);
    if |s| <= maxChars then (if s == "" then [] else [s])
    else WindowsFrom(s, maxChars, overlap, 0)
  }

  /** A window that stops short of the end is followed by the windows
      from `overlap` characters before its end. */
  lemma WindowsStep(s: string, maxChars: nat, overlap: nat, start: nat)
    requires overlap < maxChars && start + maxChars < |s|
    ensures WindowsFrom(s, maxChars, overlap, start) ==
            [s[start..start + maxChars]] + WindowsFrom(s, maxChars, overlap, start + maxChars - overlap)
  {
  }

  lemma AppendAssoc(xs: seq<string>, x: string, ys: seq<string>)
    ensures xs + ([x] + ys) == (xs + [x]) + ys
  {
  }

  method Chunkify(text: string, maxChars: nat, overlap: nat) returns (chunks: seq<string>)
    requires overlap < maxChars || |Strip(text)| <= maxChars
    ensures chunks == Chunks(text, maxChars, overlap)
  {
    var s := Strip(text);
    var n := |s|;
    if n <= maxChars {
      return if s != "" then [s] else [];
    }
    chunks := [];
    var start := 0;
    while start < n
      invariant 0 <= start < n
      invariant chunks + WindowsFrom(s, maxChars, overlap, start) == WindowsFrom(s, maxChars, overlap, 0)
      decreases n - start
    {
      var end := Min(n, start + maxChars);
      ghost var prev, from := chunks, start;
      chunks := chunks + [s[start..end]];
      if end == n {
        assert WindowsFrom(s, maxChars, overlap, start) == [s[start..end]];
        break;
      }
      start := Max(0, end - overlap);
      assert end == from + maxChars && start == from + maxChars - overlap;
      WindowsStep(s, maxChars, overlap, from);
      AppendAssoc(prev, s[from..end], WindowsFrom(s, maxChars, overlap, start));
    }
  }

  // ------------------------------------------------------------ properties

  lemma MulPred(k: nat, step: nat)
    requires k >= 1
    ensures (k - 1) * step == k * step - step
  {
  }

  /** Window `k` from `start` is the slice that begins `k` steps after
      `start` and is cut at `maxChars` or at the end of the text; a window
      that is not the last is cut at `maxChars` before the end. */
  lemma {:induction false} WindowAt(s: string, maxChars: nat, overlap: nat, start: nat, k: nat)
    requires overlap < maxChars && start < |s| && k < |WindowsFrom(s, maxChars, overlap, start)|
    ensures var p := start + k * Step(maxChars, overlap);
            && p < |s|
            && WindowsFrom(s, maxChars, overlap, start)[k] == s[p..Min(|s|, p + maxChars)]
            && (k + 1 < |WindowsFrom(s, maxChars, overlap, start)| ==> p + maxChars < |s|)
    decreases k
  {
    var w, step := WindowsFrom(s, maxChars, overlap, start), Step(maxChars, overlap);
    var p := start + k * step;
    if start + maxChars >= |s| {
      assert w == [s[start..|s|]];
      assert k == 0 && p == start;
    } else {
      var next := start + step;
      WindowsStep(s, maxChars, overlap, start);
      var w' := WindowsFrom(s, maxChars, overlap, next);
      assert w == [s[start..start + maxChars]] + w';
      if k == 0 {
        assert p == start;
        assert w[0] == s[start..start + maxChars];
      } else {
        WindowAt(s, maxChars, overlap, next, k - 1);
        MulPred(k, step);
        assert p == next + (k - 1) * step;
        assert w[k] == w'[k - 1];
      }
    }
  }

  /** The last window reaches the end of the text. */
  lemma {:induction false} LastWindow(s: string, maxChars: nat, overlap: nat, start: nat)
    requires overlap < maxChars && start < |s|
    ensures var n := |WindowsFrom(s, maxChars, overlap, start)|;
            n >= 1 && start + (n - 1) * Step(maxChars, overlap) + maxChars >= |s|
    decreases |s| - start
  {
    var end := Min(|s|, start + maxChars);
    if end != |s| {
      var step := Step(maxChars, overlap);
      var next := start + step;
      assert Max(0, end - overlap) == next;
      LastWindow(s, maxChars, overlap, next);
      var n' := |WindowsFrom(s, maxChars, overlap, next)|;
      assert |WindowsFrom(s, maxChars, overlap, start)| == 1 + n';
      MulPred(1 + n', step);
    }
  }

  /** `c` cuts `s` into windows: chunk `k` is the slice of `s` that starts
      at `k * (maxChars - overlap)` and is cut at `maxChars` characters or at
      the end of `s`; every chunk but the last stops before the end, and the
      last reaches it. */
  predicate Windowing(c: seq<string>, s: string, maxChars: nat, overlap: nat)
    requires overlap < maxChars
  {
    var step := Step(maxChars, overlap);
    && |c| >= 1
    && (forall k :: 0 <= k < |c| ==> k * step < |s| && c[k] == s[k * step..Min(|s|, k * step + maxChars)])
    && (forall k :: 0 <= k < |c| - 1 ==> k * step + maxChars < |s|)
    && (|c| - 1) * step + maxChars >= |s|
  }

  lemma WindowsAreWindowing(s: string, maxChars: nat, overlap: nat)
    requires overlap < maxChars && s != []
    ensures Windowing(WindowsFrom(s, maxChars, overlap, 0), s, maxChars, overlap)
  {
    var w, step := WindowsFrom(s, maxChars, overlap, 0), Step(maxChars, overlap);
    forall k | 0 <= k < |w|
      ensures k * step < |s| && w[k] == s[k * step..Min(|s|, k * step + maxChars)]
      ensures k < |w| - 1 ==> k * step + maxChars < |s|
    {
      WindowAt(s, maxChars, overlap, 0, k);
    }
    LastWindow(s, maxChars, overlap, 0);
  }

  /** In a windowing every chunk holds at most `maxChars` characters, all
      but the last exactly `maxChars`; the first is the text's first
      `maxChars` characters and the last runs to the end of the text. */
  lemma WindowingSizes(c: seq<string>, s: string, maxChars: nat, overlap: nat)
    requires overlap < maxChars && Windowing(c, s, maxChars, overlap)
    ensures forall k :: 0 <= k < |c| ==> |c[k]| <= maxChars
    ensures forall k :: 0 <= k < |c| - 1 ==> |c[k]| == maxChars
    ensures c[0] == s[..Min(|s|, maxChars)]
    ensures c[|c| - 1] == s[(|c| - 1) * Step(maxChars, overlap)..]
  {
    var step := Step(maxChars, overlap);
    forall k | 0 <= k < |c|
      ensures |c[k]| <= maxChars
      ensures k < |c| - 1 ==> |c[k]| == maxChars
    {
      assert c[k] == s[k * step..Min(|s|, k * step + maxChars)];
    }
    assert 0 * step == 0;
    assert c[0] == s[0..Min(|s|, maxChars)];
    var p := (|c| - 1) * step;
    assert c[|c| - 1] == s[p..Min(|s|, p + maxChars)];
    assert Min(|s|, p + maxChars) == |s|;
  }

  /** A stripped text longer than `maxChars` is cut into at least two
      chunks that window it, the first holding its first `maxChars`
      characters. */
  lemma ChunksAreWindows(text: string, maxChars: nat, overlap: nat)
    requires overlap < maxChars && |Strip(text)| > maxChars
    ensures var c, s := Chunks(text, maxChars, overlap), Strip(text);
            && Windowing(c, s, maxChars, overlap)
            && |c| >= 2
            && c[0] == s[..maxChars]
  {
    var c, s := Chunks(text, maxChars, overlap), Strip(text);
    WindowsAreWindowing(s, maxChars, overlap);
    WindowingSizes(c, s, maxChars, overlap);
    assert 0 * Step(maxChars, overlap) == 0;
  }

  /** Without a split: a stripped text of at most `maxChars` characters is a
      single chunk, and an empty one yields none. */
  lemma ShortTextIsOneChunk(text: string, maxChars: nat, overlap: nat)
    requires |Strip(text)| <= maxChars
    ensures Strip(text) == "" ==> Chunks(text, maxChars, overlap) == []
    ensures Strip(text) != "" ==> Chunks(text, maxChars, overlap) == [Strip(text)]
  {
  }

  /** Consecutive windows share exactly `overlap` characters: the last
      `overlap` characters of one begin the next. */
  lemma WindowsOverlap(s: string, maxChars: nat, overlap: nat, k: nat)
    requires overlap < maxChars && s != []
    requires k + 1 < |WindowsFrom(s, maxChars, overlap, 0)|
    ensures var w := WindowsFrom(s, maxChars, overlap, 0);
      |w[k]| == maxChars && overlap < |w[k + 1]| &&
      w[k][maxChars - overlap..] == w[k + 1][..overlap]
  {
    var w, step := WindowsFrom(s, maxChars, overlap, 0), Step(maxChars, overlap);
    WindowAt(s, maxChars, overlap, 0, k);
    WindowAt(s, maxChars, overlap, 0, k + 1);
    MulPred(k + 1, step);
    var a := k * step;
    var b := a + step;
    var e := Min(|s|, b + maxChars);
    assert w[k] == s[a..a + maxChars];
    assert w[k + 1] == s[b..e];
    DropOfSlice(s, a, a + maxChars, step);
    TakeOfSlice(s, b, e, overlap);
  }

  /** Consecutive chunks share exactly `overlap` characters: the last
      `overlap` characters of one chunk begin the next. */
  lemma ConsecutiveChunksOverlap(text: string, maxChars: nat, overlap: nat, k: nat)
    requires overlap < maxChars && |Strip(text)| > maxChars
    requires k + 1 < |Chunks(text, maxChars, overlap)|
    ensures var c := Chunks(text, maxChars, overlap);
      |c[k]| == maxChars && overlap < |c[k + 1]| &&
      c[k][maxChars - overlap..] == c[k + 1][..overlap]
  {
    WindowsOverlap(Strip(text), maxChars, overlap, k);
  }

  // ---------------------------------------------------------- reassembly

  /** The chunk with its first `overlap` characters removed. */
  function DropOverlap(c: string, overlap: nat): string {
    if overlap <= |c| then c[overlap..] else []
  }

  function Tails(cs: seq<string>, overlap: nat): string
    decreases |cs|
  {
    if cs == [] then [] else DropOverlap(cs[0], overlap) + Tails(cs[1..], overlap)
  }

  /** The first chunk followed by every later chunk minus its overlap. */
  function Reassemble(cs: seq<string>, overlap: nat): string {
    if cs == [] then [] else cs[0] + Tails(cs[1..], overlap)
  }

  lemma ConsRest(x: string, r: seq<string>)
    ensures ([x] + r)[1..] == r
  {
  }

  lemma JoinSlices(s: string, a: nat, b: nat, c: nat)
    requires a <= b <= c <= |s|
    ensures s[a..b] + s[b..c] == s[a..c]
  {
  }

  lemma DropOfSlice(s: string, a: nat, b: nat, k: nat)
    requires a + k <= b <= |s|
    ensures s[a..b][k..] == s[a + k..b]
  {
  }

  lemma TakeOfSlice(s: string, a: nat, b: nat, k: nat)
    requires a + k <= b <= |s|
    ensures s[a..b][..k] == s[a..a + k]
  {
  }

  /** The windows from a start `overlap` characters before a previous
      window's end, each minus its overlap, cover the text from that end. */
  lemma {:induction false} TailsFrom(s: string, maxChars: nat, overlap: nat, start: nat)
    requires overlap < maxChars && start < |s| && start + overlap <= |s|
    ensures Tails(WindowsFrom(s, maxChars, overlap, start), overlap) == s[start + overlap..]
    decreases |s| - start
  {
    var w := WindowsFrom(s, maxChars, overlap, start);
    var end := Min(|s|, start + maxChars);
    var first := s[start..end];
    DropOfSlice(s, start, end, overlap);
    if end == |s| {
      assert w == [first];
      assert Tails(w, overlap) == DropOverlap(first, overlap) + Tails([], overlap);
    } else {
      var next := end - overlap;
      var rest := WindowsFrom(s, maxChars, overlap, next);
      assert w == [first] + rest;
      ConsRest(first, rest);
      TailsFrom(s, maxChars, overlap, next);
      JoinSlices(s, start + overlap, end, |s|);
      assert Tails(w, overlap) == DropOverlap(first, overlap) + Tails(rest, overlap);
    }
  }

  /** The windows over a text longer than one window give it back. */
  lemma WindowsReassemble(s: string, maxChars: nat, overlap: nat)
    requires overlap < maxChars < |s|
    ensures Reassemble(WindowsFrom(s, maxChars, overlap, 0), overlap) == s
  {
    var w := WindowsFrom(s, maxChars, overlap, 0);
    var first := s[0..maxChars];
    var rest := WindowsFrom(s, maxChars, overlap, maxChars - overlap);
    assert w == [first] + rest;
    ConsRest(first, rest);
    TailsFrom(s, maxChars, overlap, maxChars - overlap);
    JoinSlices(s, 0, maxChars, |s|);
    assert Reassemble(w, overlap) == first + Tails(rest, overlap);
    assert s[0..|s|] == s;
  }

  /** Removing the overlaps and concatenating gives back the stripped text. */
  lemma ChunksReassemble(text: string, maxChars: nat, overlap: nat)
    requires overlap < maxChars
    ensures Reassemble(Chunks(text, maxChars, overlap), overlap) == Strip(text)
  {
    var s := Strip(text);
    if |s| > maxChars {
      WindowsReassemble(s, maxChars, overlap);
    }
  }

  /** A stripped text longer than one window but covered by two splits
      into exactly two chunks. */
  lemma TwoChunks(text: string, maxChars: nat, overlap: nat)
    requires overlap < maxChars < |Strip(text)| <= 2 * maxChars - overlap
    ensures var s := Strip(text);
            Chunks(text, maxChars, overlap) == [s[..maxChars], s[maxChars - overlap..]]
  {
    var s, step := Strip(text), Step(maxChars, overlap);
    assert Max(0, maxChars - overlap) == step;
    assert Min(|s|, step + maxChars) == |s|;
    var tail := WindowsFrom(s, maxChars, overlap, step);
    assert tail == [s[step..|s|]];
    assert WindowsFrom(s, maxChars, overlap, 0) == [s[0..maxChars]] + tail;
    assert s[0..maxChars] == s[..maxChars] && s[step..|s|] == s[step..];
  }

  /** A text whose stripped form has 2000 characters, with the pipeline's
      settings (1800, 200), gives two chunks: characters 0-1800 and
      1600-2000 of the stripped text. */
  lemma TwoThousandCharacters(text: string)
    requires |Strip(text)| == 2000
    ensures Chunks(text, 1800, 200) == [Strip(text)[..1800], Strip(text)[1600..]]
  {
    TwoChunks(text, 1800, 200);
  }
}
