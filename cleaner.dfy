/** `clean_text` of app/ingest_chroma.py: navigation boilerplate is cut out,
    the text is split into lines, duplicate lines are dropped
    case-insensitively keeping first occurrences, and the survivors are
    joined and whitespace-normalised. The boilerplate patterns are regular
    expressions tied to one web site; the model takes their combined effect as
    the parameter `stripNav`. */
module Cleaner {
  import opened Text

  /** Line `i` is non-empty and no earlier line has the same lower-case form. */
  predicate IsFirstOfKey(lines: seq<string>, i: nat)
    requires i < |lines|
  {
    lines[i] != "" && forall j :: 0 <= j < i ==> Lower(lines[j]) != Lower(lines[i])
  }

  /** The non-empty lines that are the first of their lower-case key, in
      order. */
  function FirstOccurrences(lines: seq<string>): seq<string>
    decreases |lines|
  {
    if lines == [] then []
    else
      var n := |lines| - 1;
      FirstOccurrences(lines[..n]) + (if IsFirstOfKey(lines, n) then [lines[n]] else [])
  }

  /** The positions of the lines `FirstOccurrences` keeps. */
  ghost function FirstIndices(lines: seq<string>): seq<nat>
    decreases |lines|
  {
    if lines == [] then []
    else
      var n := |lines| - 1;
      FirstIndices(lines[..n]) + (if IsFirstOfKey(lines, n) then [n] else [])
  }

  lemma PrefixKeepsFirsts(lines: seq<string>, n: nat, i: nat)
    requires i < n <= |lines|
    ensures IsFirstOfKey(lines[..n], i) == IsFirstOfKey(lines, i)
  {
    assert forall j :: 0 <= j <= i ==> lines[..n][j] == lines[j];
  }

  /** The kept lines are exactly the first occurrences, each taken from its
      own position, in increasing order of position. */
  lemma {:induction false} FirstOccurrencesInOrder(lines: seq<string>)
    ensures |FirstOccurrences(lines)| == |FirstIndices(lines)|
    ensures forall j :: 0 <= j < |FirstIndices(lines)| ==>
              var i := FirstIndices(lines)[j];
              i < |lines| && IsFirstOfKey(lines, i) && FirstOccurrences(lines)[j] == lines[i]
    ensures forall a, b :: 0 <= a < b < |FirstIndices(lines)| ==>
              FirstIndices(lines)[a] < FirstIndices(lines)[b]
    ensures forall i :: 0 <= i < |lines| && IsFirstOfKey(lines, i) ==> i in FirstIndices(lines)
    decreases |lines|
  {
    if lines != [] {
      var n := |lines| - 1;
      var p := lines[..n];
      FirstOccurrencesInOrder(p);
      var fo, ix := FirstOccurrences(lines), FirstIndices(lines);
      var fo', ix' := FirstOccurrences(p), FirstIndices(p);
      var keep := IsFirstOfKey(lines, n);
      assert fo == fo' + (if keep then [lines[n]] else []);
      assert ix == ix' + (if keep then [n] else []);
      forall i | 0 <= i < n
        ensures IsFirstOfKey(p, i) == IsFirstOfKey(lines, i)
      {
        PrefixKeepsFirsts(lines, n, i);
      }
      forall j | 0 <= j < |ix|
        ensures ix[j] < |lines| && IsFirstOfKey(lines, ix[j]) && fo[j] == lines[ix[j]]
      {
        if j < |ix'| {
          assert ix[j] == ix'[j] && fo[j] == fo'[j];
          assert p[ix'[j]] == lines[ix'[j]];
        }
      }
      forall a, b | 0 <= a < b < |ix|
        ensures ix[a] < ix[b]
      {
        if b < |ix'| {
          assert ix[a] == ix'[a] && ix[b] == ix'[b];
        } else {
          assert ix[a] == ix'[a];
        }
      }
      forall i | 0 <= i < |lines| && IsFirstOfKey(lines, i)
        ensures i in ix
      {
        if i < n {
          assert i in ix';
        }
      }
    }
  }

  /** An earliest line with the same key as a non-empty line is a first
      occurrence. */
  lemma {:induction false} EarliestWithKey(lines: seq<string>, i: nat) returns (j: nat)
    requires i < |lines| && lines[i] != ""
    ensures j <= i && IsFirstOfKey(lines, j) && Lower(lines[j]) == Lower(lines[i])
    decreases i
  {
    if IsFirstOfKey(lines, i) {
      j := i;
    } else {
      var j' :| 0 <= j' < i && Lower(lines[j']) == Lower(lines[i]);
      assert |lines[j']| == |Lower(lines[j'])| == |Lower(lines[i])| == |lines[i]|;
      j := EarliestWithKey(lines, j');
    }
  }

  /** The kept lines are non-empty and have pairwise distinct lower-case
      forms, and every non-empty line's key is represented among them. */
  lemma DedupKeys(lines: seq<string>)
    ensures forall j :: 0 <= j < |FirstOccurrences(lines)| ==> FirstOccurrences(lines)[j] != ""
    ensures forall a, b :: 0 <= a < b < |FirstOccurrences(lines)| ==>
              Lower(FirstOccurrences(lines)[a]) != Lower(FirstOccurrences(lines)[b])
    ensures forall i :: 0 <= i < |lines| && lines[i] != "" ==>
              exists j :: 0 <= j < |FirstOccurrences(lines)| && Lower(FirstOccurrences(lines)[j]) == Lower(lines[i])
  {
    FirstOccurrencesInOrder(lines);
    var u, ix := FirstOccurrences(lines), FirstIndices(lines);
    forall i | 0 <= i < |lines| && lines[i] != ""
      ensures exists j :: 0 <= j < |u| && Lower(u[j]) == Lower(lines[i])
    {
      var e := EarliestWithKey(lines, i);
      var j :| 0 <= j < |ix| && ix[j] == e;
      assert Lower(u[j]) == Lower(lines[i]);
    }
  }

  /** The specification of `clean_text`. */
  function Cleaned(stripNav: string -> string, t: string): string
  {
    if t == "" then ""
    else Strip(Collapse(Join(" ", FirstOccurrences(StripEach(SplitLineRuns(stripNav(t)))))))
  }

  /** The duplicate-line loop: a `seen` set of lower-case keys and the list of
      kept lines. */
  method DedupLines(lines: seq<string>) returns (uniq: seq<string>)
    ensures uniq == FirstOccurrences(lines)
  {
    var seen: set<string> := {};
    uniq := [];
    var k := 0;
    while k < |lines|
      invariant 0 <= k <= |lines|
      invariant uniq == FirstOccurrences(lines[..k])
      invariant forall x :: x in seen <==> exists j :: 0 <= j < k && lines[j] != "" && Lower(lines[j]) == x
    {
      var l := lines[k];
      assert lines[..k + 1][..k] == lines[..k];
      PrefixKeepsFirsts(lines, k + 1, k);
      if l == "" {
        // an empty line is skipped
      } else if Lower(l) in seen {
        // a repeated key is skipped
      } else {
        forall j | 0 <= j < k
          ensures Lower(lines[j]) != Lower(l)
        {
          assert |Lower(lines[j])| == |lines[j]|;
        }
        seen := seen + {Lower(l)};
        uniq := uniq + [l];
      }
      k := k + 1;
    }
    assert lines[..|lines|] == lines;
  }

  /** `clean_text(t)`. */
  method CleanText(stripNav: string -> string, t: string) returns (r: string)
    ensures r == Cleaned(stripNav, t)
  {
    if t == "" {
      return "";
    }
    var u := stripNav(t);
    var lines := StripEach(SplitLineRuns(u));
    var uniq := DedupLines(lines);
    r := Join(" ", uniq);
    r := Strip(Collapse(r));
  }

  /** The cleaned text is empty for an empty input, has no whitespace at
      either end, and each whitespace run inside it is one plain space. */
  lemma CleanedIsNormalised(stripNav: string -> string, t: string)
    ensures t == "" ==> Cleaned(stripNav, t) == ""
    ensures NoEdgeSpace(Cleaned(stripNav, t))
    ensures SingleSpaced(Cleaned(stripNav, t))
  {
    if t != "" {
      StripKeepsSingleSpaced(Collapse(Join(" ", FirstOccurrences(StripEach(SplitLineRuns(stripNav(t)))))));
    }
  }

  /** The lines kept from the pieces are stripped, non-empty, distinct under
      lower-casing and in their original order. */
  lemma KeptLinesAreStrippedFirsts(pieces: seq<string>)
    ensures forall j :: 0 <= j < |FirstOccurrences(StripEach(pieces))| ==>
              var l := FirstOccurrences(StripEach(pieces))[j];
              l != "" && NoEdgeSpace(l) && exists i :: 0 <= i < |pieces| && l == Strip(pieces[i])
  {
    var lines := StripEach(pieces);
    FirstOccurrencesInOrder(lines);
    forall j | 0 <= j < |FirstOccurrences(lines)|
      ensures var l := FirstOccurrences(lines)[j];
              l != "" && NoEdgeSpace(l) && exists i :: 0 <= i < |pieces| && l == Strip(pieces[i])
    {
      var i := FirstIndices(lines)[j];
      assert FirstOccurrences(lines)[j] == lines[i] == Strip(pieces[i]);
    }
  }

  /** A non-empty, single-spaced text without whitespace at its ends is
      its own cleaning when the boilerplate remover leaves it alone. */
  lemma NormalisedIsCleaned(stripNav: string -> string, c: string)
    requires c != "" && NoEdgeSpace(c) && SingleSpaced(c) && stripNav(c) == c
    ensures Cleaned(stripNav, c) == c
  {
    SingleSpacedHasNoBreak(c);
    SplitWithoutBreaks(c);
    StripIdentity(c);
    var lines := StripEach([c]);
    assert lines == [c];
    assert [c][..0] == [];
    assert FirstOccurrences(lines) == [c];
    assert Join(" ", [c]) == c;
    CollapseFixpoint(c);
  }

  /** Cleaning a cleaned text changes nothing, provided the boilerplate
      remover leaves the cleaned text alone. */
  lemma CleanedIdempotent(stripNav: string -> string, t: string)
    requires stripNav(Cleaned(stripNav, t)) == Cleaned(stripNav, t)
    ensures Cleaned(stripNav, Cleaned(stripNav, t)) == Cleaned(stripNav, t)
  {
    var c := Cleaned(stripNav, t);
    CleanedIsNormalised(stripNav, t);
    if c != "" {
      NormalisedIsCleaned(stripNav, c);
    }
  }
}
