/** What the text chunker computes: units, base chunks and overlap, with what they keep of the text. A character
    is an opaque value; which ones are white space and which ones make up words is left to the alphabet. */
module Chunks {

  import opened Text
  import opened Splitting

  /** `ignoresBoundary` is the test for abbreviations at a sentence end; every such test is admitted. */
  datatype Alphabet = Alphabet(isSpace: char -> bool, isWord: char -> bool, ignoresBoundary: (string, nat) -> bool)
  {
    predicate HasLineBreaks() {
      isSpace(' ') && isSpace('\n') && isSpace('\r')
    }
  }

  // ---- Ink: the characters that are not white space

  function Ink(a: Alphabet, s: string): string {
    if s == "" then ""
    else Ink(a, s[..|s| - 1]) + if a.isSpace(s[|s| - 1]) then "" else [s[|s| - 1]]
  }

  function InkOfAll(a: Alphabet, xs: seq<string>): string {
    if xs == [] then "" else InkOfAll(a, xs[..|xs| - 1]) + Ink(a, xs[|xs| - 1])
  }

  lemma {:induction false} InkOfSum(a: Alphabet, s: string, t: string)
    ensures Ink(a, s + t) == Ink(a, s) + Ink(a, t)
  {
    if t == "" {
      assert s + t == s;
    } else {
      InkOfSum(a, s, t[..|t| - 1]);
      assert (s + t)[..|s + t| - 1] == s + t[..|t| - 1];
    }
  }

  lemma {:induction false} InkOfLists(a: Alphabet, xs: seq<string>, ys: seq<string>)
    ensures InkOfAll(a, xs + ys) == InkOfAll(a, xs) + InkOfAll(a, ys)
  {
    if ys == [] {
      assert xs + ys == xs;
    } else {
      InkOfLists(a, xs, ys[..|ys| - 1]);
      assert (xs + ys)[..|xs + ys| - 1] == xs + ys[..|ys| - 1];
    }
  }

  lemma InkOfOne(a: Alphabet, x: string)
    ensures InkOfAll(a, [x]) == Ink(a, x)
  {
    assert [x][..0] == [];
  }

  lemma InkCut(a: Alphabet, s: string, lo: nat, mid: nat, hi: nat)
    requires lo <= mid <= hi <= |s|
    ensures Ink(a, s[lo..hi]) == Ink(a, s[lo..mid]) + Ink(a, s[mid..hi])
  {
    assert s[lo..hi] == s[lo..mid] + s[mid..hi];
    InkOfSum(a, s[lo..mid], s[mid..hi]);
  }

  predicate IsBlank(a: Alphabet, s: string) {
    forall i :: 0 <= i < |s| ==> a.isSpace(s[i])
  }

  lemma {:induction false} BlankHasNoInk(a: Alphabet, s: string)
    requires IsBlank(a, s)
    ensures Ink(a, s) == ""
  {
    if s != "" {
      BlankHasNoInk(a, s[..|s| - 1]);
    }
  }

  /** A gap of white space does not matter. */
  lemma InkAroundGap(a: Alphabet, s: string, lo: nat, mid: nat, hi: nat)
    requires lo <= mid <= hi <= |s| && IsBlank(a, s[mid..hi])
    ensures Ink(a, s[lo..]) == Ink(a, s[lo..mid]) + Ink(a, s[hi..])
  {
    hide Ink;
    InkCut(a, s, lo, mid, |s|);
    InkCut(a, s, mid, hi, |s|);
    BlankHasNoInk(a, s[mid..hi]);
    assert s[lo..|s|] == s[lo..] && s[hi..|s|] == s[hi..];
    assert "" + Ink(a, s[hi..]) == Ink(a, s[hi..]);
  }

  // ---- Trimming

  predicate IsTrimmed(a: Alphabet, s: string) {
    s == "" || (!a.isSpace(s[0]) && !a.isSpace(s[|s| - 1]))
  }

  function Trim(a: Alphabet, s: string): (r: string)
    ensures IsTrimmed(a, r) && |r| <= |s|
    ensures IsTrimmed(a, s) ==> r == s
    decreases |s|
  {
    if s == "" then ""
    else if a.isSpace(s[0]) then Trim(a, s[1..])
    else if a.isSpace(s[|s| - 1]) then Trim(a, s[..|s| - 1])
    else s
  }

  lemma {:induction false} TrimKeepsInk(a: Alphabet, s: string)
    ensures Ink(a, Trim(a, s)) == Ink(a, s)
    decreases |s|
  {
    if s == "" {
    } else if a.isSpace(s[0]) {
      TrimKeepsInk(a, s[1..]);
      assert s == s[..1] + s[1..];
      InkOfSum(a, s[..1], s[1..]);
      BlankHasNoInk(a, s[..1]);
    } else if a.isSpace(s[|s| - 1]) {
      TrimKeepsInk(a, s[..|s| - 1]);
    }
  }

  function Kept(s: string): seq<string> {
    if s == "" then [] else [s]
  }

  lemma InkOfKept(a: Alphabet, s: string)
    ensures InkOfAll(a, Kept(Trim(a, s))) == Ink(a, s)
  {
    TrimKeepsInk(a, s);
    InkOfOne(a, Trim(a, s));
  }

  lemma {:induction false} InkOfSplit(a: Alphabet, s: string, d: string, from: nat)
    requires d != "" && from <= |s| && IsBlank(a, d)
    ensures InkOfAll(a, SplitFrom(s, d, from)) == Ink(a, s[from..])
    decreases |s| - from
  {
    var at := Find(s, d, from);
    if at.None? {
      InkOfOne(a, s[from..]);
    } else {
      var next := at.value + |d|;
      hide Ink;
      hide InkOfAll;
      InkOfSplit(a, s, d, next);
      InkOfLists(a, [s[from..at.value]], SplitFrom(s, d, next));
      InkOfOne(a, s[from..at.value]);
      InkAroundGap(a, s, from, at.value, next);
    }
  }

  lemma {:induction false} InkOfJoin(a: Alphabet, xs: seq<string>, d: string)
    requires IsBlank(a, d)
    ensures Ink(a, Join(xs, d)) == InkOfAll(a, xs)
  {
    if |xs| == 1 {
      InkOfOne(a, xs[0]);
      assert xs == [xs[0]];
    } else if |xs| > 1 {
      InkOfJoin(a, xs[1..], d);
      InkOfSum(a, xs[0] + d, Join(xs[1..], d));
      InkOfSum(a, xs[0], d);
      BlankHasNoInk(a, d);
      assert xs == [xs[0]] + xs[1..];
      InkOfLists(a, [xs[0]], xs[1..]);
      InkOfOne(a, xs[0]);
    }
  }

  function Normalized(a: Alphabet, text: string): string {
    Trim(a, Join(Split(text, "\r\n"), "\n"))
  }

  lemma NormalizingKeepsInk(a: Alphabet, text: string)
    requires a.HasLineBreaks()
    ensures Ink(a, Normalized(a, text)) == Ink(a, text)
  {
    TrimKeepsInk(a, Join(Split(text, "\r\n"), "\n"));
    InkOfJoin(a, Split(text, "\r\n"), "\n");
    InkOfSplit(a, text, "\r\n", 0);
    assert text[0..] == text;
  }

  // ---- Cutting an overlong piece

  /** The start of the run of word characters that ends in front of i, but not before lo. */
  function WordStart(a: Alphabet, t: string, lo: nat, i: nat): (r: nat)
    requires lo <= i <= |t|
    ensures lo <= r <= i && (forall k :: r <= k < i ==> a.isWord(t[k]))
    ensures r == lo || !a.isWord(t[r - 1])
    decreases i
  {
    if i > lo && a.isWord(t[i - 1]) then WordStart(a, t, lo, i - 1) else i
  }

  predicate SplitsAWord(a: Alphabet, t: string, i: nat) {
    0 < i < |t| && a.isWord(t[i - 1]) && a.isWord(t[i])
  }

  function AlignedBack(a: Alphabet, t: string, i: nat, lo: nat): (r: nat)
    requires lo <= |t| && i <= |t|
    ensures r <= |t| && r <= if i <= lo then lo else i
  {
    if i <= lo then lo
    else if SplitsAWord(a, t, i) then WordStart(a, t, lo, i)
    else i
  }

  /** Where the piece that starts at `start` ends. */
  function NextCut(a: Alphabet, t: string, start: nat, max: nat): (r: nat)
    requires start < |t| && max > 0
    ensures start < r <= |t|
  {
    if start + max >= |t| then |t|
    else
      var adjusted := AlignedBack(a, t, start + max, start);
      if adjusted > start then adjusted else start + max
  }

  /** The piece is as long as it may be without cutting a word, and a word is cut only when it fills the whole
      window. */
  lemma CutIsBest(a: Alphabet, t: string, start: nat, max: nat)
    requires start < |t| && max > 0
    ensures var end := NextCut(a, t, start, max);
            && end - start <= max
            && (SplitsAWord(a, t, end) ==> end == start + max && forall k :: start <= k < end ==> a.isWord(t[k]))
            && forall later :: end < later <= start + max && later <= |t| ==> SplitsAWord(a, t, later)
  {
    var end := NextCut(a, t, start, max);
    forall later | end < later <= start + max && later <= |t|
      ensures SplitsAWord(a, t, later)
    {
      assert a.isWord(t[later - 1]);
    }
  }

  /** The pieces of t from `start` on. */
  function Pieces(a: Alphabet, t: string, start: nat, max: nat): seq<string>
    requires start <= |t| && max > 0
    decreases |t| - start
  {
    if start == |t| then []
    else
      var end := NextCut(a, t, start, max);
      Kept(Trim(a, t[start..end])) + Pieces(a, t, end, max)
  }

  function SplitUp(a: Alphabet, text: string, max: nat): seq<string>
    requires max > 0
  {
    Pieces(a, Trim(a, text), 0, max)
  }

  predicate IsUnit(a: Alphabet, max: nat, x: string) {
    x != "" && |x| <= max && IsTrimmed(a, x)
  }

  predicate AreUnits(a: Alphabet, max: nat, xs: seq<string>) {
    forall i :: 0 <= i < |xs| ==> IsUnit(a, max, xs[i])
  }

  lemma UnitsTogether(a: Alphabet, max: nat, xs: seq<string>, ys: seq<string>)
    requires AreUnits(a, max, xs) && AreUnits(a, max, ys)
    ensures AreUnits(a, max, xs + ys)
  {
  }

  lemma {:induction false} PiecesAreUnits(a: Alphabet, t: string, start: nat, max: nat)
    requires start <= |t| && max > 0
    ensures AreUnits(a, max, Pieces(a, t, start, max))
    ensures InkOfAll(a, Pieces(a, t, start, max)) == Ink(a, t[start..])
    decreases |t| - start
  {
    if start < |t| {
      CutIsBest(a, t, start, max);
      var end := NextCut(a, t, start, max);
      var first, rest := Kept(Trim(a, t[start..end])), Pieces(a, t, end, max);
      PiecesAreUnits(a, t, end, max);
      UnitsTogether(a, max, first, rest);
      InkOfLists(a, first, rest);
      InkOfKept(a, t[start..end]);
      InkCut(a, t, start, end, |t|);
      assert t[start..|t|] == t[start..] && t[end..|t|] == t[end..];
    } else {
      assert t[start..] == "";
    }
  }

  lemma SplitUpIsUnits(a: Alphabet, text: string, max: nat)
    requires max > 0
    ensures AreUnits(a, max, SplitUp(a, text, max))
    ensures InkOfAll(a, SplitUp(a, text, max)) == Ink(a, text)
  {
    PiecesAreUnits(a, Trim(a, text), 0, max);
    TrimKeepsInk(a, text);
    assert Trim(a, text)[0..] == Trim(a, text);
  }

  // ---- Sentences

  predicate EndsASentence(c: char) {
    c == '.' || c == '!' || c == '?'
  }

  function SpacesEnd(a: Alphabet, t: string, i: nat): (r: nat)
    requires i <= |t|
    ensures i <= r <= |t| && IsBlank(a, t[i..r])
    decreases |t| - i
  {
    if i < |t| && a.isSpace(t[i]) then
      var r := SpacesEnd(a, t, i + 1);
      assert t[i..r] == [t[i]] + t[i + 1..r];
      r
    else i
  }

  /** The matches of white space behind a sentence end, from i on: what the regular expression engine finds. */
  function Boundaries(a: Alphabet, t: string, i: nat): (r: seq<(nat, nat)>)
    requires i <= |t|
    ensures AreBoundaries(a, t, i, r)
    decreases |t| - i
  {
    if i == |t| then []
    else if i > 0 && EndsASentence(t[i - 1]) && a.isSpace(t[i]) then
      var end := SpacesEnd(a, t, i + 1);
      assert t[i..end] == [t[i]] + t[i + 1..end];
      [(i, end)] + Boundaries(a, t, end)
    else
      var r := Boundaries(a, t, i + 1);
      r
  }

  /** Stretches of white space, one after the other. */
  predicate AreBoundaries(a: Alphabet, t: string, from: nat, ms: seq<(nat, nat)>)
    decreases ms
  {
    ms == [] || (from <= ms[0].0 < ms[0].1 <= |t| && IsBlank(a, t[ms[0].0..ms[0].1]) &&
        AreBoundaries(a, t, ms[0].1, ms[1..]))
  }

  function SentencesFrom(a: Alphabet, t: string, start: nat, ms: seq<(nat, nat)>): seq<string>
    requires start <= |t| && AreBoundaries(a, t, start, ms)
    decreases ms
  {
    if ms == [] then Kept(Trim(a, t[start..]))
    else if a.ignoresBoundary(t, ms[0].0) then
      LaterBoundaries(a, t, start, ms[0].1, ms[1..]);
      SentencesFrom(a, t, start, ms[1..])
    else Kept(Trim(a, t[start..ms[0].0])) + SentencesFrom(a, t, ms[0].1, ms[1..])
  }

  lemma LaterBoundaries(a: Alphabet, t: string, start: nat, from: nat, ms: seq<(nat, nat)>)
    requires start <= from && AreBoundaries(a, t, from, ms)
    ensures AreBoundaries(a, t, start, ms)
  {
  }

  function Sentences(a: Alphabet, t: string): seq<string> {
    var found := SentencesFrom(a, t, 0, Boundaries(a, t, 0));
    if found == [] then [t] else found
  }

  lemma {:induction false} SentencesKeepInk(a: Alphabet, t: string, start: nat, ms: seq<(nat, nat)>)
    requires start <= |t| && AreBoundaries(a, t, start, ms)
    ensures InkOfAll(a, SentencesFrom(a, t, start, ms)) == Ink(a, t[start..])
    ensures forall x :: x in SentencesFrom(a, t, start, ms) ==> x != ""
    decreases ms
  {
    if ms == [] {
      InkOfKept(a, t[start..]);
    } else if a.ignoresBoundary(t, ms[0].0) {
      LaterBoundaries(a, t, start, ms[0].1, ms[1..]);
      SentencesKeepInk(a, t, start, ms[1..]);
    } else {
      hide Ink;
      hide InkOfAll;
      hide IsTrimmed;
      hide Trim;
      hide IsBlank;
      var (lo, hi) := ms[0];
      SentencesKeepInk(a, t, hi, ms[1..]);
      InkOfLists(a, Kept(Trim(a, t[start..lo])), SentencesFrom(a, t, hi, ms[1..]));
      InkOfKept(a, t[start..lo]);
      InkAroundGap(a, t, start, lo, hi);
    }
  }

  lemma SentencesAreTheText(a: Alphabet, t: string)
    requires t != ""
    ensures InkOfAll(a, Sentences(a, t)) == Ink(a, t)
    ensures forall x :: x in Sentences(a, t) ==> x != ""
  {
    SentencesKeepInk(a, t, 0, Boundaries(a, t, 0));
    InkOfOne(a, t);
    assert t[0..] == t;
  }

  // ---- Packing pieces into buffers of limited size

  /** The buffers closed so far and the open one, after packing xs from left to right. */
  function Packing(xs: seq<string>, size: nat, sep: string): (seq<string>, string) {
    if xs == [] then ([], "")
    else
      var (done, open) := Packing(xs[..|xs| - 1], size, sep);
      var x := xs[|xs| - 1];
      if open == "" then (done, x)
      else if |open| + |sep| + |x| <= size then (done, open + sep + x)
      else (done + [open], x)
  }

  function Packed(xs: seq<string>, size: nat, sep: string): seq<string> {
    var (done, open) := Packing(xs, size, sep);
    done + Kept(open)
  }

  lemma {:induction false} PackingKeepsInk(a: Alphabet, xs: seq<string>, size: nat, sep: string)
    requires IsBlank(a, sep)
    ensures InkOfAll(a, Packing(xs, size, sep).0) + Ink(a, Packing(xs, size, sep).1) == InkOfAll(a, xs)
  {
    hide Ink;
    BlankHasNoInk(a, "");
    if xs != [] {
      var rest, x := xs[..|xs| - 1], xs[|xs| - 1];
      PackingKeepsInk(a, rest, size, sep);
      var (done, open) := Packing(rest, size, sep);
      if open != "" {
        hide Packing;
        PackingStep(xs, size, sep);
        if |open| + |sep| + |x| <= size {
          InkOfSum(a, open + sep, x);
          InkOfSum(a, open, sep);
          BlankHasNoInk(a, sep);
        } else {
          InkOfLists(a, done, [open]);
          InkOfOne(a, open);
        }
      }
    }
  }

  lemma PackingStep(xs: seq<string>, size: nat, sep: string)
    requires xs != [] && Packing(xs[..|xs| - 1], size, sep).1 != ""
    ensures var (done, open) := Packing(xs[..|xs| - 1], size, sep);
            var x := xs[|xs| - 1];
            Packing(xs, size, sep) == if |open| + |sep| + |x| <= size then (done, open + sep + x)
                else (done + [open], x)
  {
  }

  lemma {:induction false} PackingMakesUnits(a: Alphabet, xs: seq<string>, size: nat, sep: string)
    requires AreUnits(a, size, xs)
    ensures AreUnits(a, size, Packing(xs, size, sep).0)
    ensures xs != [] ==> IsUnit(a, size, Packing(xs, size, sep).1)
  {
    if xs != [] {
      assert IsUnit(a, size, xs[|xs| - 1]);
      PackingMakesUnits(a, xs[..|xs| - 1], size, sep);
    }
  }

  lemma PackedKeepsInk(a: Alphabet, xs: seq<string>, size: nat, sep: string)
    requires IsBlank(a, sep)
    ensures InkOfAll(a, Packed(xs, size, sep)) == InkOfAll(a, xs)
  {
    var (done, open) := Packing(xs, size, sep);
    PackingKeepsInk(a, xs, size, sep);
    InkOfLists(a, done, Kept(open));
    InkOfOne(a, open);
  }

  function Flattened(groups: seq<seq<string>>): seq<string> {
    if groups == [] then [] else Flattened(groups[..|groups| - 1]) + groups[|groups| - 1]
  }

  /** A buffer joins its group, is within the limit unless it is a single piece, and has no room for the first
      piece of the next group. */
  predicate IsGreedyAt(groups: seq<seq<string>>, buffers: seq<string>, size: nat, sep: string, i: nat)
    requires i < |groups| == |buffers|
  {
    && groups[i] != [] && buffers[i] == Join(groups[i], sep)
    && (|groups[i]| > 1 ==> |buffers[i]| <= size)
    && (i + 1 < |groups| ==> groups[i + 1] != [] && |buffers[i]| + |sep| + |groups[i + 1][0]| > size)
  }

  ghost predicate IsGreedy(groups: seq<seq<string>>, buffers: seq<string>, size: nat, sep: string) {
    |groups| == |buffers| && forall i: nat :: i < |groups| ==> IsGreedyAt(groups, buffers, size, sep, i)
  }

  lemma GrowLastGroup(groups: seq<seq<string>>, done: seq<string>, open: string, x: string, size: nat, sep: string)
    requires IsGreedy(groups, done + [open], size, sep) && |open| + |sep| + |x| <= size
    ensures var n := |groups| - 1;
            var grown := groups[..n] + [groups[n] + [x]];
            IsGreedy(grown, done + [open + sep + x], size, sep) && Flattened(grown) == Flattened(groups) + [x]
  {
    var n := |groups| - 1;
    var grown := groups[..n] + [groups[n] + [x]];
    var before, after := done + [open], done + [open + sep + x];
    assert before[n] == open && after[n] == open + sep + x;
    assert IsGreedyAt(groups, before, size, sep, n);
    JoinTwo(groups[n], [x], sep);
    forall i: nat | i < |grown|
      ensures IsGreedyAt(grown, after, size, sep, i)
    {
      assert IsGreedyAt(groups, before, size, sep, i);
    }
    assert grown[..n] == groups[..n];
  }

  lemma AddGroup(groups: seq<seq<string>>, buffers: seq<string>, x: string, size: nat, sep: string)
    requires IsGreedy(groups, buffers, size, sep)
    requires buffers != [] ==> |buffers[|buffers| - 1]| + |sep| + |x| > size
    ensures IsGreedy(groups + [[x]], buffers + [x], size, sep) && Flattened(groups + [[x]]) == Flattened(groups) + [x]
  {
    var grown, after := groups + [[x]], buffers + [x];
    forall i: nat | i < |grown|
      ensures IsGreedyAt(grown, after, size, sep, i)
    {
      if i < |groups| {
        assert IsGreedyAt(groups, buffers, size, sep, i);
      }
    }
    assert grown[..|groups|] == groups;
  }

  /** The buffers join consecutive groups of pieces, and no buffer has room for the piece that comes next. */
  lemma {:induction false} PackedIsGreedy(xs: seq<string>, size: nat, sep: string) returns (groups: seq<seq<string>>)
    requires forall i :: 0 <= i < |xs| ==> xs[i] != ""
    ensures Flattened(groups) == xs && IsGreedy(groups, Packed(xs, size, sep), size, sep)
    ensures xs != [] ==> Packing(xs, size, sep).1 != ""
  {
    if xs == [] {
      groups := [];
    } else {
      hide IsGreedy;
      hide Flattened;
      var rest, x := xs[..|xs| - 1], xs[|xs| - 1];
      var before := PackedIsGreedy(rest, size, sep);
      var (done, open) := Packing(rest, size, sep);
      assert xs == rest + [x];
      if open != "" && |open| + |sep| + |x| <= size {
        GrowLastGroup(before, done, open, x, size, sep);
        groups := before[..|before| - 1] + [before[|before| - 1] + [x]];
      } else {
        AddGroup(before, Packed(rest, size, sep), x, size, sep);
        groups := before + [[x]];
      }
    }
  }

  // ---- Units and base chunks

  function KeptTrims(a: Alphabet, xs: seq<string>): seq<string> {
    if xs == [] then [] else KeptTrims(a, xs[..|xs| - 1]) + Kept(Trim(a, xs[|xs| - 1]))
  }

  lemma {:induction false} InkOfTrims(a: Alphabet, xs: seq<string>)
    ensures InkOfAll(a, KeptTrims(a, xs)) == InkOfAll(a, xs)
    ensures forall x :: x in KeptTrims(a, xs) ==> x != "" && IsTrimmed(a, x)
  {
    if xs != [] {
      InkOfTrims(a, xs[..|xs| - 1]);
      InkOfLists(a, KeptTrims(a, xs[..|xs| - 1]), Kept(Trim(a, xs[|xs| - 1])));
      InkOfKept(a, xs[|xs| - 1]);
    }
  }

  lemma {:induction false} UnitsAreTrimsAlready(a: Alphabet, max: nat, xs: seq<string>)
    requires AreUnits(a, max, xs)
    ensures KeptTrims(a, xs) == xs
  {
    if xs != [] {
      assert IsUnit(a, max, xs[|xs| - 1]);
      UnitsAreTrimsAlready(a, max, xs[..|xs| - 1]);
    }
  }

  function SplitAll(a: Alphabet, xs: seq<string>, max: nat): seq<string>
    requires max > 0
  {
    if xs == [] then [] else SplitAll(a, xs[..|xs| - 1], max) + SplitUp(a, xs[|xs| - 1], max)
  }

  lemma {:induction false} SplitAllIsUnits(a: Alphabet, xs: seq<string>, max: nat)
    requires max > 0
    ensures AreUnits(a, max, SplitAll(a, xs, max)) && InkOfAll(a, SplitAll(a, xs, max)) == InkOfAll(a, xs)
  {
    if xs != [] {
      var rest, x := xs[..|xs| - 1], xs[|xs| - 1];
      SplitAllIsUnits(a, rest, max);
      SplitUpIsUnits(a, x, max);
      UnitsTogether(a, max, SplitAll(a, rest, max), SplitUp(a, x, max));
      InkOfLists(a, SplitAll(a, rest, max), SplitUp(a, x, max));
    }
  }

  function Paragraphs(a: Alphabet, text: string): seq<string> {
    KeptTrims(a, Split(text, "\n\n"))
  }

  function UnitsOf(a: Alphabet, paragraph: string, max: nat): seq<string>
    requires max > 0
  {
    if |paragraph| <= max then [paragraph] else SplitAll(a, Packed(Sentences(a, paragraph), max, " "), max)
  }

  function UnitsOfAll(a: Alphabet, paragraphs: seq<string>, max: nat): seq<string>
    requires max > 0
  {
    if paragraphs == [] then []
    else UnitsOfAll(a, paragraphs[..|paragraphs| - 1], max) + UnitsOf(a, paragraphs[|paragraphs| - 1], max)
  }

  function Units(a: Alphabet, text: string, max: nat): seq<string>
    requires max > 0
  {
    var units := UnitsOfAll(a, Paragraphs(a, text), max);
    if units == [] then SplitUp(a, text, max) else units
  }

  lemma UnitsOfParagraph(a: Alphabet, p: string, max: nat)
    requires a.HasLineBreaks() && max > 0 && p != "" && IsTrimmed(a, p)
    ensures AreUnits(a, max, UnitsOf(a, p, max)) && InkOfAll(a, UnitsOf(a, p, max)) == Ink(a, p)
  {
    if |p| <= max {
      InkOfOne(a, p);
    } else {
      SplitAllIsUnits(a, Packed(Sentences(a, p), max, " "), max);
      PackedKeepsInk(a, Sentences(a, p), max, " ");
      SentencesAreTheText(a, p);
    }
  }

  lemma {:induction false} UnitsOfParagraphs(a: Alphabet, ps: seq<string>, max: nat)
    requires a.HasLineBreaks() && max > 0 && forall p :: p in ps ==> p != "" && IsTrimmed(a, p)
    ensures AreUnits(a, max, UnitsOfAll(a, ps, max)) && InkOfAll(a, UnitsOfAll(a, ps, max)) == InkOfAll(a, ps)
  {
    if ps != [] {
      var rest, p := ps[..|ps| - 1], ps[|ps| - 1];
      assert p in ps && forall q :: q in rest ==> q in ps;
      UnitsOfParagraphs(a, rest, max);
      UnitsOfParagraph(a, p, max);
      UnitsTogether(a, max, UnitsOfAll(a, rest, max), UnitsOf(a, p, max));
      InkOfLists(a, UnitsOfAll(a, rest, max), UnitsOf(a, p, max));
    }
  }

  lemma UnitsConserveText(a: Alphabet, text: string, max: nat)
    requires a.HasLineBreaks() && max > 0
    ensures AreUnits(a, max, Units(a, text, max)) && InkOfAll(a, Units(a, text, max)) == Ink(a, text)
  {
    var parts := Split(text, "\n\n");
    InkOfSplit(a, text, "\n\n", 0);
    InkOfTrims(a, parts);
    UnitsOfParagraphs(a, Paragraphs(a, text), max);
    SplitUpIsUnits(a, text, max);
    assert text[0..] == text;
  }

  function BaseChunks(a: Alphabet, text: string, size: nat): seq<string>
    requires size > 0
  {
    KeptTrims(a, Packed(Units(a, text, size), size, "\n\n"))
  }

  /** The base chunks are the packed units; each is non-empty, trimmed and short enough, and together they hold
      the text, white space aside. */
  lemma BaseChunksConserveText(a: Alphabet, text: string, size: nat)
    requires a.HasLineBreaks() && size > 0
    ensures BaseChunks(a, text, size) == Packed(Units(a, text, size), size, "\n\n")
    ensures AreUnits(a, size, BaseChunks(a, text, size))
    ensures InkOfAll(a, BaseChunks(a, text, size)) == Ink(a, text)
  {
    var units := Units(a, text, size);
    UnitsConserveText(a, text, size);
    PackedKeepsInk(a, units, size, "\n\n");
    PackingMakesUnits(a, units, size, "\n\n");
    UnitsTogether(a, size, Packing(units, size, "\n\n").0, Kept(Packing(units, size, "\n\n").1));
    UnitsAreTrimsAlready(a, size, Packed(units, size, "\n\n"));
  }

  // ---- Overlap

  /** The alphabet of the program: line breaks are white space, and no white space is part of a word. */
  ghost predicate IsSane(a: Alphabet) {
    a.HasLineBreaks() && forall c :: a.isWord(c) ==> !a.isSpace(c)
  }

  /** The end of the stretch of word characters (or, for `word` false, of other characters) that starts at i. */
  function RunEnd(a: Alphabet, t: string, i: nat, word: bool): (r: nat)
    requires i <= |t|
    ensures i <= r <= |t|
    ensures forall k :: i <= k < r ==> a.isWord(t[k]) == word
    ensures r < |t| ==> a.isWord(t[r]) != word
    decreases |t| - i
  {
    if i < |t| && a.isWord(t[i]) == word then RunEnd(a, t, i + 1, word) else i
  }

  function AlignedForward(a: Alphabet, t: string, i: nat): (r: nat)
    requires i <= |t|
    ensures i <= r <= |t|
  {
    if SplitsAWord(a, t, i) then RunEnd(a, t, RunEnd(a, t, i, true), false) else i
  }

  function OverlapTail(a: Alphabet, text: string, overlap: nat): string {
    if overlap == 0 || text == "" then ""
    else if |text| <= overlap then Trim(a, text)
    else
      var rawStart := |text| - overlap;
      var aligned := AlignedForward(a, text, rawStart);
      Trim(a, text[if aligned < |text| then aligned else rawStart..])
  }

  function Cropped(a: Alphabet, text: string, max: nat): string {
    if |text| <= max then text
    else
      var end := AlignedBack(a, text, max, 0);
      text[..if end > 0 then end else max]
  }

  function Merged(tail: string, chunk: string): string {
    if tail == "" then chunk else tail + "\n" + chunk
  }

  function Overlapped(a: Alphabet, previous: string, chunk: string, overlap: nat, max: nat): string {
    var merged := Trim(a, Cropped(a, Merged(OverlapTail(a, previous, overlap), chunk), max));
    if merged == "" then chunk else merged
  }

  function WithOverlap(a: Alphabet, chunks: seq<string>, overlap: nat, max: nat): (r: seq<string>)
    ensures |r| == |chunks|
  {
    seq(|chunks|, i requires 0 <= i < |chunks| =>
      if i == 0 then chunks[0] else Overlapped(a, chunks[i - 1], chunks[i], overlap, max))
  }

  /** Trimming a text that ends in ink only drops a blank beginning. */
  lemma {:induction false} TrimOfSuffix(a: Alphabet, t: string, from: nat) returns (at: nat)
    requires from < |t| && !a.isSpace(t[|t| - 1])
    ensures from <= at < |t| && Trim(a, t[from..]) == t[at..] && (at > from ==> a.isSpace(t[at - 1]))
    decreases |t| - from
  {
    if a.isSpace(t[from]) {
      at := TrimOfSuffix(a, t, from + 1);
      assert t[from..][1..] == t[from + 1..];
    } else {
      at := from;
    }
  }

  lemma {:induction false} TrimOfPrefix(a: Alphabet, s: string)
    requires s != "" && !a.isSpace(s[0])
    ensures Trim(a, s) != "" && Trim(a, s) <= s
    decreases |s|
  {
    if a.isSpace(s[|s| - 1]) {
      TrimOfPrefix(a, s[..|s| - 1]);
    }
  }

  lemma AlignedForwardSkipsAWord(a: Alphabet, t: string, i: nat)
    requires i < |t|
    ensures var r := AlignedForward(a, t, i);
            if r < |t| then !SplitsAWord(a, t, r) else NoWordStartsBehind(a, t, i)
  {
    if SplitsAWord(a, t, i) {
      var word := RunEnd(a, t, i, true);
      var r := RunEnd(a, t, word, false);
      if r == |t| {
        forall k | i < k < |t| && a.isWord(t[k])
          ensures a.isWord(t[k - 1])
        {
          assert k < word;
        }
      }
    }
  }

  predicate NoWordStartsBehind(a: Alphabet, t: string, i: nat) {
    forall k :: i < k < |t| && a.isWord(t[k]) ==> a.isWord(t[k - 1])
  }

  /** The tail is the end of the previous chunk, is not longer than asked for, and starts inside a word only if
      no later word starts in the stretch asked for. */
  lemma TailIsSuffix(a: Alphabet, text: string, overlap: nat)
    requires IsSane(a) && IsTrimmed(a, text) && text != "" && overlap > 0
    ensures var tail := OverlapTail(a, text, overlap);
            && tail != "" && |tail| <= overlap && |tail| <= |text| && tail == text[|text| - |tail|..] &&
                IsTrimmed(a, tail)
            && (SplitsAWord(a, text, |text| - |tail|) ==>
                  |tail| == overlap && NoWordStartsBehind(a, text, |text| - overlap))
  {
    hide AlignedForward;
    hide Trim;
    if |text| > overlap {
      var rawStart := |text| - overlap;
      var aligned := AlignedForward(a, text, rawStart);
      AlignedForwardSkipsAWord(a, text, rawStart);
      var at := TrimOfSuffix(a, text, if aligned < |text| then aligned else rawStart);
      assert |text[at..]| == |text| - at;
    }
  }

  /** An overlapped chunk is non-empty, trimmed and within the limit. */
  lemma OverlappedIsUnit(a: Alphabet, previous: string, chunk: string, overlap: nat, max: nat)
    requires IsUnit(a, max, previous) && IsUnit(a, max, chunk)
    ensures IsUnit(a, max, Overlapped(a, previous, chunk, overlap, max))
  {
    var merged := Merged(OverlapTail(a, previous, overlap), chunk);
    var cropped := Cropped(a, merged, max);
    assert merged != "" && !a.isSpace(merged[0]);
    assert cropped[0] == merged[0];
    TrimOfPrefix(a, cropped);
  }

  lemma LosingTheEndLosesInk(a: Alphabet, s: string, end: nat)
    requires end < |s| && !a.isSpace(s[|s| - 1])
    ensures Ink(a, s[..end]) != Ink(a, s)
  {
    assert s == s[..end] + s[end..];
    InkOfSum(a, s[..end], s[end..]);
    assert |Ink(a, s[end..])| > 0;
  }

  /** Cropping a trimmed text loses its end. */
  lemma CroppingLosesInk(a: Alphabet, merged: string, max: nat)
    requires IsTrimmed(a, merged) && |merged| > max > 0
    ensures Trim(a, Cropped(a, merged, max)) != ""
    ensures Ink(a, Trim(a, Cropped(a, merged, max))) != Ink(a, merged)
  {
    hide AlignedBack;
    hide Ink;
    hide Trim;
    var cropped := Cropped(a, merged, max);
    var end := |cropped|;
    TrimOfPrefix(a, cropped);
    TrimKeepsInk(a, cropped);
    LosingTheEndLosesInk(a, merged, end);
  }

  /** The chunk holds the tail and all of its own text exactly if the two fit. */
  predicate IsKeptIfItFits(a: Alphabet, previous: string, chunk: string, overlap: nat, max: nat, result: string) {
    var tail := OverlapTail(a, previous, overlap);
    Ink(a, result) == Ink(a, tail) + Ink(a, chunk) <==> tail == "" || |tail| + 1 + |chunk| <= max
  }

  /** A chunk keeps all of its own text behind the tail exactly if the two fit; then nothing at all is lost. */
  lemma ChunkIsKeptExactlyIfItFits(a: Alphabet, previous: string, chunk: string, overlap: nat, max: nat)
    requires a.HasLineBreaks() && IsUnit(a, max, previous) && IsUnit(a, max, chunk)
    ensures IsKeptIfItFits(a, previous, chunk, overlap, max, Overlapped(a, previous, chunk, overlap, max))
    ensures var tail := OverlapTail(a, previous, overlap);
            tail == "" || |tail| + 1 + |chunk| <= max ==>
                Overlapped(a, previous, chunk, overlap, max) == Merged(tail, chunk)
  {
    hide Ink;
    var tail := OverlapTail(a, previous, overlap);
    assert IsTrimmed(a, tail);
    hide OverlapTail;
    var merged := Merged(tail, chunk);
    InkOfMerged(a, tail, chunk);
    assert IsTrimmed(a, merged);
    if |merged| > max {
      CroppingLosesInk(a, merged, max);
    }
  }

  lemma InkOfMerged(a: Alphabet, tail: string, chunk: string)
    requires a.HasLineBreaks()
    ensures Ink(a, Merged(tail, chunk)) == Ink(a, tail) + Ink(a, chunk)
  {
    if tail != "" {
      InkOfSum(a, tail + "\n", chunk);
      InkOfSum(a, tail, "\n");
      BlankHasNoInk(a, "\n");
    }
  }

  // ---- The whole text

  function SafeSize(chunkSize: int): nat {
    if chunkSize > 200 then chunkSize else 200
  }

  function SafeOverlap(chunkSize: int, overlap: int): nat {
    if overlap < 0 then 0 else if overlap > SafeSize(chunkSize) - 1 then SafeSize(chunkSize) - 1 else overlap
  }

  function ChunksOf(a: Alphabet, text: string, chunkSize: int, overlap: int): seq<string> {
    var base := BaseChunks(a, text, SafeSize(chunkSize));
    if SafeOverlap(chunkSize, overlap) == 0 || |base| < 2 then base
    else WithOverlap(a, base, SafeOverlap(chunkSize, overlap), SafeSize(chunkSize))
  }

  /** Every chunk, after overlap, is non-empty and at most as long as the larger of 200 and the size asked for. */
  lemma ChunksAreShort(a: Alphabet, text: string, chunkSize: int, overlap: int)
    requires a.HasLineBreaks()
    ensures AreUnits(a, SafeSize(chunkSize), ChunksOf(a, text, chunkSize, overlap))
  {
    var size := SafeSize(chunkSize);
    BaseChunksConserveText(a, text, size);
    hide AreUnits;
    hide BaseChunks;
    hide WithOverlap;
    OverlappingKeepsUnits(a, BaseChunks(a, text, size), SafeOverlap(chunkSize, overlap), size);
  }

  lemma OverlappingKeepsUnits(a: Alphabet, base: seq<string>, overlap: nat, size: nat)
    requires AreUnits(a, size, base)
    ensures AreUnits(a, size, WithOverlap(a, base, overlap, size))
  {
    hide IsUnit;
    hide Overlapped;
    forall i | 0 < i < |base|
      ensures IsUnit(a, size, Overlapped(a, base[i - 1], base[i], overlap, size))
    {
      assert IsUnit(a, size, base[i - 1]) && IsUnit(a, size, base[i]);
      OverlappedIsUnit(a, base[i - 1], base[i], overlap, size);
    }
  }

  lemma OverlappingKeepsWhatFits(a: Alphabet, base: seq<string>, overlap: nat, size: nat)
    requires a.HasLineBreaks() && AreUnits(a, size, base)
    ensures forall i :: 0 < i < |base| ==>
      IsKeptIfItFits(a, base[i - 1], base[i], overlap, size, WithOverlap(a, base, overlap, size)[i])
  {
    hide IsUnit;
    hide IsKeptIfItFits;
    hide Overlapped;
    forall i | 0 < i < |base|
      ensures IsKeptIfItFits(a, base[i - 1], base[i], overlap, size, Overlapped(a, base[i - 1], base[i], overlap, size))
    {
      assert IsUnit(a, size, base[i - 1]) && IsUnit(a, size, base[i]);
      ChunkIsKeptExactlyIfItFits(a, base[i - 1], base[i], overlap, size);
    }
  }

  /** Without overlap, and with a single chunk, the chunks hold the text, white space aside. With overlap there is
      one chunk for every base chunk, and it holds the tail of the base chunk before and all of its own one
      exactly if the two fit. */
  lemma ChunksConserveText(a: Alphabet, text: string, chunkSize: int, overlap: int)
    requires a.HasLineBreaks()
    ensures var size, over := SafeSize(chunkSize), SafeOverlap(chunkSize, overlap);
            var base, chunks := BaseChunks(a, text, size), ChunksOf(a, text, chunkSize, overlap);
            && InkOfAll(a, base) == Ink(a, text) && |chunks| == |base|
            && (over == 0 || |base| < 2 ==> InkOfAll(a, chunks) == Ink(a, text))
            && (base != [] ==> chunks[0] == base[0])
            && forall i :: 0 < i < |base| && over > 0 ==> IsKeptIfItFits(a, base[i - 1], base[i], over, size, chunks[i])
  {
    var size, over := SafeSize(chunkSize), SafeOverlap(chunkSize, overlap);
    var base := BaseChunks(a, text, size);
    BaseChunksConserveText(a, text, size);
    hide Ink;
    hide InkOfAll;
    hide AreUnits;
    hide WithOverlap;
    hide IsKeptIfItFits;
    hide BaseChunks;
    OverlappingKeepsWhatFits(a, base, over, size);
    FirstStays(a, base, over, size);
  }

  lemma FirstStays(a: Alphabet, base: seq<string>, overlap: nat, size: nat)
    ensures base != [] ==> WithOverlap(a, base, overlap, size)[0] == base[0]
  {
  }
}
