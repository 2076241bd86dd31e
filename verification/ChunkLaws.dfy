/** Where the text chunker cuts, read off from how the text is written. */
module ChunkLaws {
  import opened Text
  import opened Splitting
  import opened Chunks

  // ---- Trimmed parts

  /** A part as written: white space, its text, and white space. */
  datatype Padded = Padded(before: string, text: string, after: string)

  predicate IsPadded(a: Alphabet, p: Padded) {
    IsBlank(a, p.before) && IsBlank(a, p.after) && IsTrimmed(a, p.text)
  }

  function Written(p: Padded): string {
    p.before + (p.text + p.after)
  }

  function WrittenParts(parts: seq<Padded>): seq<string> {
    seq(|parts|, i requires 0 <= i < |parts| => Written(parts[i]))
  }

  /** The texts of the parts that are not blank. */
  function TextsOf(parts: seq<Padded>): seq<string> {
    if parts == [] then []
    else TextsOf(parts[..|parts| - 1]) + (if parts[|parts| - 1].text == "" then [] else [parts[|parts| - 1].text])
  }

  lemma {:induction false} TrimIs(a: Alphabet, p: Padded)
    requires IsPadded(a, p)
    ensures Trim(a, Written(p)) == p.text
    decreases |p.before| + |p.after|
  {
    var s := Written(p);
    if p.before != "" {
      assert s[0] == p.before[0] && s[1..] == Written(p.(before := p.before[1..]));
      TrimIs(a, p.(before := p.before[1..]));
    } else if p.text == "" {
      BlankIsTrimmed(a, p.after);
      assert s == p.after;
    } else if p.after != "" {
      var less := p.(after := p.after[..|p.after| - 1]);
      assert s[0] == p.text[0] && s[|s| - 1] == p.after[|p.after| - 1];
      assert s[..|s| - 1] == Written(less);
      TrimIs(a, less);
    } else {
      assert s == p.text;
    }
  }

  lemma {:induction false} BlankIsTrimmed(a: Alphabet, s: string)
    requires IsBlank(a, s)
    ensures Trim(a, s) == ""
  {
    if s != "" {
      BlankIsTrimmed(a, s[1..]);
    }
  }

  /** Blank parts are dropped, and the others are trimmed. */
  lemma {:induction false} TrimsAreTexts(a: Alphabet, parts: seq<Padded>)
    requires forall i :: 0 <= i < |parts| ==> IsPadded(a, parts[i])
    ensures KeptTrims(a, WrittenParts(parts)) == TextsOf(parts)
  {
    hide IsPadded;
    hide Written;
    if parts != [] {
      var n := |parts| - 1;
      assert WrittenParts(parts)[..n] == WrittenParts(parts[..n]);
      TrimsAreTexts(a, parts[..n]);
      TrimIs(a, parts[n]);
    }
  }

  // ---- Paragraphs

  /** Text in paragraphs: a blank line separates them. */
  lemma ParagraphsAreTexts(a: Alphabet, parts: seq<Padded>)
    requires parts != [] && (forall i :: 0 <= i < |parts| ==> IsPadded(a, parts[i]))
    requires AreParts(WrittenParts(parts), "\n\n")
    ensures Paragraphs(a, Join(WrittenParts(parts), "\n\n")) == TextsOf(parts)
  {
    hide IsPadded;
    SplitTakesJoinBack(WrittenParts(parts), "\n\n");
    TrimsAreTexts(a, parts);
  }

  /** Line ends become single line breaks. */
  lemma LineEndsAreUnified(a: Alphabet, lines: seq<string>)
    requires AreParts(lines, "\r\n")
    ensures Normalized(a, Join(lines, "\r\n")) == Trim(a, Join(lines, "\n"))
  {
    SplitTakesJoinBack(lines, "\r\n");
  }

  // ---- Sentences

  /** White space behind a full stop, an exclamation mark or a question mark, unless an abbreviation ends there. */
  predicate EndsASentenceAt(a: Alphabet, t: string, i: nat) {
    0 < i < |t| && t[i - 1] in ".!?" && a.isSpace(t[i]) && !a.ignoresBoundary(t, i)
  }

  predicate NoSentenceEnds(a: Alphabet, t: string, lo: nat, hi: nat) {
    forall i :: lo <= i < hi ==> !EndsASentenceAt(a, t, i)
  }

  /** The stretches of white space behind all sentences but the last. */
  predicate AreGaps(a: Alphabet, t: string, start: nat, gaps: seq<(nat, nat)>)
    decreases |gaps|
  {
    NextGap(a, t, start, gaps) && (gaps != [] ==> AreGaps(a, t, gaps[0].1, gaps[1..]))
  }

  /** No sentence ends in front of the first gap, which is all of the white space there. */
  predicate NextGap(a: Alphabet, t: string, start: nat, gaps: seq<(nat, nat)>) {
    if gaps == [] then NoSentenceEnds(a, t, start, |t|)
    else
      var (lo, hi) := gaps[0];
      && start <= lo < hi <= |t| && EndsASentenceAt(a, t, lo) && NoSentenceEnds(a, t, start, lo)
      && IsBlank(a, t[lo..hi]) && (hi < |t| ==> !a.isSpace(t[hi]))
  }

  /** The texts between the gaps. */
  function Between(t: string, start: nat, gaps: seq<(nat, nat)>): seq<string>
    decreases |gaps|
  {
    if gaps == [] then (if start <= |t| then [t[start..]] else [])
    else (if start <= gaps[0].0 <= |t| then [t[start..gaps[0].0]] else []) + Between(t, gaps[0].1, gaps[1..])
  }

  /** No white space is a punctuation mark. */
  predicate MarksAreSolid(a: Alphabet) {
    !a.isSpace('.') && !a.isSpace('!') && !a.isSpace('?')
  }

  lemma SpacesEndIs(a: Alphabet, t: string, lo: nat, hi: nat)
    requires lo <= hi <= |t| && IsBlank(a, t[lo..hi]) && (hi < |t| ==> !a.isSpace(t[hi]))
    ensures SpacesEnd(a, t, lo) == hi
    decreases hi - lo
  {
    if lo < hi {
      assert t[lo..hi][0] == t[lo] && t[lo..hi][1..] == t[lo + 1..hi];
      SpacesEndIs(a, t, lo + 1, hi);
    }
  }

  lemma BoundariesStep(a: Alphabet, t: string, i: nat)
    requires i <= |t|
    ensures Boundaries(a, t, i) ==
            if i == |t| then []
            else if i > 0 && t[i - 1] in ".!?" && a.isSpace(t[i]) then
              [(i, SpacesEnd(a, t, i + 1))] + Boundaries(a, t, SpacesEnd(a, t, i + 1))
            else Boundaries(a, t, i + 1)
  {
  }

  /** From anywhere at or behind the start of a sentence, the sentence ends at the next gap. */
  lemma {:induction false} SentenceEndsAtGap(a: Alphabet, t: string, start: nat, from: nat, gaps: seq<(nat, nat)>)
    requires MarksAreSolid(a) && start <= from <= |t|
    requires NextGap(a, t, from, gaps)
    ensures AreBoundaries(a, t, start, Boundaries(a, t, from))
    ensures SentencesFrom(a, t, start, Boundaries(a, t, from)) ==
            if gaps == [] then Kept(Trim(a, t[start..]))
            else Kept(Trim(a, t[start..gaps[0].0])) + SentencesFrom(a, t, gaps[0].1, Boundaries(a, t, gaps[0].1))
    decreases |t| - from
  {
    hide Boundaries;
    hide IsBlank;
    hide Trim;
    LaterBoundaries(a, t, start, from, Boundaries(a, t, from));
    BoundariesStep(a, t, from);
    if from < |t| && !(gaps != [] && from == gaps[0].0) {
      NotHere(a, t, from, gaps);
      if from > 0 && t[from - 1] in ".!?" && a.isSpace(t[from]) {
        var end := SpacesEnd(a, t, from + 1);
        GapIsBehind(a, t, from, end, gaps);
        SentenceEndsAtGap(a, t, start, end, gaps);
      } else {
        SentenceEndsAtGap(a, t, start, from + 1, gaps);
      }
    } else if gaps != [] {
      GapStartsHere(a, t, gaps);
    }
  }

  lemma GapStartsHere(a: Alphabet, t: string, gaps: seq<(nat, nat)>)
    requires gaps != [] && NextGap(a, t, gaps[0].0, gaps)
    ensures var (lo, hi) := gaps[0];
            lo > 0 && t[lo - 1] in ".!?" && a.isSpace(t[lo]) && !a.ignoresBoundary(t, lo) &&
                SpacesEnd(a, t, lo + 1) == hi
  {
    var (lo, hi) := gaps[0];
    assert t[lo..hi][1..] == t[lo + 1..hi];
    SpacesEndIs(a, t, lo + 1, hi);
  }

  lemma NotHere(a: Alphabet, t: string, from: nat, gaps: seq<(nat, nat)>)
    requires NextGap(a, t, from, gaps) && from < |t| && !(gaps != [] && from == gaps[0].0)
    ensures !EndsASentenceAt(a, t, from) && NextGap(a, t, from + 1, gaps)
  {
  }

  lemma GapIsBehind(a: Alphabet, t: string, from: nat, end: nat, gaps: seq<(nat, nat)>)
    requires MarksAreSolid(a) && from < |t| && a.isSpace(t[from]) && !EndsASentenceAt(a, t, from)
    requires end == SpacesEnd(a, t, from + 1) && NextGap(a, t, from + 1, gaps)
    ensures NextGap(a, t, end, gaps)
  {
    InSpaces(a, t, from, end);
  }

  lemma InSpaces(a: Alphabet, t: string, from: nat, end: nat)
    requires MarksAreSolid(a) && from < |t| && a.isSpace(t[from]) && !EndsASentenceAt(a, t, from)
    requires end == SpacesEnd(a, t, from + 1)
    ensures NoSentenceEnds(a, t, from, end)
    ensures forall i :: from < i < end ==> !EndsASentenceAt(a, t, i)
  {
    assert forall k :: from < k < end ==> a.isSpace(t[k]) by {
      assert forall k :: from < k < end ==> t[from + 1..end][k - from - 1] == t[k];
    }
  }

  lemma {:induction false} SentencesAreBetweenGaps(a: Alphabet, t: string, start: nat, gaps: seq<(nat, nat)>)
    requires MarksAreSolid(a) && start <= |t| && AreGaps(a, t, start, gaps)
    ensures AreBoundaries(a, t, start, Boundaries(a, t, start))
    ensures SentencesFrom(a, t, start, Boundaries(a, t, start)) == KeptTrims(a, Between(t, start, gaps))
    decreases |gaps|
  {
    hide Boundaries;
    hide SentencesFrom;
    hide KeptTrims;
    hide Trim;
    SentenceEndsAtGap(a, t, start, start, gaps);
    if gaps == [] {
      FirstTrim(a, t[start..], []);
      NoTrims(a);
      assert [t[start..]] + [] == [t[start..]];
      assert Kept(Trim(a, t[start..])) + [] == Kept(Trim(a, t[start..]));
    } else {
      var (lo, hi) := gaps[0];
      SentencesAreBetweenGaps(a, t, hi, gaps[1..]);
      FirstTrim(a, t[start..lo], Between(t, hi, gaps[1..]));
    }
  }

  lemma NoTrims(a: Alphabet)
    ensures KeptTrims(a, []) == []
  {
  }

  lemma KeptLast(a: Alphabet, xs: seq<string>)
    requires xs != []
    ensures KeptTrims(a, xs) == KeptTrims(a, xs[..|xs| - 1]) + Kept(Trim(a, xs[|xs| - 1]))
  {
  }

  lemma {:induction false} FirstTrim(a: Alphabet, x: string, ys: seq<string>)
    ensures KeptTrims(a, [x] + ys) == Kept(Trim(a, x)) + KeptTrims(a, ys)
  {
    hide Trim;
    if ys == [] {
      assert [x] + ys == [x] && [x][..0] == [];
    } else {
      var n := |ys| - 1;
      FirstTrim(a, x, ys[..n]);
      assert ([x] + ys)[..n + 1] == [x] + ys[..n] && ([x] + ys)[n + 1] == ys[n];
      hide KeptTrims;
      KeptLast(a, [x] + ys);
      KeptLast(a, ys);
    }
  }

  /** The sentences of a text are the trimmed texts between the stretches of white space that end a sentence. */
  lemma SentencesAreRead(a: Alphabet, t: string, gaps: seq<(nat, nat)>)
    requires MarksAreSolid(a) && AreGaps(a, t, 0, gaps)
    ensures var found := KeptTrims(a, Between(t, 0, gaps)); Sentences(a, t) == if found == [] then [t] else found
  {
    hide Boundaries;
    hide SentencesFrom;
    SentencesAreBetweenGaps(a, t, 0, gaps);
  }

  // ---- Cuts

  /** A piece is as long as it may be without cutting a word; a word is cut only if it fills the whole window. */
  predicate IsBestCut(a: Alphabet, t: string, start: nat, max: nat, end: nat) {
    && start < end <= |t| && end - start <= max
    && (SplitsAWord(a, t, end) ==> end == start + max && forall k :: start <= k < end ==> a.isWord(t[k]))
    && forall later :: end < later <= start + max && later <= |t| ==> SplitsAWord(a, t, later)
  }

  predicate AreBestCuts(a: Alphabet, t: string, start: nat, max: nat, cuts: seq<nat>)
    decreases |cuts|
  {
    if cuts == [] then start == |t|
    else IsBestCut(a, t, start, max, cuts[0]) && AreBestCuts(a, t, cuts[0], max, cuts[1..])
  }

  /** The texts that the cuts leave. */
  function Cut(t: string, start: nat, cuts: seq<nat>): seq<string>
    decreases |cuts|
  {
    if cuts == [] then []
    else (if start <= cuts[0] <= |t| then [t[start..cuts[0]]] else []) + Cut(t, cuts[0], cuts[1..])
  }

  /** An overlong text is cut piece by piece, each time as late as possible, and the pieces are trimmed. */
  lemma {:induction false} PiecesAreCutBest(a: Alphabet, t: string, start: nat, max: nat) returns (cuts: seq<nat>)
    requires start <= |t| && max > 0
    ensures AreBestCuts(a, t, start, max, cuts) && Pieces(a, t, start, max) == KeptTrims(a, Cut(t, start, cuts))
    decreases |t| - start
  {
    hide Trim;
    hide KeptTrims;
    hide NextCut;
    hide IsBestCut;
    if start == |t| {
      cuts := [];
      NoTrims(a);
    } else {
      var end := NextCut(a, t, start, max);
      CutIsNext(a, t, start, max);
      var more := PiecesAreCutBest(a, t, end, max);
      cuts := [end] + more;
      assert cuts[0] == end && cuts[1..] == more;
      FirstTrim(a, t[start..end], Cut(t, end, more));
    }
  }

  lemma CutIsNext(a: Alphabet, t: string, start: nat, max: nat)
    requires start < |t| && max > 0
    ensures IsBestCut(a, t, start, max, NextCut(a, t, start, max))
  {
    CutIsBest(a, t, start, max);
  }

  /** A text that fits is its only piece. */
  lemma FittingTextIsOnePiece(a: Alphabet, text: string, max: nat)
    requires max > 0 && |Trim(a, text)| <= max
    ensures SplitUp(a, text, max) == if Trim(a, text) == "" then [] else [Trim(a, text)]
  {
    var t := Trim(a, text);
    if t != "" {
      assert t[0..|t|] == t;
      assert Pieces(a, t, |t|, max) == [];
    }
  }

  // ---- Units

  function SplitUps(a: Alphabet, xs: seq<string>, max: nat): seq<seq<string>>
    requires max > 0
  {
    seq(|xs|, i requires 0 <= i < |xs| => SplitUp(a, xs[i], max))
  }

  lemma {:induction false} SplitAllIsFlat(a: Alphabet, xs: seq<string>, max: nat)
    requires max > 0
    ensures SplitAll(a, xs, max) == Flattened(SplitUps(a, xs, max))
  {
    hide SplitUp;
    if xs != [] {
      var n := |xs| - 1;
      SplitAllIsFlat(a, xs[..n], max);
      assert SplitUps(a, xs, max)[..n] == SplitUps(a, xs[..n], max);
    }
  }

  /** A paragraph that fits is one unit. The sentences of a longer one are packed, and what is still too long is cut. */
  lemma ParagraphIsUnits(a: Alphabet, p: string, max: nat) returns (groups: seq<seq<string>>, buffers: seq<string>)
    requires max > 0 && p != ""
    ensures if |p| <= max then UnitsOf(a, p, max) == [p]
            else
              && Flattened(groups) == Sentences(a, p) && IsGreedy(groups, buffers, max, " ")
              && UnitsOf(a, p, max) == Flattened(SplitUps(a, buffers, max))
  {
    hide Boundaries;
    hide SentencesFrom;
    hide IsGreedy;
    groups, buffers := [], [];
    if |p| > max {
      SentencesAreTheText(a, p);
      assert forall i :: 0 <= i < |Sentences(a, p)| ==> Sentences(a, p)[i] in Sentences(a, p);
      groups := PackedIsGreedy(Sentences(a, p), max, " ");
      buffers := Packed(Sentences(a, p), max, " ");
      SplitAllIsFlat(a, buffers, max);
    }
  }

  function UnitsOfEach(a: Alphabet, ps: seq<string>, max: nat): seq<seq<string>>
    requires max > 0
  {
    seq(|ps|, i requires 0 <= i < |ps| => UnitsOf(a, ps[i], max))
  }

  /** The units of a text are those of its paragraphs, in order. */
  lemma {:induction false} UnitsAreFlat(a: Alphabet, ps: seq<string>, max: nat)
    requires max > 0
    ensures UnitsOfAll(a, ps, max) == Flattened(UnitsOfEach(a, ps, max))
  {
    hide UnitsOf;
    if ps != [] {
      var n := |ps| - 1;
      UnitsAreFlat(a, ps[..n], max);
      assert UnitsOfEach(a, ps, max)[..n] == UnitsOfEach(a, ps[..n], max);
    }
  }

  lemma NoInkNoUnits(a: Alphabet, max: nat, xs: seq<string>)
    requires AreUnits(a, max, xs) && InkOfAll(a, xs) == ""
    ensures xs == []
  {
    if xs != [] {
      UnitHasInk(a, max, xs);
    }
  }

  lemma UnitHasInk(a: Alphabet, max: nat, xs: seq<string>)
    requires AreUnits(a, max, xs) && xs != []
    ensures InkOfAll(a, xs) != ""
  {
    assert IsUnit(a, max, xs[|xs| - 1]);
    assert |Ink(a, xs[|xs| - 1])| > 0;
  }

  /** The units of a text are those of the trimmed paragraphs that are not blank. */
  lemma TextIsUnits(a: Alphabet, parts: seq<Padded>, max: nat)
    requires a.HasLineBreaks() && max > 0 && parts != [] && (forall i :: 0 <= i < |parts| ==> IsPadded(a, parts[i]))
    requires AreParts(WrittenParts(parts), "\n\n")
    ensures Units(a, Join(WrittenParts(parts), "\n\n"), max) == Flattened(UnitsOfEach(a, TextsOf(parts), max))
  {
    hide IsPadded;
    hide AreParts;
    hide UnitsOfEach;
    hide UnitsOfAll;
    hide Ink;
    hide Flattened;
    hide Join;
    hide WrittenParts;
    hide TextsOf;
    hide AreUnits;
    hide SplitUp;
    var text := Join(WrittenParts(parts), "\n\n");
    ParagraphsAreTexts(a, parts);
    UnitsAreFlat(a, TextsOf(parts), max);
    var units := UnitsOfAll(a, TextsOf(parts), max);
    if units == [] {
      InkOfSplit(a, text, "\n\n", 0);
      InkOfTrims(a, Split(text, "\n\n"));
      UnitsOfParagraphs(a, Paragraphs(a, text), max);
      assert text[0..] == text;
      SplitUpIsUnits(a, text, max);
      NoInkNoUnits(a, max, SplitUp(a, text, max));
    }
  }

  // ---- Overlap

  predicate StartsAWord(a: Alphabet, t: string, k: nat) {
    0 < k < |t| && a.isWord(t[k]) && !a.isWord(t[k - 1])
  }

  /** Where the tail of a chunk begins that is longer than asked for: not inside a word, if a later word starts. */
  predicate IsTailStart(a: Alphabet, t: string, from: nat, k: nat) {
    if !SplitsAWord(a, t, from) then k == from
    else if exists j :: from < j < |t| && StartsAWord(a, t, j) then
      from < k < |t| && StartsAWord(a, t, k) && forall j :: from < j < k ==> !StartsAWord(a, t, j)
    else k == from
  }

  ghost predicate IsTail(a: Alphabet, previous: string, overlap: nat, tail: string) {
    if overlap == 0 then tail == ""
    else if |previous| <= overlap then tail == Trim(a, previous)
    else
      exists k: nat ::
        k <= |previous| && IsTailStart(a, previous, |previous| - overlap, k) && tail == Trim(a, previous[k..])
  }

  lemma AlignedForwardStartsAWord(a: Alphabet, t: string, from: nat)
    requires from < |t|
    ensures var r := AlignedForward(a, t, from); IsTailStart(a, t, from, if r < |t| then r else from)
  {
    if SplitsAWord(a, t, from) {
      var word := RunEnd(a, t, from, true);
      var r := RunEnd(a, t, word, false);
      forall j | from < j < r
        ensures !StartsAWord(a, t, j)
      {
        assert j - 1 < word ==> a.isWord(t[j - 1]);
      }
      assert word < |t| ==> word < r;
      if r < |t| {
        assert StartsAWord(a, t, r);
      }
    }
  }

  lemma TailIsRead(a: Alphabet, previous: string, overlap: nat)
    ensures IsTail(a, previous, overlap, OverlapTail(a, previous, overlap))
  {
    hide Trim;
    hide AlignedForward;
    hide IsTailStart;
    if overlap > 0 && |previous| > overlap {
      var from := |previous| - overlap;
      AlignedForwardStartsAWord(a, previous, from);
      var r := AlignedForward(a, previous, from);
      var k := if r < |previous| then r else from;
      assert IsTailStart(a, previous, from, k);
    } else if previous == "" {
      assert Trim(a, previous) == "";
    }
  }

  /** A chunk behind its tail: all of it if it fits, and else up to the best cut. */
  ghost predicate IsOverlapped(a: Alphabet, tail: string, chunk: string, max: nat, result: string) {
    IsWholeOrCut(a, if tail == "" then chunk else tail + "\n" + chunk, max, result)
  }

  ghost predicate IsWholeOrCut(a: Alphabet, text: string, max: nat, result: string) {
    if |text| <= max then result == text
    else exists end: nat :: IsBestCut(a, text, 0, max, end) && result == Trim(a, text[..end])
  }

  ghost predicate IsLaterChunk(a: Alphabet, previous: string, chunk: string, overlap: nat, max: nat, result: string) {
    exists tail :: IsTail(a, previous, overlap, tail) && IsOverlapped(a, tail, chunk, max, result)
  }

  lemma CroppedIsCutBest(a: Alphabet, text: string, max: nat)
    requires |text| > max > 0
    ensures exists end: nat :: IsBestCut(a, text, 0, max, end) && Cropped(a, text, max) == text[..end]
  {
    var end := NextCut(a, text, 0, max);
    CutIsNext(a, text, 0, max);
    assert Cropped(a, text, max) == text[..end];
  }

  lemma OverlappedIsRead(a: Alphabet, previous: string, chunk: string, overlap: nat, max: nat)
    requires IsUnit(a, max, previous) && IsUnit(a, max, chunk) && max > 0
    ensures IsLaterChunk(a, previous, chunk, overlap, max, Overlapped(a, previous, chunk, overlap, max))
  {
    TailIsRead(a, previous, overlap);
    var tail := OverlapTail(a, previous, overlap);
    TailIsTrimmed(a, previous, overlap);
    hide OverlapTail;
    var merged := Merged(tail, chunk);
    assert IsTrimmed(a, merged) && merged != "";
    hide Trim;
    hide IsBestCut;
    hide IsTail;
    if |merged| > max {
      CroppingLosesInk(a, merged, max);
      CroppedIsCutBest(a, merged, max);
      var end: nat :| IsBestCut(a, merged, 0, max, end) && Cropped(a, merged, max) == merged[..end];
      assert Overlapped(a, previous, chunk, overlap, max) == Trim(a, merged[..end]);
    } else {
      assert Overlapped(a, previous, chunk, overlap, max) == merged;
    }
    assert IsOverlapped(a, tail, chunk, max, Overlapped(a, previous, chunk, overlap, max));
  }

  lemma TailIsTrimmed(a: Alphabet, previous: string, overlap: nat)
    ensures IsTrimmed(a, OverlapTail(a, previous, overlap))
  {
  }

  // ---- The whole text

  /** What the chunks of a text are. The base chunks are its units, packed with a blank line between them; if there is
      overlap, each later chunk stands behind the tail of the base chunk before it. */
  lemma ChunksAreRead(a: Alphabet, text: string, chunkSize: int, overlap: int) returns (groups: seq<seq<string>>)
    requires a.HasLineBreaks()
    ensures var size := if chunkSize > 200 then chunkSize else 200;
            var over := if overlap < 0 then 0 else if overlap > size - 1 then size - 1 else overlap;
            var base, chunks := BaseChunks(a, text, size), ChunksOf(a, text, chunkSize, overlap);
            && Flattened(groups) == Units(a, text, size) && IsGreedy(groups, base, size, "\n\n")
            && (over == 0 || |base| < 2 ==> chunks == base)
            && |chunks| == |base| && (base != [] ==> chunks[0] == base[0])
            && (over > 0 ==> forall i :: 0 < i < |base| ==>
                IsLaterChunk(a, base[i - 1], base[i], over, size, chunks[i]))
  {
    var size, over := SafeSize(chunkSize), SafeOverlap(chunkSize, overlap);
    var base := BaseChunks(a, text, size);
    groups := BaseIsGreedy(a, text, size);
    OverlapIsRead(a, base, over, size) by { BaseChunksConserveText(a, text, size); }
    hide Units;
    hide BaseChunks;
    hide IsGreedy;
    hide IsLaterChunk;
    hide Overlapped;
  }

  lemma BaseIsGreedy(a: Alphabet, text: string, size: nat) returns (groups: seq<seq<string>>)
    requires a.HasLineBreaks() && size > 0
    ensures Flattened(groups) == Units(a, text, size) && IsGreedy(groups, BaseChunks(a, text, size), size, "\n\n")
  {
    BaseChunksConserveText(a, text, size);
    UnitsConserveText(a, text, size);
    hide Units;
    hide BaseChunks;
    hide IsGreedy;
    hide Ink;
    hide InkOfAll;
    hide Flattened;
    var units := Units(a, text, size);
    assert forall i :: 0 <= i < |units| ==> IsUnit(a, size, units[i]);
    groups := PackedIsGreedy(units, size, "\n\n");
  }

  lemma OverlapIsRead(a: Alphabet, base: seq<string>, over: nat, size: nat)
    requires AreUnits(a, size, base) && size > 0
    ensures forall i :: 0 < i < |base| ==>
              IsLaterChunk(a, base[i - 1], base[i], over, size, Overlapped(a, base[i - 1], base[i], over, size))
  {
    hide IsLaterChunk;
    hide Overlapped;
    hide IsUnit;
    forall i | 0 < i < |base|
      ensures IsLaterChunk(a, base[i - 1], base[i], over, size, Overlapped(a, base[i - 1], base[i], over, size))
    {
      assert IsUnit(a, size, base[i - 1]) && IsUnit(a, size, base[i]);
      OverlappedIsRead(a, base[i - 1], base[i], over, size);
    }
  }
}
