/** The chunker as the program runs it: buffers that grow, cursors that move over the text, and the lists built
    from them. Each method computes what `Chunks` says. */
module TextChunkingService {

  import opened Text
  import opened Splitting
  import opened Chunks

  datatype ChunkedTextUnit = ChunkedTextUnit(text: string, pageNumber: Option<nat>)

  method AlignBackwardToWordBoundary(a: Alphabet, text: string, index: nat, lowerBound: nat) returns (cursor: nat)
    requires lowerBound <= |text| && index <= |text|
    ensures cursor == AlignedBack(a, text, index, lowerBound)
  {
    if index <= lowerBound {
      return lowerBound;
    }
    if index >= |text| {
      return index;
    }
    if !a.isWord(text[index - 1]) || !a.isWord(text[index]) {
      return index;
    }
    cursor := index;
    while cursor > lowerBound && a.isWord(text[cursor - 1])
      invariant lowerBound <= cursor <= index
      invariant WordStart(a, text, lowerBound, cursor) == WordStart(a, text, lowerBound, index)
    {
      cursor := cursor - 1;
    }
  }

  method AlignForwardToWordBoundary(a: Alphabet, text: string, index: nat) returns (cursor: nat)
    requires index <= |text|
    ensures cursor == AlignedForward(a, text, index)
  {
    if index >= |text| {
      return |text|;
    }
    cursor := index;
    if cursor > 0 {
      if a.isWord(text[cursor - 1]) && a.isWord(text[cursor]) {
        while cursor < |text| && a.isWord(text[cursor])
          invariant index <= cursor <= |text|
          invariant RunEnd(a, text, cursor, true) == RunEnd(a, text, index, true)
        {
          cursor := cursor + 1;
        }
        while cursor < |text| && !a.isWord(text[cursor])
          invariant index <= cursor <= |text|
          invariant RunEnd(a, text, cursor, false) == RunEnd(a, text, RunEnd(a, text, index, true), false)
        {
          cursor := cursor + 1;
        }
      }
    }
  }

  /** Appends the pieces of a text to the units. */
  method AppendOrSplit(a: Alphabet, text: string, units: seq<string>, maxLength: nat) returns (r: seq<string>)
    requires maxLength > 0
    ensures r == units + SplitUp(a, text, maxLength)
  {
    hide Pieces;
    hide Trim;
    hide WordStart;
    r := units;
    var trimmed := Trim(a, text);
    NoPieces(a, trimmed, maxLength);
    if trimmed == "" {
      return;
    }
    if |trimmed| <= maxLength {
      WholePiece(a, trimmed, maxLength);
      r := r + [trimmed];
      return;
    }
    var start := 0;
    while start < |trimmed|
      invariant start <= |trimmed|
      invariant r + Pieces(a, trimmed, start, maxLength) == units + SplitUp(a, text, maxLength)
    {
      var rawEnd := if start + maxLength <= |trimmed| then start + maxLength else |trimmed|;
      var end := rawEnd;
      if rawEnd < |trimmed| {
        var adjusted := AlignBackwardToWordBoundary(a, trimmed, rawEnd, start);
        if adjusted > start {
          end := adjusted;
        }
      }
      assert end == NextCut(a, trimmed, start, maxLength);
      NextPiece(a, r, trimmed, start, maxLength);
      var part := Trim(a, trimmed[start..end]);
      if part != "" {
        r := r + [part];
      }
      if end >= |trimmed| {
        start := end;
        break;
      }
      start := end;
    }
  }

  lemma NoPieces(a: Alphabet, t: string, max: nat)
    requires max > 0
    ensures Pieces(a, t, |t|, max) == []
  {
  }

  lemma WholePiece(a: Alphabet, t: string, max: nat)
    requires 0 < |t| <= max && IsTrimmed(a, t)
    ensures Pieces(a, t, 0, max) == [t]
  {
    assert t[0..|t|] == t;
  }

  lemma NextPiece(a: Alphabet, units: seq<string>, t: string, start: nat, max: nat)
    requires start < |t| && max > 0
    ensures var end := NextCut(a, t, start, max);
            units + Pieces(a, t, start, max) == (units + Kept(Trim(a, t[start..end]))) + Pieces(a, t, end, max)
  {
    var end := NextCut(a, t, start, max);
    var first, rest := Kept(Trim(a, t[start..end])), Pieces(a, t, end, max);
    assert units + (first + rest) == (units + first) + rest;
  }

  /** One match: it is passed over, or it ends a sentence. */
  lemma NextSentence(a: Alphabet, before: seq<string>, t: string, start: nat, ms: seq<(nat, nat)>)
    requires start <= |t| && AreBoundaries(a, t, start, ms) && ms != []
    ensures start <= ms[0].0 <= ms[0].1 <= |t| && AreBoundaries(a, t, ms[0].1, ms[1..])
    ensures AreBoundaries(a, t, start, ms[1..])
    ensures before + SentencesFrom(a, t, start, ms) ==
      if a.ignoresBoundary(t, ms[0].0) then before + SentencesFrom(a, t, start, ms[1..])
      else (before + Kept(Trim(a, t[start..ms[0].0]))) + SentencesFrom(a, t, ms[0].1, ms[1..])
  {
    hide IsBlank;
    hide Trim;
    LaterBoundaries(a, t, start, ms[0].1, ms[1..]);
    var first, rest := Kept(Trim(a, t[start..ms[0].0])), SentencesFrom(a, t, ms[0].1, ms[1..]);
    assert before + (first + rest) == (before + first) + rest;
  }

  lemma LastSentence(a: Alphabet, t: string, start: nat)
    requires start <= |t|
    ensures SentencesFrom(a, t, start, []) == Kept(Trim(a, t[start..]))
  {
  }

  method SplitIntoSentences(a: Alphabet, text: string) returns (sentences: seq<string>)
    ensures sentences == Sentences(a, text)
  {
    hide Trim;
    hide SentencesFrom;
    hide AreBoundaries;
    var matches := Boundaries(a, text, 0);
    var start: nat := 0;
    sentences := [];
    for i := 0 to |matches|
      invariant start <= |text| && AreBoundaries(a, text, start, matches[i..])
      invariant sentences + SentencesFrom(a, text, start, matches[i..]) == SentencesFrom(a, text, 0, matches)
    {
      var boundary := matches[i];
      assert matches[i..][0] == boundary && matches[i..][1..] == matches[i + 1..];
      NextSentence(a, sentences, text, start, matches[i..]);
      if !a.ignoresBoundary(text, boundary.0) {
        var sentence := Trim(a, text[start..boundary.0]);
        if sentence != "" {
          sentences := sentences + [sentence];
        }
        start := boundary.1;
      }
    }
    LastSentence(a, text, start);
    var trailing := Trim(a, text[start..]);
    if trailing != "" {
      sentences := sentences + [trailing];
    }
    if sentences == [] {
      sentences := [text];
    }
  }

  method SemanticUnits(a: Alphabet, text: string, unitMaxLength: nat) returns (units: seq<string>)
    requires unitMaxLength > 0
    ensures units == Units(a, text, unitMaxLength)
  {
    hide SplitUp;
    hide Paragraphs;
    var paragraphs := Paragraphs(a, text);
    units := [];
    for i := 0 to |paragraphs|
      invariant units == UnitsOfAll(a, paragraphs[..i], unitMaxLength)
    {
      var paragraph := paragraphs[i];
      assert paragraphs[..i + 1][..i] == paragraphs[..i];
      if |paragraph| <= unitMaxLength {
        units := units + [paragraph];
        continue;
      }
      units := AppendSentences(a, paragraph, units, unitMaxLength);
    }
    assert paragraphs[..|paragraphs|] == paragraphs;
    if units == [] {
      units := AppendOrSplit(a, text, units, unitMaxLength);
    }
  }

  /** The sentences of an overlong paragraph, collected in a buffer while they fit. */
  method AppendSentences(a: Alphabet, paragraph: string, units: seq<string>, unitMaxLength: nat)
      returns (r: seq<string>)
    requires unitMaxLength > 0
    ensures r == units + SplitAll(a, Packed(Sentences(a, paragraph), unitMaxLength, " "), unitMaxLength)
  {
    hide Sentences;
    hide SplitUp;
    var sentenceUnits := SplitIntoSentences(a, paragraph);
    r := units;
    var sentenceBuffer := "";
    ghost var done: seq<string> := [];
    for i := 0 to |sentenceUnits|
      invariant Packing(sentenceUnits[..i], unitMaxLength, " ") == (done, sentenceBuffer)
      invariant r == units + SplitAll(a, done, unitMaxLength)
    {
      var sentence := sentenceUnits[i];
      assert sentenceUnits[..i + 1][..i] == sentenceUnits[..i];
      if sentenceBuffer == "" {
        sentenceBuffer := sentence;
      } else if |sentenceBuffer| + 1 + |sentence| <= unitMaxLength {
        sentenceBuffer := sentenceBuffer + " " + sentence;
      } else {
        SplitOneMore(a, units, done, sentenceBuffer, unitMaxLength);
        r := AppendOrSplit(a, sentenceBuffer, r, unitMaxLength);
        done := done + [sentenceBuffer];
        sentenceBuffer := sentence;
      }
    }
    assert sentenceUnits[..|sentenceUnits|] == sentenceUnits && done + [] == done;
    if sentenceBuffer != "" {
      SplitOneMore(a, units, done, sentenceBuffer, unitMaxLength);
      r := AppendOrSplit(a, sentenceBuffer, r, unitMaxLength);
    }
  }

  lemma SplitOneMore(a: Alphabet, units: seq<string>, done: seq<string>, x: string, max: nat)
    requires max > 0
    ensures units + SplitAll(a, done + [x], max) == units + SplitAll(a, done, max) + SplitUp(a, x, max)
  {
    assert (done + [x])[..|done|] == done;
  }

  method OverlapTailOf(a: Alphabet, text: string, overlap: nat) returns (tail: string)
    ensures tail == OverlapTail(a, text, overlap)
  {
    if overlap == 0 || text == "" {
      return "";
    }
    if |text| <= overlap {
      return Trim(a, text);
    }
    var rawStart := |text| - overlap;
    var alignedStart := AlignForwardToWordBoundary(a, text, rawStart);
    if alignedStart < |text| {
      return Trim(a, text[alignedStart..]);
    }
    return Trim(a, text[rawStart..]);
  }

  method TrimToWordBoundary(a: Alphabet, text: string, maxLength: nat) returns (r: string)
    ensures r == Cropped(a, text, maxLength)
  {
    if |text| <= maxLength {
      return text;
    }
    var alignedEnd := AlignBackwardToWordBoundary(a, text, maxLength, 0);
    var end := if alignedEnd > 0 then alignedEnd else maxLength;
    return text[..end];
  }

  method ApplyOverlap(a: Alphabet, chunks: seq<string>, overlap: nat, maxLength: nat) returns (result: seq<string>)
    ensures result == WithOverlap(a, chunks, overlap, maxLength)
  {
    if |chunks| <= 1 {
      return chunks;
    }
    hide Trim;
    hide OverlapTail;
    hide Cropped;
    hide WithOverlap;
    result := [];
    for index := 0 to |chunks|
      invariant result == WithOverlap(a, chunks, overlap, maxLength)[..index]
    {
      OverlapOneMore(a, chunks, overlap, maxLength, index);
      if index == 0 {
        result := result + [chunks[index]];
        continue;
      }
      var previousTail := OverlapTailOf(a, chunks[index - 1], overlap);
      var merged := if previousTail == "" then chunks[index] else previousTail + "\n" + chunks[index];
      if |merged| > maxLength {
        merged := TrimToWordBoundary(a, merged, maxLength);
      }
      merged := Trim(a, merged);
      if merged == "" {
        merged := chunks[index];
      }
      result := result + [merged];
    }
  }

  lemma OverlapOneMore(a: Alphabet, chunks: seq<string>, overlap: nat, max: nat, i: nat)
    requires i < |chunks|
    ensures WithOverlap(a, chunks, overlap, max)[..i + 1] == WithOverlap(a, chunks, overlap, max)[..i]
              + [if i == 0 then chunks[0] else Overlapped(a, chunks[i - 1], chunks[i], overlap, max)]
  {
    hide Overlapped;
  }

  method ChunkSingle(a: Alphabet, text: string, chunkSize: int, overlap: int) returns (chunks: seq<string>)
    ensures chunks == ChunksOf(a, text, chunkSize, overlap)
  {
    hide Units;
    hide WithOverlap;
    var safeSize := SafeSize(chunkSize);
    var safeOverlap := SafeOverlap(chunkSize, overlap);
    var units := SemanticUnits(a, text, safeSize);
    if units == [] {
      NothingToPack(a, text, safeSize);
      return [];
    }
    hide Trim;
    chunks := [];
    var current := "";
    ghost var done: seq<string> := [];
    var separator := "\n\n";
    for i := 0 to |units|
      invariant Packing(units[..i], safeSize, separator) == (done, current)
      invariant chunks == KeptTrims(a, done)
    {
      var unit := units[i];
      assert units[..i + 1][..i] == units[..i];
      if current == "" {
        current := unit;
        continue;
      }
      var candidate := current + separator + unit;
      if |candidate| <= safeSize {
        current := candidate;
      } else {
        TrimOneMore(a, done, current);
        var trimmed := Trim(a, current);
        if trimmed != "" {
          chunks := chunks + [trimmed];
        }
        done := done + [current];
        current := unit;
      }
    }
    assert units[..|units|] == units;
    TrimOneMore(a, done, current);
    var trailing := Trim(a, current);
    if trailing != "" {
      chunks := chunks + [trailing];
    }
    assert chunks == BaseChunks(a, text, safeSize);
    hide BaseChunks;
    if safeOverlap == 0 || |chunks| < 2 {
      return chunks;
    }
    chunks := ApplyOverlap(a, chunks, safeOverlap, safeSize);
  }

  lemma TrimOneMore(a: Alphabet, done: seq<string>, x: string)
    ensures KeptTrims(a, done + [x]) == KeptTrims(a, done) + Kept(Trim(a, x))
    ensures KeptTrims(a, done + Kept(x)) == KeptTrims(a, done) + Kept(Trim(a, x))
  {
    assert (done + [x])[..|done|] == done;
    if x == "" {
      assert done + Kept(x) == done;
      assert KeptTrims(a, done) + [] == KeptTrims(a, done);
    }
  }

  lemma NothingToPack(a: Alphabet, text: string, size: nat)
    requires size > 0 && Units(a, text, size) == []
    ensures BaseChunks(a, text, size) == []
  {
    hide Units;
  }

  method Normalize(a: Alphabet, text: string) returns (r: string)
    ensures r == Normalized(a, text)
  {
    r := StringReplaceAll(text, "\r\n", "\n");
    r := Trim(a, r);
  }

  // ---- Pages

  function Numbered(texts: seq<string>, page: Option<nat>): seq<ChunkedTextUnit> {
    seq(|texts|, i requires 0 <= i < |texts| => ChunkedTextUnit(texts[i], page))
  }

  /** A page that is blank has no chunks. */
  function PageTexts(a: Alphabet, page: string, chunkSize: int, overlap: int): seq<string> {
    var normalized := Normalized(a, page);
    if normalized == "" then [] else ChunksOf(a, normalized, chunkSize, overlap)
  }

  function PageUnits(a: Alphabet, pages: seq<string>, chunkSize: int, overlap: int): seq<ChunkedTextUnit> {
    if pages == [] then []
    else
      var n := |pages| - 1;
      PageUnits(a, pages[..n], chunkSize, overlap) + Numbered(PageTexts(a, pages[n], chunkSize, overlap), Some(n + 1))
  }

  method ChunkWithMetadata(a: Alphabet, text: string, chunkSize: int, overlap: int)
      returns (result: seq<ChunkedTextUnit>)
    ensures result == Numbered(PageTexts(a, text, chunkSize, overlap), None)
  {
    var normalized := Normalize(a, text);
    if normalized == "" {
      return [];
    }
    var chunks := ChunkSingle(a, normalized, chunkSize, overlap);
    return Numbered(chunks, None);
  }

  method ChunkPagesWithMetadata(a: Alphabet, pages: seq<string>, chunkSize: int, overlap: int)
    returns (result: seq<ChunkedTextUnit>)
    ensures result == PageUnits(a, pages, chunkSize, overlap)
  {
    hide Normalized;
    hide ChunksOf;
    result := [];
    for pageIndex := 0 to |pages|
      invariant result == PageUnits(a, pages[..pageIndex], chunkSize, overlap)
    {
      assert pages[..pageIndex + 1][..pageIndex] == pages[..pageIndex];
      var normalizedPage := Normalize(a, pages[pageIndex]);
      if normalizedPage == "" {
        continue;
      }
      var pageChunks := ChunkSingle(a, normalizedPage, chunkSize, overlap);
      result := result + Numbered(pageChunks, Some(pageIndex + 1));
    }
    assert pages[..|pages|] == pages;
  }

  predicate AreInOrder(units: seq<ChunkedTextUnit>, pages: nat) {
    && (forall i :: 0 <= i < |units| ==> units[i].pageNumber.Some? && 1 <= units[i].pageNumber.value <= pages)
    && forall i, j :: 0 <= i < j < |units| ==> units[i].pageNumber.value <= units[j].pageNumber.value
  }

  /** The page numbers start at one, never fall, and stay within the pages. */
  lemma {:induction false} PageNumbersAreInOrder(a: Alphabet, pages: seq<string>, chunkSize: int, overlap: int)
    ensures AreInOrder(PageUnits(a, pages, chunkSize, overlap), |pages|)
  {
    hide PageTexts;
    if pages != [] {
      PageNumbersAreInOrder(a, pages[..|pages| - 1], chunkSize, overlap);
    }
  }

  function TextsOfPage(units: seq<ChunkedTextUnit>, page: nat): seq<string> {
    if units == [] then []
    else
      var n := |units| - 1;
      TextsOfPage(units[..n], page) + if units[n].pageNumber == Some(page) then [units[n].text] else []
  }

  lemma {:induction false} TextsOfTwo(us: seq<ChunkedTextUnit>, vs: seq<ChunkedTextUnit>, page: nat)
    ensures TextsOfPage(us + vs, page) == TextsOfPage(us, page) + TextsOfPage(vs, page)
  {
    if vs == [] {
      assert us + vs == us;
    } else {
      TextsOfTwo(us, vs[..|vs| - 1], page);
      assert (us + vs)[..|us + vs| - 1] == us + vs[..|vs| - 1];
    }
  }

  lemma {:induction false} TextsOfNumbered(texts: seq<string>, number: nat, page: nat)
    ensures TextsOfPage(Numbered(texts, Some(number)), page) == if number == page then texts else []
  {
    if texts != [] {
      var n := |texts| - 1;
      TextsOfNumbered(texts[..n], number, page);
      assert Numbered(texts, Some(number))[..n] == Numbered(texts[..n], Some(number));
      assert texts == texts[..n] + [texts[n]];
    }
  }

  lemma NoTexts(page: nat)
    ensures TextsOfPage([], page) == []
  {
  }

  /** The units that carry a page's number are the chunks of that page alone: nothing crosses a page border. */
  lemma {:induction false} UnitsOfAPageAreItsChunks(a: Alphabet, pages: seq<string>, chunkSize: int, overlap: int,
      k: nat)
    ensures TextsOfPage(PageUnits(a, pages, chunkSize, overlap), k + 1)
         == if k < |pages| then PageTexts(a, pages[k], chunkSize, overlap) else []
  {
    hide PageTexts;
    hide Numbered;
    hide TextsOfPage;
    if pages == [] {
      NoTexts(k + 1);
    } else {
      var n := |pages| - 1;
      UnitsOfAPageAreItsChunks(a, pages[..n], chunkSize, overlap, k);
      TextsOfTwo(PageUnits(a, pages[..n], chunkSize, overlap),
        Numbered(PageTexts(a, pages[n], chunkSize, overlap), Some(n + 1)), k + 1);
      TextsOfNumbered(PageTexts(a, pages[n], chunkSize, overlap), n + 1, k + 1);
    }
  }

  /** Without overlap a page's chunks hold all of the page, white space aside. */
  lemma {:induction false} PageIsConserved(a: Alphabet, page: string, chunkSize: int, overlap: int)
    requires a.HasLineBreaks() && overlap <= 0
    ensures InkOfAll(a, PageTexts(a, page, chunkSize, overlap)) == Ink(a, page)
  {
    NormalizingKeepsInk(a, page);
    if Normalized(a, page) != "" {
      ChunksConserveText(a, Normalized(a, page), chunkSize, overlap);
    }
  }
}
