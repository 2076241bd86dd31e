/** A text of which overlapping loses a part. */
module ChunkExample {
  import opened Text
  import opened Splitting
  import opened Chunks

  function Row(c: char, n: nat): (r: string)
    ensures |r| == n && forall i :: 0 <= i < n ==> r[i] == c
  {
    seq(n, i => c)
  }

  /** A full paragraph: as long as a chunk may be, and without white space. */
  predicate IsFull(a: Alphabet, p: string) {
    |p| == 200 && (forall i :: 0 <= i < |p| ==> !a.isSpace(p[i]))
  }

  lemma NoBreakIn(a: Alphabet, text: string, lo: nat, hi: nat)
    requires a.HasLineBreaks() && lo <= hi <= |text|
    requires forall i :: lo <= i < hi ==> !a.isSpace(text[i])
    ensures forall j :: lo <= j < hi ==> !OccursAt(text, "\n\n", j)
  {
    forall j | lo <= j < hi
      ensures !OccursAt(text, "\n\n", j)
    {
      StartOfOccurrence(text, j);
    }
  }

  lemma StartOfOccurrence(text: string, j: nat)
    ensures OccursAt(text, "\n\n", j) ==> text[j] == '\n'
  {
    if OccursAt(text, "\n\n", j) {
      assert text[j..j + 2][0] == text[j];
    }
  }

  lemma TwoParagraphs(a: Alphabet, p: string, q: string)
    requires a.HasLineBreaks() && IsFull(a, p) && IsFull(a, q)
    ensures Split(p + "\n\n" + q, "\n\n") == [p, q]
  {
    hide Find;
    var d := "\n\n";
    var text := p + d + q;
    assert text[200..202] == d;
    assert OccursAt(text, d, 200);
    assert forall i :: 0 <= i < 200 ==> text[i] == p[i];
    assert forall i :: 202 <= i < 402 ==> text[i] == q[i - 202];
    NoBreakIn(a, text, 0, 200);
    NoBreakIn(a, text, 202, 402);
    assert Find(text, d, 0) == Some(200);
    assert Find(text, d, 202).None?;
    assert text[0..200] == p && text[202..] == q;
    assert SplitFrom(text, d, 202) == [q];
    assert SplitFrom(text, d, 0) == [text[0..200]] + SplitFrom(text, d, 202);
  }

  lemma TwoBaseChunks(a: Alphabet, p: string, q: string)
    requires a.HasLineBreaks() && IsFull(a, p) && IsFull(a, q)
    ensures BaseChunks(a, p + "\n\n" + q, 200) == [p, q]
  {
    var text, both := p + "\n\n" + q, [p, q];
    TwoParagraphs(a, p, q);
    hide Split;
    assert AreUnits(a, 200, both);
    UnitsAreTrimsAlready(a, 200, both);
    assert Paragraphs(a, text) == both;
    assert both[..1] == [p] && [p][..0] == [];
    assert UnitsOfAll(a, [p], 200) == [p];
    assert Units(a, text, 200) == both;
    assert Packing([p], 200, "\n\n") == ([], p);
    assert Packed(both, 200, "\n\n") == both;
  }

  /** Two full paragraphs, chunks of 200 characters and one character of overlap: no chunk holds the second paragraph,
      whatever the alphabet takes for words. */
  lemma LostEndExample(a: Alphabet) returns (text: string)
    requires IsSane(a) && !a.isSpace('x') && !a.isSpace('y')
    ensures text == Row('x', 200) + "\n\n" + Row('y', 200)
    ensures forall c :: c in ChunksOf(a, text, 200, 1) ==> !Contains(c, Row('y', 200))
  {
    hide Contains;
    hide ChunksOf;
    hide IsSane;
    assert a.HasLineBreaks() by { SaneBreaks(a); }
    var p, q := Row('x', 200), Row('y', 200);
    text := p + "\n\n" + q;
    OverlappedChunks(a, p, q, text);
    TailIsSuffix(a, p, 1);
    hide OverlapTail;
    hide Overlapped;
    SecondBeginsWithTail(a, p, q);
    OverlappedIsUnit(a, p, q, 1, 200);
    var second := Overlapped(a, p, q, 1, 200);
    ShortTextHolds(p, q);
    ShortTextHolds(second, q);
  }

  lemma SaneBreaks(a: Alphabet)
    requires IsSane(a)
    ensures a.HasLineBreaks()
  {
  }

  lemma OverlappedChunks(a: Alphabet, p: string, q: string, text: string)
    requires a.HasLineBreaks() && IsFull(a, p) && IsFull(a, q) && text == p + "\n\n" + q
    ensures ChunksOf(a, text, 200, 1) == [p, Overlapped(a, p, q, 1, 200)]
  {
    hide BaseChunks;
    hide Overlapped;
    TwoBaseChunks(a, p, q);
  }

  lemma SecondBeginsWithTail(a: Alphabet, p: string, q: string)
    requires IsFull(a, p) && p[199] == 'x' && |q| == 200 && OverlapTail(a, p, 1) == p[199..]
    ensures Overlapped(a, p, q, 1, 200) != "" && Overlapped(a, p, q, 1, 200)[0] == 'x'
  {
    var merged := Merged(p[199..], q);
    var cropped := Cropped(a, merged, 200);
    assert merged[0] == 'x' && cropped[0] == 'x';
    TrimOfPrefix(a, cropped);
  }

  lemma ShortTextHolds(c: string, q: string)
    requires |c| <= |q| && c != "" && q != "" && c[0] != q[0]
    ensures !Contains(c, q)
  {
    assert forall i :: 0 <= i <= |c| && OccursAt(c, q, i) ==> i == 0 && c[0..|q|][0] == c[0];
  }
}
