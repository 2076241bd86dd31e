/** Which texts the message loop shows, read off from how the message is written. */
module MessageTexts {
  import opened Text
  import opened Utf8
  import opened Reasoning
  import opened XmlToolCalls
  import opened XmlProgress
  import opened MessageText
  import opened MessageLoop

  // ---- Trimming

  predicate EndsSolid(s: string) {
    s == "" || !IsSpace(s[|s| - 1])
  }

  lemma RStripIs(s: string, core: string, gap: string)
    requires s == core + gap && AllSpace(gap) && EndsSolid(core)
    ensures RStrip(s) == core
  {
    var r := BackOverSpaces(s, 0, |s|);
    assert core != "" ==> s[|core| - 1] == core[|core| - 1];
    assert forall k :: |core| <= k < |s| ==> s[k] == gap[k - |core|];
    assert r == |core|;
  }

  lemma HeldFromIs(content: string, words: seq<string>, n: nat)
    requires n <= |content| && (forall j :: 0 <= j < n ==> !BeginsSome(content[j..], words))
    requires n == |content| || BeginsSome(content[n..], words)
    ensures TrimSuffixed(content, words) == content[..n]
  {
    var r := HeldFrom(content, words, 0);
    assert r == n;
  }

  /** A text as it is trimmed: what is shown, white space, an end with which a literal begins, and white space. */
  predicate IsTrimmedTo(words: seq<string>, core: string, gap: string, held: string, gap2: string) {
    && AllSpace(gap) && AllSpace(gap2) && EndsSolid(core) && EndsSolid(held)
    && (if held == "" then gap == "" else BeginsSome(held, words))
    && forall j :: 0 <= j < |core + gap| ==> !BeginsSome((core + gap + held)[j..], words)
  }

  lemma TrimEndedIs(words: seq<string>, core: string, gap: string, held: string, gap2: string)
    requires IsTrimmedTo(words, core, gap, held, gap2)
    ensures TrimEnded(core + gap + held + gap2, words) == core
  {
    var text := core + gap + held;
    assert held == "" ==> text == core;
    assert held != "" ==> text[|text| - 1] == held[|held| - 1];
    RStripIs(text + gap2, text, gap2);
    assert held != "" ==> text[|core + gap|..] == held;
    HeldFromIs(text, words, |core + gap|);
    assert text[..|core + gap|] == core + gap;
    RStripIs(core + gap, core, gap);
  }

  // ---- Texts without tags

  /** What a text in front of no further call is written as: its leading white space, what is shown, and what is not. */
  predicate IsWrittenAs(st: Setting, text: string, lead: string, core: string, gap: string, held: string,
      gap2: string) {
    && text == lead + (core + gap + held + gap2) && AllSpace(lead) && IsTrimmedTo(st.Literals(), core, gap, held, gap2)
    && (core == "" ==> gap == "" && (held != "" ==> !IsSpace(held[0]))) && (core != "" ==> !IsSpace(core[0]))
    && forall j :: 0 <= j < |lead| ==> !BeginsSome((lead + (core + gap + held))[j..], st.Literals())
  }

  /** What of it is shown: with reasoning shown apart, without the leading white space. */
  function Body(st: Setting, lead: string, core: string): string {
    if core == "" then "" else if st.ShowsReasoning() then core else lead + core
  }

  /** The content when a body is added. */
  function WithBody(st: Setting, content: string, body: string): string {
    if body == "" then content
    else if st.ShowsReasoning() && content != "" then content + "\n\n" + body
    else content + body
  }

  lemma StripIs(text: string, lead: string, core: string, gap: string)
    requires text == lead + (core + gap) && AllSpace(lead) && AllSpace(gap) && EndsSolid(core) &&
        (core != "" ==> !IsSpace(core[0]))
    ensures Strip(text) == core
  {
    assert text == lead + core + gap;
    StripIsUnique(text, lead, core, gap);
  }

  lemma CleanedAndTrimmed(st: Setting, text: string, lead: string, core: string, gap: string, held: string,
      gap2: string)
    requires st.Valid() && IsWrittenAs(st, text, lead, core, gap, held, gap2) && !Contains(text, st.endThink)
    ensures TrimEnded(Cleaned(st, text), st.Literals()) == Body(st, lead, core)
  {
    hide Cleaned;
    hide TrimEnded;
    hide Strip;
    WithoutTagsTextIsStripped(st, text);
    if st.ShowsReasoning() {
      StrippedText(st, text, lead, core, gap, held, gap2);
    } else {
      UnstrippedText(st, text, lead, core, gap, held, gap2);
    }
  }

  lemma StrippedText(st: Setting, text: string, lead: string, core: string, gap: string, held: string, gap2: string)
    requires IsWrittenAs(st, text, lead, core, gap, held, gap2)
    ensures TrimEnded(Strip(text), st.Literals()) == core
  {
    hide TrimEnded;
    hide BeginsSome;
    var shown := core + gap + held;
    assert text == lead + (shown + gap2);
    assert held == "" ==> shown == core;
    assert held != "" ==> shown[|shown| - 1] == held[|held| - 1];
    assert shown != "" ==> shown[0] == if core != "" then core[0] else held[0];
    StripIs(text, lead, shown, gap2);
    assert core + gap + held + "" == shown;
    TrimEndedIs(st.Literals(), core, gap, held, "");
  }

  lemma UnstrippedText(st: Setting, text: string, lead: string, core: string, gap: string, held: string, gap2: string)
    requires IsWrittenAs(st, text, lead, core, gap, held, gap2)
    ensures TrimEnded(text, st.Literals()) == if core == "" then "" else lead + core
  {
    hide TrimEnded;
    hide BeginsSome;
    var words := st.Literals();
    if core == "" {
      if held == "" {
        assert text == "" + "" + "" + (lead + gap2);
        TrimEndedIs(words, "", "", "", lead + gap2);
      } else {
        assert text == "" + lead + held + gap2;
        assert "" + lead + held == lead + (core + gap + held);
        TrimEndedIs(words, "", lead, held, gap2);
      }
    } else {
      var front := lead + core;
      assert text == front + gap + held + gap2;
      var shown := core + gap + held;
      forall j | 0 <= j < |front + gap|
        ensures !BeginsSome((front + gap + held)[j..], words)
      {
        assert front + gap + held == lead + shown;
        if j >= |lead| {
          assert (lead + shown)[j..] == shown[j - |lead|..];
        }
      }
      TrimEndedIs(words, front, gap, held, gap2);
    }
  }

  /** A turn goes on with this text: no think block is open, or one has been closed in front of it. */
  predicate IsLeft(st: Setting, s: Reader, text: string)
    requires s.pos <= |st.cx.input|
  {
    var left := Entered(st, s);
    !left.again && !left.open && left.unclosed == "" && left.text == text
  }

  /** If no block is open, it goes on with all the text in front of the next call. */
  lemma AllIsLeft(st: Setting, s: Reader)
    requires IsReader(st, s) && !s.open
    ensures IsLeft(st, s, TextBefore(st.cx, s.pos)) && Entered(st, s).shown == s.shown
  {
  }

  /** A turn behind which no call starts, and at whose end no think block is open, ends the loop. */
  lemma LastTurnIs(st: Setting, s: Reader, text: string, rest: string, told: string, body: string)
    requires st.Valid() && IsReader(st, s) && FindStart(st.cx, s.pos).None? && IsLeft(st, s, text)
    requires Blocks(st, text, Find(text, st.startThink, 0), "", Entered(st, s).shown.reasoning) ==
        Taken(rest, None, told)
    requires TrimEnded(Cleaned(st, rest), st.Literals()) == body
    ensures Loop(st, s) ==
            (Complete, Reader(|st.cx.input|, false, "",
                              Shown(WithBody(st, Entered(st, s).shown.content, body), told), s.calls))
  {
    hide Cleaned;
    hide FindStart;
    hide TrimEnded;
    hide Blocks;
    hide Find;
    hide Entered;
    AddedText(st, Entered(st, s).shown.content, body);
    hide AddText;
    hide WithBody;
    TurnMoves(st, s);
  }

  lemma AddedText(st: Setting, content: string, body: string)
    ensures AddText(st, content, body) == WithBody(st, content, body)
  {
    assert content + "\n\n" + body == content + ("\n\n" + body);
    assert content + "" + body == content + body;
  }

  // ---- Think blocks

  /** A closed think block as written: its text, and the text behind its end tag. */
  datatype Block = Block(text: string, after: string)

  /** The closed blocks as written, and behind them the start tag and the text of one that stays open. */
  function BlocksText(st: Setting, blocks: seq<Block>, open: Option<string>): string {
    if blocks == [] then (if open.None? then "" else st.startThink + open.value)
    else st.startThink + (blocks[0].text + (st.endThink + (blocks[0].after + BlocksText(st, blocks[1..], open))))
  }

  /** The texts of the blocks, one behind the other. */
  function BlockTexts(blocks: seq<Block>): string {
    if blocks == [] then "" else blocks[0].text + BlockTexts(blocks[1..])
  }

  function LStrip(s: string): string {
    s[SkipSpaces(s, 0)..]
  }

  /** Two texts with a block between them that is taken out: a blank line is left, or nothing at the beginning. */
  function Glue(a: string, b: string): string {
    if AllSpace(a) then LStrip(b) else RStrip(a) + "\n\n" + LStrip(b)
  }

  function Glued(text: string, blocks: seq<Block>): string
    decreases |blocks|
  {
    if blocks == [] then text else Glued(Glue(text, blocks[0].after), blocks[1..])
  }

  predicate TagFollows(blocks: seq<Block>, open: Option<string>) {
    blocks != [] || open.Some?
  }

  /** The tags stand where they are written, and nowhere before. */
  predicate BlocksAreReadable(st: Setting, blocks: seq<Block>, open: Option<string>) {
    && (blocks == [] && open.Some? ==> Find(open.value, st.endThink, 0).None?)
    && (blocks != [] ==>
          && Find(blocks[0].text + st.endThink, st.endThink, 0) == Some(|blocks[0].text|)
          && (if TagFollows(blocks[1..], open)
              then Find(blocks[0].after + st.startThink, st.startThink, 0) == Some(|blocks[0].after|)
              else Find(blocks[0].after, st.startThink, 0).None?)
          && BlocksAreReadable(st, blocks[1..], open))
  }

  lemma LStripIs(s: string, lead: string, core: string)
    requires s == lead + core && AllSpace(lead) && (core != "" ==> !IsSpace(core[0]))
    ensures LStrip(s) == core
  {
    assert core != "" ==> s[|lead|] == core[0];
    SpacesEndAt(s, 0, |lead|) by { assert s[0..|lead|] == lead; }
  }

  lemma Parts(s: string)
    ensures var lo := SkipSpaces(s, 0);
            s == s[..lo] + s[lo..] && AllSpace(s[..lo]) && (s[lo..] != "" ==> !IsSpace(s[lo..][0])) &&
                LStrip(s) == s[lo..]
  {
  }

  lemma RightParts(s: string)
    ensures var n := |RStrip(s)|;
            n <= |s| && s[..n] == RStrip(s) && AllSpace(s[n..]) && EndsSolid(RStrip(s)) && (AllSpace(s) <==> n == 0)
            && n == BackOverSpaces(s, 0, |s|)
  {
  }

  /** White space behind a text goes with it, unless something solid follows. */
  lemma LStripOfSum(b: string, more: string)
    requires more != "" ==> !IsSpace(more[0])
    ensures LStrip(b + more) == LStrip(b) + more
  {
    Parts(b);
    var lo := SkipSpaces(b, 0);
    var core := b[lo..] + more;
    assert b + more == b[..lo] + core;
    LStripIs(b + more, b[..lo], core);
  }

  /** Erasing what stands between two texts. */
  lemma ErasedIsGlued(a: string, mid: string, b: string)
    requires |mid| >= 2
    ensures var s := a + (mid + b);
            Erased(s, |a|, |a| + |mid| - 1) == (Glue(a, b), if AllSpace(a) then 0 else |RStrip(a)| + 2)
  {
    hide *;
    var s, n, lo := a + (mid + b), |RStrip(a)|, SkipSpaces(b, 0);
    RightParts(a);
    Parts(b);
    FrontSpaces(s, a);
    Regrouped(a, mid, b);
    BackSpaces(s, a + mid, b);
    PartsOfThree(a, mid, b, n, lo);
    ErasedMeans(s, |a|, |a| + |mid| - 1, n, |a| + |mid| + lo);
    GlueIs(a, b, if AllSpace(a) then "" else RStrip(a) + "\n\n", s[|a| + |mid| + lo..]);
    assert n == 0 ==> "" + s[|a| + |mid| + lo..] == s[|a| + |mid| + lo..];
  }

  lemma PartsOfThree(a: string, mid: string, b: string, n: nat, lo: nat)
    requires n <= |a| && lo <= |b|
    ensures var s := a + (mid + b); s[..n] == a[..n] && s[|a| + |mid| + lo..] == b[lo..]
  {
  }

  lemma ErasedMeans(s: string, l: nat, r: nat, lo: nat, hi: nat)
    requires l < r < |s| && BackOverSpaces(s, 0, l) == lo <= l && SkipSpaces(s, r + 1) == hi
    ensures Erased(s, l, r) == if lo == 0 then (s[hi..], 0) else (s[..lo] + "\n\n" + s[hi..], lo + 2)
  {
  }

  lemma {:induction false} FrontSpaces(s: string, a: string)
    requires a <= s
    ensures BackOverSpaces(s, 0, |a|) == BackOverSpaces(a, 0, |a|)
  {
    var r, q := BackOverSpaces(s, 0, |a|), BackOverSpaces(a, 0, |a|);
    assert forall k :: 0 <= k < |a| ==> s[k] == a[k];
    assert r > 0 ==> !IsSpace(a[r - 1]);
    assert q > 0 ==> !IsSpace(s[q - 1]);
  }

  lemma BackSpaces(s: string, front: string, b: string)
    requires s == front + b
    ensures SkipSpaces(s, |front|) == |front| + SkipSpaces(b, 0)
  {
    var lo := SkipSpaces(b, 0);
    assert s[|front|..|front| + lo] == b[..lo];
    assert lo < |b| ==> s[|front| + lo] == b[lo];
    SpacesEndAt(s, |front|, |front| + lo);
  }

  lemma FirstBlock(st: Setting, text: string, blocks: seq<Block>, open: Option<string>)
    requires st.Valid() && blocks != [] && BlocksAreReadable(st, blocks, open)
    ensures var b, all := blocks[0], text + BlocksText(st, blocks, open);
            var at, size := |text|, |st.startThink|;
            && OccursAt(all, st.startThink, at) && at + size + |b.text| + |st.endThink| <= |all|
            && Find(all, st.endThink, at + size) == Some(at + size + |b.text|)
            && all[at + size..at + size + |b.text|] == b.text
            && all == text + ((st.startThink + b.text + st.endThink) + (b.after + BlocksText(st, blocks[1..], open)))
  {
    hide Find;
    var b, rest := blocks[0], blocks[0].after + BlocksText(st, blocks[1..], open);
    hide BlocksText;
    BlocksStep(st, blocks, open);
    Readable(st, blocks, open);
    hide BlocksAreReadable;
    PartsOfBlock(text, st.startThink, b.text, st.endThink, rest);
  }

  lemma BlocksStep(st: Setting, blocks: seq<Block>, open: Option<string>)
    requires blocks != []
    ensures BlocksText(st, blocks, open) ==
            st.startThink + (blocks[0].text + (st.endThink + (blocks[0].after + BlocksText(st, blocks[1..], open))))
  {
  }

  lemma PartsOfBlock(text: string, open: string, inner: string, close: string, rest: string)
    requires Find(inner + close, close, 0) == Some(|inner|)
    ensures var all, at := text + (open + (inner + (close + rest))), |text| + |open|;
            && OccursAt(all, open, |text|) && at + |inner| + |close| <= |all|
            && Find(all, close, at) == Some(at + |inner|) && all[at..at + |inner|] == inner
            && all == text + ((open + inner + close) + rest)
  {
    hide *;
    var more := inner + (close + rest);
    var all := text + (open + more);
    TextBehind(text, open + more);
    TextAt(all, |text|, open, more);
    TextAt(all, |text| + |open|, inner, close + rest);
    Regrouped(inner, close, rest);
    FoundAt(all, |text| + |open|, inner, close, 0);
    Regrouped4(open, inner, close, rest);
  }

  lemma TextBehind(a: string, b: string)
    ensures (a + b)[|a|..] == b
  {
  }

  lemma Regrouped4(a: string, b: string, c: string, d: string)
    ensures a + (b + (c + d)) == (a + b + c) + d
  {
  }

  lemma Regrouped(a: string, b: string, c: string)
    ensures a + (b + c) == (a + b) + c && a + b <= a + (b + c)
  {
  }

  /** Where the next block starts, when a part of the text in front of it has been taken away. */
  lemma {:induction false} NextBlockIsFound(st: Setting, front: string, after: string, blocks: seq<Block>,
      open: Option<string>)
    requires st.Valid()
    requires if TagFollows(blocks, open) then Find(after + st.startThink, st.startThink, 0) == Some(|after|)
             else Find(after, st.startThink, 0).None?
    ensures Find(front + (LStrip(after) + BlocksText(st, blocks, open)), st.startThink, |front|) ==
            if TagFollows(blocks, open) then Some(|front + LStrip(after)|) else None
  {
    hide Find;
    var lo, d := SkipSpaces(after, 0), st.startThink;
    var kept, more := LStrip(after), BlocksText(st, blocks, open);
    var all := front + (kept + more);
    assert all[|front|..] == kept + more;
    if TagFollows(blocks, open) {
      StartsWithTag(st, blocks, open);
      hide BlocksText;
      FoundInSuffix(after, lo, d);
      Regrouped(kept, d, more[|d|..]);
      assert more == d + more[|d|..];
      FoundAt(all, |front|, kept, d, 0);
    } else {
      assert kept + more == kept;
      NoneInSuffix(after, lo, d);
      NoneFoundFrom(all, |front|, kept, d);
    }
  }

  lemma FoundInSuffix(after: string, lo: nat, d: string)
    requires lo <= |after| && Find(after + d, d, 0) == Some(|after|)
    ensures Find(after[lo..] + d, d, 0) == Some(|after| - lo)
  {
    var whole, part := after + d, after[lo..] + d;
    assert part == whole[lo..];
    forall j | 0 <= j < |after| - lo
      ensures OccursAt(part, d, j) ==> OccursAt(whole, d, lo + j)
    {
      assert OccursAt(part, d, j) ==> whole[lo + j..lo + j + |d|] == part[j..j + |d|];
    }
    assert OccursAt(part, d, |after| - lo);
  }

  lemma NoneInSuffix(after: string, lo: nat, d: string)
    requires lo <= |after| && Find(after, d, 0).None?
    ensures Find(after[lo..], d, 0).None?
  {
    forall j | 0 <= j
      ensures OccursAt(after[lo..], d, j) ==> OccursAt(after, d, lo + j)
    {
      assert OccursAt(after[lo..], d, j) ==> after[lo + j..lo + j + |d|] == after[lo..][j..j + |d|];
    }
  }

  /** With reasoning shown apart, the blocks are taken out of the text one by one, and their texts go to the reasoning;
      an open one is cut off. */
  lemma {:induction false} BlocksAreTaken(st: Setting, text: string, blocks: seq<Block>, open: Option<string>,
      callStart: string, reasoning: string)
    requires st.Valid() && st.ShowsReasoning() && !IsSpace(st.startThink[0]) && BlocksAreReadable(st, blocks, open)
    ensures var all := text + BlocksText(st, blocks, open);
            var start: Option<nat> := if TagFollows(blocks, open) then Some(|text|) else None;
            && (start.Some? ==> OccursAt(all, st.startThink, |text|))
            && Blocks(st, all, start, callStart, reasoning) ==
               Taken(Glued(text, blocks), LeftOpen(st, open, callStart), reasoning + BlockTexts(blocks))
    decreases |blocks|
  {
    hide *;
    var all := text + BlocksText(st, blocks, open);
    if blocks == [] {
      OpenIsReadable(st, open);
      NoClosedBlock(st, text, open, callStart, reasoning);
    } else {
      var b, later := blocks[0], blocks[1..];
      FirstBlock(st, text, blocks, open);
      var close := |text| + |st.startThink| + |b.text|;
      ClosedBlockTurn(st, all, |text|, close, callStart, reasoning);
      var mid, more := st.startThink + b.text + st.endThink, BlocksText(st, later, open);
      TagsAreLong(st);
      ErasedIsGlued(text, mid, b.after + more);
      Readable(st, blocks, open);
      GluedStep(st, text, b, later, open);
      BlocksAreTaken(st, Glue(text, b.after), later, open, callStart, reasoning + b.text);
    }
    TextsStep(text, blocks, reasoning);
    FollowsStep(blocks, open);
  }

  lemma OpenIsReadable(st: Setting, open: Option<string>)
    requires BlocksAreReadable(st, [], open)
    ensures open.Some? ==> Find(open.value, st.endThink, 0).None?
  {
  }

  lemma TagsAreLong(st: Setting)
    requires st.Valid()
    ensures st.startThink != "" && |st.endThink| >= 3 && st.cx.form.Valid()
  {
  }

  lemma FollowsStep(blocks: seq<Block>, open: Option<string>)
    ensures TagFollows(blocks, open) <==> blocks != [] || open.Some?
  {
  }

  lemma TextsStep(text: string, blocks: seq<Block>, reasoning: string)
    ensures blocks == [] ==> Glued(text, blocks) == text && reasoning + BlockTexts(blocks) == reasoning
    ensures blocks != [] ==>
              && Glued(text, blocks) == Glued(Glue(text, blocks[0].after), blocks[1..])
              && reasoning + BlockTexts(blocks) == reasoning + blocks[0].text + BlockTexts(blocks[1..])
  {
    hide Glue;
  }

  /** What an open block holds; where calls are not read inside of one, the start of the call belongs to it. */
  function LeftOpen(st: Setting, open: Option<string>, callStart: string): Option<string> {
    if open.None? then None
    else if st.cx.form.allowToolcallInThink then open
    else Some(open.value + callStart)
  }

  lemma NoClosedBlock(st: Setting, text: string, open: Option<string>, callStart: string, reasoning: string)
    requires st.Valid() && (open.Some? ==> Find(open.value, st.endThink, 0).None?)
    ensures var all := text + BlocksText(st, [], open);
            var start: Option<nat> := if open.Some? then Some(|text|) else None;
            && (start.Some? ==> OccursAt(all, st.startThink, |text|))
            && Blocks(st, all, start, callStart, reasoning) == Taken(text, LeftOpen(st, open, callStart), reasoning)
  {
    hide Blocks;
    hide Find;
    var all := text + BlocksText(st, [], open);
    if open.None? {
      assert all == text;
      NoBlock(st, text, callStart, reasoning);
    } else {
      var tag, inner := st.startThink, open.value;
      TextBehind(text, tag + inner);
      TextAt(all, |text|, tag, inner);
      NoneFoundFrom(all, |text| + |tag|, inner, st.endThink);
      OpenBlockTurn(st, all, |text|, callStart, reasoning);
      assert all[..|text|] == text && inner + "" == inner;
    }
  }

  lemma Readable(st: Setting, blocks: seq<Block>, open: Option<string>)
    requires blocks != [] && BlocksAreReadable(st, blocks, open)
    ensures BlocksAreReadable(st, blocks[1..], open)
    ensures Find(blocks[0].text + st.endThink, st.endThink, 0) == Some(|blocks[0].text|)
    ensures if TagFollows(blocks[1..], open) then
        Find(blocks[0].after + st.startThink, st.startThink, 0) == Some(|blocks[0].after|)
            else Find(blocks[0].after, st.startThink, 0).None?
  {
  }

  /** After one block has been taken out: the text, and where the search for the next one finds it. */
  lemma GluedStep(st: Setting, text: string, b: Block, later: seq<Block>, open: Option<string>)
    requires st.Valid() && !IsSpace(st.startThink[0])
    requires if TagFollows(later, open) then Find(b.after + st.startThink, st.startThink, 0) == Some(|b.after|)
             else Find(b.after, st.startThink, 0).None?
    ensures var more, next := BlocksText(st, later, open), if AllSpace(text) then 0 else |RStrip(text)| + 2;
            && Glue(text, b.after + more) == Glue(text, b.after) + more
            && Find(Glue(text, b.after + more), st.startThink, next) ==
               if TagFollows(later, open) then Some(|Glue(text, b.after)|) else None
  {
    hide *;
    var more := BlocksText(st, later, open);
    var front := if AllSpace(text) then "" else RStrip(text) + "\n\n";
    MoreIsSolid(st, later, open);
    LStripOfSum(b.after, more);
    NextBlockIsFound(st, front, b.after, later, open);
    GlueIs(text, b.after, front, LStrip(b.after));
    GlueIs(text, b.after + more, front, LStrip(b.after) + more);
    Regrouped(front, LStrip(b.after), more);
  }

  lemma MoreIsSolid(st: Setting, blocks: seq<Block>, open: Option<string>)
    requires st.Valid() && !IsSpace(st.startThink[0])
    ensures BlocksText(st, blocks, open) != "" ==> !IsSpace(BlocksText(st, blocks, open)[0])
  {
    if TagFollows(blocks, open) { StartsWithTag(st, blocks, open); }
  }

  lemma StartsWithTag(st: Setting, blocks: seq<Block>, open: Option<string>)
    requires st.startThink != "" && TagFollows(blocks, open)
    ensures st.startThink <= BlocksText(st, blocks, open) && BlocksText(st, blocks, open)[0] == st.startThink[0]
  {
  }

  lemma GlueIs(a: string, b: string, front: string, kept: string)
    requires front == (if AllSpace(a) then "" else RStrip(a) + "\n\n") && LStrip(b) == kept
    ensures Glue(a, b) == front + kept
  {
    assert "" + kept == kept;
  }

  lemma NothingIsOpen(st: Setting, callStart: string)
    ensures LeftOpen(st, None, callStart) == None
  {
  }

  predicate FirstIsReadable(st: Setting, first: string, blocks: seq<Block>, open: Option<string>) {
    if TagFollows(blocks, open) then Find(first + st.startThink, st.startThink, 0) == Some(|first|)
    else Find(first, st.startThink, 0).None?
  }

  lemma FirstIsFound(st: Setting, first: string, blocks: seq<Block>, open: Option<string>)
    requires st.Valid() && FirstIsReadable(st, first, blocks, open)
    ensures Find(first + BlocksText(st, blocks, open), st.startThink, 0) ==
            if TagFollows(blocks, open) then Some(|first|) else None
    ensures first + BlocksText(st, [], None) == first
  {
    hide Find;
    if TagFollows(blocks, open) {
      StartsWithTag(st, blocks, open);
      var more := BlocksText(st, blocks, open);
      hide BlocksText;
      assert more == st.startThink + more[|st.startThink|..];
      FoundInFront(first, st.startThink, more[|st.startThink|..]);
    } else {
      assert first + "" == first;
    }
  }

  lemma FoundInFront(first: string, d: string, more: string)
    requires Find(first + d, d, 0) == Some(|first|)
    ensures Find(first + (d + more), d, 0) == Some(|first|)
  {
    hide Find;
    var all := first + (d + more);
    Regrouped(first, d, more);
    assert all[0..] == all;
    FoundAt(all, 0, first, d, 0);
  }

  // ---- End tags without a start tag

  lemma {:induction false} RFindSame(s: string, d: string, lo: nat, hi: nat)
    requires lo <= hi && forall j :: lo < j ==> !OccursAt(s, d, j)
    ensures RFind(s, d, hi) == RFind(s, d, lo)
    decreases hi - lo
  {
    hide OccursAt;
    if lo < hi {
      RFindSame(s, d, lo, hi - 1);
    }
  }

  /** Erasing end tags without a start tag begins with the last one: it is taken out with the white space around it. */
  lemma StrayEndIsGlued(a: string, b: string, endThink: string)
    requires |endThink| >= 3 && forall j :: |a| < j ==> !OccursAt(a + (endThink + b), endThink, j)
    ensures EndsErased(a + (endThink + b), endThink) == EndsErased(Glue(a, b), endThink)
  {
    var text, n := a + (endThink + b), |a|;
    assert OccursAt(text, endThink, n) by {
      TextBehind(a, endThink + b);
      TextAt(text, n, endThink, b);
    }
    hide OccursAt;
    hide Glue;
    RFindSame(text, endThink, n, |text|);
    assert RFind(text, endThink, n) == Some(n);
    NoneIsAdded(text, endThink, n);
    ErasedIsGlued(a, endThink, b);
    hide Erased;
    var (t, next) := Erased(text, n, n + |endThink| - 1);
    RFindSame(t, endThink, next, |t|);
  }

  lemma NoEndIsErased(text: string, endThink: string)
    requires |endThink| >= 3 && !Contains(text, endThink)
    ensures EndsErased(text, endThink) == text
  {
  }

  /** With reasoning shown apart, an end tag that no start tag precedes leaves a blank line. */
  lemma StrayEndIsErased(st: Setting, text: string, a: string, b: string)
    requires st.Valid() && st.ShowsReasoning() && RStrip(text) == a + (st.endThink + b)
    requires forall j :: |a| < j ==> !OccursAt(a + (st.endThink + b), st.endThink, j)
    requires !Contains(Glue(a, b), st.endThink)
    ensures Cleaned(st, text) ==
            if Glue(a, b) != "" && IsSpace(Glue(a, b)[0]) then Strip(Glue(a, b)) else Glue(a, b)
  {
    hide EndsErased;
    hide Glue;
    hide Contains;
    hide OccursAt;
    StrayEndIsGlued(a, b, st.endThink);
    NoEndIsErased(Glue(a, b), st.endThink);
  }

  /** The literals with which a held-back end may begin: the tags, and every literal of the form. */
  lemma LiteralsAre(st: Setting, w: string)
    requires w != ""
    ensures var f := st.cx.form;
            w in st.Literals() <==>
            || w == st.startThink || w == st.endThink || w == f.scopeStart || w == f.toolStart || w == f.toolSep
            || w == f.keyStart || w == f.keyValSep || f.keyValSep2 == Some(w) || w == f.valEnd ||
                f.lastValEnd == Some(w)
            || w == f.toolEnd || f.lastToolEnd == Some(w) || w == f.scopeEnd
  {
  }
}
