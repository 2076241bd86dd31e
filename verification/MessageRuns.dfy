/** What a whole message shows, turn by turn: thoughts that a tag or the end of the input closes, texts around calls,
    and the calls themselves. */
module MessageRuns {
  import opened Text
  import opened Utf8
  import opened Reasoning
  import opened XmlToolCalls
  import opened XmlProgress
  import XmlRoundTrip
  import opened MessageText
  import opened MessageLoop
  import opened MessageTexts

  // ---- Texts with think blocks

  /** How a text is written. With reasoning shown apart: a first text, closed think blocks and what follows each, and
      maybe the beginning of one more. With reasoning in the content it is not taken apart, except where a block stays
      open. */
  predicate IsReadAs(st: Setting, text: string, first: string, blocks: seq<Block>, open: Option<string>) {
    && text == first + BlocksText(st, blocks, open)
    && (if st.ShowsReasoning() then
          FirstIsReadable(st, first, blocks, open) && BlocksAreReadable(st, blocks, open)
        else
          && blocks == [] && TagsClose(st, text, |first|)
          && (open.Some? ==> Find(open.value, st.endThink, 0).None?))
  }

  /** Behind every start tag in front of `end` there is an end tag, and it ends there as well. */
  predicate TagsClose(st: Setting, text: string, end: nat) {
    forall i :: 0 <= i < end && OccursAt(text, st.startThink, i) ==>
                  && Find(text, st.endThink, i + |st.startThink|).Some?
                  && Find(text, st.endThink, i + |st.startThink|).value + |st.endThink| <= end
  }

  lemma TagCloses(st: Setting, text: string, end: nat, at: nat) returns (close: nat)
    requires st.Valid() && TagsClose(st, text, end) && OccursAt(text, st.startThink, at) && at < end
    ensures Find(text, st.endThink, at + |st.startThink|) == Some(close)
    ensures at + |st.startThink| <= close && close + |st.endThink| <= |text| && at < close + |st.endThink| - 1 < end
  {
    close := Find(text, st.endThink, at + |st.startThink|).value;
  }

  /** With reasoning in the content, closed think blocks stay in the text as they are. */
  lemma {:induction false} ClosedBlocksStay(st: Setting, text: string, first: string, open: Option<string>,
      start: Option<nat>, callStart: string, reasoning: string)
    requires st.Valid() && !st.ShowsReasoning() && IsReadAs(st, text, first, [], open)
    requires if start.Some? then OccursAt(text, st.startThink, start.value) && start.value <= |first| &&
        start.value < |text|
             else open.None?
    ensures Blocks(st, text, start, callStart, reasoning) == Taken(first, LeftOpen(st, open, callStart), reasoning)
    decreases if start.Some? then |text| - start.value else 0
  {
    hide *;
    ReadAsText(st, text, first, open);
    if open.Some? && start == Some(|first|) {
      NoClosedBlock(st, first, open, callStart, reasoning);
    } else if start.Some? {
      var at := start.value;
      var close := TagCloses(st, text, |first|, at);
      ClosedBlockTurn(st, text, at, close, callStart, reasoning);
      var last := close + |st.endThink| - 1;
      NextTag(st, text, first, open, last);
      ClosedBlocksStay(st, text, first, open, Find(text, st.startThink, last), callStart, reasoning);
    } else {
      NothingIsOpen(st, callStart);
      NoBlock(st, text, callStart, reasoning);
    }
  }

  lemma ReadAsText(st: Setting, text: string, first: string, open: Option<string>)
    requires st.Valid() && !st.ShowsReasoning() && IsReadAs(st, text, first, [], open)
    ensures TagsClose(st, text, |first|) && text == first + BlocksText(st, [], open)
    ensures open.Some? ==> Find(open.value, st.endThink, 0).None?
    ensures if open.None? then text == first else OccursAt(text, st.startThink, |first|) && |first| < |text|
  {
    hide Find;
    hide TagsClose;
    if open.Some? {
      TextBehind(first, st.startThink + open.value);
      TextAt(text, |first|, st.startThink, open.value);
    }
  }

  /** Where the next tag is looked for from in front of the open block, if there is one. */
  lemma NextTag(st: Setting, text: string, first: string, open: Option<string>, from: nat)
    requires st.Valid() && from <= |first| && (open.None? ==> text == first)
    requires open.Some? ==> OccursAt(text, st.startThink, |first|) && |first| < |text|
    ensures var next := Find(text, st.startThink, from);
            if next.Some? then OccursAt(text, st.startThink, next.value) && from <= next.value <= |first| &&
                next.value < |text|
            else open.None?
  {
    var next := Find(text, st.startThink, from);
    if next.Some? {
      BeginsThere(text, st.startThink, next.value);
    }
  }

  /** What reading a text takes out of it, shows, and leaves. */
  lemma TextIsRead(st: Setting, text: string, first: string, blocks: seq<Block>, open: Option<string>,
      callStart: string,
      reasoning: string)
    requires st.Valid() && !IsSpace(st.startThink[0]) && IsReadAs(st, text, first, blocks, open)
    ensures Blocks(st, text, Find(text, st.startThink, 0), callStart, reasoning) ==
            Taken(Glued(first, blocks), LeftOpen(st, open, callStart), reasoning + BlockTexts(blocks))
  {
    hide Blocks;
    hide Find;
    hide LeftOpen;
    hide BlocksAreReadable;
    hide TagsClose;
    if st.ShowsReasoning() {
      FirstIsFound(st, first, blocks, open);
      hide *;
      BlocksAreTaken(st, first, blocks, open, callStart, reasoning);
    } else {
      hide FirstIsReadable;
      TextsStep(first, blocks, reasoning);
      ReadAsText(st, text, first, open);
      NextTag(st, text, first, open, 0);
      hide *;
      ClosedBlocksStay(st, text, first, open, Find(text, st.startThink, 0), callStart, reasoning);
    }
  }

  /** What is shown of a text in front of a call: with reasoning shown apart it is stripped. */
  function WholeBody(st: Setting, text: string): string {
    if st.ShowsReasoning() then Strip(text) else text
  }

  /** The last text of a message, behind which no call starts, is shown up to an end that is held back: the texts of its
      blocks go to the reasoning, if that is shown apart, and else it is shown with its tags. */
  lemma LastTextIsShown(st: Setting, s: Reader, text: string, first: string, blocks: seq<Block>, lead: string,
      core: string,
      gap: string, held: string, gap2: string)
    requires st.Valid() && !IsSpace(st.startThink[0]) && IsReader(st, s) && FindStart(st.cx, s.pos).None?
    requires IsLeft(st, s, text) && IsReadAs(st, text, first, blocks, None)
    requires IsWrittenAs(st, Glued(first, blocks), lead, core, gap, held, gap2)
    requires st.ShowsReasoning() ==> !Contains(Glued(first, blocks), st.endThink)
    ensures var shown := Entered(st, s).shown;
            Loop(st, s) ==
            (Complete, Reader(|st.cx.input|, false, "",
                              Shown(WithBody(st, shown.content, Body(st, lead, core)),
                                  shown.reasoning + BlockTexts(blocks)),
                              s.calls))
  {
    var rest, shown := Glued(first, blocks), Entered(st, s).shown;
    if st.ShowsReasoning() {
      CleanedAndTrimmed(st, rest, lead, core, gap, held, gap2);
    } else {
      TagsStay(st, rest, lead, core);
      UnstrippedText(st, rest, lead, core, gap, held, gap2);
    }
    hide *;
    TextIsRead(st, text, first, blocks, None, "", shown.reasoning);
    NothingIsOpen(st, "");
    LastTurnIs(st, s, text, rest, shown.reasoning + BlockTexts(blocks), Body(st, lead, core));
  }

  lemma TagsStay(st: Setting, text: string, lead: string, core: string)
    requires st.Valid() && !st.ShowsReasoning()
    ensures Cleaned(st, text) == text && Body(st, lead, core) == if core == "" then "" else lead + core
  {
  }

  // ---- Thoughts

  /** What is shown with one more thought: it goes to the reasoning, or between tags to the content. */
  function WithThought(st: Setting, shown: Shown, thought: string, closed: bool): Shown {
    if st.ShowsReasoning() then Shown(shown.content, shown.reasoning + thought)
    else Shown(shown.content + (st.startThink + thought + if closed then st.endThink else ""), shown.reasoning)
  }

  lemma ThoughtIsShown(st: Setting, unclosed: string, text: string, closed: bool, shown: Shown)
    ensures ShowReasoning(st, unclosed, text, closed, shown) == WithThought(st, shown, unclosed + text, closed)
  {
    assert st.startThink + unclosed + text == st.startThink + (unclosed + text);
  }

  /** An open thought that an end tag closes, with more to follow, is shown whole, and the turn goes on behind the
      tag. */
  lemma ThoughtIsClosed(st: Setting, s: Reader, thought: string, rest: string)
    requires st.Valid() && IsReader(st, s) && s.open && TextBefore(st.cx, s.pos) == thought + (st.endThink + rest)
    requires Find(thought + st.endThink, st.endThink, 0) == Some(|thought|)
    requires MessageLoop.Behind(st.cx, s.pos) < |st.cx.input| || !AllSpace(rest)
    ensures IsLeft(st, s, rest)
    ensures Entered(st, s).shown == WithThought(st, s.shown, s.unclosed + thought, true)
  {
    FoundInFront(thought, st.endThink, rest);
    var atEnd := MessageLoop.Behind(st.cx, s.pos) == |st.cx.input|;
    LeaveClosed(st, FindStart(st.cx, s.pos).Some?, atEnd, thought, rest, StartText(st.cx, s.pos), s.unclosed, s.shown);
    hide FindStart;
    hide TextBefore;
    hide MessageLoop.Behind;
    hide WithThought;
    hide Leave;
    hide Find;
  }

  lemma PartsAround(a: string, b: string, c: string)
    ensures (a + (b + c))[..|a|] == a && (a + (b + c))[|a| + |b|..] == c
  {
  }

  lemma LeaveClosed(st: Setting, hasCall: bool, atEnd: bool, thought: string, rest: string, callStart: string,
      unclosed: string, shown: Shown)
    requires !atEnd || !AllSpace(rest)
    requires Find(thought + (st.endThink + rest), st.endThink, 0) == Some(|thought|)
    ensures Leave(st, hasCall, atEnd, thought + (st.endThink + rest), callStart, unclosed, shown) ==
            Left(false, rest, "", false, WithThought(st, shown, unclosed + thought, true))
  {
    PartsAround(thought, st.endThink, rest);
    ThoughtIsShown(st, unclosed, thought, true, shown);
    hide Find;
    hide AllSpace;
    hide TrimEnded;
    hide WithThought;
    hide ShowReasoning;
  }

  /** What is shown of an open thought that the input ends: an end of it is held back. */
  function LastThought(st: Setting, unclosed: string, thought: string): string {
    if TrimEnded(thought, st.Literals()) != "" then unclosed + TrimEnded(thought, st.Literals())
    else TrimEnded(unclosed, st.Literals())
  }

  /** An open thought at the end of the message is shown without an end tag, except for an end of it that is held back;
      a blank one is not shown. */
  lemma LastThoughtIsShown(st: Setting, s: Reader, thought: string, rest: string)
    requires st.Valid() && !IsSpace(st.startThink[0]) && IsReader(st, s) && s.open && FindStart(st.cx, s.pos).None?
    requires var text := Truncated(st.cx.input[s.pos..]);
             || (text == thought && rest == "" && Find(thought, st.endThink, 0).None?)
             || (text == thought + (st.endThink + rest) && AllSpace(rest)
                 && Find(thought + st.endThink, st.endThink, 0) == Some(|thought|))
    ensures var visible := LastThought(st, s.unclosed, thought);
            Loop(st, s) ==
            (Complete, Reader(|st.cx.input|, false, "",
                              if visible == "" then s.shown else WithThought(st, s.shown, visible, false), s.calls))
  {
    LastThoughtIsLeft(st, s, thought, rest);
    var left, visible := Entered(st, s), LastThought(st, s.unclosed, thought);
    var shown := left.shown;
    if left.again {
      var t := Reader(|st.cx.input|, false, "", shown, s.calls);
      GoesOn(st, s, t);
      NothingIsLeft(st.cx);
      AllIsLeft(st, t);
      BlankIsNotShown(st, t, "");
    } else {
      BlankIsNotShown(st, s, rest);
    }
  }

  lemma LastThoughtIsLeft(st: Setting, s: Reader, thought: string, rest: string)
    requires st.Valid() && IsReader(st, s) && s.open && FindStart(st.cx, s.pos).None?
    requires var text := Truncated(st.cx.input[s.pos..]);
             || (text == thought && rest == "" && Find(thought, st.endThink, 0).None?)
             || (text == thought + (st.endThink + rest) && AllSpace(rest)
                 && Find(thought + st.endThink, st.endThink, 0) == Some(|thought|))
    ensures var visible := LastThought(st, s.unclosed, thought);
            Entered(st, s) == Left(visible == "", rest, "", false,
                                   if visible == "" then s.shown else WithThought(st, s.shown, visible, false))
  {
    LastIsEntered(st, s);
    var text := Truncated(st.cx.input[s.pos..]);
    if text == thought && rest == "" && Find(thought, st.endThink, 0).None? {
      LeaveAtEnd(st, text, thought, "", s.unclosed, s.shown);
    } else {
      FoundInFront(thought, st.endThink, rest);
      LeaveAtEnd(st, text, thought, rest, s.unclosed, s.shown);
    }
  }

  lemma LastIsEntered(st: Setting, s: Reader)
    requires s.pos <= |st.cx.input| && s.open && FindStart(st.cx, s.pos).None?
    ensures Entered(st, s) == Leave(st, false, true, Truncated(st.cx.input[s.pos..]), "", s.unclosed, s.shown)
  {
    hide Leave;
  }

  lemma LeaveAtEnd(st: Setting, text: string, thought: string, rest: string, unclosed: string, shown: Shown)
    requires AllSpace(rest)
    requires || (text == thought && rest == "" && Find(text, st.endThink, 0).None?)
             || (text == thought + (st.endThink + rest) && Find(text, st.endThink, 0) == Some(|thought|))
    ensures var visible := LastThought(st, unclosed, thought);
            Leave(st, false, true, text, "", unclosed, shown) ==
            Left(visible == "", rest, "", false, if visible == "" then shown
                else WithThought(st, shown, visible, false))
  {
    hide Find;
    hide TrimEnded;
    if Find(text, st.endThink, 0).Some? {
      assert text[..|thought|] == thought && text[|thought| + |st.endThink|..] == rest;
    }
    var last, before := TrimEnded(thought, st.Literals()), TrimEnded(unclosed, st.Literals());
    ThoughtIsShown(st, unclosed, last, false, shown);
    ThoughtIsShown(st, before, "", false, shown);
    assert before + "" == before;
    hide WithThought;
    hide ShowReasoning;
  }

  lemma BlankIsNotShown(st: Setting, s: Reader, text: string)
    requires st.Valid() && IsReader(st, s) && FindStart(st.cx, s.pos).None? && IsLeft(st, s, text)
    requires AllSpace(text) && !IsSpace(st.startThink[0])
    ensures Loop(st, s) == (Complete, Reader(|st.cx.input|, false, "", Entered(st, s).shown, s.calls))
  {
    var shown := Entered(st, s).shown;
    BlankHoldsNoTag(st, text);
    BlankIsTrimmed(st, text);
    NoBlock(st, text, "", shown.reasoning);
    hide *;
    LastTurnIs(st, s, text, text, shown.reasoning, "");
    NothingIsAdded(st, shown.content);
  }

  lemma NothingIsAdded(st: Setting, content: string)
    ensures WithBody(st, content, "") == content
  {
  }

  lemma BlankHoldsNoTag(st: Setting, text: string)
    requires st.Valid() && AllSpace(text) && !IsSpace(st.startThink[0])
    ensures Find(text, st.startThink, 0).None?
  {
    var at := Find(text, st.startThink, 0);
    if at.Some? {
      BeginsThere(text, st.startThink, at.value);
    }
  }

  lemma BeginsThere(text: string, d: string, at: nat)
    requires d != "" && OccursAt(text, d, at)
    ensures at < |text| && text[at] == d[0]
  {
    assert text[at..at + |d|][0] == text[at];
  }

  lemma BlankIsTrimmed(st: Setting, text: string)
    requires st.Valid() && AllSpace(text)
    ensures TrimEnded(Cleaned(st, text), st.Literals()) == ""
  {
    RStripIs(text, "", text) by { assert "" + text == text; }
    assert RStrip("") == "";
    assert EndsErased("", st.endThink) == "";
    assert TrimSuffixed("", st.Literals()) == "";
  }

  /** A turn that goes on. */
  lemma GoesOn(st: Setting, s: Reader, t: Reader)
    requires st.Valid() && IsReader(st, s) && IsReader(st, t) && NextTurn(st, s) == Again(t)
    ensures Loop(st, s) == Loop(st, t)
  {
    hide NextTurn;
    TurnMoves(st, s);
  }

  // ---- A block that stays open

  /** A text in front of a call as it is shown, when no literal is to be awaited behind it. */
  lemma CleanedWhole(st: Setting, text: string)
    requires st.Valid() && (st.ShowsReasoning() ==> !Contains(text, st.endThink))
    ensures Cleaned(st, text) == WholeBody(st, text)
  {
    if st.ShowsReasoning() {
      WithoutTagsTextIsStripped(st, text);
    }
  }

  /** A block that is still open where a call starts swallows that start, unless calls may stand in a block: what is in
      front of it is shown, and the block goes on. */
  lemma CallInBlockIsSkipped(st: Setting, s: Reader, text: string, first: string, blocks: seq<Block>, inner: string)
    requires st.Valid() && !IsSpace(st.startThink[0]) && !st.cx.form.allowToolcallInThink && IsReader(st, s)
    requires FindStart(st.cx, s.pos).Some? && FindStart(st.cx, s.pos).value.end < |st.cx.input|
    requires IsLeft(st, s, text) && IsReadAs(st, text, first, blocks, Some(inner))
    requires st.ShowsReasoning() ==> !Contains(Glued(first, blocks), st.endThink)
    ensures var start, shown := FindStart(st.cx, s.pos).value, Entered(st, s).shown;
            Loop(st, s) ==
            Loop(st, Reader(start.end, true, inner + st.cx.input[start.begin..start.end],
                            Shown(WithBody(st, shown.content, WholeBody(st, Glued(first, blocks))),
                                  shown.reasoning + BlockTexts(blocks)), s.calls))
  {
    var start, shown := FindStart(st.cx, s.pos).value, Entered(st, s).shown;
    var callStart, rest := st.cx.input[start.begin..start.end], Glued(first, blocks);
    TextIsRead(st, text, first, blocks, Some(inner), callStart, shown.reasoning);
    CleanedWhole(st, rest);
    BlockIsCutOff(st, s, text, rest, inner + callStart, shown.reasoning + BlockTexts(blocks));
    hide *;
    GoesOn(st, s, Reader(start.end, true, inner + callStart,
                         Shown(WithBody(st, shown.content, WholeBody(st, rest)), shown.reasoning + BlockTexts(blocks)),
                             s.calls));
  }

  lemma BlockIsCutOff(st: Setting, s: Reader, text: string, rest: string, inner: string, told: string)
    requires st.Valid() && !st.cx.form.allowToolcallInThink && IsReader(st, s) && IsLeft(st, s, text)
    requires FindStart(st.cx, s.pos).Some? && FindStart(st.cx, s.pos).value.end < |st.cx.input|
    requires Blocks(st, text, Find(text, st.startThink, 0), StartText(st.cx, s.pos), Entered(st, s).shown.reasoning) ==
             Taken(rest, Some(inner), told)
    ensures NextTurn(st, s) ==
            Again(Reader(FindStart(st.cx, s.pos).value.end, true, inner,
                         Shown(WithBody(st, Entered(st, s).shown.content, Cleaned(st, rest)), told), s.calls))
  {
    hide Cleaned;
    hide FindStart;
    hide Blocks;
    hide Find;
    hide Entered;
    AddedText(st, Entered(st, s).shown.content, Cleaned(st, rest));
    hide AddText;
    hide WithBody;
  }

  lemma LastBlockIsCutOff(st: Setting, s: Reader, text: string, rest: string, inner: string, told: string)
    requires st.Valid() && !st.cx.form.allowToolcallInThink && IsReader(st, s) && IsLeft(st, s, text)
    requires FindStart(st.cx, s.pos).None?
    requires Blocks(st, text, Find(text, st.startThink, 0), "", Entered(st, s).shown.reasoning) ==
             Taken(rest, Some(inner), told)
    ensures var words := st.Literals();
            var body := if inner == "" then TrimEnded(Cleaned(st, rest), words) else Cleaned(st, rest);
            NextTurn(st, s) ==
            Again(Reader(|st.cx.input|, true, TrimEnded(inner, words),
                         Shown(WithBody(st, Entered(st, s).shown.content, body), told), s.calls))
  {
    hide Cleaned;
    hide FindStart;
    hide Blocks;
    hide Find;
    hide Entered;
    var words := st.Literals();
    var body := if inner == "" then TrimEnded(Cleaned(st, rest), words) else Cleaned(st, rest);
    assert inner == "" ==> TrimEnded(inner, words) == "";
    AddedText(st, Entered(st, s).shown.content, body);
    hide TrimEnded;
    hide AddText;
    hide WithBody;
  }

  /** What was held in an open block when the input ended. */
  lemma NothingIsHeld(st: Setting, unclosed: string)
    requires st.Valid()
    ensures Find("", st.endThink, 0).None? && LastThought(st, unclosed, "") == TrimEnded(unclosed, st.Literals())
    ensures Truncated(st.cx.input[|st.cx.input|..]) == ""
  {
    assert st.cx.input[|st.cx.input|..] == "";
    assert TrimEnded("", st.Literals()) == "";
  }

  /** The start of a call inside an open block belongs to the thought, unless calls may stand there. */
  lemma OpenBlockGoesOn(st: Setting, s: Reader)
    requires st.Valid() && !st.cx.form.allowToolcallInThink && IsReader(st, s) && s.open
    requires FindStart(st.cx, s.pos).Some? && FindStart(st.cx, s.pos).value.end < |st.cx.input|
    requires Find(TextBefore(st.cx, s.pos), st.endThink, 0).None?
    ensures var start := FindStart(st.cx, s.pos).value;
            Loop(st, s) == Loop(st, s.(pos := start.end, unclosed := s.unclosed + st.cx.input[s.pos..start.end]))
  {
    hide FindStart;
    var start := FindStart(st.cx, s.pos).value;
    var input := st.cx.input;
    assert s.unclosed + input[s.pos..start.begin] + input[start.begin..start.end] ==
           s.unclosed + input[s.pos..start.end];
    hide Find;
    GoesOn(st, s, s.(pos := start.end, unclosed := s.unclosed + input[s.pos..start.end]));
  }

  /** A block that is never closed: the text in front of it is shown, and what it holds is shown as the last thought. */
  lemma OpenBlockIsShown(st: Setting, s: Reader, text: string, first: string, blocks: seq<Block>, inner: string)
    requires st.Valid() && !IsSpace(st.startThink[0]) && !st.cx.form.allowToolcallInThink && IsReader(st, s)
    requires FindStart(st.cx, s.pos).None? && IsLeft(st, s, text) && IsReadAs(st, text, first, blocks, Some(inner))
    requires st.ShowsReasoning() ==> !Contains(Glued(first, blocks), st.endThink)
    ensures var shown, words := Entered(st, s).shown, st.Literals();
            var body := WholeBody(st, Glued(first, blocks));
            var front := Shown(WithBody(st, shown.content, if inner == "" then TrimEnded(body, words) else body),
                               shown.reasoning + BlockTexts(blocks));
            var visible := TrimEnded(TrimEnded(inner, words), words);
            Loop(st, s) ==
            (Complete, Reader(|st.cx.input|, false, "",
                              if visible == "" then front else WithThought(st, front, visible, false), s.calls))
  {
    var shown, words, rest := Entered(st, s).shown, st.Literals(), Glued(first, blocks);
    hide *;
    TextIsRead(st, text, first, blocks, Some(inner), "", shown.reasoning);
    OpenIsLeft(st, inner);
    CleanedWhole(st, rest);
    var body := WholeBody(st, rest);
    var front := Shown(WithBody(st, shown.content, if inner == "" then TrimEnded(body, words) else body),
                       shown.reasoning + BlockTexts(blocks));
    LastBlockIsCutOff(st, s, text, rest, inner, shown.reasoning + BlockTexts(blocks));
    HeldBlockIsShown(st, s, Reader(|st.cx.input|, true, TrimEnded(inner, words), front, s.calls));
  }

  lemma OpenIsLeft(st: Setting, inner: string)
    requires !st.cx.form.allowToolcallInThink
    ensures LeftOpen(st, Some(inner), "") == Some(inner)
  {
    assert inner + "" == inner;
  }

  lemma HeldBlockIsShown(st: Setting, s: Reader, t: Reader)
    requires st.Valid() && !IsSpace(st.startThink[0]) && IsReader(st, s) && NextTurn(st, s) == Again(t)
    requires t.pos == |st.cx.input| && t.open
    ensures var visible := TrimEnded(t.unclosed, st.Literals());
            Loop(st, s) ==
            (Complete, Reader(|st.cx.input|, false, "",
                              if visible == "" then t.shown else WithThought(st, t.shown, visible, false), t.calls))
  {
    hide NextTurn;
    TurnMoves(st, s);
    NothingIsLeft(st.cx);
    NothingIsHeld(st, t.unclosed);
    hide TrimEnded;
    hide LastThought;
    hide Find;
    hide FindStart;
    hide Loop;
    GoesOn(st, s, t);
    LastThoughtIsShown(st, t, "", "");
  }

  // ---- Calls

  /** In front of a call: the text is shown, and the calls are tried at their start. */
  lemma CallFollowsText(st: Setting, s: Reader, text: string, first: string, blocks: seq<Block>)
    requires st.Valid() && !IsSpace(st.startThink[0]) && IsReader(st, s)
    requires FindStart(st.cx, s.pos).Some? && FindStart(st.cx, s.pos).value.begin < |st.cx.input|
    requires IsLeft(st, s, text) && IsReadAs(st, text, first, blocks, None)
    requires st.ShowsReasoning() ==> !Contains(Glued(first, blocks), st.endThink)
    ensures var start, shown, whole := FindStart(st.cx, s.pos).value, Entered(st, s).shown,
        WholeBody(st, Glued(first, blocks));
            var body := if start.end == |st.cx.input| then TrimEnded(whole, st.Literals()) else whole;
            NextTurn(st, s) ==
            TakeCalls(st, true, Reader(start.begin, false, "", Shown(WithBody(st, shown.content, body),
                                                                     shown.reasoning + BlockTexts(blocks)), s.calls))
  {
    var callStart, shown, rest := StartText(st.cx, s.pos), Entered(st, s).shown, Glued(first, blocks);
    hide *;
    TextIsRead(st, text, first, blocks, None, callStart, shown.reasoning);
    NothingIsOpen(st, callStart);
    CleanedWhole(st, rest);
    TextIsShownAt(st, s, text, rest, shown.reasoning + BlockTexts(blocks));
  }

  lemma TextIsShownAt(st: Setting, s: Reader, text: string, rest: string, told: string)
    requires st.Valid() && IsReader(st, s) && IsLeft(st, s, text)
    requires FindStart(st.cx, s.pos).Some? && FindStart(st.cx, s.pos).value.begin < |st.cx.input|
    requires Blocks(st, text, Find(text, st.startThink, 0), StartText(st.cx, s.pos), Entered(st, s).shown.reasoning) ==
             Taken(rest, None, told)
    ensures var start, shown, whole := FindStart(st.cx, s.pos).value, Entered(st, s).shown, Cleaned(st, rest);
            var body := if start.end == |st.cx.input| then TrimEnded(whole, st.Literals()) else whole;
            NextTurn(st, s) ==
            TakeCalls(st, true, Reader(start.begin, false, "", Shown(WithBody(st, shown.content, body), told), s.calls))
  {
    hide Cleaned;
    hide FindStart;
    hide Blocks;
    hide Find;
    hide Entered;
    hide TrimEnded;
    hide TakeCalls;
    var start, whole := FindStart(st.cx, s.pos).value, Cleaned(st, rest);
    var body := if start.end == |st.cx.input| then TrimEnded(whole, st.Literals()) else whole;
    AddedText(st, Entered(st, s).shown.content, body);
    hide AddText;
    hide WithBody;
  }

  /** What is shown when a block stays open around a call: what it holds goes to the reasoning, or behind its tag to the
      content. */
  function WithOpen(st: Setting, shown: Shown, body: string, told: string, inner: string): Shown {
    if inner == "" then Shown(WithBody(st, shown.content, body), shown.reasoning + told)
    else if st.ShowsReasoning() then Shown(WithBody(st, shown.content, body), shown.reasoning + told + inner)
    else
      Shown(WithBody(st, shown.content, (if body == "" then "" else body + "\n\n") + st.startThink + inner),
            shown.reasoning + told)
  }

  /** Where calls may stand in a block, the block is shown, and stays open, while the calls are tried. */
  lemma CallFollowsBlock(st: Setting, s: Reader, text: string, first: string, blocks: seq<Block>, inner: string)
    requires st.Valid() && !IsSpace(st.startThink[0]) && st.cx.form.allowToolcallInThink && IsReader(st, s)
    requires FindStart(st.cx, s.pos).Some? && FindStart(st.cx, s.pos).value.end < |st.cx.input|
    requires IsLeft(st, s, text) && IsReadAs(st, text, first, blocks, Some(inner))
    requires st.ShowsReasoning() ==> !Contains(Glued(first, blocks), st.endThink)
    ensures NextTurn(st, s) ==
            TakeCalls(st, true,
                      Reader(FindStart(st.cx, s.pos).value.begin, true, "",
                             WithOpen(st, Entered(st, s).shown, WholeBody(st, Glued(first, blocks)),
                                 BlockTexts(blocks), inner),
                             s.calls))
  {
    var callStart, shown, rest := StartText(st.cx, s.pos), Entered(st, s).shown, Glued(first, blocks);
    OpenIsKept(st, inner, callStart);
    hide *;
    TextIsRead(st, text, first, blocks, Some(inner), callStart, shown.reasoning);
    CleanedWhole(st, rest);
    BlockIsShownAt(st, s, text, rest, BlockTexts(blocks), inner);
  }

  lemma OpenIsKept(st: Setting, inner: string, callStart: string)
    requires st.cx.form.allowToolcallInThink
    ensures LeftOpen(st, Some(inner), callStart) == Some(inner)
  {
  }

  lemma BlockIsShownAt(st: Setting, s: Reader, text: string, rest: string, told: string, inner: string)
    requires st.Valid() && st.cx.form.allowToolcallInThink && IsReader(st, s) && IsLeft(st, s, text)
    requires FindStart(st.cx, s.pos).Some? && FindStart(st.cx, s.pos).value.end < |st.cx.input|
    requires Blocks(st, text, Find(text, st.startThink, 0), StartText(st.cx, s.pos), Entered(st, s).shown.reasoning) ==
             Taken(rest, Some(inner), Entered(st, s).shown.reasoning + told)
    ensures NextTurn(st, s) ==
            TakeCalls(st, true, Reader(FindStart(st.cx, s.pos).value.begin, true, "",
                                       WithOpen(st, Entered(st, s).shown, Cleaned(st, rest), told, inner), s.calls))
  {
    hide FindStart;
    hide Blocks;
    hide Find;
    hide Entered;
    hide Cleaned;
    hide TakeCalls;
    StartHasText(st.cx, s.pos);
    OpenIsAdded(st, Entered(st, s).shown, Cleaned(st, rest), told, inner);
    hide AddText;
    hide WithOpen;
  }

  lemma OpenIsAdded(st: Setting, shown: Shown, body: string, told: string, inner: string)
    ensures var all :=
              if inner == "" || st.ShowsReasoning() then body
              else if body == "" then st.startThink + inner
              else body + "\n\n" + st.startThink + inner;
            WithOpen(st, shown, body, told, inner) ==
            Shown(AddText(st, shown.content, all),
                  if inner != "" && st.ShowsReasoning() then shown.reasoning + told + inner else shown.reasoning + told)
  {
    var all :=
      if inner == "" || st.ShowsReasoning() then body
      else if body == "" then st.startThink + inner
      else body + "\n\n" + st.startThink + inner;
    AddedText(st, shown.content, all);
    assert "" + st.startThink + inner == st.startThink + inner;
    hide WithBody;
    hide AddText;
  }

  /** Where calls may stand in a block, one that is never closed is shown up to an end that is held back. */
  lemma LastBlockStaysOpen(st: Setting, s: Reader, text: string, first: string, blocks: seq<Block>, inner: string)
    requires st.Valid() && !IsSpace(st.startThink[0]) && st.cx.form.allowToolcallInThink && IsReader(st, s)
    requires FindStart(st.cx, s.pos).None? && IsLeft(st, s, text) && IsReadAs(st, text, first, blocks, Some(inner))
    requires st.ShowsReasoning() ==> !Contains(Glued(first, blocks), st.endThink)
    ensures var whole, words := WholeBody(st, Glued(first, blocks)), st.Literals();
            Loop(st, s) ==
            (Complete, Reader(|st.cx.input|, true, "",
                              WithOpen(st, Entered(st, s).shown, if inner == "" then TrimEnded(whole, words) else whole,
                                       BlockTexts(blocks), TrimEnded(inner, words)), s.calls))
  {
    var shown, rest := Entered(st, s).shown, Glued(first, blocks);
    OpenIsKept(st, inner, "");
    hide *;
    TextIsRead(st, text, first, blocks, Some(inner), "", shown.reasoning);
    CleanedWhole(st, rest);
    BlockIsShownLast(st, s, text, rest, BlockTexts(blocks), inner);
  }

  lemma BlockIsShownLast(st: Setting, s: Reader, text: string, rest: string, told: string, inner: string)
    requires st.Valid() && st.cx.form.allowToolcallInThink && IsReader(st, s) && IsLeft(st, s, text)
    requires FindStart(st.cx, s.pos).None?
    requires Blocks(st, text, Find(text, st.startThink, 0), "", Entered(st, s).shown.reasoning) ==
             Taken(rest, Some(inner), Entered(st, s).shown.reasoning + told)
    ensures var whole, words := Cleaned(st, rest), st.Literals();
            Loop(st, s) ==
            (Complete, Reader(|st.cx.input|, true, "",
                              WithOpen(st, Entered(st, s).shown, if inner == "" then TrimEnded(whole, words) else whole,
                                       told, TrimEnded(inner, words)), s.calls))
  {
    var words := st.Literals();
    assert inner == "" ==> TrimEnded(inner, words) == "";
    hide FindStart;
    hide Blocks;
    hide Find;
    hide Entered;
    hide Cleaned;
    hide TrimEnded;
    var whole := Cleaned(st, rest);
    OpenIsAdded(st, Entered(st, s).shown, if inner == "" then TrimEnded(whole, words)
        else whole, told, TrimEnded(inner, words));
    hide AddText;
    hide WithOpen;
    TurnMoves(st, s);
  }

  /** In an open block where calls may stand, the text in front of the next call is shown twice: as content, and as
      reasoning behind what was held. */
  lemma TextInBlockIsShownTwice(st: Setting, s: Reader, text: string)
    requires st.Valid() && st.cx.form.allowToolcallInThink && IsReader(st, s) && s.open
    requires FindStart(st.cx, s.pos).Some? && FindStart(st.cx, s.pos).value.end < |st.cx.input|
    requires text == TextBefore(st.cx, s.pos) && !Contains(text, st.startThink) && !Contains(text, st.endThink)
    ensures NextTurn(st, s) ==
            TakeCalls(st, true, Reader(FindStart(st.cx, s.pos).value.begin, true, "",
                                       WithOpen(st, s.shown, WholeBody(st, text), "", s.unclosed + text), s.calls))
  {
    CleanedWhole(st, text);
    NotFound(text, st.startThink);
    NotFound(text, st.endThink);
    var shown, held, callStart := s.shown, s.unclosed + text, StartText(st.cx, s.pos);
    NoBlock(st, text, callStart, shown.reasoning);
    hide *;
    StartHasText(st.cx, s.pos);
    ThoughtGoesOn(st, s, text);
    ThoughtIsAdded(st, text, callStart, held, shown);
    TurnAtCall(st, s, text, held, WithOpen(st, shown, WholeBody(st, text), "", held));
  }

  lemma ThoughtGoesOn(st: Setting, s: Reader, text: string)
    requires st.cx.form.allowToolcallInThink && s.pos <= |st.cx.input| && s.open
    requires FindStart(st.cx, s.pos).Some? && FindStart(st.cx, s.pos).value.end < |st.cx.input|
    requires text == TextBefore(st.cx, s.pos) && Find(text, st.endThink, 0).None?
    ensures Entered(st, s) == Left(false, text, s.unclosed + text, true, s.shown)
  {
    hide FindStart;
    hide Find;
    hide TextBefore;
    assert s.unclosed + text + "" == s.unclosed + text;
  }

  lemma ThoughtIsAdded(st: Setting, text: string, callStart: string, held: string, shown: Shown)
    requires st.Valid() && st.cx.form.allowToolcallInThink && Find(text, st.startThink, 0).None?
    requires Blocks(st, text, None, callStart, shown.reasoning) == Taken(text, None, shown.reasoning)
    requires Cleaned(st, text) == WholeBody(st, text)
    ensures ShowText(st, false, text, callStart, held, shown) ==
            TextShown(false, "", WithOpen(st, shown, WholeBody(st, text), "", held))
  {
    hide Blocks;
    hide Find;
    hide Cleaned;
    hide WholeBody;
    OpenIsAdded(st, shown, WholeBody(st, text), "", held);
    assert shown.reasoning + "" == shown.reasoning;
    hide AddText;
    hide WithOpen;
  }

  lemma TurnAtCall(st: Setting, s: Reader, text: string, held: string, shown: Shown)
    requires st.Valid() && st.cx.form.allowToolcallInThink && s.pos <= |st.cx.input| && FindStart(st.cx, s.pos).Some?
    requires FindStart(st.cx, s.pos).value.begin < FindStart(st.cx, s.pos).value.end < |st.cx.input|
    requires Entered(st, s) == Left(false, text, held, true, s.shown)
    requires ShowText(st, false, text, StartText(st.cx, s.pos), held, s.shown) == TextShown(false, "", shown)
    ensures NextTurn(st, s) ==
            TakeCalls(st, true, Reader(FindStart(st.cx, s.pos).value.begin, true, "", shown, s.calls))
  {
    hide FindStart;
    hide Entered;
    hide ShowText;
    hide TakeCalls;
  }

  lemma NotFound(text: string, tag: string)
    requires tag != ""
    ensures !Contains(text, tag) ==> Find(text, tag, 0).None?
  {
  }

  /** Calls that have been read are kept, and the text that was shown ends with a blank line if more than white space
      follows. */
  lemma CallsAreTaken(st: Setting, s: Reader, end: nat, calls: seq<ToolCall>)
    requires st.Valid() && s.pos < end <= |st.cx.input| &&
        TryConsume(st.cx, s.pos, s.calls) == Returned(true, end, calls)
    ensures var last := AllSpace(st.cx.input[end..]);
            TakeCalls(st, true, s) ==
            Again(Reader(if last then |st.cx.input| else end, s.open, s.unclosed,
                         s.shown.(content := s.shown.content + if last || s.shown.content == "" then "" else "\n\n"),
                             calls))
  {
    hide TryConsume;
    BlankToTheEnd(st.cx.input, end);
    assert s.shown.content + "" == s.shown.content;
  }

  lemma BlankToTheEnd(s: string, i: nat)
    requires i <= |s|
    ensures SkipSpaces(s, i) == |s| <==> AllSpace(s[i..])
  {
    assert forall k :: i <= k < |s| ==> s[i..][k - i] == s[k];
  }

  /** Where no call can be read after all, one character is passed over, and shown unless it is white space; a line
      break there interrupts the parse. */
  lemma RefusedCallIsText(st: Setting, s: Reader)
    requires st.Valid() && s.pos < |st.cx.input| && TryConsume(st.cx, s.pos, s.calls) == Returned(false, s.pos, s.calls)
    ensures var c := st.cx.input[s.pos];
            TakeCalls(st, true, s) ==
            if c == '\n' || c == '\r' then Ends(Interrupted, s)
            else Again(s.(pos := s.pos + 1,
                shown := s.shown.(content := s.shown.content + if IsSpace(c) then "" else [c])))
  {
    hide TryConsume;
    var one := st.cx.input[s.pos..s.pos + 1];
    assert one == [st.cx.input[s.pos]];
    RStripIs(one, if IsSpace(one[0]) then "" else one, if IsSpace(one[0]) then one else "");
  }

  /** A text and the calls behind it: the text is shown, the calls are kept, and the loop goes on behind them. */
  lemma TextAndCallsAreRead(st: Setting, s: Reader, text: string, first: string, blocks: seq<Block>, end: nat,
      calls: seq<ToolCall>)
    requires st.Valid() && !IsSpace(st.startThink[0]) && IsReader(st, s)
    requires FindStart(st.cx, s.pos).Some? && FindStart(st.cx, s.pos).value.end < |st.cx.input|
    requires IsLeft(st, s, text) && IsReadAs(st, text, first, blocks, None)
    requires st.ShowsReasoning() ==> !Contains(Glued(first, blocks), st.endThink)
    requires FindStart(st.cx, s.pos).value.begin < end <= |st.cx.input|
    requires TryConsume(st.cx, FindStart(st.cx, s.pos).value.begin, s.calls) == Returned(true, end, calls)
    ensures var shown, body := Entered(st, s).shown, WholeBody(st, Glued(first, blocks));
            var content, told := WithBody(st, shown.content, body), shown.reasoning + BlockTexts(blocks);
            Loop(st, s) ==
            if AllSpace(st.cx.input[end..]) then
              (Complete, Reader(|st.cx.input|, false, "", Shown(content, told), calls))
            else
              Loop(st, Reader(end, false, "", Shown(content + if content == "" then "" else "\n\n", told), calls))
  {
    CallFollowsText(st, s, text, first, blocks);
    var start, shown, body := FindStart(st.cx, s.pos).value, Entered(st, s).shown, WholeBody(st, Glued(first, blocks));
    var content, told := WithBody(st, shown.content, body), shown.reasoning + BlockTexts(blocks);
    TurnOfCalls(st, s, Reader(start.begin, false, "", Shown(content, told), s.calls), end, calls);
  }

  lemma TurnOfCalls(st: Setting, s: Reader, t: Reader, end: nat, calls: seq<ToolCall>)
    requires st.Valid() && !IsSpace(st.startThink[0]) && IsReader(st, s) && !t.open && t.unclosed == ""
    requires t.pos < end <= |st.cx.input| && NextTurn(st, s) == TakeCalls(st, true, t)
    requires TryConsume(st.cx, t.pos, t.calls) == Returned(true, end, calls)
    ensures Loop(st, s) ==
            if AllSpace(st.cx.input[end..]) then (Complete, Reader(|st.cx.input|, false, "", t.shown, calls))
            else
              Loop(st, Reader(end, false, "",
                              Shown(t.shown.content + if t.shown.content == "" then "" else "\n\n", t.shown.reasoning),
                                  calls))
  {
    CallsAreTaken(st, t, end, calls);
    hide TakeCalls;
    hide TryConsume;
    hide NextTurn;
    hide Loop;
    hide AllSpace;
    if AllSpace(st.cx.input[end..]) {
      var u := Reader(|st.cx.input|, false, "", t.shown, calls);
      assert t.shown.content + "" == t.shown.content;
      GoesOn(st, s, u);
      NothingFollows(st, u);
    } else {
      GoesOn(st, s, Reader(end, false, "", Shown(t.shown.content + if t.shown.content == "" then "" else "\n\n",
                                                 t.shown.reasoning), calls));
    }
  }

  /** At the end of the input nothing more is shown. */
  lemma NothingFollows(st: Setting, s: Reader)
    requires st.Valid() && !IsSpace(st.startThink[0]) && s.pos == |st.cx.input| && !s.open && s.unclosed == ""
    ensures Loop(st, s) == (Complete, s)
  {
    NothingIsLeft(st.cx);
    AllIsLeft(st, s);
    BlankIsNotShown(st, s, "");
  }

  // ---- Whole messages

  /** The white space that is skipped at the beginning of a message: all of it, except for an end with which a literal
      begins. */
  predicate BeginsWith(st: Setting, skipped: string, kept: string, rest: string) {
    && st.cx.input == skipped + (kept + rest) && AllSpace(skipped) && AllSpace(kept) &&
        (rest != "" ==> !IsSpace(rest[0]))
    && (kept == "" || BeginsSome(kept, st.Literals()))
    && forall j :: 0 <= j < |skipped| ==> !BeginsSome((skipped + kept)[j..], st.Literals())
  }

  lemma SpacesAreSkipped(st: Setting, skipped: string, kept: string, rest: string)
    requires BeginsWith(st, skipped, kept, rest)
    ensures SkippedTo(st, 0) == |skipped| && st.cx.input[|skipped|..] == kept + rest
  {
    hide BeginsSome;
    var spaces := skipped + kept;
    var input := st.cx.input;
    assert input == spaces + rest;
    assert rest != "" ==> input[|spaces|] == rest[0];
    SpacesEndAt(input, 0, |spaces|) by { assert input[0..|spaces|] == spaces; }
    assert input[0..|spaces|] == spaces && spaces[|skipped|..] == kept;
    HeldFromIs(spaces, st.Literals(), |skipped|);
    assert |spaces[..|skipped|]| == |skipped|;
  }

  /** A message without tags and calls is complete, and its content is its text: between its outer white space, if
      reasoning is shown apart, and without an end with which a literal begins. If something was shown before, a blank
      line stands between. */
  lemma PlainMessageIsShown(st: Setting, shown: Shown, calls: seq<ToolCall>, skipped: string, kept: string,
      rest: string,
      lead: string, core: string, gap: string, held: string, gap2: string)
    requires st.Valid() && !IsSpace(st.startThink[0]) && !st.syntax.thinkingForcedOpen &&
        BeginsWith(st, skipped, kept, rest)
    requires FindStart(st.cx, |skipped|).None?
    requires !Contains(st.cx.input, st.startThink) && !Contains(st.cx.input, st.endThink)
    requires IsWrittenAs(st, Truncated(kept + rest), lead, core, gap, held, gap2)
    ensures var body := if core == "" then "" else if st.ShowsReasoning() then core else lead + core;
            var content :=
              if body == "" then shown.content
              else if shown.content == "" then body
              else if st.ShowsReasoning() then shown.content + "\n\n" + body
              else shown.content + body;
            ReadMessage(st, 0, shown, calls) ==
            (Complete, Reader(|st.cx.input|, false, "", Shown(content, shown.reasoning), calls))
  {
    SpacesAreSkipped(st, skipped, kept, rest);
    var s, text := Reader(|skipped|, false, "", shown, calls), Truncated(kept + rest);
    assert TextBefore(st.cx, |skipped|) == text;
    AllIsLeft(st, s);
    PartHoldsNo(st.cx.input, |skipped|, text, st.startThink);
    PartHoldsNo(st.cx.input, |skipped|, text, st.endThink);
    PlainIsReadAs(st, text);
    BodyOnTop(st, shown.content, lead, core);
    hide IsWrittenAs;
    hide IsReadAs;
    hide FindStart;
    hide Contains;
    hide Loop;
    hide IsLeft;
    hide Entered;
    hide WithBody;
    hide Body;
    LastTextIsShown(st, s, text, text, [], lead, core, gap, held, gap2);
    assert shown.reasoning + "" == shown.reasoning;
  }

  /** A text without tags. */
  lemma PlainIsReadAs(st: Setting, text: string)
    requires st.Valid() && !Contains(text, st.startThink)
    ensures IsReadAs(st, text, text, [], None) && Glued(text, []) == text && BlockTexts([]) == ""
  {
    assert text + "" == text;
    forall i | 0 <= i < |text|
      ensures !OccursAt(text, st.startThink, i)
    {
      assert !Contains(text, st.startThink);
    }
  }

  lemma BodyOnTop(st: Setting, content: string, lead: string, core: string)
    ensures var body := if core == "" then "" else if st.ShowsReasoning() then core else lead + core;
            WithBody(st, content, Body(st, lead, core)) ==
            if body == "" then content
            else if content == "" then body
            else if st.ShowsReasoning() then content + "\n\n" + body
            else content + body
  {
    var body := if core == "" then "" else if st.ShowsReasoning() then core else lead + core;
    assert "" + body == body;
  }

  /** A whole message: a thought, if one is forced open, a text with think blocks, and printed calls with white space
      behind them. The thought and the blocks are the reasoning, the rest of the text is the content, and the calls are
      those that were printed. */
  lemma MessageIsRead(st: Setting, shown: Shown, calls: seq<ToolCall>, skipped: string, kept: string, rest: string,
      thought: Option<string>, text: string, first: string, blocks: seq<Block>, at: nat, gap: string,
      written: seq<XmlRoundTrip.WrittenCall>, endGap: string)
    requires st.Valid() && !IsSpace(st.startThink[0]) && st.syntax.thinkingForcedOpen == thought.Some?
    requires BeginsWith(st, skipped, kept, rest)
    requires FindStart(st.cx, |skipped|).Some? && FindStart(st.cx, |skipped|).value.end < |st.cx.input|
    requires at == FindStart(st.cx, |skipped|).value.begin
    requires st.cx.input[|skipped|..at] == if thought.Some? then thought.value + (st.endThink + text) else text
    requires thought.Some? ==> Find(thought.value + st.endThink, st.endThink, 0) == Some(|thought.value|)
    requires IsReadAs(st, text, first, blocks, None) &&
        (st.ShowsReasoning() ==> !Contains(Glued(first, blocks), st.endThink))
    requires XmlRoundTrip.FormIsReadable(st.cx.form) && AllSpace(gap) && AllSpace(endGap) && written != []
    requires forall i :: 0 <= i < |written| ==>
        XmlRoundTrip.CallIsReadable(st.cx.form, written[i]) && XmlRoundTrip.CallIsMeant(st.cx, written[i])
    requires OccursAt(st.cx.input, XmlRoundTrip.Print(st.cx.form, gap, written, endGap), at)
    requires XmlRoundTrip.CallsAsMeant(st.cx, written, at + |XmlRoundTrip.PrintScopeStart(st.cx.form, gap)|)
    requires st.cx.form.scopeEnd == "" ==>
        endGap == "" && NotNext(st.cx, at + |XmlRoundTrip.Print(st.cx.form, gap, written, endGap)|,
            st.cx.form.toolStart)
    requires at + |XmlRoundTrip.Print(st.cx.form, gap, written, endGap)| <= |st.cx.input|
    requires AllSpace(st.cx.input[at + |XmlRoundTrip.Print(st.cx.form, gap, written, endGap)|..])
    ensures var front := if thought.Some? then WithThought(st, shown, thought.value, true) else shown;
            ReadMessage(st, 0, shown, calls) ==
            (Complete, Reader(|st.cx.input|, false, "",
                              Shown(WithBody(st, front.content, WholeBody(st, Glued(first, blocks))),
                                    front.reasoning + BlockTexts(blocks)),
                              calls + XmlRoundTrip.CallsOf(st.cx, written)))
  {
    hide *;
    var s := Reader(|skipped|, thought.Some?, "", shown, calls);
    var end := at + |XmlRoundTrip.Print(st.cx.form, gap, written, endGap)|;
    FreshReader(st, shown, calls, skipped, kept, rest);
    MessageIsLeft(st, s, thought, text, at);
    TagsAreLong(st);
    PrintHasText(st.cx.form, gap, written, endGap);
    XmlRoundTrip.PrintedCallsAreReadBack(st.cx, gap, written, endGap, at, calls);
    TextAndCallsAreRead(st, s, text, first, blocks, end, calls + XmlRoundTrip.CallsOf(st.cx, written));
  }

  lemma FreshReader(st: Setting, shown: Shown, calls: seq<ToolCall>, skipped: string, kept: string, rest: string)
    requires st.Valid() && BeginsWith(st, skipped, kept, rest)
    ensures var s := Reader(|skipped|, st.syntax.thinkingForcedOpen, "", shown, calls);
            IsReader(st, s) && ReadMessage(st, 0, shown, calls) == Loop(st, s)
  {
    SpacesAreSkipped(st, skipped, kept, rest);
    hide Loop;
  }

  lemma MessageIsLeft(st: Setting, s: Reader, thought: Option<string>, text: string, at: nat)
    requires st.Valid() && IsReader(st, s) && s.open == thought.Some? && s.unclosed == ""
    requires FindStart(st.cx, s.pos).Some? && FindStart(st.cx, s.pos).value.end < |st.cx.input|
    requires at == FindStart(st.cx, s.pos).value.begin
    requires st.cx.input[s.pos..at] == if thought.Some? then thought.value + (st.endThink + text) else text
    requires thought.Some? ==> Find(thought.value + st.endThink, st.endThink, 0) == Some(|thought.value|)
    ensures IsLeft(st, s, text)
    ensures Entered(st, s).shown == if thought.Some? then WithThought(st, s.shown, thought.value, true) else s.shown
  {
    BeforeCall(st, s, at);
    NothingUnclosed(thought);
    hide *;
    if thought.Some? {
      ThoughtIsClosed(st, s, thought.value, text);
    } else {
      AllIsLeft(st, s);
    }
  }

  lemma NothingUnclosed(thought: Option<string>)
    ensures thought.Some? ==> "" + thought.value == thought.value
  {
  }

  lemma BeforeCall(st: Setting, s: Reader, at: nat)
    requires s.pos <= |st.cx.input| && FindStart(st.cx, s.pos).Some? && FindStart(st.cx, s.pos).value.begin == at
    ensures TextBefore(st.cx, s.pos) == st.cx.input[s.pos..at]
    ensures MessageLoop.Behind(st.cx, s.pos) == FindStart(st.cx, s.pos).value.end
  {
  }

  lemma PrintHasText(form: Form, gap: string, written: seq<XmlRoundTrip.WrittenCall>, endGap: string)
    requires form.Valid() && written != []
    ensures XmlRoundTrip.Print(form, gap, written, endGap) != ""
  {
    assert XmlRoundTrip.PrintCalls(form, written) != "";
  }
}
