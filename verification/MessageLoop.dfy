/** A whole message with reasoning and XML-style tool calls: one turn of the loop as a function, the runs of the
    loop, and when they end. */
module MessageLoop {
  import opened Text
  import opened Utf8
  import opened Reasoning
  import opened XmlToolCalls
  import opened XmlProgress
  import XmlForms
  import opened MessageText

  /** How reading a message ends: normally, by the exception for an incomplete text, by a failed assertion or an
      empty optional, or not at all. */
  datatype MessageEnd = Complete | Interrupted | NoMeaning | Stuck

  /** What stays fixed while a message is read. */
  datatype Setting = Setting(cx: Context, syntax: Syntax, startThink: string, endThink: string)
  {
    predicate Valid() {
      cx.form.Valid() && startThink != "" && |endThink| >= 3
    }

    /** Reasoning goes to a text of its own. */
    predicate ShowsReasoning() {
      syntax.reasoningFormat != NoReasoning && !syntax.reasoningInContent
    }

    function Literals(): seq<string> {
      Words(cx.form, startThink, endThink)
    }
  }

  /** The state of the loop: the cursor, whether a think block is open and what it holds so far, what is shown, and
      the calls. */
  datatype Reader = Reader(pos: nat, open: bool, unclosed: string, shown: Shown, calls: seq<ToolCall>)

  /** A turn goes on, goes on from where it will only repeat itself, or ends the loop. */
  datatype Turn = Again(state: Reader) | Stalled(state: Reader) | Ends(end: MessageEnd, state: Reader)

  // ---- The parts of a turn

  function ShowReasoning(st: Setting, unclosed: string, text: string, more: bool, shown: Shown): Shown {
    if st.ShowsReasoning() then shown.(reasoning := shown.reasoning + (unclosed + text))
    else shown.(content := shown.content + (st.startThink + unclosed + text + if more then st.endThink else ""))
  }

  datatype Left = Left(again: bool, text: string, unclosed: string, open: bool, shown: Shown)

  /** A text read inside an open think block: the block goes on, or it ends in the text or with the input. */
  function Leave(st: Setting, hasCall: bool, atEnd: bool, text: string, callStart: string, unclosed: string,
      shown: Shown): (r: Left)
    ensures r.open <==> Find(text, st.endThink, 0).None? && !atEnd
  {
    var at := Find(text, st.endThink, 0);
    if at.None? && !atEnd then
      var inThink := st.cx.form.allowToolcallInThink && hasCall;
      Left(!inThink, text, unclosed + text + (if inThink then "" else callStart), true, shown)
    else
      var thought := if at.None? then text else text[..at.value];
      var rest := if at.None? then "" else text[at.value + |st.endThink|..];
      var ending := atEnd && AllSpace(rest);
      var last := if ending then TrimEnded(thought, st.Literals()) else thought;
      var before := if ending && last == "" then TrimEnded(unclosed, st.Literals()) else unclosed;
      if ending && last == "" && before == "" then Left(true, rest, "", false, shown)
      else Left(false, rest, "", false, ShowReasoning(st, before, last, !atEnd || !AllSpace(rest), shown))
  }

  datatype Taken = Taken(rest: string, block: Option<string>, reasoning: string)

  /** The closed think blocks leave the text one by one; an open one is cut off. */
  function Blocks(st: Setting, text: string, start: Option<nat>, callStart: string, reasoning: string): (r: Taken)
    requires st.Valid() && (start.Some? ==> OccursAt(text, st.startThink, start.value))
    decreases if start.Some? then |text| - start.value else 0
  {
    if start.None? then Taken(text, None, reasoning)
    else
      var at, size := start.value, |st.startThink|;
      var close := Find(text, st.endThink, at + size);
      if close.None? then
        Taken(text[..at], Some(text[at + size..] + if st.cx.form.allowToolcallInThink then "" else callStart),
            reasoning)
      else
        var last := close.value + |st.endThink| - 1;
        if st.ShowsReasoning() then
          var (less, next) := Erased(text, at, last);
          Blocks(st, less, Find(less, st.startThink, next), callStart, reasoning + text[at + size..close.value])
        else Blocks(st, text, Find(text, st.startThink, last), callStart, reasoning)
  }

  /** One step of `Blocks`, at a think block that is not closed... */
  lemma OpenBlockTurn(st: Setting, text: string, at: nat, callStart: string, reasoning: string)
    requires st.Valid() && OccursAt(text, st.startThink, at) && at + |st.startThink| <= |text|
    requires Find(text, st.endThink, at + |st.startThink|).None?
    ensures Blocks(st, text, Some(at), callStart, reasoning) ==
            Taken(text[..at],
                  Some(text[at + |st.startThink|..] + if st.cx.form.allowToolcallInThink then "" else callStart),
                  reasoning)
  {
    hide Find;
    hide OccursAt;
    hide Erased;
  }

  /** ... and at one that is closed. */
  lemma ClosedBlockTurn(st: Setting, text: string, at: nat, close: nat, callStart: string, reasoning: string)
    requires st.Valid() && OccursAt(text, st.startThink, at) && at + |st.startThink| <= close
    requires Find(text, st.endThink, at + |st.startThink|) == Some(close) && close + |st.endThink| <= |text|
    ensures var last := close + |st.endThink| - 1;
            Blocks(st, text, Some(at), callStart, reasoning) ==
            if st.ShowsReasoning() then
              var (less, next) := Erased(text, at, last);
              Blocks(st, less, Find(less, st.startThink, next), callStart,
                     reasoning + text[at + |st.startThink|..close])
            else Blocks(st, text, Find(text, st.startThink, last), callStart, reasoning)
  {
    hide Find;
    hide OccursAt;
    hide Erased;
  }

  lemma NoBlock(st: Setting, text: string, callStart: string, reasoning: string)
    requires st.Valid()
    ensures Blocks(st, text, None, callStart, reasoning) == Taken(text, None, reasoning)
  {
  }

  function Cleaned(st: Setting, text: string): string
    requires st.Valid()
  {
    if !st.ShowsReasoning() then text
    else
      var t := EndsErased(RStrip(text), st.endThink);
      if |t| > 0 && IsSpace(t[0]) then Strip(t) else t
  }

  datatype TextShown = TextShown(openBlock: bool, unclosed: string, shown: Shown)

  function AddText(st: Setting, content: string, text: string): string {
    if text == "" then content
    else content + (if st.ShowsReasoning() && content != "" then "\n\n" else "") + text
  }

  /** A text outside of think blocks is cleaned and added to the content; a suffix that may become a literal is held
      back, and a think block that stays open around a call is shown if calls may stand in one. */
  function ShowText(st: Setting, atEnd: bool, text: string, callStart: string, unclosed: string,
      shown: Shown): (r: TextShown)
    requires st.Valid()
    ensures st.cx.form.allowToolcallInThink ==> r.unclosed == ""
  {
    var b := Blocks(st, text, Find(text, st.startThink, 0), callStart, shown.reasoning);
    var held := if b.block.Some? then b.block.value else unclosed;
    var clean := Cleaned(st, b.rest);
    var visible := if atEnd && held == "" then TrimEnded(clean, st.Literals()) else clean;
    var open := if atEnd && held != "" then TrimEnded(held, st.Literals()) else held;
    var inThink := st.cx.form.allowToolcallInThink && open != "";
    var reasoning := if inThink && st.ShowsReasoning() then b.reasoning + open else b.reasoning;
    var all :=
      if !inThink || st.ShowsReasoning() then visible
      else if visible == "" then st.startThink + open
      else visible + "\n\n" + st.startThink + open;
    TextShown(b.block.Some?, if inThink then "" else open, Shown(AddText(st, shown.content, all), reasoning))
  }

  /** Tries to read the calls that start at the cursor; without calls, one character goes to the content. `repeats`
      says that the next turn would start as this one did. */
  function TakeCalls(st: Setting, repeats: bool, s: Reader): (t: Turn)
    requires st.Valid() && s.pos < |st.cx.input|
  {
    match TryConsume(st.cx, s.pos, s.calls)
    case Undefined => Ends(NoMeaning, s)
    case Incomplete(calls) => Ends(Interrupted, s.(calls := calls))
    case SyntaxError(calls) => Ends(NoMeaning, s)
    case Returned(ok, p, calls) =>
      var input := st.cx.input;
      if ok && p <= |input| then
        var next := CursorAfter(input, p);
        var content := if next == |input| || s.shown.content == "" then s.shown.content else s.shown.content + "\n\n";
        var after := Reader(next, s.open, s.unclosed, s.shown.(content := content), calls);
        if next == s.pos && repeats then Stalled(after) else Again(after)
      else if input[s.pos] == '\n' || input[s.pos] == '\r' then Ends(Interrupted, s)
      else Again(s.(pos := s.pos + 1, shown := s.shown.(content := s.shown.content + RStrip(input[s.pos..s.pos + 1]))))
  }

  /** The text in front of the next start of a call, or all the rest, cut to whole characters. */
  function TextBefore(cx: Context, pos: nat): (r: string)
    requires pos <= |cx.input|
    ensures FindStart(cx, pos).Some? ==> |r| == FindStart(cx, pos).value.begin - pos
  {
    var tc := FindStart(cx, pos);
    if tc.Some? then cx.input[pos..tc.value.begin] else Truncated(cx.input[pos..])
  }

  function StartText(cx: Context, pos: nat): string
    requires pos <= |cx.input|
  {
    var tc := FindStart(cx, pos);
    if tc.Some? then cx.input[tc.value.begin..tc.value.end] else ""
  }

  function Behind(cx: Context, pos: nat): (r: nat)
    requires pos <= |cx.input|
    ensures pos <= r <= |cx.input|
  {
    var tc := FindStart(cx, pos);
    if tc.Some? then tc.value.end else |cx.input|
  }

  /** What an open think block makes of the text. */
  function Entered(st: Setting, s: Reader): Left
    requires s.pos <= |st.cx.input|
  {
    var text := TextBefore(st.cx, s.pos);
    if s.open then
      Leave(st, FindStart(st.cx, s.pos).Some?, Behind(st.cx, s.pos) == |st.cx.input|, text, StartText(st.cx, s.pos),
          s.unclosed, s.shown)
    else Left(false, text, s.unclosed, false, s.shown)
  }

  /** One turn. The start of a call inside an open think block is skipped unless calls may stand in one. */
  function NextTurn(st: Setting, s: Reader): Turn
    requires st.Valid() && s.pos <= |st.cx.input|
  {
    var here, left := Behind(st.cx, s.pos), Entered(st, s);
    if left.again then Again(Reader(here, left.open, left.unclosed, left.shown, s.calls))
    else
      var t := ShowText(st, here == |st.cx.input|, left.text, StartText(st.cx, s.pos), left.unclosed, left.shown);
      var after := Reader(here, left.open || t.openBlock, t.unclosed, t.shown, s.calls);
      var tc := FindStart(st.cx, s.pos);
      if t.openBlock && !st.cx.form.allowToolcallInThink then Again(after)
      else if tc.None? then Ends(Complete, after)
      else
        StartHasText(st.cx, s.pos);
        TakeCalls(st, !(after.open && here == |st.cx.input|), after.(pos := tc.value.begin))
  }

  // ---- What a turn keeps

  /** Only an open think block holds text back. */
  predicate IsReader(st: Setting, s: Reader) {
    s.pos <= |st.cx.input| && (!s.open ==> s.unclosed == "")
  }

  predicate Grows(a: Shown, b: Shown) {
    a.content <= b.content && a.reasoning <= b.reasoning
  }

  lemma LeaveKeeps(st: Setting, hasCall: bool, atEnd: bool, text: string, callStart: string, unclosed: string,
      shown: Shown)
    ensures var r := Leave(st, hasCall, atEnd, text, callStart, unclosed, shown);
            && Grows(shown, r.shown)
            && (!r.open ==> r.unclosed == "") && (r.text != "" ==> text != "")
            && (r.open ==> (r.again <==> !(st.cx.form.allowToolcallInThink && hasCall)))
  {
  }

  lemma StartFits(text: string, d: string, at: nat)
    requires OccursAt(text, d, at)
    ensures at + |d| <= |text|
  {
  }

  lemma {:induction false} BlocksKeep(st: Setting, text: string, start: Option<nat>, callStart: string,
      reasoning: string)
    requires st.Valid() && (start.Some? ==> OccursAt(text, st.startThink, start.value))
    ensures var r := Blocks(st, text, start, callStart, reasoning); reasoning <= r.reasoning
    decreases if start.Some? then |text| - start.value else 0
  {
    hide Erased;
    hide Find;
    hide OccursAt;
    if start.Some? {
      StartFits(text, st.startThink, start.value);
      var at, size := start.value, |st.startThink|;
      var close := Find(text, st.endThink, at + size);
      if close.Some? {
        StartFits(text, st.endThink, close.value);
        var last := close.value + |st.endThink| - 1;
        if st.ShowsReasoning() {
          var (less, next) := Erased(text, at, last);
          BlocksKeep(st, less, Find(less, st.startThink, next), callStart, reasoning + text[at + size..close.value]);
        } else {
          BlocksKeep(st, text, Find(text, st.startThink, last), callStart, reasoning);
        }
      }
    }
  }

  lemma NothingHoldsNoBlock(st: Setting, text: string, callStart: string, reasoning: string)
    requires st.Valid() && text == ""
    ensures Find(text, st.startThink, 0).None?
    ensures Blocks(st, text, Find(text, st.startThink, 0), callStart, reasoning) == Taken("", None, reasoning)
  {
  }

  lemma ShowTextKeeps(st: Setting, atEnd: bool, text: string, callStart: string, unclosed: string, shown: Shown)
    requires st.Valid()
    ensures var r := ShowText(st, atEnd, text, callStart, unclosed, shown);
            && Grows(shown, r.shown) && (r.openBlock ==> text != "")
            && (!r.openBlock && unclosed == "" ==> r.unclosed == "")
  {
    hide Blocks;
    hide Cleaned;
    BlocksKeep(st, text, Find(text, st.startThink, 0), callStart, shown.reasoning);
    if text == "" {
      NothingHoldsNoBlock(st, text, callStart, shown.reasoning);
    }
  }

  /** What stands when the calls are taken: nothing is held back, and a block is open only if calls may stand in it. */
  lemma TakeCallsKeeps(st: Setting, repeats: bool, s: Reader, pos: nat)
    requires st.Valid() && s.unclosed == "" && pos <= |st.cx.input| && FindStart(st.cx, pos).Some?
    requires s.pos == FindStart(st.cx, pos).value.begin < |st.cx.input|
    ensures var t := TakeCalls(st, repeats, s);
            && Grows(s.shown, t.state.shown) && t.state.unclosed == "" && t.state.open == s.open
            && s.pos <= t.state.pos <= |st.cx.input|
            && (t.Stalled? <==>
                  && repeats && Stalls(st.cx, s.pos)
                  && TryConsume(st.cx, s.pos, s.calls).Returned? && TryConsume(st.cx, s.pos, s.calls).ok)
            && (t.Again? && t.state.pos == s.pos ==> !repeats)
            && (t.Ends? ==> !t.end.Complete? && !t.end.Stuck?)
            && (!(t.Ends? && t.end.NoMeaning?) ==> s.calls <= t.state.calls)
  {
    hide TryConsume;
    hide FindStart;
    NoCallLeavesNoTrace(st.cx, s.pos, s.calls);
    TurnMovesUnlessStalled(st.cx, pos, s.calls);
  }

  /** A turn keeps the state of the loop, and unless it stalls it moves the cursor or closes the open block. When the
      message is complete the input is used up, and no reasoning is left over. */
  lemma TurnMoves(st: Setting, s: Reader)
    requires st.Valid() && IsReader(st, s)
    ensures var t := NextTurn(st, s);
            && (t.Ends? || IsReader(st, t.state))
            && Grows(s.shown, t.state.shown)
            && (!(t.Ends? && t.end.NoMeaning?) ==> s.calls <= t.state.calls)
            && (t.Again? ==> s.pos < t.state.pos || (s.pos == t.state.pos && s.open && !t.state.open))
            && (t.Ends? && t.end.Complete? ==>
                  && t.state.pos == |st.cx.input| && t.state.unclosed == ""
                  && (!st.cx.form.allowToolcallInThink ==> !t.state.open))
            && (t.Ends? ==> !t.end.Stuck?)
  {
    hide FindStart;
    hide Leave;
    hide ShowText;
    hide TakeCalls;
    hide TextBefore;
    var input, tc, here, left := st.cx.input, FindStart(st.cx, s.pos), Behind(st.cx, s.pos), Entered(st, s);
    var callStart := StartText(st.cx, s.pos);
    if tc.Some? {
      StartHasText(st.cx, s.pos);
    }
    if s.pos == |input| {
      NothingIsLeft(st.cx);
    }
    LeaveKeeps(st, tc.Some?, here == |input|, TextBefore(st.cx, s.pos), callStart, s.unclosed, s.shown);
    if !left.again {
      ShowTextKeeps(st, here == |input|, left.text, callStart, left.unclosed, left.shown);
      var t := ShowText(st, here == |input|, left.text, callStart, left.unclosed, left.shown);
      var after := Reader(here, left.open || t.openBlock, t.unclosed, t.shown, s.calls);
      if tc.Some? && !(t.openBlock && !st.cx.form.allowToolcallInThink) {
        TakeCallsKeeps(st, !(after.open && here == |input|), after.(pos := tc.value.begin), s.pos);
      }
    }
  }

  lemma NothingIsLeft(cx: Context)
    requires cx.form.Valid()
    ensures FindStart(cx, |cx.input|).None? && TextBefore(cx, |cx.input|) == ""
  {
    hide FindStart;
    if FindStart(cx, |cx.input|).Some? {
      StartHasText(cx, |cx.input|);
    }
    assert cx.input[|cx.input|..] == "";
  }

  // ---- The loop

  /** The whole loop: it ends as a turn says, or it is stuck at a turn that stalls. */
  function Loop(st: Setting, s: Reader): (MessageEnd, Reader)
    requires st.Valid() && IsReader(st, s)
    decreases |st.cx.input| - s.pos, s.open
  {
    TurnMoves(st, s);
    match NextTurn(st, s)
    case Ends(end, t) => (end, t)
    case Stalled(t) => (Stuck, t)
    case Again(t) => Loop(st, t)
  }

  /** The state after n turns of the program's loop, as long as it goes on. */
  function After(st: Setting, s: Reader, n: nat): (r: Option<Reader>)
    requires st.Valid() && IsReader(st, s)
    decreases n
  {
    if n == 0 then Some(s)
    else
      TurnMoves(st, s);
      var t := NextTurn(st, s);
      if t.Ends? then None else After(st, t.state, n - 1)
  }

  /** A stalled turn leaves a state from which the next turn stalls in the same place. */
  lemma StallRepeats(st: Setting, s: Reader)
    requires st.Valid() && IsReader(st, s) && NextTurn(st, s).Stalled?
    ensures var t := NextTurn(st, s).state;
            IsReader(st, t) && NextTurn(st, t).Stalled? && NextTurn(st, t).state.pos == t.pos &&
                NextTurn(st, t).state.calls == t.calls
  {
    hide FindStart;
    hide NextTurn;
    TurnMoves(st, s);
    var t := NextTurn(st, s).state;
    var start := StalledAt(st, s);
    StalledTurnRepeats(st.cx, s.pos, t.calls);
    StallsFrom(st, t, start);
  }

  /** What a stalled turn has found, and how it leaves the state. */
  lemma StalledAt(st: Setting, s: Reader) returns (start: Found)
    requires st.Valid() && IsReader(st, s) && NextTurn(st, s).Stalled?
    ensures FindStart(st.cx, s.pos) == Some(start) && start.begin < start.end <= |st.cx.input| &&
        Stalls(st.cx, start.begin)
    ensures var t := NextTurn(st, s).state;
            && t.pos == start.begin && t.unclosed == ""
            && (t.open ==> st.cx.form.allowToolcallInThink && start.end != |st.cx.input|)
  {
    hide FindStart;
    hide Leave;
    hide ShowText;
    hide TakeCalls;
    hide TextBefore;
    hide Stalls;
    var input, here, left := st.cx.input, Behind(st.cx, s.pos), Entered(st, s);
    var callStart := StartText(st.cx, s.pos);
    start := FindStart(st.cx, s.pos).value;
    LeaveKeeps(st, true, here == |input|, TextBefore(st.cx, s.pos), callStart, s.unclosed, s.shown);
    ShowTextKeeps(st, here == |input|, left.text, callStart, left.unclosed, left.shown);
    var t := ShowText(st, here == |input|, left.text, callStart, left.unclosed, left.shown);
    var after := Reader(here, left.open || t.openBlock, t.unclosed, t.shown, s.calls);
    StartHasText(st.cx, s.pos);
    TakeCallsKeeps(st, !(after.open && here == |input|), after.(pos := start.begin), s.pos);
    StallStays(st, !(after.open && here == |input|), after.(pos := start.begin));
  }

  lemma StallStays(st: Setting, repeats: bool, s: Reader)
    requires st.Valid() && s.pos < |st.cx.input|
    ensures TakeCalls(st, repeats, s).Stalled? ==> TakeCalls(st, repeats, s).state.pos == s.pos
  {
    hide TryConsume;
  }

  lemma StallsFrom(st: Setting, t: Reader, start: Found)
    requires st.Valid() && IsReader(st, t) && t.unclosed == ""
    requires t.pos == start.begin < start.end <= |st.cx.input|
    requires FindStart(st.cx, t.pos) == Some(start) && Stalls(st.cx, t.pos)
    requires CursorAfter(st.cx.input, t.pos) == t.pos &&
        TryConsume(st.cx, t.pos, t.calls) == Returned(true, t.pos, t.calls)
    requires t.open ==> st.cx.form.allowToolcallInThink && start.end != |st.cx.input|
    ensures var u := NextTurn(st, t); u.Stalled? && u.state.pos == t.pos && u.state.calls == t.calls
  {
    hide FindStart;
    hide TryConsume;
    hide Blocks;
    hide Cleaned;
    hide CursorAfter;
    var callStart := st.cx.input[start.begin..start.end];
    assert st.cx.input[t.pos..start.begin] == "";
    NothingHoldsNoBlock(st, "", callStart, t.shown.reasoning);
    assert Find("", st.endThink, 0).None?;
  }

  /** The loop ends exactly if it is not stuck: the outcome `Stuck` says that the program still goes on after any
      number of turns. */
  lemma StuckExactly(st: Setting, s: Reader)
    requires st.Valid() && IsReader(st, s)
    ensures Loop(st, s).0 == Stuck <==> forall n :: After(st, s, n).Some?
  {
    if Loop(st, s).0 == Stuck {
      forall n: nat
        ensures After(st, s, n).Some?
      {
        StuckGoesOn(st, s, n);
      }
    } else {
      var n := OtherwiseItEnds(st, s);
    }
  }

  lemma {:induction false} StalledGoesOn(st: Setting, s: Reader, n: nat)
    requires st.Valid() && IsReader(st, s) && NextTurn(st, s).Stalled?
    ensures After(st, s, n).Some?
    decreases n
  {
    hide NextTurn;
    if n > 0 {
      StallRepeats(st, s);
      StalledGoesOn(st, NextTurn(st, s).state, n - 1);
    }
  }

  lemma {:induction false} StuckGoesOn(st: Setting, s: Reader, n: nat)
    requires st.Valid() && IsReader(st, s) && Loop(st, s).0 == Stuck
    ensures After(st, s, n).Some?
    decreases n
  {
    hide NextTurn;
    TurnMoves(st, s);
    if NextTurn(st, s).Stalled? {
      StalledGoesOn(st, s, n);
    } else if n > 0 {
      StuckGoesOn(st, NextTurn(st, s).state, n - 1);
    }
  }

  lemma {:induction false} OtherwiseItEnds(st: Setting, s: Reader) returns (n: nat)
    requires st.Valid() && IsReader(st, s) && Loop(st, s).0 != Stuck
    ensures After(st, s, n).None?
    decreases |st.cx.input| - s.pos, s.open
  {
    hide NextTurn;
    TurnMoves(st, s);
    if NextTurn(st, s).Ends? {
      n := 1;
    } else {
      var k := OtherwiseItEnds(st, NextTurn(st, s).state);
      n := k + 1;
    }
  }

  /** Only for a form that can stall the loop can be stuck. */
  lemma {:induction false} StuckNeedsForm(st: Setting, s: Reader)
    requires st.Valid() && IsReader(st, s) && Loop(st, s).0 == Stuck
    ensures CanStall(st.cx.form)
    decreases |st.cx.input| - s.pos, s.open
  {
    hide NextTurn;
    hide CanStall;
    TurnMoves(st, s);
    if NextTurn(st, s).Stalled? {
      var start := StalledAt(st, s);
      StallNeedsForm(st.cx, s.pos);
    } else {
      StuckNeedsForm(st, NextTurn(st, s).state);
    }
  }

  /** What a finished loop leaves behind. */
  lemma {:induction false} LoopKeeps(st: Setting, s: Reader)
    requires st.Valid() && IsReader(st, s)
    ensures var (end, t) := Loop(st, s);
            && Grows(s.shown, t.shown) && (end != NoMeaning ==> s.calls <= t.calls)
            && (end.Complete? ==>
                  && t.pos == |st.cx.input| && t.unclosed == ""
                  && (!st.cx.form.allowToolcallInThink ==> !t.open))
    decreases |st.cx.input| - s.pos, s.open
  {
    hide NextTurn;
    TurnMoves(st, s);
    if NextTurn(st, s).Again? {
      LoopKeeps(st, NextTurn(st, s).state);
    }
  }

  /** The loop starts behind the leading white space, except for an end of it with which a literal may begin. */
  function ReadMessage(st: Setting, pos: nat, shown: Shown, calls: seq<ToolCall>): (MessageEnd, Reader)
    requires st.Valid() && pos <= |st.cx.input|
  {
    Loop(st, Reader(SkippedTo(st, pos), st.syntax.thinkingForcedOpen, "", shown, calls))
  }

  function SkippedTo(st: Setting, pos: nat): (r: nat)
    requires pos <= |st.cx.input|
    ensures pos <= r <= |st.cx.input|
  {
    pos + |TrimSuffixed(st.cx.input[pos..SkipSpaces(st.cx.input, pos)], st.Literals())|
  }

  lemma WithoutTagsTextIsStripped(st: Setting, text: string)
    requires st.Valid() && !Contains(text, st.endThink)
    ensures Cleaned(st, text) == if st.ShowsReasoning() then Strip(text) else text
  {
    var kept := RStrip(text);
    assert kept <= text[0..];
    PartHoldsNo(text, 0, kept, st.endThink);
    assert EndsErased(kept, st.endThink) == kept;
    hide EndsErased;
    hide RStrip;
    hide Contains;
    StripAfterRStrip(text);
  }

  lemma SpacesThatAreStripped(text: string)
    ensures |RStrip(text)| <= |text| && text[..|RStrip(text)|] == RStrip(text) && AllSpace(text[|RStrip(text)|..])
    ensures RStrip(text) != "" ==> !IsSpace(RStrip(text)[|RStrip(text)| - 1])
  {
  }

  lemma LeadingSpaces(kept: string) returns (lo: nat)
    requires kept != "" && !IsSpace(kept[|kept| - 1])
    ensures lo < |kept| && AllSpace(kept[..lo]) && !IsSpace(kept[lo])
    ensures !IsSpace(kept[0]) ==> lo == 0
  {
    lo := SkipSpaces(kept, 0);
  }

  lemma StripAfterRStrip(text: string)
    ensures var kept := RStrip(text);
            Strip(kept) == Strip(text) && (kept == "" || !IsSpace(kept[0]) ==> kept == Strip(text))
  {
    hide Strip;
    hide RStrip;
    var kept := RStrip(text);
    SpacesThatAreStripped(text);
    var n := |kept|;
    if kept == "" {
      StripParts(text, "", "", text);
      StripParts(kept, "", "", "");
    } else {
      var lo := LeadingSpaces(kept);
      StripParts(kept, kept[..lo], kept[lo..], "");
      StripParts(text, kept[..lo], kept[lo..], text[n..]);
    }
  }

  lemma StripParts(s: string, before: string, core: string, after: string)
    requires s == before + core + after && AllSpace(before) && AllSpace(after)
    requires core != "" ==> !IsSpace(core[0]) && !IsSpace(core[|core| - 1])
    ensures Strip(s) == core
  {
    StripIsUnique(s, before, core, after);
  }

  lemma PartHoldsNo(input: string, from: nat, text: string, tag: string)
    requires from <= |input| && text <= input[from..] && !Contains(input, tag)
    ensures !Contains(text, tag)
  {
    forall j | 0 <= j <= |text|
      ensures OccursAt(text, tag, j) ==> OccursAt(input, tag, from + j)
    {
      PartOccurs(input, from, text, tag, j);
    }
  }

  lemma PartOccurs(input: string, from: nat, text: string, tag: string, j: nat)
    requires from <= |input| && text <= input[from..]
    ensures OccursAt(text, tag, j) ==> OccursAt(input, tag, from + j)
  {
    if OccursAt(text, tag, j) {
      assert input[from..][j..j + |tag|] == input[from + j..from + j + |tag|];
    }
  }

  /** A form that can stall is stuck, whatever the syntax and the tags, at its scope start and the first character of a
      tool start, if no block is open and no more is to come. */
  lemma FormGetsStuck(st: Setting, shown: Shown, calls: seq<ToolCall>)
    requires st.Valid() && CanStall(st.cx.form) && !st.cx.partial && st.cx.input == StallText(st.cx.form)
    requires !st.syntax.thinkingForcedOpen
    ensures ReadMessage(st, 0, shown, calls).0 == Stuck
  {
    hide Stalls;
    hide FindStart;
    hide TryConsume;
    var t := Reader(0, false, "", shown, calls);
    FormStalls(st.cx);
    StalledTurnRepeats(st.cx, 0, calls);
    StallsFrom(st, t, Found(0, |st.cx.input|));
    ScopeStartIsKept(st);
  }

  lemma ScopeStartIsKept(st: Setting)
    requires CanStall(st.cx.form) && st.cx.input == StallText(st.cx.form)
    ensures SkippedTo(st, 0) == 0
  {
    var d := st.cx.form.scopeStart;
    var n := |d|;
    assert st.cx.input[0..n] == d;
    SkipsTo(st.cx.input, 0, n);
    assert st.Literals()[2] == d && d in st.Literals();
    assert d[0..] == d && BeginsSome(d[0..], st.Literals());
  }

  /** Messages in the form at which the loop is stuck. */
  ghost predicate StuckAt(form: Form, st: Setting, shown: Shown, calls: seq<ToolCall>) {
    st.Valid() && st.cx.form == form && ReadMessage(st, 0, shown, calls).0 == Stuck
  }

  lemma StuckMessage(form: Form, json: JsonLibrary) returns (st: Setting)
    requires form.Valid() && CanStall(form)
    ensures StuckAt(form, st, Shown("", ""), [])
  {
    hide CanStall;
    hide ReadMessage;
    st := Setting(Context(StallText(form), false, form, json, false), Syntax(NoReasoning, false, false), "<think>",
      "</think>");
    assert st.Valid();
    FormGetsStuck(st, Shown("", ""), []);
  }

  lemma StuckMessageNeedsForm(form: Form, st: Setting, shown: Shown, calls: seq<ToolCall>)
    requires StuckAt(form, st, shown, calls)
    ensures CanStall(form)
  {
    hide CanStall;
    hide Loop;
    hide SkippedTo;
    StuckNeedsForm(st, Reader(SkippedTo(st, 0), st.syntax.thinkingForcedOpen, "", shown, calls));
  }

  /** The exact condition on the form: the loop ends on every message, exactly if the form cannot stall. */
  lemma AllMessagesEndExactly(form: Form, json: JsonLibrary)
    requires form.Valid()
    ensures (forall st, shown, calls :: !StuckAt(form, st, shown, calls)) <==> !CanStall(form)
  {
    hide CanStall;
    hide StuckAt;
    if st, shown, calls :| StuckAt(form, st, shown, calls) {
      StuckMessageNeedsForm(form, st, shown, calls);
    }
    if CanStall(form) {
      var st := StuckMessage(form, json);
    }
  }

  predicate IsShipped(form: Form) {
    || form == XmlForms.MINIMAX_M2 || form == XmlForms.QWEN3_CODER || form == XmlForms.SEED_OSS
    || form == XmlForms.GLM_4_5 || form == XmlForms.KIMI_K2 || form == XmlForms.APRIEL_1_5
    || form == XmlForms.XIAOMI_MIMO
  }

  lemma ShippedFormsCannotStall(form: Form)
    requires IsShipped(form)
    ensures !CanStall(form)
  {
    assert form.scopeStart == "" || form.scopeStart[0] == '<';
  }

  /** With the forms that the program ships the loop ends on every message. */
  lemma ShippedFormsEnd(st: Setting, shown: Shown, calls: seq<ToolCall>)
    requires st.Valid() && IsShipped(st.cx.form)
    ensures ReadMessage(st, 0, shown, calls).0 != Stuck
  {
    hide CanStall;
    hide IsShipped;
    hide StuckAt;
    hide ReadMessage;
    ShippedFormsCannotStall(st.cx.form);
    AllMessagesEndExactly(st.cx.form, st.cx.json);
    StuckAtMeans(st, shown, calls);
  }

  lemma StuckAtMeans(st: Setting, shown: Shown, calls: seq<ToolCall>)
    requires st.Valid()
    ensures StuckAt(st.cx.form, st, shown, calls) <==> ReadMessage(st, 0, shown, calls).0 == Stuck
  {
  }

  /** With the line break that the header gives as a scope start, an input of a line break and the beginning of a tool
      start keeps the loop busy for ever. */
  lemma StuckExample(json: JsonLibrary, shown: Shown, calls: seq<ToolCall>) returns (st: Setting)
    ensures st.Valid() && st.cx.form.scopeStart == "\n" && st.cx.input == "\n<" && !st.cx.partial
    ensures ReadMessage(st, 0, shown, calls).0 == Stuck
  {
    var form := Form("\n", "<t>", ">", "<k>", ">", "</k>", "</t>", "", None, Some(true), None, None, false, false);
    st := Setting(Context("\n<", false, form, json, false), Syntax(NoReasoning, false, false), "<think>", "</think>");
    assert StallText(form) == "\n<";
    FormGetsStuck(st, shown, calls);
  }
}
