/** When a turn of the message loop that reports tool calls moves the cursor forward. */
module XmlProgress {
  import opened Text
  import opened XmlToolCalls

  lemma LiteralFoundAgain(input: string, partial: bool, pos: nat, literal: string)
    requires pos <= |input| && literal != ""
    ensures var f := FindLiteral(input, partial, pos, literal);
            f.Some? ==> FindLiteral(input, partial, f.value.begin, literal) == f
  {
  }

  lemma {:induction false} TwoFoundAgain(input: string, partial: bool, pos: nat, first: string, second: string)
    requires pos <= |input| && first != ""
    ensures var f := FindTwoFrom(input, partial, pos, first, second);
            f.Some? ==>
            && FindTwoFrom(input, partial, f.value.begin, first, second) == f
            && FindLiteral(input, partial, f.value.begin, first).Some?
            && FindLiteral(input, partial, f.value.begin, first).value.begin == f.value.begin
    decreases |input| - pos
  {
    hide FindLiteral;
    hide SecondAfter;
    LiteralFoundAgain(input, partial, pos, first);
    var f := FindLiteral(input, partial, pos, first);
    if f.Some? {
      TwoFoundAgain(input, partial, f.value.begin + 1, first, second);
    }
  }

  /** Where the message loop looks for the next tool call. */
  function FindStart(cx: Context, pos: nat): (r: Option<Found>)
    requires pos <= |cx.input|
    ensures FoundIn(cx.input, pos, r)
  {
    FindTwo(cx.input, cx.partial, pos, cx.form.scopeStart, cx.form.toolStart)
  }

  predicate ScopeEndsWithoutText(cx: Context, pos: nat)
    requires pos <= |cx.input|
  {
    var close := FindLiteral(cx.input, cx.partial, pos, cx.form.scopeEnd);
    if close.Some? then close.value.end == pos else AllSpace(cx.form.scopeEnd)
  }

  /** Where a turn leaves the cursor that has read calls up to `end`: white space is passed only if nothing follows. */
  function CursorAfter(input: string, end: nat): (r: nat)
    requires end <= |input|
    ensures end <= r <= |input|
  {
    if SkipSpaces(input, end) == |input| then |input| else end
  }

  /** A scope start of white space is skipped by the parser, so that nothing is consumed when no call
      follows and the scope needs no end; and then the cursor stays unless only white space is left. */
  predicate Stalls(cx: Context, begin: nat)
    requires begin <= |cx.input|
  {
    && cx.form.scopeStart != "" && AllSpace(cx.form.scopeStart)
    && NotNext(cx, begin, cx.form.toolStart)
    && ScopeEndsWithoutText(cx, begin)
    && SkipSpaces(cx.input, begin) < |cx.input|
  }

  lemma {:induction false} CallsFromStart(cx: Context, begin: nat, recovery: bool, calls: seq<ToolCall>)
    requires begin <= |cx.input| && cx.form.Valid()
    ensures var r := ReadCalls(cx, begin, begin, recovery, calls);
            r.Returned? && r.ok ==> (r.pos == begin <==>
                NotNext(cx, begin, cx.form.toolStart) && ScopeEndsWithoutText(cx, begin))
  {
    var t := ReadCall(cx, begin, begin, recovery, calls);
    assert t.LeaveCalls? ==> NotNext(cx, begin, cx.form.toolStart);
    assert NotNext(cx, begin, cx.form.toolStart) ==> t.LeaveCalls?;
  }

  /** A turn that finds the start of a call and reports calls leaves the cursor behind where that start begins,
      except exactly when it stalls. */
  lemma {:induction false} TurnMovesUnlessStalled(cx: Context, pos: nat, calls: seq<ToolCall>)
    requires pos <= |cx.input| && cx.form.Valid() && FindStart(cx, pos).Some?
    ensures var begin := FindStart(cx, pos).value.begin;
            var r := TryConsume(cx, begin, calls);
            r.Returned? && r.ok ==>
            && begin <= r.pos <= CursorAfter(cx.input, r.pos) <= |cx.input|
            && (CursorAfter(cx.input, r.pos) == begin <==> Stalls(cx, begin))
  {
    hide ReadCalls;
    var begin := FindStart(cx, pos).value.begin;
    assert begin < |cx.input| by { StartHasText(cx, pos); }
    CallsFromStart(cx, begin, true, calls);
    if cx.form.scopeStart == "" {
      LiteralFoundAgain(cx.input, cx.partial, pos, cx.form.toolStart);
      assert cx.input[begin..begin] == "";
      assert !NotNext(cx, begin, cx.form.toolStart);
    } else {
      TwoFoundAgain(cx.input, cx.partial, pos, cx.form.scopeStart, cx.form.toolStart);
    }
  }

  lemma StartHasText(cx: Context, pos: nat)
    requires pos <= |cx.input| && cx.form.Valid() && FindStart(cx, pos).Some?
    ensures var tc := FindStart(cx, pos).value; pos <= tc.begin < tc.end <= |cx.input|
  {
  }

  /** A stalled turn reports calls without adding any, leaves the cursor where it began, and meets the same start
      again from there. */
  lemma StalledTurnRepeats(cx: Context, pos: nat, calls: seq<ToolCall>)
    requires pos <= |cx.input| && cx.form.Valid() && FindStart(cx, pos).Some?
    requires Stalls(cx, FindStart(cx, pos).value.begin)
    ensures var start := FindStart(cx, pos);
            && TryConsume(cx, start.value.begin, calls) == Returned(true, start.value.begin, calls)
            && CursorAfter(cx.input, start.value.begin) == start.value.begin
            && FindStart(cx, start.value.begin) == start
  {
    var begin := FindStart(cx, pos).value.begin;
    TwoFoundAgain(cx.input, cx.partial, pos, cx.form.scopeStart, cx.form.toolStart);
    assert ReadCall(cx, begin, begin, true, calls).LeaveCalls?;
    assert CloseScope(cx, begin, begin, true, calls) == Returned(true, begin, calls);
  }

  // ---- Which forms can stall

  /** The scope start is white space, the scope needs no end that the scope start does not hold, and a part of the tool
      start that is not all of it can be told from white space. */
  predicate CanStall(form: Form) {
    && form.scopeStart != "" && AllSpace(form.scopeStart)
    && AllSpace(form.scopeEnd) && (form.scopeEnd == "" || !Contains(form.scopeStart, form.scopeEnd))
    && |form.toolStart| >= 2 && !IsSpace(form.toolStart[0])
  }

  lemma SpacesInside(s: string, i: nat, j: nat)
    requires i <= j <= |s| && AllSpace(s[i..j])
    ensures forall k :: i <= k < j ==> IsSpace(s[k])
  {
    forall k | i <= k < j
      ensures IsSpace(s[k])
    {
      assert s[i..j][k - i] == s[k];
    }
  }

  lemma SkipsTo(s: string, i: nat, j: nat)
    requires i <= j <= |s| && AllSpace(s[i..j]) && (j < |s| ==> !IsSpace(s[j]))
    ensures SkipSpaces(s, i) == j
  {
    SpacesInside(s, i, j);
  }

  /** A literal of white space that is found only in part is found at an end of white space. */
  lemma PartIsSpace(input: string, partial: bool, begin: nat, d: string)
    requires begin <= |input| && AllSpace(d)
    ensures var f := FindLiteral(input, partial, begin, d);
            f.Some? && f.value.begin == begin && Find(input, d, begin).None? ==> SkipSpaces(input, begin) == |input|
  {
    var f := FindLiteral(input, partial, begin, d);
    if f.Some? && f.value.begin == begin && Find(input, d, begin).None? {
      assert input[begin..|input|] == input[begin..];
      SkipsTo(input, begin, |input|);
    }
  }

  /** A scope start of white space with more than white space behind it is found as a whole. */
  lemma WholeScopeStart(cx: Context, begin: nat)
    requires begin <= |cx.input| && cx.form.scopeStart != "" && AllSpace(cx.form.scopeStart)
    requires SkipSpaces(cx.input, begin) < |cx.input|
    requires var f := FindLiteral(cx.input, cx.partial, begin, cx.form.scopeStart); f.Some? && f.value.begin == begin
    ensures OccursAt(cx.input, cx.form.scopeStart, begin)
    ensures FindLiteral(cx.input, cx.partial, begin, cx.form.scopeStart).value.end == begin + |cx.form.scopeStart|
    ensures SkipSpaces(cx.input, begin + |cx.form.scopeStart|) == SkipSpaces(cx.input, begin)
  {
    var input, d, at := cx.input, cx.form.scopeStart, SkipSpaces(cx.input, begin);
    PartIsSpace(input, cx.partial, begin, d);
    assert Find(input, d, begin) == Some(begin);
    SpacesInside(input, begin, begin + |d|);
    SkipsTo(input, begin + |d|, at);
  }

  lemma NextBehindSpaces(cx: Context, begin: nat, at: nat, d: string)
    requires begin <= at < |cx.input| && d != "" && AllSpace(cx.input[begin..at]) && !IsSpace(cx.input[at])
    ensures OccursAt(cx.input, d, at) ==> !NotNext(cx, begin, d)
  {
    SpacesInside(cx.input, begin, at);
    forall j | begin <= j <= at
      ensures OccursAt(cx.input, d, j) ==> cx.input[j] == d[0]
    {
      CharacterOf(cx.input, d, j, 0);
    }
    assert OccursAt(cx.input, d, at) ==> Find(cx.input, d, begin) == Some(at);
  }

  /** What follows the spaces is a beginning of the tool start, and not all of it. */
  lemma PartOfToolStart(cx: Context, begin: nat, at: nat)
    requires begin <= at < |cx.input| && cx.form.Valid() && NotNext(cx, begin, cx.form.toolStart)
    requires AllSpace(cx.input[begin..at]) && !IsSpace(cx.input[at])
    requires SecondAfter(cx.input, at, cx.form.toolStart).Some?
    ensures |cx.form.toolStart| >= 2 && !IsSpace(cx.form.toolStart[0])
  {
    var input, d := cx.input, cx.form.toolStart;
    SkipsTo(input, at, at);
    var n := if |d| <= |input| - at then |d| else |input| - at;
    assert input[at..at + n][0] == d[..n][0];
    NextBehindSpaces(cx, begin, at, d);
  }

  /** Where a turn stalls, the form can stall. */
  lemma StallNeedsForm(cx: Context, pos: nat)
    requires pos <= |cx.input| && cx.form.Valid() && FindStart(cx, pos).Some?
    requires Stalls(cx, FindStart(cx, pos).value.begin)
    ensures CanStall(cx.form)
  {
    hide FindLiteral;
    hide SecondAfter;
    var begin := FindStart(cx, pos).value.begin;
    var d, at := cx.form.scopeStart, SkipSpaces(cx.input, begin);
    TwoFoundAgain(cx.input, cx.partial, pos, d, cx.form.toolStart);
    FoundFromItself(cx, begin);
    WholeScopeStart(cx, begin);
    SecondSkips(cx.input, begin + |d|, cx.form.toolStart);
    PartOfToolStart(cx, begin, at);
    ScopeEndIsAbsent(cx, begin);
  }

  lemma SecondSkips(input: string, at: nat, second: string)
    requires at <= |input|
    ensures SecondAfter(input, at, second) == SecondAfter(input, SkipSpaces(input, at), second)
  {
    SkipsTo(input, SkipSpaces(input, at), SkipSpaces(input, at));
  }

  /** A pair of literals that is found where the search begins is the first literal there, and the second behind it. */
  lemma FoundFromItself(cx: Context, begin: nat)
    requires begin <= |cx.input| && cx.form.scopeStart != ""
    requires var f := FindTwoFrom(cx.input, cx.partial, begin, cx.form.scopeStart, cx.form.toolStart);
             f.Some? && f.value.begin == begin
    ensures var f := FindLiteral(cx.input, cx.partial, begin, cx.form.scopeStart);
            f.Some? && f.value.begin == begin && SecondAfter(cx.input, f.value.end, cx.form.toolStart).Some?
  {
    hide FindLiteral;
    hide SecondAfter;
    FindTwoStep(cx.input, cx.partial, begin, cx.form.scopeStart, cx.form.toolStart);
  }

  lemma ScopeEndIsAbsent(cx: Context, begin: nat)
    requires begin <= |cx.input| && OccursAt(cx.input, cx.form.scopeStart, begin) && ScopeEndsWithoutText(cx, begin)
    ensures AllSpace(cx.form.scopeEnd) && (cx.form.scopeEnd == "" || !Contains(cx.form.scopeStart, cx.form.scopeEnd))
  {
    var d, e := cx.form.scopeStart, cx.form.scopeEnd;
    if e != "" {
      forall i | 0 <= i <= |d|
        ensures OccursAt(d, e, i) ==> OccursAt(cx.input, e, begin + i)
      {
        if OccursAt(d, e, i) {
          SliceOfSlice(cx.input, begin, begin + |d|, i, i + |e|);
        }
      }
    }
  }

  /** The shortest text at which such a form stalls: its scope start and the first character of a tool start. */
  function StallText(form: Form): string
    requires CanStall(form)
  {
    form.scopeStart + [form.toolStart[0]]
  }

  /** A form that can stall does so at that text, if no more is to come. */
  lemma FormStalls(cx: Context)
    requires CanStall(cx.form) && cx.form.Valid() && !cx.partial && cx.input == StallText(cx.form)
    ensures FindStart(cx, 0) == Some(Found(0, |cx.input|)) && Stalls(cx, 0) && CursorAfter(cx.input, 0) == 0
  {
    var input, d, n := cx.input, cx.form.scopeStart, |cx.form.scopeStart|;
    assert input[0..n] == d && input[n] == cx.form.toolStart[0];
    assert OccursAt(input, d, 0);
    SkipsTo(input, 0, n);
    SkipsTo(input, n, n);
    assert input[n..n + 1] == cx.form.toolStart[..1];
    FindTwoStep(input, false, 0, d, cx.form.toolStart);
    NoToolStart(cx);
    NoScopeEnd(cx);
  }

  lemma NoToolStart(cx: Context)
    requires CanStall(cx.form) && !cx.partial && cx.input == StallText(cx.form)
    ensures FindLiteral(cx.input, cx.partial, 0, cx.form.toolStart).None?
  {
    var d := cx.form.toolStart;
    forall j | 0 <= j
      ensures OccursAt(cx.input, d, j) ==> j < |cx.input| && cx.input[j] == d[0]
    {
      CharacterOf(cx.input, d, j, 0);
    }
  }

  lemma NoScopeEnd(cx: Context)
    requires CanStall(cx.form) && !cx.partial && cx.input == StallText(cx.form)
    ensures ScopeEndsWithoutText(cx, 0)
  {
    var d, e := cx.form.scopeStart, cx.form.scopeEnd;
    if e == "" {
      assert OccursAt(cx.input, e, 0);
    } else {
      forall j | 0 <= j
        ensures OccursAt(cx.input, e, j) ==> j <= |d| && OccursAt(d, e, j)
      {
        if OccursAt(cx.input, e, j) {
          assert cx.input[j..j + |e|][|e| - 1] == cx.input[j + |e| - 1];
          assert cx.input[j..j + |e|] == d[j..j + |e|];
        }
      }
    }
  }
}
