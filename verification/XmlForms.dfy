/** The forms that the program ships: which of them the round trip covers, and what it says of them. */
module XmlForms {
  import opened Text
  import opened Utf8
  import opened XmlToolCalls
  import opened XmlRoundTrip

  const MINIMAX_M2: Form := Form("<minimax:tool_call>", "<invoke name=\"", "\">", "<parameter name=\"", "\">",
      "</parameter>",
    "</invoke>", "</minimax:tool_call>", None, None, None, None, false, false)

  const QWEN3_CODER: Form := Form("<tool_call>", "<function=", ">", "<parameter=", ">", "</parameter>",
    "</function>", "</tool_call>", None, None, None, None, true, false)

  const SEED_OSS: Form := Form("<seed:tool_call>", "<function=", ">", "<parameter=", ">", "</parameter>",
    "</function>", "</seed:tool_call>", None, None, None, None, false, false)

  const GLM_4_5: Form := Form("", "<tool_call>", "", "<arg_key>", "</arg_key>", "</arg_value>",
    "</tool_call>", "", Some("<arg_value>"), None, None, None, false, false)

  const APRIEL_1_5: Form := Form("<tool_calls>[", "{\"name\": \"", "\", \"arguments\": {", "\"", "\": ", ", ",
    "}, ", "]</tool_calls>", None, Some(false), Some(""), Some("}"), false, false)

  const KIMI_K2: Form := Form("<|tool_calls_section_begin|>", "<|tool_call_begin|>", "<|tool_call_argument_begin|>{",
    "\"", "\":", ",", "}<|tool_call_end|>", "<|tool_calls_section_end|>", None, Some(false), Some(""), None,
    false, true)

  const XIAOMI_MIMO: Form := Form("", "<tool_call>\n{\"name\": \"", "\", \"arguments\": {", "\"", "\": ", ", ",
    "}\n</tool_call>", "", None, Some(false), Some(""), None, false, false)

  /** Literals with an angle bracket, told apart by their second character; what ends a name or key begins with a
      bracket or a quotation mark. */
  predicate Bracketed(form: Form) {
    && form.Valid() && form.lastValEnd.None? && form.lastToolEnd.None?
    && form.toolStart[0] == form.keyStart[0] == form.valEnd[0] == form.toolEnd[0] == '<'
    && (form.toolSep == "" || form.toolSep[0] in "\">") && form.keyValSep[0] in "\"<>"
    && (form.keyValSep2.Some? ==> Solid(form.keyValSep2.value))
    && (form.scopeStart == "" || Solid(form.scopeStart))
    && (form.scopeEnd == "" ||
        (Solid(form.scopeEnd) && |form.toolStart| > 1 && |form.scopeEnd| > 1 && form.toolStart[1] != form.scopeEnd[1]))
    && |form.keyStart| > 1 && |form.toolEnd| > 1 && form.keyStart[1] != form.toolEnd[1]
    && '<' !in form.toolEnd[1..]
    && |form.valEnd| >= 9
  }

  lemma MinimaxIsBracketed()
    ensures Bracketed(MINIMAX_M2)
  {
  }

  lemma QwenIsBracketed()
    ensures Bracketed(QWEN3_CODER)
  {
  }

  lemma SeedIsBracketed()
    ensures Bracketed(SEED_OSS)
  {
  }

  lemma GlmIsBracketed()
    ensures Bracketed(GLM_4_5)
  {
  }

  lemma BracketedIsReadable(form: Form)
    requires Bracketed(form)
    ensures FormIsReadable(form)
  {
  }

  // ---- Names and keys without brackets and quotation marks are readable

  predicate Tame(s: string) {
    '<' !in s && '>' !in s && '"' !in s
  }

  predicate ArgIsTame(form: Form, a: WrittenArg) {
    AllSpace(a.gap) && AllSpace(a.gap2) && Tame(a.key) && EndsWith(a.text, form.valEnd)
  }

  predicate CallIsTame(form: Form, c: WrittenCall) {
    && AllSpace(c.gap) && AllSpace(c.pad) && AllSpace(c.endGap)
    && c.name != "" && Strip(c.name) == c.name && Tame(c.name)
    && DistinctKeys(c.args)
    && forall i :: 0 <= i < |c.args| ==> ArgIsTame(form, c.args[i])
  }

  lemma FirstCharacterDecides(text: string, d: string)
    requires d != "" && d[0] !in text
    ensures EndsWith(text, d) && Find(text, d, 0).None?
  {
    var whole := text + d;
    forall j | 0 <= j < |text|
      ensures !OccursAt(whole, d, j) && !OccursAt(text, d, j)
    {
      if OccursAt(whole, d, j) {
        FirstOfOccurrence(whole, d, j);
      }
      if OccursAt(text, d, j) {
        FirstOfOccurrence(text, d, j);
      }
    }
    assert OccursAt(whole, d, |text|);
  }

  lemma KeyCannotBegin(form: Form, text: string)
    requires Bracketed(form) && '<' !in text
    ensures CannotBeginIn(form.keyStart, text + form.toolEnd)
  {
    var whole := text + form.toolEnd;
    forall j | 0 <= j < |whole|
      ensures Apart(whole[j..], form.keyStart)
    {
      if j == |text| {
        assert whole[j..] == form.toolEnd;
      } else {
        assert whole[j] != '<';
        assert whole[j..][0] == whole[j];
      }
    }
  }

  lemma SpacesAreNo(spaces: string, c: char)
    requires AllSpace(spaces) && !IsSpace(c)
    ensures c !in spaces
  {
  }

  lemma {:induction false} TameNameIsReadable(form: Form, c: WrittenCall)
    requires Bracketed(form) && CallIsTame(form, c)
    ensures NameIsReadable(form, c)
  {
    hide EndsWith;
    hide Find;
    hide CannotBeginIn;
    hide DistinctKeys;
    hide Strip;
    var after := AfterPad(c);
    if c.args != [] {
      assert ArgIsTame(form, c.args[0]);
    }
    if form.toolSep != "" {
      SpacesAreNo(c.pad, form.toolSep[0]);
      SpacesAreNo(c.pad, '<');
      assert !AllSpace(form.toolSep) by { assert !IsSpace(form.toolSep[0]); }
      FirstCharacterDecides(c.name + c.pad, form.toolSep);
      FirstCharacterDecides(c.name + c.pad, form.toolEnd);
    } else {
      SpacesAreNo(c.pad, '<');
      SpacesAreNo(after, '<');
      var text := c.name + c.pad + after;
      FirstCharacterDecides(text, form.keyStart);
      FirstCharacterDecides(text, form.toolEnd);
      KeyCannotBegin(form, text);
    }
  }

  lemma TameCallIsReadable(form: Form, c: WrittenCall)
    requires Bracketed(form) && CallIsTame(form, c)
    ensures CallIsReadable(form, c)
  {
    hide EndsWith;
    hide Find;
    hide NameIsReadable;
    TameNameIsReadable(form, c);
    forall i | 0 <= i < |c.args|
      ensures ArgIsReadable(form, c.args[i])
    {
      assert ArgIsTame(form, c.args[i]);
      FirstCharacterDecides(c.args[i].key, form.keyValSep);
    }
  }

  // ---- Values: what the JSON library reads is what counts

  predicate NumberCharacter(c: char) {
    '0' <= c <= '9' || c in "+-.eE"
  }

  lemma NumbersHoldNoBracket(s: string)
    requires IsNumberSoFar(s)
    ensures '<' !in s
  {
    var i := SkipDigits(s, 1);
    var j := if i < |s| && s[i] == '.' then SkipDigits(s, i + 1) else i;
    forall k | 0 <= k < |s|
      ensures NumberCharacter(s[k])
    {
    }
  }

  lemma {:induction false} CutIsNearTheEnd(s: string, i: nat, back: nat)
    requires 0 < i <= |s| && back <= 4 && i + back == |s|
    ensures CutFrom(s, i, back) + 4 >= |s|
    decreases 4 - back
  {
    if back < 4 && i > 1 {
      CutIsNearTheEnd(s, i - 1, back + 1);
    }
  }

  /** In front of a value end that is long enough, nothing is taken for the beginning of JSON. */
  lemma NothingIsAwaited(cx: Context, text: string, pos: nat)
    requires Bracketed(cx.form) && OccursAt(cx.input, text + cx.form.valEnd, pos) && pos <= |cx.input|
    ensures !MayBecomeJson(RestAt(cx, pos))
  {
    var input, end := cx.input, pos + |text|;
    SplitAt(input, text, cx.form.valEnd, pos);
    FirstOfOccurrence(input, cx.form.valEnd, end);
    CutIsNearTheEnd(input, |input|, 0);
    var from, cut := SkipSpaces(input, pos), TruncateSafe(input);
    assert from <= end && end + 5 <= cut;
    var rest := input[from..cut];
    assert rest[end - from] == '<';
    if IsNumberSoFar(rest) {
      NumbersHoldNoBracket(rest);
    }
    BeginsWithCharacters(rest, "null", end - from);
    BeginsWithCharacters(rest, "true", end - from);
    BeginsWithCharacters(rest, "false", end - from);
  }

  lemma BeginsWithCharacters(rest: string, word: string, k: nat)
    requires k < |rest|
    ensures rest <= word ==> rest[k] in word
  {
  }

  /** What the JSON library makes of the text of an argument at pos: nothing, a value with something behind it, or a
      value that is the whole text but for white space. */
  predicate LibraryMeans(cx: Context, a: WrittenArg, pos: nat) {
    && pos + |a.text| <= |cx.input|
    && var r, end := cx.json.consume(cx.input, cx.partial, pos), pos + |a.text|;
       && (r.Some? ==> pos < r.value.end <= end)
       && a.value == if r.Some? && r.value.marker == "" && AllSpace(cx.input[r.value.end..end]) then r.value.value
                     else PlainText(cx.form, a.text)
  }

  lemma MeantByTheLibrary(cx: Context, a: WrittenArg, pos: nat)
    requires Bracketed(cx.form) && cx.form.rawArgval != Some(true) && EndsWith(a.text, cx.form.valEnd)
    requires OccursAt(cx.input, a.text + cx.form.valEnd, pos) && LibraryMeans(cx, a, pos)
    ensures ReadAsMeant(cx, a, pos)
  {
    hide EndsWith;
    hide FindValEnd;
    hide MayBecomeJson;
    hide RestAt;
    NothingIsAwaited(cx, a.text, pos);
    var d := Detect(cx, pos);
    if d.Some? {
      SplitAt(cx.input, a.text, cx.form.valEnd, pos);
      FirstOfOccurrence(cx.input, cx.form.valEnd, pos + |a.text|);
      ValueEndsAt(cx, a.text, pos, d.value.end);
    }
  }

  predicate LibraryMeansArgs(cx: Context, args: seq<WrittenArg>, pos: nat) {
    args == [] ||
    (LibraryMeans(cx, args[0], ValueStart(cx.form, args[0], pos)) &&
     LibraryMeansArgs(cx, args[1..], pos + |PrintArg(cx.form, args[0])|))
  }

  predicate LibraryMeansCalls(cx: Context, calls: seq<WrittenCall>, pos: nat) {
    calls == [] ||
    (LibraryMeansArgs(cx, calls[0].args, ArgsStart(cx.form, calls[0], pos)) &&
     LibraryMeansCalls(cx, calls[1..], pos + |PrintCall(cx.form, calls[0])|))
  }

  lemma ValueIsThere(cx: Context, a: WrittenArg, pos: nat)
    requires OccursAt(cx.input, PrintArg(cx.form, a), pos)
    ensures OccursAt(cx.input, a.text + cx.form.valEnd, ValueStart(cx.form, a, pos))
  {
    hide OccursAt;
    var form := cx.form;
    var value, sep2 := a.text + form.valEnd, PrintSep2(form, a);
    var key := a.key + form.keyValSep;
    SplitAt(cx.input, a.gap + form.keyStart, key + (sep2 + value), pos);
    SplitAt(cx.input, key, sep2 + value, pos + |a.gap + form.keyStart|);
    SplitAt(cx.input, sep2, value, pos + |a.gap + form.keyStart| + |key|);
  }

  lemma {:induction false} ArgsMeantByTheLibrary(cx: Context, args: seq<WrittenArg>, pos: nat)
    requires Bracketed(cx.form) && cx.form.rawArgval != Some(true)
    requires forall i :: 0 <= i < |args| ==> EndsWith(args[i].text, cx.form.valEnd)
    requires OccursAt(cx.input, PrintArgs(cx.form, args), pos) && LibraryMeansArgs(cx, args, pos)
    ensures ArgsAsMeant(cx, args, pos)
    decreases |args|
  {
    hide OccursAt;
    hide Bracketed;
    hide EndsWith;
    hide LibraryMeans;
    hide ReadAsMeant;
    hide PrintArg;
    hide ValueStart;
    if args != [] {
      SplitAt(cx.input, PrintArg(cx.form, args[0]), PrintArgs(cx.form, args[1..]), pos);
      ValueIsThere(cx, args[0], pos);
      MeantByTheLibrary(cx, args[0], ValueStart(cx.form, args[0], pos));
      ArgsMeantByTheLibrary(cx, args[1..], pos + |PrintArg(cx.form, args[0])|);
    }
  }

  lemma ArgsAreThere(cx: Context, c: WrittenCall, pos: nat)
    requires OccursAt(cx.input, PrintCall(cx.form, c), pos)
    ensures OccursAt(cx.input, PrintArgs(cx.form, c.args), ArgsStart(cx.form, c, pos))
  {
    hide OccursAt;
    hide PrintArgs;
    var form := cx.form;
    var args, close, sep := PrintArgs(form, c.args), c.endGap + form.toolEnd, PrintToolSep(form);
    var head, name := c.gap + form.toolStart, c.name + c.pad;
    SplitAt(cx.input, head, name + (sep + (args + close)), pos);
    SplitAt(cx.input, name, sep + (args + close), pos + |head|);
    SplitAt(cx.input, sep, args + close, pos + |head| + |name|);
    SplitAt(cx.input, args, close, pos + |head| + |name| + |sep|);
  }

  lemma {:induction false} CallsMeantByTheLibrary(cx: Context, calls: seq<WrittenCall>, pos: nat)
    requires Bracketed(cx.form) && cx.form.rawArgval != Some(true)
    requires forall i :: 0 <= i < |calls| ==> CallIsTame(cx.form, calls[i])
    requires OccursAt(cx.input, PrintCalls(cx.form, calls), pos) && LibraryMeansCalls(cx, calls, pos)
    ensures CallsAsMeant(cx, calls, pos)
    decreases |calls|
  {
    hide OccursAt;
    hide Bracketed;
    hide LibraryMeansArgs;
    hide ArgsAsMeant;
    hide PrintCall;
    hide ArgsStart;
    hide EndsWith;
    hide Strip;
    if calls != [] {
      var c := calls[0];
      SplitAt(cx.input, PrintCall(cx.form, c), PrintCalls(cx.form, calls[1..]), pos);
      ArgsAreThere(cx, c, pos);
      assert forall i :: 0 <= i < |c.args| ==> ArgIsTame(cx.form, c.args[i]);
      ArgsMeantByTheLibrary(cx, c.args, ArgsStart(cx.form, c, pos));
      CallsMeantByTheLibrary(cx, calls[1..], pos + |PrintCall(cx.form, c)|);
    }
  }

  /** The round trip for the forms of MiniMax M2, Qwen3 Coder, Seed OSS and GLM 4.5: calls whose names and keys hold no
      bracket and no quotation mark are read back, each value as JSON if the library reads its whole text as JSON, and
      else as text. */
  lemma ShippedCallsAreReadBack(cx: Context, gap: string, written: seq<WrittenCall>, endGap: string, start: nat,
                                calls: seq<ToolCall>)
    requires cx.form == MINIMAX_M2 || cx.form == QWEN3_CODER || cx.form == SEED_OSS || cx.form == GLM_4_5
    requires AllSpace(gap) && AllSpace(endGap) && start <= |cx.input|
    requires forall i :: 0 <= i < |written| ==>
        CallIsTame(cx.form, written[i]) && CallIsMeant(cx, written[i])
    requires OccursAt(cx.input, Print(cx.form, gap, written, endGap), start)
    requires LibraryMeansCalls(cx, written, start + |PrintScopeStart(cx.form, gap)|)
    requires cx.form == GLM_4_5 ==>
      endGap == "" && NotNext(cx, start + |Print(cx.form, gap, written, endGap)|, cx.form.toolStart)
    ensures cx.form.Valid()
    ensures TryConsume(cx, start, calls) ==
            Returned(true, start + |Print(cx.form, gap, written, endGap)|, calls + CallsOf(cx, written))
  {
    MinimaxIsBracketed();
    QwenIsBracketed();
    SeedIsBracketed();
    GlmIsBracketed();
    hide Bracketed;
    assert Bracketed(cx.form) && cx.form.rawArgval.None?;
    assert cx.form.scopeEnd == "" ==> cx.form == GLM_4_5;
    hide *;
    BracketedCallsAreReadBack(cx, gap, written, endGap, start, calls);
  }

  lemma {:induction false} BracketedCallsAreReadBack(cx: Context, gap: string, written: seq<WrittenCall>,
      endGap: string,
                                                     start: nat, calls: seq<ToolCall>)
    requires Bracketed(cx.form) && cx.form.rawArgval.None?
    requires AllSpace(gap) && AllSpace(endGap) && start <= |cx.input|
    requires forall i :: 0 <= i < |written| ==>
        CallIsTame(cx.form, written[i]) && CallIsMeant(cx, written[i])
    requires OccursAt(cx.input, Print(cx.form, gap, written, endGap), start)
    requires LibraryMeansCalls(cx, written, start + |PrintScopeStart(cx.form, gap)|)
    requires cx.form.scopeEnd == "" ==>
      endGap == "" && NotNext(cx, start + |Print(cx.form, gap, written, endGap)|, cx.form.toolStart)
    ensures TryConsume(cx, start, calls) ==
            Returned(true, start + |Print(cx.form, gap, written, endGap)|, calls + CallsOf(cx, written))
  {
    hide OccursAt;
    hide CallIsTame;
    hide CallIsReadable;
    hide PrintCalls;
    hide PrintScopeStart;
    hide LibraryMeansCalls;
    hide CallsAsMeant;
    hide NotNext;
    hide CallIsMeant;
    hide TryConsume;
    hide CallsOf;
    BracketedIsReadable(cx.form);
    var body, tail := PrintCalls(cx.form, written), endGap + cx.form.scopeEnd;
    SplitAt(cx.input, PrintScopeStart(cx.form, gap), body + tail, start);
    SplitAt(cx.input, body, tail, start + |PrintScopeStart(cx.form, gap)|);
    CallsMeantByTheLibrary(cx, written, start + |PrintScopeStart(cx.form, gap)|);
    forall i | 0 <= i < |written|
      ensures CallIsReadable(cx.form, written[i])
    {
      TameCallIsReadable(cx.form, written[i]);
    }
    PrintedCallsAreReadBack(cx, gap, written, endGap, start, calls);
  }
}
