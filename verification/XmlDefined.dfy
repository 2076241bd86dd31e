/** When the XML-style parser fails an assertion or uses an empty optional. */
module XmlDefined {
  import opened Text
  import opened XmlToolCalls
  import opened XmlRoundTrip
  import opened XmlForms

  // ---- The name of a call

  function NameLiteral(form: Form): string {
    if AllSpace(form.toolSep) then form.keyStart else form.toolSep
  }

  /** In front of the literal that ends the name stands the alternative end of a call, but not as the end of the last
      call, and no other end of a call follows. */
  predicate Trapped(cx: Context, pos: nat)
    requires pos <= |cx.input|
  {
    var name := FindLiteral(cx.input, cx.partial, pos, NameLiteral(cx.form));
    && cx.form.lastToolEnd.Some? && name.Some?
    && Contains(cx.input[pos..name.value.begin], cx.form.lastToolEnd.value)
    && FindTwo(cx.input, cx.partial, pos, cx.form.lastToolEnd.value, cx.form.scopeEnd).None?
    && FindLiteral(cx.input, cx.partial, pos, cx.form.toolEnd).None?
  }

  lemma FoundBeyond(input: string, pos: nat, begin: nat, d: string)
    requires pos <= begin <= |input| && Find(input[pos..begin], d, 0).Some?
    ensures Find(input, d, pos).Some?
  {
    var i := Find(input[pos..begin], d, 0).value;
    SliceOfSlice(input, pos, begin, i, i + |d|);
    assert OccursAt(input, d, pos + i);
  }

  lemma NoToolEndFound(cx: Context, pos: nat)
    requires pos <= |cx.input|
    ensures FindToolEnd(cx, pos).found.None? <==>
            && FindLiteral(cx.input, cx.partial, pos, cx.form.toolEnd).None?
            && (cx.form.lastToolEnd.Some? ==>
                  FindTwo(cx.input, cx.partial, pos, cx.form.lastToolEnd.value, cx.form.scopeEnd).None?)
  {
    hide FindLiteral;
    hide FindTwo;
  }

  /** The name of a call reads an empty optional exactly if it is trapped. */
  lemma EmptyOptionalExactly(cx: Context, pos: nat)
    requires pos <= |cx.input|
    ensures FindNameEnd(cx, pos) == NoNameEnd(true) <==> Trapped(cx, pos)
  {
    hide Find;
    hide FindTwo;
    hide FindToolEnd;
    NoToolEndFound(cx, pos);
    var first := FindLiteral(cx.input, cx.partial, pos, NameLiteral(cx.form));
    if first.Some? {
      var prelude := cx.input[pos..first.value.begin];
      if Find(prelude, cx.form.toolEnd, 0).Some? {
        FoundBeyond(cx.input, pos, first.value.begin, cx.form.toolEnd);
      }
      if cx.form.lastToolEnd.Some? {
        FoundIsContained(prelude, cx.form.lastToolEnd.value);
      }
    }
  }

  lemma FoundIsContained(s: string, d: string)
    ensures Find(s, d, 0).Some? <==> Contains(s, d)
  {
  }

  // ---- A JSON value at the end of the input

  /** The dump holds the healing marker, or without one ends with a brace. */
  predicate IsWhole(dump: string, marker: string) {
    if marker != "" then exists i :: 0 <= i <= |dump| && OccursAt(dump, marker, i)
    else dump != "" && dump[|dump| - 1] == '}'
  }

  /** An assertion about a JSON value at the end of the input fails exactly if the dump is not whole. */
  lemma AssertionFailsExactly(cx: Context, name: string, key: string, json: JsonArg, args: Args, calls: seq<ToolCall>)
    ensures JsonAtEnd(cx, name, key, json, args, calls).Undefined? <==>
            && cx.form.rawArgval == Some(false) && json.structured
            && !IsWhole(cx.json.dump(SetArg(args, key, json.value)), json.dumpMarker)
  {
    hide AddPartialCall;
    hide AddCall;
    hide SetArg;
  }

  /** Whatever structured value is set in whatever arguments, their dump is whole. */
  ghost predicate DumpsAreWhole(cx: Context) {
    forall pos: nat, args: Args, key: string
      {:trigger Detect(cx, pos), SetArg(args, key, Detect(cx, pos).value.value)} ::
      pos <= |cx.input| && Detect(cx, pos).Some? && Detect(cx, pos).value.structured ==>
      IsWhole(cx.json.dump(SetArg(args, key, Detect(cx, pos).value.value)), Detect(cx, pos).value.dumpMarker)
  }

  // ---- Exactly when the whole parse fails

  /** Where the value of the argument at pos begins, and its key, if both separators stand where they should. */
  function ValueMet(cx: Context, pos: nat): (r: Option<(nat, string)>)
    requires pos <= |cx.input|
    ensures r.Some? ==> r.value.0 <= |cx.input|
  {
    var input, partial, form := cx.input, cx.partial, cx.form;
    var start := FindLiteral(input, partial, pos, form.keyStart);
    if start.None? || !AllSpace(input[pos..start.value.begin])
       || start.value.end - start.value.begin != |form.keyStart| then None
    else
      var sep := FindLiteral(input, partial, start.value.end, form.keyValSep);
      if sep.None? || sep.value.end - sep.value.begin != |form.keyValSep| then None
      else
        var key := input[start.value.end..sep.value.begin];
        if form.keyValSep2.None? then Some((sep.value.end, key))
        else
          var sep2 := FindLiteral(input, partial, sep.value.end, form.keyValSep2.value);
          if sep2.None? || !AllSpace(input[sep.value.end..sep2.value.begin])
             || sep2.value.end - sep2.value.begin != |form.keyValSep2.value| then None
          else Some((sep2.value.end, key))
  }

  /** The input ends behind a JSON value that has to be dumped, and the dump is not whole. */
  predicate BreaksOff(cx: Context, pos: nat, key: string, args: Args)
    requires pos <= |cx.input|
  {
    var d := Detect(cx, pos);
    && d.Some? && SkipSpaces(cx.input, d.value.end) == |cx.input|
    && cx.form.rawArgval == Some(false) && d.value.structured
    && !IsWhole(cx.json.dump(SetArg(args, key, d.value.value)), d.value.dumpMarker)
  }

  lemma ValueFailsExactly(cx: Context, pos: nat, name: string, key: string, args: Args, calls: seq<ToolCall>)
    requires pos <= |cx.input|
    ensures ValueAt(cx, pos, name, key, args, calls) == StopAt(Undefined) <==> BreaksOff(cx, pos, key, args)
  {
    hide FindValEnd;
    hide AddPartialCall;
    hide JsonAtEnd;
    hide IsWhole;
    var d := Detect(cx, pos);
    hide Detect;
    if d.Some? {
      AssertionFailsExactly(cx, name, key, d.value, args, calls);
    }
  }

  lemma ArgFailsExactly(cx: Context, pos: nat, name: string, args: Args, calls: seq<ToolCall>)
    requires pos <= |cx.input| && cx.form.Valid()
    ensures ReadArg(cx, pos, name, args, calls) == StopAt(Undefined) <==>
            var met := ValueMet(cx, pos); met.Some? && BreaksOff(cx, met.value.0, met.value.1, args)
  {
    hide FindLiteral;
    hide AddPartialCall;
    hide ValueAt;
    hide BreaksOff;
    var met := ValueMet(cx, pos);
    if met.Some? {
      ValueFailsExactly(cx, met.value.0, name, met.value.1, args, calls);
    }
  }

  /** Where the loop over arguments stands after n of them, and what it has read. */
  function ArgsMetAt(cx: Context, pos: nat, name: string, args: Args, calls: seq<ToolCall>, n: nat):
      (r: Option<(nat, Args)>)
    requires pos <= |cx.input| && cx.form.Valid()
    ensures r.Some? ==> r.value.0 <= |cx.input|
    decreases n
  {
    if n == 0 then Some((pos, args))
    else
      match ReadArg(cx, pos, name, args, calls)
      case NextArg(pos', args') => ArgsMetAt(cx, pos', name, args', calls, n - 1)
      case _ => None
  }

  /** At some argument that is met, the value breaks off. */
  ghost predicate SomeValueBreaksOff(cx: Context, pos: nat, name: string, args: Args, calls: seq<ToolCall>)
    requires pos <= |cx.input| && cx.form.Valid()
  {
    exists n: nat :: ValueBreaksOffAt(cx, pos, name, args, calls, n)
  }

  predicate ValueBreaksOffAt(cx: Context, pos: nat, name: string, args: Args, calls: seq<ToolCall>, n: nat)
    requires pos <= |cx.input| && cx.form.Valid()
  {
    var at := ArgsMetAt(cx, pos, name, args, calls, n);
    at.Some? && var met := ValueMet(cx, at.value.0); met.Some? && BreaksOff(cx, met.value.0, met.value.1, at.value.1)
  }

  lemma {:induction false} ArgsFailExactly(cx: Context, pos: nat, name: string, args: Args, recovery: bool,
      calls: seq<ToolCall>)
    requires pos <= |cx.input| && cx.form.Valid()
    ensures ReadArgs(cx, pos, name, args, recovery, calls) == ArgsStopped(Undefined) <==>
            SomeValueBreaksOff(cx, pos, name, args, calls)
    decreases |cx.input| - pos
  {
    hide ReadArg;
    hide ValueMet;
    hide BreaksOff;
    ArgFailsExactly(cx, pos, name, args, calls);
    var t := ReadArg(cx, pos, name, args, calls);
    assert ValueBreaksOffAt(cx, pos, name, args, calls, 0) <==> t == StopAt(Undefined);
    if t.NextArg? {
      ArgsFailExactly(cx, t.pos, name, t.args, false, calls);
      forall n: nat
        ensures ValueBreaksOffAt(cx, pos, name, args, calls, n + 1) <==>
                ValueBreaksOffAt(cx, t.pos, name, t.args, calls, n)
      {
      }
      if n: nat :| ValueBreaksOffAt(cx, pos, name, args, calls, n) {
        assert n > 0 && ValueBreaksOffAt(cx, t.pos, name, t.args, calls, n - 1);
      }
    } else {
      forall n: nat | n > 0
        ensures !ValueBreaksOffAt(cx, pos, name, args, calls, n)
      {
      }
    }
  }

  /** A call is next, and its name is trapped or one of its values breaks off. */
  ghost predicate CallIsFatal(cx: Context, pos: nat, calls: seq<ToolCall>)
    requires pos <= |cx.input| && cx.form.Valid()
  {
    && !NotNext(cx, pos, cx.form.toolStart)
    && var nameAt := FindLiteral(cx.input, cx.partial, pos, cx.form.toolStart).value.end;
       || Trapped(cx, nameAt)
       || (var end := FindNameEnd(cx, nameAt);
           && end.NameEnd?
           && SomeValueBreaksOff(cx, if AllSpace(cx.form.toolSep) then end.at.begin else end.at.end,
                                 FunctionName(cx, cx.input[nameAt..end.at.begin]), [], calls))
  }

  lemma CallFailsExactly(cx: Context, start: nat, pos: nat, recovery: bool, calls: seq<ToolCall>)
    requires pos <= |cx.input| && cx.form.Valid()
    ensures ReadCall(cx, start, pos, recovery, calls) == StopCalls(Undefined) <==> CallIsFatal(cx, pos, calls)
  {
    hide FindLiteral;
    hide FindNameEnd;
    hide ReadArgs;
    hide FunctionName;
    hide FindToolEnd;
    hide Trapped;
    hide SomeValueBreaksOff;
    if !NotNext(cx, pos, cx.form.toolStart) {
      var nameAt := FindLiteral(cx.input, cx.partial, pos, cx.form.toolStart).value.end;
      EmptyOptionalExactly(cx, nameAt);
      var end := FindNameEnd(cx, nameAt);
      if end.NameEnd? {
        ArgsFailExactly(cx, if AllSpace(cx.form.toolSep) then end.at.begin else end.at.end,
                        FunctionName(cx, cx.input[nameAt..end.at.begin]), [], recovery, calls);
      }
    }
  }

  /** Where the loop over calls stands after n of them, and what it has read. */
  function CallsMetAt(cx: Context, start: nat, pos: nat, recovery: bool, calls: seq<ToolCall>, n: nat):
      (r: Option<(nat, seq<ToolCall>)>)
    requires pos <= |cx.input| && cx.form.Valid()
    ensures r.Some? ==> r.value.0 <= |cx.input|
    decreases n
  {
    if n == 0 then Some((pos, calls))
    else
      match ReadCall(cx, start, pos, recovery, calls)
      case NextCall(pos', calls') => CallsMetAt(cx, start, pos', false, calls', n - 1)
      case _ => None
  }

  ghost predicate FatalAt(cx: Context, start: nat, pos: nat, recovery: bool, calls: seq<ToolCall>, n: nat)
    requires pos <= |cx.input| && cx.form.Valid()
  {
    var at := CallsMetAt(cx, start, pos, recovery, calls, n);
    at.Some? && CallIsFatal(cx, at.value.0, at.value.1)
  }

  lemma {:induction false} CallsFailExactly(cx: Context, start: nat, pos: nat, recovery: bool, calls: seq<ToolCall>)
    requires pos <= |cx.input| && cx.form.Valid()
    ensures ReadCalls(cx, start, pos, recovery, calls) == Undefined <==>
            exists n: nat :: FatalAt(cx, start, pos, recovery, calls, n)
    decreases |cx.input| - pos
  {
    hide ReadCall;
    hide CallIsFatal;
    CallFailsExactly(cx, start, pos, recovery, calls);
    var t := ReadCall(cx, start, pos, recovery, calls);
    assert FatalAt(cx, start, pos, recovery, calls, 0) <==> t == StopCalls(Undefined);
    if t.NextCall? {
      CallsFailExactly(cx, start, t.pos, false, t.calls);
      forall n: nat
        ensures FatalAt(cx, start, pos, recovery, calls, n + 1) <==> FatalAt(cx, start, t.pos, false, t.calls, n)
      {
      }
      if n: nat :| FatalAt(cx, start, pos, recovery, calls, n) {
        assert n > 0 && FatalAt(cx, start, t.pos, false, t.calls, n - 1);
      }
    } else {
      forall n: nat | n > 0
        ensures !FatalAt(cx, start, pos, recovery, calls, n)
      {
      }
      ScopeIsDefined(cx, start, pos, recovery, calls);
    }
  }

  lemma ScopeIsDefined(cx: Context, start: nat, pos: nat, recovery: bool, calls: seq<ToolCall>)
    requires pos <= |cx.input|
    ensures !CloseScope(cx, start, pos, recovery, calls).Undefined?
  {
    hide FindLiteral;
  }

  /** Where the first call is looked for. */
  function CallsStart(cx: Context, start: nat): (r: Option<nat>)
    requires start <= |cx.input|
    ensures r.Some? ==> start <= r.value <= |cx.input|
  {
    if AllSpace(cx.form.scopeStart) then Some(start)
    else
      var scope := FindLiteral(cx.input, cx.partial, start, cx.form.scopeStart);
      if scope.Some? && AllSpace(cx.input[start..scope.value.begin])
         && scope.value.end - scope.value.begin == |cx.form.scopeStart| then Some(scope.value.end)
      else None
  }

  /** The whole parse uses an empty optional or fails an assertion exactly if, after some number of calls that are read,
      one is next whose name is trapped or one of whose values breaks off. */
  lemma ParseFailsExactly(cx: Context, start: nat, calls: seq<ToolCall>)
    requires start <= |cx.input| && cx.form.Valid()
    ensures TryConsume(cx, start, calls).Undefined? <==>
            && CallsStart(cx, start).Some?
            && exists n: nat :: FatalAt(cx, start, CallsStart(cx, start).value, true, calls, n)
  {
    hide ReadCalls;
    hide FindLiteral;
    hide FatalAt;
    var pos := CallsStart(cx, start);
    if pos.Some? {
      CallsFailExactly(cx, start, pos.value, true, calls);
    }
  }

  // ---- Forms and inputs for which the parse never fails

  /** Behind no start of a call is the name trapped. */
  ghost predicate NoNameIsTrapped(cx: Context) {
    forall pos: nat {:trigger Trapped(cx, pos)} ::
      |cx.form.toolStart| <= pos <= |cx.input| && OccursAt(cx.input, cx.form.toolStart, pos - |cx.form.toolStart|) ==>
      !Trapped(cx, pos)
  }

  ghost predicate IsHarmless(cx: Context) {
    && cx.form.Valid() && NoNameIsTrapped(cx) && (cx.form.rawArgval == Some(false) ==> DumpsAreWhole(cx))
  }

  /** Without an alternative end of a call, and without values that must be JSON, every input is harmless. */
  lemma PlainFormsAreHarmless(cx: Context)
    requires cx.form.Valid() && cx.form.lastToolEnd.None? && cx.form.rawArgval != Some(false)
    ensures IsHarmless(cx)
  {
  }

  /** Behind the start of a call there is no trap: the whole literal stands there, or the input is at its end. */
  lemma NameIsDefined(cx: Context, pos: nat)
    requires pos <= |cx.input| && IsHarmless(cx)
    ensures var tool := FindLiteral(cx.input, cx.partial, pos, cx.form.toolStart);
            tool.Some? ==> FindNameEnd(cx, tool.value.end) != NoNameEnd(true)
  {
    hide FindNameEnd;
    hide DumpsAreWhole;
    hide FindTwo;
    var tool := FindLiteral(cx.input, cx.partial, pos, cx.form.toolStart);
    if tool.Some? {
      EmptyOptionalExactly(cx, tool.value.end);
      if Find(cx.input, cx.form.toolStart, pos).None? {
        NothingIsFoundAtTheEnd(cx);
      }
    }
  }

  lemma NothingIsFoundAtTheEnd(cx: Context)
    requires cx.form.Valid()
    ensures FindLiteral(cx.input, cx.partial, |cx.input|, NameLiteral(cx.form)).None?
  {
    assert NameLiteral(cx.form) != "";
  }

  lemma {:induction false} HarmlessIsNotFatal(cx: Context, pos: nat, calls: seq<ToolCall>)
    requires pos <= |cx.input| && IsHarmless(cx)
    ensures cx.form.Valid() && !CallIsFatal(cx, pos, calls)
  {
    hide FindLiteral;
    hide FindNameEnd;
    hide Trapped;
    hide ValueMet;
    hide ArgsMetAt;
    hide FunctionName;
    hide NoNameIsTrapped;
    NameIsDefined(cx, pos);
    if !NotNext(cx, pos, cx.form.toolStart) {
      EmptyOptionalExactly(cx, FindLiteral(cx.input, cx.partial, pos, cx.form.toolStart).value.end);
    }
    forall at: nat, key, args | at <= |cx.input|
      ensures !BreaksOff(cx, at, key, args)
    {
      WholeDumpsHold(cx, at, key, args);
    }
  }

  lemma WholeDumpsHold(cx: Context, at: nat, key: string, args: Args)
    requires at <= |cx.input| && IsHarmless(cx)
    ensures !BreaksOff(cx, at, key, args)
  {
    hide Detect;
    hide IsWhole;
    hide NoNameIsTrapped;
  }

  /** If no name is trapped and every dump is whole, no assertion fails and no empty optional is used. */
  lemma {:induction false} ParseIsDefined(cx: Context, start: nat, calls: seq<ToolCall>)
    requires start <= |cx.input| && IsHarmless(cx)
    ensures cx.form.Valid() && !TryConsume(cx, start, calls).Undefined?
  {
    hide TryConsume;
    hide CallIsFatal;
    hide NoNameIsTrapped;
    hide DumpsAreWhole;
    ParseFailsExactly(cx, start, calls);
    var pos := CallsStart(cx, start);
    if pos.Some? {
      forall n: nat
        ensures !FatalAt(cx, start, pos.value, true, calls, n)
      {
        var at := CallsMetAt(cx, start, pos.value, true, calls, n);
        if at.Some? {
          HarmlessIsNotFatal(cx, at.value.0, at.value.1);
        }
      }
    }
  }

  /** Without an alternative end of a call, and without values that must be JSON, the parse never fails so. */
  lemma PlainFormsAreDefined(cx: Context, start: nat, calls: seq<ToolCall>)
    requires cx.form.Valid() && cx.form.lastToolEnd.None? && cx.form.rawArgval != Some(false) && start <= |cx.input|
    ensures !TryConsume(cx, start, calls).Undefined?
  {
    hide TryConsume;
    PlainFormsAreHarmless(cx);
    ParseIsDefined(cx, start, calls);
  }

  /** A trapped name of the first call makes the whole parse use an empty optional. */
  lemma TrappedFirstNameFails(cx: Context, start: nat, calls: seq<ToolCall>)
    requires start <= |cx.input| && cx.form.Valid() && CallsStart(cx, start).Some?
    requires var pos := CallsStart(cx, start).value;
             && !NotNext(cx, pos, cx.form.toolStart)
             && Trapped(cx, FindLiteral(cx.input, cx.partial, pos, cx.form.toolStart).value.end)
    ensures TryConsume(cx, start, calls).Undefined?
  {
    hide TryConsume;
    hide Trapped;
    hide FindLiteral;
    hide NotNext;
    ParseFailsExactly(cx, start, calls);
    assert FatalAt(cx, start, CallsStart(cx, start).value, true, calls, 0);
  }

  // ---- A shipped form with a trap

  const BRACE := "}\", \"arguments\": {"

  /** The form of Apriel 1.5: a brace as the name of a call is taken for the end of the last call, so that an empty
      optional is read, by the search for the end of the name and by the whole parse. */
  lemma AprielExample(json: JsonLibrary, calls: seq<ToolCall>) returns (cx: Context)
    ensures cx.form == APRIEL_1_5 && cx.form.Valid() && cx.json == json && !cx.partial
    ensures cx.input == cx.form.scopeStart + (cx.form.toolStart + BRACE)
    ensures FindNameEnd(cx, 23) == NoNameEnd(true)
    ensures TryConsume(cx, 0, calls).Undefined?
  {
    cx := Context(APRIEL_1_5.scopeStart + (APRIEL_1_5.toolStart + BRACE), false, APRIEL_1_5, json, false);
    assert |APRIEL_1_5.scopeStart| == 13 && |APRIEL_1_5.toolStart| == 10;
    PartsAreFound(cx, cx.form.scopeStart, cx.form.toolStart, BRACE);
    hide *;
    BraceIsTrapped(cx, 23);
    EmptyOptionalExactly(cx, 23);
    AprielFails(cx, calls);
  }

  lemma PartsAreFound(cx: Context, first: string, second: string, rest: string)
    requires cx.input == first + (second + rest)
    ensures FindLiteral(cx.input, cx.partial, 0, first) == Some(Found(0, |first|))
    ensures FindLiteral(cx.input, cx.partial, |first|, second) == Some(Found(|first|, |first| + |second|))
    ensures cx.input[|first| + |second|..] == rest
  {
    assert OccursAt(cx.input, first + (second + rest), 0);
    SplitAt(cx.input, first, second + rest, 0);
    SplitAt(cx.input, second, rest, |first|);
    LiteralIsNext(cx, first, 0);
    LiteralIsNext(cx, second, |first|);
  }

  lemma AprielFails(cx: Context, calls: seq<ToolCall>)
    requires cx.form == APRIEL_1_5 && 23 <= |cx.input| && Trapped(cx, 23)
    requires FindLiteral(cx.input, cx.partial, 0, cx.form.scopeStart) == Some(Found(0, 13))
    requires FindLiteral(cx.input, cx.partial, 13, cx.form.toolStart) == Some(Found(13, 23))
    ensures cx.form.Valid() && TryConsume(cx, 0, calls).Undefined?
  {
    hide Trapped;
    hide FindLiteral;
    hide TryConsume;
    assert cx.form.scopeStart[0] == '<';
    assert CallsStart(cx, 0) == Some(13);
    TrappedFirstNameFails(cx, 0, calls);
  }

  lemma LiteralIsNext(cx: Context, literal: string, pos: nat)
    requires OccursAt(cx.input, literal, pos)
    ensures FindLiteral(cx.input, cx.partial, pos, literal) == Some(Found(pos, pos + |literal|))
  {
  }

  /** Of the text only the first character is a brace. */
  lemma BraceIsFirst(input: string, pos: nat, d: string, j: nat)
    requires pos <= |input| && input[pos..] == BRACE && pos < j
    requires d != "" && d[0] == '}'
    ensures !OccursAt(input, d, j)
  {
    assert forall k :: 1 <= k < 18 ==> BRACE[k] != '}';
    assert j < |input| ==> input[j] == input[pos..][j - pos];
    CharacterOf(input, d, j, 0);
  }

  lemma FoundBehindOne(cx: Context, pos: nat, sep: string)
    requires pos <= |cx.input| && cx.input[pos..] == "}" + sep && sep != "" && sep[0] != '}'
    ensures FindLiteral(cx.input, cx.partial, pos, sep) == Some(Found(pos + 1, pos + 1 + |sep|))
    ensures pos < |cx.input| && cx.input[pos..pos + 1] == "}"
  {
    SplitAt(cx.input, "}", sep, pos);
    assert cx.input[pos] == ("}" + sep)[0];
    CharacterOf(cx.input, sep, pos, 0);
    assert Find(cx.input, sep, pos) == Some(pos + 1);
  }

  lemma SeparatorIsFound(cx: Context, pos: nat)
    requires cx.form == APRIEL_1_5 && pos <= |cx.input| && cx.input[pos..] == BRACE
    ensures FindLiteral(cx.input, cx.partial, pos, NameLiteral(cx.form)) ==
        Some(Found(pos + 1, pos + 1 + |cx.form.toolSep|))
    ensures pos < |cx.input| && cx.input[pos..pos + 1] == "}"
  {
    hide FindLiteral;
    assert !IsSpace(APRIEL_1_5.toolSep[0]);
    assert BRACE == "}" + APRIEL_1_5.toolSep;
    FoundBehindOne(cx, pos, APRIEL_1_5.toolSep);
  }

  lemma BraceIsTrapped(cx: Context, pos: nat)
    requires cx.form == APRIEL_1_5 && !cx.partial
    requires pos <= |cx.input| && cx.input[pos..] == BRACE
    ensures Trapped(cx, pos)
  {
    SeparatorIsFound(cx, pos);
    assert OccursAt("}", "}", 0);
    NoToolEndBehind(cx, pos);
    hide FindLiteral;
    hide FindTwo;
  }

  lemma NoToolEndBehind(cx: Context, pos: nat)
    requires cx.form == APRIEL_1_5 && !cx.partial
    requires pos <= |cx.input| && cx.input[pos..] == BRACE
    ensures FindLiteral(cx.input, cx.partial, pos, cx.form.toolEnd).None?
    ensures FindTwo(cx.input, cx.partial, pos, cx.form.lastToolEnd.value, cx.form.scopeEnd).None?
  {
    var input := cx.input;
    forall j | pos < j
      ensures !OccursAt(input, "}", j) && !OccursAt(input, "}, ", j)
    {
      BraceIsFirst(input, pos, "}", j);
      BraceIsFirst(input, pos, "}, ", j);
    }
    assert input[pos + 1] == BRACE[1] == '"';
    CharacterOf(input, "}, ", pos, 1);
    assert Find(input, "}, ", pos).None?;
    var second := cx.form.scopeEnd;
    SecondIsOther(input, pos + 1, second);
    assert FindTwoFrom(input, false, pos + 1, "}", second).None?;
    assert OccursAt(input, "}", pos) || FindTwoFrom(input, false, pos, "}", second).None?;
  }
}
