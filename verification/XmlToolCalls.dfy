/** The XML-style tool-call parser, as a function of the input and of the cursor.
    Each group of functions is one loop or one helper of `parse_xml_tool_calls`. */
module XmlToolCalls {
  import opened Text
  import opened Utf8

  datatype Form = Form(
    scopeStart: string,
    toolStart: string,
    toolSep: string,
    keyStart: string,
    keyValSep: string,
    valEnd: string,
    toolEnd: string,
    scopeEnd: string,
    keyValSep2: Option<string>,
    rawArgval: Option<bool>,
    lastValEnd: Option<string>,
    lastToolEnd: Option<string>,
    trimRawArgval: bool,
    allowToolcallInThink: bool)
  {
    /** The assertions at the head of `parse_xml_tool_calls`. */
    predicate Valid() {
      toolStart != "" && keyStart != "" && keyValSep != "" && valEnd != "" && toolEnd != ""
    }
  }

  /** An argument is plain text, or a JSON value that is never looked into. */
  datatype ArgValue = Plain(text: string) | Json(raw: string)

  /** The ordered JSON object of arguments. */
  type Args = seq<(string, ArgValue)>

  /** `arguments[key] = value`: replaces in place, or appends. */
  function SetArg(args: Args, key: string, value: ArgValue): Args {
    if args == [] then [(key, value)]
    else if args[0].0 == key then [(key, value)] + args[1..]
    else [args[0]] + SetArg(args[1..], key, value)
  }

  datatype ToolCall = ToolCall(name: string, arguments: string)

  /** What trying to read JSON at a value start gives: the value, whether it is a string, object or
      array, the two healing markers (empty when nothing was healed) and where the reading stopped. */
  datatype JsonArg = JsonArg(value: ArgValue, structured: bool, marker: string, dumpMarker: string, end: nat)

  /** The parts of the JSON library that the parser calls. */
  datatype JsonLibrary = JsonLibrary(
    dump: Args -> string,
    consume: (string, bool, nat) -> Option<JsonArg>)

  /** What stays fixed during one parse. */
  datatype Context = Context(input: string, partial: bool, form: Form, json: JsonLibrary, kimi: bool)

  /** A literal found at [begin, end). Its prelude is the text from the cursor to begin. */
  datatype Found = Found(begin: nat, end: nat)

  ghost predicate FoundIn(input: string, from: nat, f: Option<Found>) {
    f.Some? ==> from <= f.value.begin <= f.value.end <= |input|
  }

  /** `try_find_literal`: a full occurrence, or in partial mode the held-back suffix of the input. */
  function FindLiteral(input: string, partial: bool, pos: nat, literal: string): (r: Option<Found>)
    requires pos <= |input|
    ensures FoundIn(input, pos, r)
    ensures r.Some? && literal != "" ==> r.value.begin < r.value.end
  {
    var idx := Find(input, literal, pos);
    if idx.Some? then Some(Found(idx.value, idx.value + |literal|))
    else if !partial then None
    else
      var held := PartialStop(input, literal);
      if held.Some? && pos <= held.value then Some(Found(held.value, |input|)) else None
  }

  /** Where `second` ends if, behind spaces, it comes next; the input may end inside it. */
  function SecondAfter(input: string, at: nat, second: string): (r: Option<nat>)
    requires at <= |input|
    ensures r.Some? ==> at <= r.value <= |input|
  {
    var next := SkipSpaces(input, at);
    var n := if |second| <= |input| - next then |second| else |input| - next;
    if input[next..next + n] == second[..n] then Some(next + n) else None
  }

  /** `try_find_2_literal_splited_by_spaces`, from the cursor of one turn of its loop. */
  function FindTwoFrom(input: string, partial: bool, pos: nat, first: string, second: string): (r: Option<Found>)
    requires pos <= |input| && first != ""
    ensures FoundIn(input, pos, r)
    ensures r.Some? ==> r.value.begin < r.value.end
    decreases |input| - pos
  {
    var f := FindLiteral(input, partial, pos, first);
    if f.None? then None
    else
      var end := SecondAfter(input, f.value.end, second);
      if end.Some? then Some(Found(f.value.begin, end.value))
      else FindTwoFrom(input, partial, f.value.begin + 1, first, second)
  }

  lemma FindTwoStep(input: string, partial: bool, pos: nat, first: string, second: string)
    requires pos <= |input| && first != ""
    ensures var f := FindLiteral(input, partial, pos, first);
            && (f.None? ==> FindTwoFrom(input, partial, pos, first, second) == None)
            && (f.Some? ==>
                  var end := SecondAfter(input, f.value.end, second);
                  && pos <= f.value.begin < f.value.end <= |input|
                  && FindTwoFrom(input, partial, pos, first, second) ==
                       if end.Some? then Some(Found(f.value.begin, end.value))
                       else FindTwoFrom(input, partial, f.value.begin + 1, first, second))
  {
  }

  function FindTwo(input: string, partial: bool, pos: nat, first: string, second: string): (r: Option<Found>)
    requires pos <= |input|
    ensures FoundIn(input, pos, r)
  {
    if first == "" then FindLiteral(input, partial, pos, second)
    else FindTwoFrom(input, partial, pos, first, second)
  }

  /** A closing literal and the length that a full match of it has. */
  datatype Close = Close(size: nat, found: Option<Found>)

  function Earlier(a: Option<Found>, b: Option<Found>): Option<Found> {
    if b.Some? && (a.None? || a.value.begin > b.value.begin) then b else a
  }

  /** `try_find_close`. */
  function FindClose(input: string, partial: bool, pos: nat, end: string, altEnd: Option<string>,
                     endNext: string, altEndNext: Option<string>): (r: Close)
    requires pos <= |input|
    ensures FoundIn(input, pos, r.found)
  {
    var tc := FindLiteral(input, partial, pos, end);
    if altEnd.None? then Close(|end|, tc)
    else
      var tc2 := FindTwo(input, partial, pos, altEnd.value, endNext);
      var alt := if altEndNext.None? then tc2
                 else Earlier(tc2, FindTwo(input, partial, pos, altEnd.value, altEndNext.value));
      if alt.Some? && (tc.None? || tc.value.begin > alt.value.begin) then
        var stop := alt.value.begin + |altEnd.value|;
        Close(|altEnd.value|, Some(Found(alt.value.begin, if stop <= |input| then stop else |input|)))
      else Close(|end|, tc)
  }

  function FindValEnd(cx: Context, pos: nat): (r: Close)
    requires pos <= |cx.input|
    ensures FoundIn(cx.input, pos, r.found)
  {
    FindClose(cx.input, cx.partial, pos, cx.form.valEnd, cx.form.lastValEnd, cx.form.toolEnd, cx.form.lastToolEnd)
  }

  function FindToolEnd(cx: Context, pos: nat): (r: Close)
    requires pos <= |cx.input|
    ensures FoundIn(cx.input, pos, r.found)
  {
    FindClose(cx.input, cx.partial, pos, cx.form.toolEnd, cx.form.lastToolEnd, cx.form.scopeEnd, None)
  }

  /** At pos the literal is not what comes next, even behind white space. */
  predicate NotNext(cx: Context, pos: nat, literal: string)
    requires pos <= |cx.input|
  {
    var f := FindLiteral(cx.input, cx.partial, pos, literal);
    f.None? || !AllSpace(cx.input[pos..f.value.begin])
  }

  /** How a parse ends. The two exceptions keep the calls sent so far; `Undefined` stands for a failed
      assertion or the use of an empty optional. */
  datatype Outcome =
    | Returned(ok: bool, pos: nat, calls: seq<ToolCall>)
    | Incomplete(calls: seq<ToolCall>)
    | SyntaxError(calls: seq<ToolCall>)
    | Undefined

  /** `add_tool_call`: a call without a name is not added. */
  function AddCall(calls: seq<ToolCall>, name: string, arguments: string): seq<ToolCall> {
    if name == "" then calls else calls + [ToolCall(name, arguments)]
  }

  const PARTIAL_FLAG := "XML_TOOL_CALL_PARTIAL_FLAG"

  predicate MayFollowFlag(c: char) {
    c == '\'' || c == '"' || c == '}' || c == ':' || IsSpace(c)
  }

  /** `partial_json`: the dump up to the flag, when only closing punctuation follows it. */
  function CutAtFlag(dump: string): Option<string> {
    var at := RFind(dump, PARTIAL_FLAG, |dump|);
    if at.None? || exists i :: at.value + |PARTIAL_FLAG| <= i < |dump| && !MayFollowFlag(dump[i]) then None
    else if at.value != 0 && dump[at.value - 1] == '"' then Some(dump[..at.value - 1])
    else Some(dump[..at.value])
  }

  /** `gen_partial_json`, with the argument being read already marked by the flag. */
  function AddPartialCall(cx: Context, calls: seq<ToolCall>, name: string, marked: Args): seq<ToolCall> {
    var cut := CutAtFlag(cx.json.dump(marked));
    if cut.Some? then AddCall(calls, name, cut.value) else calls
  }

  /** The dump without its closing brace, as sent for a call whose end has not arrived. */
  function OpenDump(cx: Context, args: Args): string {
    var dump := cx.json.dump(args);
    if dump != "" && dump[|dump| - 1] == '}' then dump[..|dump| - 1] else dump
  }

  function DigitsFrom(s: string, i: nat): bool
    requires i <= |s|
  {
    forall k :: i <= k < |s| ==> '0' <= s[k] <= '9'
  }

  /** Kimi-K2 writes functions.NAME:INDEX for NAME. */
  function KimiName(name: string): string {
    var colon := RFind(name, ":", |name|);
    if "functions." <= name && colon.Some? && colon.value + 1 < |name| && DigitsFrom(name, colon.value + 1)
       && 10 <= colon.value
    then name[10..colon.value]
    else name
  }

  function FunctionName(cx: Context, prelude: string): string {
    if cx.kimi then KimiName(Strip(prelude)) else Strip(prelude)
  }

  function SkipDigits(s: string, i: nat): (r: nat)
    requires i <= |s|
    ensures i <= r <= |s|
    ensures forall k :: i <= k < r ==> '0' <= s[k] <= '9'
    decreases |s| - i
  {
    if i < |s| && '0' <= s[i] <= '9' then SkipDigits(s, i + 1) else i
  }

  /** The regular expression for numbers, matched against the whole text. */
  predicate IsNumberSoFar(s: string) {
    && s != "" && (s[0] == '-' || '0' <= s[0] <= '9')
    && var i := SkipDigits(s, 1);
       var j := if i < |s| && s[i] == '.' then SkipDigits(s, i + 1) else i;
       var k :=
         if j < |s| && s[j] in "eE" then SkipDigits(s, if j + 1 < |s| && s[j + 1] in "+-" then j + 2 else j + 1) else j;
       k == |s|
  }

  /** Whether a text is the beginning of null, true or false, or may be that of a number. */
  predicate MayBecomeJson(rest: string) {
    rest <= "null" || rest <= "true" || rest <= "false" || IsNumberSoFar(rest)
  }

  /** The rest of the input behind white space, cut to whole characters. */
  function RestAt(cx: Context, pos: nat): string
    requires pos <= |cx.input|
  {
    var from, cut := SkipSpaces(cx.input, pos), TruncateSafe(cx.input);
    if from <= cut then cx.input[from..cut] else ""
  }

  /** Stands for a rest of the input that may become JSON. */
  function Awaited(cx: Context): JsonArg {
    JsonArg(Json("123"), false, "123", "123", |cx.input|)
  }

  /** The JSON reading at a value start: what the library reads, or a rest of the input that may become a JSON value.
      A reading of nothing or beyond the input cannot happen. */
  function Detect(cx: Context, pos: nat): (r: Option<JsonArg>)
    requires pos <= |cx.input|
    ensures r.Some? ==> pos <= r.value.end <= |cx.input|
  {
    if cx.form.rawArgval == Some(true) then None
    else
      var r := cx.json.consume(cx.input, cx.partial, pos);
      if r.Some? && pos < r.value.end <= |cx.input| then r
      else if MayBecomeJson(RestAt(cx, pos)) then Some(Awaited(cx))
      else None
  }

  /** One turn of the argument loop: leave it, stop the parse, or go on with one more argument. */
  datatype ArgTurn = LeaveArgs | StopAt(outcome: Outcome) | NextArg(pos: nat, args: Args)

  function PlainValue(cx: Context, pos: nat, name: string, key: string, args: Args, calls: seq<ToolCall>): (r: ArgTurn)
    requires pos <= |cx.input|
    ensures r.NextArg? ==> pos <= r.pos <= |cx.input|
    ensures !r.LeaveArgs? && (r.StopAt? ==> r.outcome.Incomplete? && calls <= r.outcome.calls)
  {
    var close := FindValEnd(cx, pos);
    if close.found.Some? then
      var text := cx.input[pos..close.found.value.begin];
      var value := if cx.form.trimRawArgval then Strip(text) else text;
      if close.found.value.end - close.found.value.begin != close.size then
        StopAt(Incomplete(AddPartialCall(cx, calls, name, SetArg(args, key, Plain(value + PARTIAL_FLAG)))))
      else NextArg(close.found.value.end, SetArg(args, key, Plain(value)))
    else
      var rest := Truncated(cx.input[pos..]);
      var value := if cx.form.trimRawArgval then Strip(rest) else rest;
      StopAt(Incomplete(AddPartialCall(cx, calls, name, SetArg(args, key, Plain(value + PARTIAL_FLAG)))))
  }

  /** A JSON value that reaches the end of the input: what is sent while waiting for more. */
  function JsonAtEnd(cx: Context, name: string, key: string, json: JsonArg, args: Args,
          calls: seq<ToolCall>): (r: Outcome)
    ensures r.Undefined? || (r.Incomplete? && calls <= r.calls)
  {
    if cx.form.rawArgval == Some(false) && json.structured then
      var dump := cx.json.dump(SetArg(args, key, json.value));
      if json.dumpMarker != "" then
        var at := RFind(dump, json.dumpMarker, |dump|);
        if at.None? then Undefined else Incomplete(AddCall(calls, name, dump[..at.value]))
      else if dump == "" || dump[|dump| - 1] != '}' then Undefined
      else Incomplete(AddCall(calls, name, dump[..|dump| - 1]))
    else Incomplete(AddPartialCall(cx, calls, name, SetArg(args, key, Plain(PARTIAL_FLAG))))
  }

  function ValueAt(cx: Context, pos: nat, name: string, key: string, args: Args, calls: seq<ToolCall>): (r: ArgTurn)
    requires pos <= |cx.input|
    ensures r.NextArg? ==> pos <= r.pos <= |cx.input|
    ensures !r.LeaveArgs? && (r.StopAt? ==> r.outcome.Undefined? || (r.outcome.Incomplete? && calls <= r.outcome.calls))
  {
    var detected := Detect(cx, pos);
    if detected.None? then PlainValue(cx, pos, name, key, args, calls)
    else
      var json := detected.value;
      if SkipSpaces(cx.input, json.end) == |cx.input| then StopAt(JsonAtEnd(cx, name, key, json, args, calls))
      else
        var close := FindValEnd(cx, json.end);
        if close.found.Some? && AllSpace(cx.input[json.end..close.found.value.begin]) && json.marker == "" then
          if close.found.value.end - close.found.value.begin != close.size then
            StopAt(Incomplete(AddPartialCall(cx, calls, name, SetArg(args, key, Plain(PARTIAL_FLAG)))))
          else if close.found.value.end == pos then
            PlainValue(cx, pos, name, key, SetArg(args, key, json.value), calls)
          else NextArg(close.found.value.end, SetArg(args, key, json.value))
        else PlainValue(cx, pos, name, key, args, calls)
  }

  /** From behind a key: an optional second separator, then the value. */
  function AfterKey(cx: Context, pos: nat, name: string, key: string, args: Args, calls: seq<ToolCall>): (r: ArgTurn)
    requires pos <= |cx.input|
    ensures r.NextArg? ==> pos <= r.pos <= |cx.input|
    ensures !r.LeaveArgs? && (r.StopAt? ==> r.outcome.Undefined? || (!r.outcome.Returned? && calls <= r.outcome.calls))
  {
    if cx.form.keyValSep2.None? then ValueAt(cx, pos, name, key, args, calls)
    else
      var sep := FindLiteral(cx.input, cx.partial, pos, cx.form.keyValSep2.value);
      if sep.None? then
        StopAt(Incomplete(AddPartialCall(cx, calls, name, SetArg(args, key, Plain(PARTIAL_FLAG)))))
      else if !AllSpace(cx.input[pos..sep.value.begin]) then StopAt(SyntaxError(calls))
      else if sep.value.end - sep.value.begin != |cx.form.keyValSep2.value| then
        StopAt(Incomplete(AddPartialCall(cx, calls, name, SetArg(args, key, Plain(PARTIAL_FLAG)))))
      else ValueAt(cx, sep.value.end, name, key, args, calls)
  }

  function ReadArg(cx: Context, pos: nat, name: string, args: Args, calls: seq<ToolCall>): (r: ArgTurn)
    requires pos <= |cx.input| && cx.form.Valid()
    ensures r.NextArg? ==> pos < r.pos <= |cx.input|
    ensures r.StopAt? ==> r.outcome.Undefined? || (!r.outcome.Returned? && calls <= r.outcome.calls)
  {
    var start := FindLiteral(cx.input, cx.partial, pos, cx.form.keyStart);
    if start.None? || !AllSpace(cx.input[pos..start.value.begin]) then LeaveArgs
    else if start.value.end - start.value.begin != |cx.form.keyStart| then
      StopAt(Incomplete(AddCall(calls, name, OpenDump(cx, args))))
    else
      var keyAt := start.value.end;
      var sep := FindLiteral(cx.input, cx.partial, keyAt, cx.form.keyValSep);
      if sep.None? then
        StopAt(Incomplete(AddPartialCall(cx, calls, name,
                                         SetArg(args, Truncated(cx.input[keyAt..]) + PARTIAL_FLAG, Plain("")))))
      else
        var key := cx.input[keyAt..sep.value.begin];
        if sep.value.end - sep.value.begin != |cx.form.keyValSep| then
          StopAt(Incomplete(AddPartialCall(cx, calls, name, SetArg(args, key + PARTIAL_FLAG, Plain("")))))
        else AfterKey(cx, sep.value.end, name, key, args, calls)
  }

  /** How the argument loop ends. `recovery` tells whether nothing has been read that cannot be undone. */
  datatype ArgsEnd = ArgsDone(pos: nat, args: Args, recovery: bool) | ArgsStopped(outcome: Outcome)

  function ReadArgs(cx: Context, pos: nat, name: string, args: Args, recovery: bool, calls: seq<ToolCall>): (r: ArgsEnd)
    requires pos <= |cx.input| && cx.form.Valid()
    ensures r.ArgsDone? ==> pos <= r.pos <= |cx.input| && (r.recovery ==> recovery)
    ensures r.ArgsStopped? ==> r.outcome.Undefined? || (!r.outcome.Returned? && calls <= r.outcome.calls)
    decreases |cx.input| - pos
  {
    match ReadArg(cx, pos, name, args, calls)
    case LeaveArgs => ArgsDone(pos, args, recovery)
    case StopAt(outcome) => ArgsStopped(outcome)
    case NextArg(pos', args') => ReadArgs(cx, pos', name, args', false, calls)
  }

  /** `return_error`. */
  function Fail(recovery: bool, start: nat, calls: seq<ToolCall>): Outcome {
    if recovery then Returned(false, start, calls) else SyntaxError(calls)
  }

  /** Where the name of a call ends. */
  datatype NameEnd = NameEnd(at: Found) | NoNameEnd(undefined: bool)

  predicate HoldsToolEnd(form: Form, prelude: string) {
    Find(prelude, form.toolEnd, 0).Some? ||
    (form.lastToolEnd.Some? && Find(prelude, form.lastToolEnd.value, 0).Some?)
  }

  function FindNameEnd(cx: Context, pos: nat): (r: NameEnd)
    requires pos <= |cx.input|
    ensures r.NameEnd? ==> pos <= r.at.begin <= r.at.end <= |cx.input|
  {
    var first := FindLiteral(cx.input, cx.partial, pos, if AllSpace(cx.form.toolSep) then cx.form.keyStart
        else cx.form.toolSep);
    var found := if first.Some? then first else FindToolEnd(cx, pos).found;
    if found.None? then NoNameEnd(false)
    else if HoldsToolEnd(cx.form, cx.input[pos..found.value.begin]) then
      var close := FindToolEnd(cx, pos).found;
      if close.None? then NoNameEnd(true) else NameEnd(close.value)
    else NameEnd(found.value)
  }

  /** One turn of the loop over calls. */
  datatype CallTurn = LeaveCalls | StopCalls(outcome: Outcome) | NextCall(pos: nat, calls: seq<ToolCall>)

  function CloseCall(cx: Context, start: nat, pos: nat, name: string, args: Args, recovery: bool,
          calls: seq<ToolCall>): (r: CallTurn)
    requires pos <= |cx.input|
    ensures r.NextCall? ==> pos <= r.pos <= |cx.input| && calls <= r.calls
    ensures r.StopCalls? && r.outcome.Returned? ==> recovery && r.outcome == Returned(false, start, calls)
    ensures r.StopCalls? && !r.outcome.Undefined? ==> calls <= r.outcome.calls
    ensures !r.LeaveCalls?
  {
    var close := FindToolEnd(cx, pos);
    if close.found.Some? && !AllSpace(cx.input[pos..close.found.value.begin]) then
        StopCalls(Fail(recovery, start, calls))
    else if close.found.Some? && close.found.value.end - close.found.value.begin == close.size then
      if name == "" then StopCalls(Incomplete(calls))
      else NextCall(close.found.value.end, AddCall(calls, name, cx.json.dump(args)))
    else StopCalls(Incomplete(AddCall(calls, name, OpenDump(cx, args))))
  }

  function ReadCall(cx: Context, start: nat, pos: nat, recovery: bool, calls: seq<ToolCall>): (r: CallTurn)
    requires pos <= |cx.input| && cx.form.Valid()
    ensures r.NextCall? ==> pos < r.pos <= |cx.input| && calls <= r.calls
    ensures r.StopCalls? && r.outcome.Returned? ==> recovery && r.outcome == Returned(false, start, calls)
    ensures r.StopCalls? && !r.outcome.Undefined? ==> calls <= r.outcome.calls
  {
    var tool := FindLiteral(cx.input, cx.partial, pos, cx.form.toolStart);
    if tool.None? || !AllSpace(cx.input[pos..tool.value.begin]) then LeaveCalls
    else
      var nameAt := tool.value.end;
      match FindNameEnd(cx, nameAt)
      case NoNameEnd(undefined) => StopCalls(if undefined then Undefined else Incomplete(calls))
      case NameEnd(at) =>
        var name := FunctionName(cx, cx.input[nameAt..at.begin]);
        match ReadArgs(cx, if AllSpace(cx.form.toolSep) then at.begin else at.end, name, [], recovery, calls)
        case ArgsStopped(outcome) => StopCalls(outcome)
        case ArgsDone(pos', args, recovery') => CloseCall(cx, start, pos', name, args, recovery', calls)
  }

  /** The end of the scope, behind the last call. */
  function CloseScope(cx: Context, start: nat, pos: nat, recovery: bool, calls: seq<ToolCall>): (r: Outcome)
    requires pos <= |cx.input|
    ensures r.Returned? && r.ok ==> pos <= r.pos <= |cx.input|
  {
    var close := FindLiteral(cx.input, cx.partial, pos, cx.form.scopeEnd);
    if close.Some? then
      if !AllSpace(cx.input[pos..close.value.begin]) then Fail(recovery, start, calls)
      else Returned(true, close.value.end, calls)
    else if AllSpace(cx.form.scopeEnd) then Returned(true, pos, calls)
    else if SkipSpaces(cx.input, pos) == |cx.input| then Incomplete(calls)
    else Fail(recovery, start, calls)
  }

  function ReadCalls(cx: Context, start: nat, pos: nat, recovery: bool, calls: seq<ToolCall>): (r: Outcome)
    requires pos <= |cx.input| && cx.form.Valid()
    ensures r.Returned? && r.ok ==> pos <= r.pos <= |cx.input|
    decreases |cx.input| - pos
  {
    match ReadCall(cx, start, pos, recovery, calls)
    case LeaveCalls => CloseScope(cx, start, pos, recovery, calls)
    case StopCalls(outcome) => outcome
    case NextCall(pos', calls') => ReadCalls(cx, start, pos', false, calls')
  }

  /** `parse_xml_tool_calls`. */
  function ParseCalls(cx: Context, start: nat, calls: seq<ToolCall>): (r: Outcome)
    requires start <= |cx.input| && cx.form.Valid()
    ensures r.Returned? && r.ok ==> start <= r.pos <= |cx.input|
  {
    if AllSpace(cx.form.scopeStart) then ReadCalls(cx, start, start, true, calls)
    else
      var scope := FindLiteral(cx.input, cx.partial, start, cx.form.scopeStart);
      if scope.None? || !AllSpace(cx.input[start..scope.value.begin]) then Returned(false, start, calls)
      else if scope.value.end - scope.value.begin != |cx.form.scopeStart| then Incomplete(calls)
      else ReadCalls(cx, start, scope.value.end, true, calls)
  }

  /** `try_consume_xml_tool_calls`: a syntax error is turned into "no tool call", after undoing. */
  function TryConsume(cx: Context, start: nat, calls: seq<ToolCall>): (r: Outcome)
    requires start <= |cx.input| && cx.form.Valid()
  {
    var r := ParseCalls(cx, start, calls);
    if r.SyntaxError? then Returned(false, start, r.calls[..if |calls| <= |r.calls| then |calls| else |r.calls|]) else r
  }

  lemma {:induction false} ReadCallsKeeps(cx: Context, start: nat, pos: nat, recovery: bool, before: seq<ToolCall>,
          calls: seq<ToolCall>)
    requires pos <= |cx.input| && cx.form.Valid()
    requires before <= calls && (recovery ==> calls == before)
    ensures var r := ReadCalls(cx, start, pos, recovery, calls);
            && (r.Returned? && !r.ok ==> r == Returned(false, start, before))
            && (!r.Undefined? ==> before <= r.calls)
    decreases |cx.input| - pos
  {
    var t := ReadCall(cx, start, pos, recovery, calls);
    if t.NextCall? {
      ReadCallsKeeps(cx, start, t.pos, false, before, t.calls);
    }
  }

  /** Rollback. Whenever no tool call is reported, the cursor and the list of calls are exactly those at
      entry, also when calls had already been added; and no outcome ever loses an earlier call. */
  lemma {:induction false} NoCallLeavesNoTrace(cx: Context, start: nat, calls: seq<ToolCall>)
    requires start <= |cx.input| && cx.form.Valid()
    ensures var r := TryConsume(cx, start, calls);
            && !r.SyntaxError?
            && (r.Returned? && !r.ok ==> r == Returned(false, start, calls))
            && (!r.Undefined? ==> calls <= r.calls)
  {
    if AllSpace(cx.form.scopeStart) {
      ReadCallsKeeps(cx, start, start, true, calls, calls);
    } else {
      var scope := FindLiteral(cx.input, cx.partial, start, cx.form.scopeStart);
      if scope.Some? {
        ReadCallsKeeps(cx, start, scope.value.end, true, calls, calls);
      }
    }
  }
}
