/** What is sent of calls that are cut off by the end of the input. */
module XmlStreaming {
  import opened Text
  import opened Utf8
  import opened XmlToolCalls
  import opened XmlRoundTrip

  // ---- Arguments by name

  /** The value that an object of arguments has for a key. */
  function ValueOf(args: Args, key: string): Option<ArgValue> {
    if args == [] then None else if args[0].0 == key then Some(args[0].1) else ValueOf(args[1..], key)
  }

  function KeysOf(args: Args): seq<string> {
    seq(|args|, i requires 0 <= i < |args| => args[i].0)
  }

  /** Setting an argument gives it its value and changes no other one; a key keeps its place, and a new one comes
      last. */
  lemma {:induction false} SetArgSetsOne(args: Args, key: string, value: ArgValue, other: string)
    ensures ValueOf(SetArg(args, key, value), other) == if other == key then Some(value) else ValueOf(args, other)
    ensures KeysOf(SetArg(args, key, value)) == if key in KeysOf(args) then KeysOf(args) else KeysOf(args) + [key]
  {
    if args != [] {
      var rest := args[1..];
      FirstKey(args);
      if args[0].0 == key {
        assert ([(key, value)] + rest)[1..] == rest;
        FirstKey([(key, value)] + rest);
      } else {
        SetArgSetsOne(rest, key, value, other);
        var set' := SetArg(rest, key, value);
        assert ([args[0]] + set')[1..] == set';
        FirstKey([args[0]] + set');
      }
    }
  }

  lemma FirstKey(args: Args)
    requires args != []
    ensures KeysOf(args) == [args[0].0] + KeysOf(args[1..])
  {
  }

  // ---- Dumps that are cut

  /** What may stand behind the flag: quotation marks, closing braces, colons and white space. */
  predicate IsClosing(s: string) {
    forall i :: 0 <= i < |s| ==> s[i] == '\'' || s[i] == '"' || s[i] == '}' || s[i] == ':' || IsSpace(s[i])
  }

  /** A text without the quotation mark at its end, if it has one. */
  function WithoutQuote(s: string): string {
    if s != "" && s[|s| - 1] == '"' then s[..|s| - 1] else s
  }

  /** A dump is cut in front of the flag, and of the quotation mark that opens it, if only closing marks follow. */
  lemma FlagIsCut(head: string, tail: string)
    requires IsClosing(tail)
    ensures CutAtFlag(head + (PARTIAL_FLAG + tail)) == Some(WithoutQuote(head))
  {
    var dump := head + (PARTIAL_FLAG + tail);
    var n := |head|;
    FlagIsLast(tail);
    LastOccurrence(head, PARTIAL_FLAG, tail);
    hide RFind;
    assert dump[..n] == head;
    assert forall i :: n + |PARTIAL_FLAG| <= i < |dump| ==> dump[i] == tail[i - n - |PARTIAL_FLAG|];
    assert n > 0 ==> dump[n - 1] == head[n - 1] && dump[..n - 1] == head[..n - 1];
  }

  lemma FlagIsLast(tail: string)
    requires IsClosing(tail)
    ensures !Contains((PARTIAL_FLAG + tail)[1..], PARTIAL_FLAG)
  {
    var later := (PARTIAL_FLAG + tail)[1..];
    assert later == PARTIAL_FLAG[1..] + tail;
    assert 'X' !in PARTIAL_FLAG[1..] && 'X' !in tail;
    assert 'X' !in later;
    forall j | 0 <= j <= |later|
      ensures !OccursAt(later, PARTIAL_FLAG, j)
    {
      if OccursAt(later, PARTIAL_FLAG, j) {
        FirstOfOccurrence(later, PARTIAL_FLAG, j);
      }
    }
  }

  /** A dump without the flag is not sent, and neither is one where something else follows the flag. */
  lemma OtherwiseNothingIsCut(dump: string)
    requires forall head, tail :: dump == head + (PARTIAL_FLAG + tail) ==> !IsClosing(tail)
    ensures CutAtFlag(dump) == None
  {
    var at := RFind(dump, PARTIAL_FLAG, |dump|);
    if at.Some? {
      var head, tail := dump[..at.value], dump[at.value + |PARTIAL_FLAG|..];
      assert dump[at.value..at.value + |PARTIAL_FLAG|] == PARTIAL_FLAG;
      assert dump == head + (PARTIAL_FLAG + tail);
      assert !IsClosing(tail);
      assert forall i :: 0 <= i < |tail| ==> tail[i] == dump[at.value + |PARTIAL_FLAG| + i];
    }
  }

  /** The dump that is sent for a call whose end has not arrived lacks the closing brace only. */
  lemma OpenDumpLacksTheBrace(cx: Context, args: Args)
    ensures var dump, sent := cx.json.dump(args), OpenDump(cx, args);
            if dump == sent + "}" then true else sent == dump && forall head :: dump != head + "}"
  {
    var dump := cx.json.dump(args);
    if dump != "" && dump[|dump| - 1] == '}' {
      assert dump == dump[..|dump| - 1] + "}";
    } else {
      forall head: string
        ensures dump != head + "}"
      {
        assert (head + "}")[|head|] == '}';
      }
    }
  }

  /** What is sent while a JSON value reaches the end of the input: with a marker, the dump in front of its last
      occurrence, and else the dump without its closing brace. */
  lemma JsonIsSentOpen(cx: Context, name: string, key: string, json: JsonArg, args: Args, calls: seq<ToolCall>,
      head: string, tail: string)
    requires cx.form.rawArgval == Some(false) && json.structured && name != ""
    requires var dump, end := cx.json.dump(SetArg(args, key, json.value)), if json.dumpMarker != "" then
        json.dumpMarker else "}";
             dump == head + (end + tail) &&
                 (if json.dumpMarker == "" then tail == "" else !Contains((end + tail)[1..], end))
    ensures JsonAtEnd(cx, name, key, json, args, calls) == Incomplete(calls + [ToolCall(name, head)])
  {
    hide SetArg;
    var dump := cx.json.dump(SetArg(args, key, json.value));
    var marker := json.dumpMarker;
    if marker != "" {
      LastOccurrence(head, marker, tail);
      hide RFind;
      assert dump[..|head|] == head;
    } else {
      assert dump == head + "}";
    }
  }

  lemma LastOccurrence(head: string, d: string, tail: string)
    requires d != "" && !Contains((d + tail)[1..], d)
    ensures var s := head + (d + tail); RFind(s, d, |s|) == Some(|head|)
  {
    var s, n, later := head + (d + tail), |head|, (d + tail)[1..];
    assert s[n..] == d + tail && s[n..n + |d|] == d;
    assert OccursAt(s, d, n);
    forall j | n < j <= |s|
      ensures !OccursAt(s, d, j)
    {
      assert s[n + 1..] == later;
      if OccursAt(s, d, j) {
        assert later[j - n - 1..j - n - 1 + |d|] == s[j..j + |d|];
        assert OccursAt(later, d, j - n - 1);
      }
    }
  }

  // ---- Calls that are cut off

  /** What is visible of a plain value at the end of the input: an end with which the end of a value may begin is held
      back, or part of a character. */
  function VisibleValue(cx: Context, pos: nat): string
    requires pos <= |cx.input|
  {
    var held := PartialStop(cx.input, cx.form.valEnd);
    var text := if cx.partial && held.Some? && pos <= held.value then cx.input[pos..held.value]
        else Truncated(cx.input[pos..]);
    if cx.form.trimRawArgval then Strip(text) else text
  }

  /** A plain value that is not closed: the call is sent with the arguments so far and what is visible of this one, up
      to the place where the value may go on. */
  lemma OpenValueIsSent(cx: Context, pos: nat, name: string, key: string, args: Args, calls: seq<ToolCall>,
      head: string,
      tail: string)
    requires pos <= |cx.input| && cx.form.Valid() && cx.form.lastValEnd.None? && name != ""
    requires Find(cx.input, cx.form.valEnd, pos).None? && TakenAsText(cx, pos)
    requires KeyFresh(args, key) && IsClosing(tail)
    requires cx.json.dump(args + [(key, Plain(VisibleValue(cx, pos) + PARTIAL_FLAG))]) == head + (PARTIAL_FLAG + tail)
    ensures ValueAt(cx, pos, name, key, args, calls) == StopAt(Incomplete(calls + [ToolCall(name, WithoutQuote(head))]))
  {
    OpenValueIsPlain(cx, pos, name, key, args, calls);
    PlainValueIsOpen(cx, pos, name, key, args, calls);
    SetFreshKey(args, key, Plain(VisibleValue(cx, pos) + PARTIAL_FLAG));
    FlagIsCut(head, tail);
  }

  lemma OpenValueIsPlain(cx: Context, pos: nat, name: string, key: string, args: Args, calls: seq<ToolCall>)
    requires pos <= |cx.input| && TakenAsText(cx, pos)
    ensures ValueAt(cx, pos, name, key, args, calls) == PlainValue(cx, pos, name, key, args, calls)
  {
    hide FindValEnd;
    hide Detect;
    hide SetArg;
    hide PlainValue;
  }

  lemma PlainValueIsOpen(cx: Context, pos: nat, name: string, key: string, args: Args, calls: seq<ToolCall>)
    requires pos <= |cx.input| && cx.form.Valid() && cx.form.lastValEnd.None? &&
        Find(cx.input, cx.form.valEnd, pos).None?
    ensures PlainValue(cx, pos, name, key, args, calls) ==
            StopAt(Incomplete(AddPartialCall(cx, calls, name,
                SetArg(args, key, Plain(VisibleValue(cx, pos) + PARTIAL_FLAG)))))
  {
    HeldIsShort(cx.input, cx.form.valEnd, pos);
    hide Find;
    hide SetArg;
    hide AddPartialCall;
    hide Strip;
  }

  lemma HeldIsShort(s: string, d: string, pos: nat)
    requires Find(s, d, pos).None?
    ensures var held := PartialStop(s, d); held.Some? && pos <= held.value ==> |s| - held.value < |d|
  {
    var held := PartialStop(s, d);
    if held.Some? && pos <= held.value {
      assert |s| - held.value == |d| ==> OccursAt(s, d, held.value);
    }
  }

  /** An argument up to the beginning of its value. */
  function PrintArgHead(form: Form, a: WrittenArg): string {
    (a.gap + form.keyStart) + ((a.key + form.keyValSep) + PrintSep2(form, a))
  }

  lemma ArgHeadText(form: Form, a: WrittenArg)
    ensures PrintArgHead(form, a) == (a.gap + form.keyStart) + ((a.key + form.keyValSep) + PrintSep2(form, a))
  {
  }

  lemma OpenArgIsSent(cx: Context, a: WrittenArg, pos: nat, name: string, args: Args, calls: seq<ToolCall>,
      head: string,
      tail: string)
    requires FormIsReadable(cx.form) && cx.form.Valid() && name != ""
    requires AllSpace(a.gap) && AllSpace(a.gap2) && EndsWith(a.key, cx.form.keyValSep) && KeyFresh(args, a.key)
    requires OccursAt(cx.input, PrintArgHead(cx.form, a), pos) && pos + |PrintArgHead(cx.form, a)| <= |cx.input|
    requires var at := pos + |PrintArgHead(cx.form, a)|;
             && Find(cx.input, cx.form.valEnd, at).None? && TakenAsText(cx, at) && IsClosing(tail)
             && cx.json.dump(args + [(a.key, Plain(VisibleValue(cx, at) + PARTIAL_FLAG))]) ==
                 head + (PARTIAL_FLAG + tail)
    ensures ReadArg(cx, pos, name, args, calls) == StopAt(Incomplete(calls + [ToolCall(name, WithoutQuote(head))]))
  {
    hide *;
    var form, at := cx.form, pos + |PrintArgHead(cx.form, a)|;
    OpenValueIsSent(cx, at, name, a.key, args, calls, head, tail) by { SolidParts(form); }
    ArgHeadText(form, a);
    SplitAt(cx.input, a.gap + form.keyStart, (a.key + form.keyValSep) + PrintSep2(form, a), pos);
    var keyAt := pos + |a.gap + form.keyStart|;
    SplitAt(cx.input, a.key + form.keyValSep, PrintSep2(form, a), keyAt);
    SeparatorIsRead(cx, a, keyAt + |a.key + form.keyValSep|, name, args, calls);
    KeyIsRead(cx, a, pos, name, args, calls);
  }

  lemma SolidParts(form: Form)
    requires FormIsReadable(form)
    ensures Solid(form.keyStart) && Solid(form.toolStart) && form.lastValEnd.None?
    ensures form.keyValSep2.Some? ==> Solid(form.keyValSep2.value)
  {
  }

  lemma SeparatorIsRead(cx: Context, a: WrittenArg, pos: nat, name: string, args: Args, calls: seq<ToolCall>)
    requires FormIsReadable(cx.form) && AllSpace(a.gap2)
    requires OccursAt(cx.input, PrintSep2(cx.form, a), pos) && pos + |PrintSep2(cx.form, a)| <= |cx.input|
    ensures AfterKey(cx, pos, name, a.key, args, calls) ==
            ValueAt(cx, pos + |PrintSep2(cx.form, a)|, name, a.key, args, calls)
  {
    hide *;
    SolidParts(cx.form);
    SepText(cx.form, a);
    if cx.form.keyValSep2.Some? {
      var sep := cx.form.keyValSep2.value;
      SolidEndsGap(a.gap2, sep);
      FindTerminator(cx, a.gap2, sep, pos);
      AfterKeyIs(cx, pos, pos + |a.gap2|, name, a.key, args, calls);
    } else {
      NoSecondSeparator(cx, pos, name, a.key, args, calls);
    }
  }

  lemma SepText(form: Form, a: WrittenArg)
    ensures PrintSep2(form, a) == if form.keyValSep2.Some? then a.gap2 + form.keyValSep2.value else ""
  {
  }

  lemma NoSecondSeparator(cx: Context, pos: nat, name: string, key: string, args: Args, calls: seq<ToolCall>)
    requires pos <= |cx.input| && cx.form.keyValSep2.None?
    ensures AfterKey(cx, pos, name, key, args, calls) == ValueAt(cx, pos, name, key, args, calls)
  {
    hide ValueAt;
  }

  lemma AfterKeyIs(cx: Context, pos: nat, sep: nat, name: string, key: string, args: Args, calls: seq<ToolCall>)
    requires pos <= sep <= |cx.input| && cx.form.keyValSep2.Some? && AllSpace(cx.input[pos..sep])
    requires FindLiteral(cx.input, cx.partial, pos, cx.form.keyValSep2.value) ==
             Some(Found(sep, sep + |cx.form.keyValSep2.value|))
    ensures sep + |cx.form.keyValSep2.value| <= |cx.input|
    ensures AfterKey(cx, pos, name, key, args, calls) ==
            ValueAt(cx, sep + |cx.form.keyValSep2.value|, name, key, args, calls)
  {
    hide FindLiteral;
    hide ValueAt;
    hide AllSpace;
  }

  lemma KeyIsRead(cx: Context, a: WrittenArg, pos: nat, name: string, args: Args, calls: seq<ToolCall>)
    requires FormIsReadable(cx.form) && cx.form.Valid() && AllSpace(a.gap) && EndsWith(a.key, cx.form.keyValSep)
    requires OccursAt(cx.input, a.gap + cx.form.keyStart, pos)
    requires var keyAt := pos + |a.gap + cx.form.keyStart|;
             OccursAt(cx.input, a.key + cx.form.keyValSep, keyAt) && keyAt + |a.key + cx.form.keyValSep| <= |cx.input|
    ensures ReadArg(cx, pos, name, args, calls) ==
            AfterKey(cx, pos + |a.gap + cx.form.keyStart| + |a.key + cx.form.keyValSep|, name, a.key, args, calls)
  {
    hide *;
    SolidParts(cx.form);
    var keyAt := pos + |a.gap + cx.form.keyStart|;
    SolidEndsGap(a.gap, cx.form.keyStart);
    FindTerminator(cx, a.gap, cx.form.keyStart, pos);
    FindTerminator(cx, a.key, cx.form.keyValSep, keyAt);
    ReadArgIs(cx, pos, pos + |a.gap|, keyAt + |a.key|, name, args, calls);
  }

  lemma ReadArgIs(cx: Context, pos: nat, key: nat, sep: nat, name: string, args: Args, calls: seq<ToolCall>)
    requires pos <= key <= |cx.input| && cx.form.Valid() && AllSpace(cx.input[pos..key])
    requires FindLiteral(cx.input, cx.partial, pos, cx.form.keyStart) == Some(Found(key, key + |cx.form.keyStart|))
    requires key + |cx.form.keyStart| <= sep <= |cx.input|
    requires FindLiteral(cx.input, cx.partial, key + |cx.form.keyStart|, cx.form.keyValSep) ==
             Some(Found(sep, sep + |cx.form.keyValSep|))
    ensures sep + |cx.form.keyValSep| <= |cx.input|
    ensures ReadArg(cx, pos, name, args, calls) ==
            AfterKey(cx, sep + |cx.form.keyValSep|, name, cx.input[key + |cx.form.keyStart|..sep], args, calls)
  {
    hide FindLiteral;
    hide AfterKey;
    hide AllSpace;
  }

  /** A call from its arguments on. */
  function RestOfCall(cx: Context, start: nat, pos: nat, name: string, args: Args, recovery: bool,
      calls: seq<ToolCall>): CallTurn
    requires pos <= |cx.input| && cx.form.Valid()
  {
    match ReadArgs(cx, pos, name, args, recovery, calls)
    case ArgsStopped(outcome) => StopCalls(outcome)
    case ArgsDone(pos', args', recovery') => CloseCall(cx, start, pos', name, args', recovery', calls)
  }

  /** A call up to its arguments, with a separator behind the name. */
  function PrintCallHead(form: Form, c: WrittenCall): string {
    (c.gap + form.toolStart) + ((c.name + c.pad) + form.toolSep)
  }

  lemma CallHeadText(form: Form, c: WrittenCall)
    ensures PrintCallHead(form, c) == (c.gap + form.toolStart) + ((c.name + c.pad) + form.toolSep)
  {
  }

  lemma NameIsReadFirst(cx: Context, c: WrittenCall, nameAt: nat)
    requires FormIsReadable(cx.form) && cx.form.Valid() && !AllSpace(cx.form.toolSep)
    requires CallIsReadable(cx.form, c) && nameAt <= |cx.input|
    requires OccursAt(cx.input, (c.name + c.pad) + cx.form.toolSep, nameAt)
    ensures FindNameEnd(cx, nameAt) ==
            NameEnd(Found(nameAt + |c.name + c.pad|, nameAt + |c.name + c.pad| + |cx.form.toolSep|))
    ensures cx.input[nameAt..nameAt + |c.name + c.pad|] == c.name + c.pad
  {
    hide FindLiteral;
    hide Find;
    hide OccursAt;
    hide Strip;
    hide EndsWith;
    hide FindToolEnd;
    FindTerminator(cx, c.name + c.pad, cx.form.toolSep, nameAt);
  }

  lemma NameIsMeantFirst(cx: Context, c: WrittenCall)
    requires CallIsReadable(cx.form, c) && CallIsMeant(cx, c)
    ensures FunctionName(cx, c.name + c.pad) == c.meant && c.meant != ""
  {
    hide Strip;
    hide NameIsMeant;
    NameText(cx.form, c.name, c.pad);
    MeantNameIsRead(cx, c.name, c.meant);
  }

  lemma CallStops(cx: Context, c: WrittenCall, start: nat, pos: nat, recovery: bool, calls: seq<ToolCall>,
      sent: seq<ToolCall>)
    requires FormIsReadable(cx.form) && cx.form.Valid() && !AllSpace(cx.form.toolSep)
    requires CallIsReadable(cx.form, c) && CallIsMeant(cx, c)
    requires OccursAt(cx.input, PrintCallHead(cx.form, c), pos) && pos + |PrintCallHead(cx.form, c)| <= |cx.input|
    requires RestOfCall(cx, start, pos + |PrintCallHead(cx.form, c)|, c.meant, [], recovery, calls) ==
             StopCalls(Incomplete(sent))
    ensures ReadCall(cx, start, pos, recovery, calls) == StopCalls(Incomplete(sent))
  {
    var form, nameAt := cx.form, pos + |c.gap + cx.form.toolStart|;
    hide *;
    SolidParts(form);
    CallHeadText(form, c);
    SplitAt(cx.input, c.gap + form.toolStart, (c.name + c.pad) + form.toolSep, pos);
    NameIsReadFirst(cx, c, nameAt);
    NameIsMeantFirst(cx, c);
    GapsAreSpaces(form, c);
    SolidEndsGap(c.gap, form.toolStart);
    FindTerminator(cx, c.gap, form.toolStart, pos);
    ReadCallStops(cx, start, pos, pos + |c.gap|, nameAt + |c.name + c.pad|, recovery, calls, sent);
  }

  lemma GapsAreSpaces(form: Form, c: WrittenCall)
    requires CallIsReadable(form, c)
    ensures AllSpace(c.gap) && AllSpace(c.pad)
  {
  }

  lemma ReadCallStops(cx: Context, start: nat, pos: nat, tool: nat, sep: nat, recovery: bool, calls: seq<ToolCall>,
      sent: seq<ToolCall>)
    requires pos <= tool <= |cx.input| && cx.form.Valid() && AllSpace(cx.input[pos..tool]) && !AllSpace(cx.form.toolSep)
    requires FindLiteral(cx.input, cx.partial, pos, cx.form.toolStart) == Some(Found(tool, tool + |cx.form.toolStart|))
    requires tool + |cx.form.toolStart| <= sep && sep + |cx.form.toolSep| <= |cx.input|
    requires FindNameEnd(cx, tool + |cx.form.toolStart|) == NameEnd(Found(sep, sep + |cx.form.toolSep|))
    requires var name := FunctionName(cx, cx.input[tool + |cx.form.toolStart|..sep]);
             RestOfCall(cx, start, sep + |cx.form.toolSep|, name, [], recovery, calls) == StopCalls(Incomplete(sent))
    ensures ReadCall(cx, start, pos, recovery, calls) == StopCalls(Incomplete(sent))
  {
    hide FindLiteral;
    hide FindNameEnd;
    hide ReadArgs;
    hide AllSpace;
    hide FunctionName;
  }

  /** The first calls of a scope and the arguments that a last one begins with, all of them complete. */
  function PrintBegun(form: Form, gap: string, written: seq<WrittenCall>, c: WrittenCall): string {
    PrintScopeStart(form, gap) + (PrintCalls(form, written) + (PrintCallHead(form, c) + PrintArgs(form, c.args)))
  }

  ghost predicate IsBegun(cx: Context, gap: string, written: seq<WrittenCall>, c: WrittenCall, start: nat) {
    var form := cx.form;
    && FormIsReadable(form) && form.Valid() && !AllSpace(form.toolSep) && AllSpace(gap)
    && (forall i :: 0 <= i < |written| ==> CallIsReadable(form, written[i]) && CallIsMeant(cx, written[i]))
    && CallIsReadable(form, c) && CallIsMeant(cx, c)
    && OccursAt(cx.input, PrintBegun(form, gap, written, c), start) &&
        start + |PrintBegun(form, gap, written, c)| <= |cx.input|
    && var callsAt := start + |PrintScopeStart(form, gap)|;
       var argsAt := callsAt + |PrintCalls(form, written)| + |PrintCallHead(form, c)|;
       CallsAsMeant(cx, written, callsAt) && ArgsAsMeant(cx, c.args, argsAt)
  }

  /** Where a begun call goes on: its complete arguments have been read, and the calls in front of it. */
  ghost predicate StopsWith(cx: Context, start: nat, pos: nat, c: WrittenCall, calls: seq<ToolCall>, sent: string)
    requires pos <= |cx.input| && cx.form.Valid()
  {
    forall recovery ::
      RestOfCall(cx, start, pos, c.meant, ArgsOf(c.args), recovery, calls) ==
      StopCalls(Incomplete(calls + [ToolCall(c.meant, sent)]))
  }

  lemma BegunCallIsRead(cx: Context, gap: string, written: seq<WrittenCall>, c: WrittenCall, start: nat,
      calls: seq<ToolCall>, sent: string)
    requires IsBegun(cx, gap, written, c, start)
    requires StopsWith(cx, start, start + |PrintBegun(cx.form, gap, written, c)|, c, calls + CallsOf(cx, written), sent)
    ensures TryConsume(cx, start, calls) == Incomplete(calls + CallsOf(cx, written) + [ToolCall(c.meant, sent)])
  {
    hide *;
    var form, done := cx.form, calls + CallsOf(cx, written);
    var scope, printed, head, args := PrintScopeStart(form, gap), PrintCalls(form, written), PrintCallHead(form, c),
        PrintArgs(form, c.args);
    BegunMeans(cx, gap, written, c, start);
    SplitAt(cx.input, scope, printed + (head + args), start);
    var callsAt := start + |scope|;
    SplitAt(cx.input, printed, head + args, callsAt);
    var callAt := callsAt + |printed|;
    SplitAt(cx.input, head, args, callAt);
    CallsAreReadFirst(cx, written, start, callsAt, true, calls);
    BegunArgs(cx, c, start, callAt + |head|, written == [], done, sent);
    CallStops(cx, c, start, callAt, written == [], done, done + [ToolCall(c.meant, sent)]);
    CallsStop(cx, start, callAt, written == [], done, done + [ToolCall(c.meant, sent)]);
    ScopeIsRead(cx, gap, start, calls, done + [ToolCall(c.meant, sent)]);
  }

  lemma BegunMeans(cx: Context, gap: string, written: seq<WrittenCall>, c: WrittenCall, start: nat)
    requires IsBegun(cx, gap, written, c, start)
    ensures var form := cx.form;
            && FormIsReadable(form) && form.Valid() && !AllSpace(form.toolSep) && AllSpace(gap)
            && CallIsReadable(form, c) && CallIsMeant(cx, c)
            && PrintBegun(form, gap, written, c) ==
               PrintScopeStart(form, gap) +
                   (PrintCalls(form, written) + (PrintCallHead(form, c) + PrintArgs(form, c.args)))
            && OccursAt(cx.input, PrintBegun(form, gap, written, c), start)
            && start + |PrintBegun(form, gap, written, c)| <= |cx.input|
    ensures forall i :: 0 <= i < |written| ==> CallIsReadable(cx.form, written[i]) && CallIsMeant(cx, written[i])
    ensures CallsAsMeant(cx, written, start + |PrintScopeStart(cx.form, gap)|)
    ensures ArgsAsMeant(cx, c.args, start + |PrintScopeStart(cx.form, gap)| + |PrintCalls(cx.form, written)|
                                    + |PrintCallHead(cx.form, c)|)
  {
    hide FormIsReadable;
    hide AllSpace;
    hide CallIsReadable;
    hide CallIsMeant;
    hide OccursAt;
    hide CallsAsMeant;
    hide ArgsAsMeant;
    hide PrintScopeStart;
    hide PrintCalls;
    hide PrintCallHead;
    hide PrintArgs;
  }

  lemma BegunArgs(cx: Context, c: WrittenCall, start: nat, pos: nat, recovery: bool, calls: seq<ToolCall>, sent: string)
    requires FormIsReadable(cx.form) && cx.form.Valid() && CallIsReadable(cx.form, c)
    requires OccursAt(cx.input, PrintArgs(cx.form, c.args), pos) && ArgsAsMeant(cx, c.args, pos)
    requires pos + |PrintArgs(cx.form, c.args)| <= |cx.input|
    requires StopsWith(cx, start, pos + |PrintArgs(cx.form, c.args)|, c, calls, sent)
    ensures RestOfCall(cx, start, pos, c.meant, [], recovery, calls) ==
            StopCalls(Incomplete(calls + [ToolCall(c.meant, sent)]))
  {
    hide FormIsReadable;
    hide ArgIsReadable;
    hide NameIsReadable;
    hide OccursAt;
    hide ArgsAsMeant;
    hide PrintArgs;
    hide ReadArgs;
    hide CloseCall;
    var args := c.args;
    assert args[0..] == args && args[..0] == [] && ArgsOf([]) == [];
    ArgsAreReadFirst(cx, args, 0, pos, c.meant, recovery, calls);
    var after := pos + |PrintArgs(cx.form, args)|;
    assert RestOfCall(cx, start, after, c.meant, ArgsOf(args), recovery && 0 == |args|, calls) ==
           StopCalls(Incomplete(calls + [ToolCall(c.meant, sent)]));
  }

  lemma CallsStop(cx: Context, start: nat, pos: nat, recovery: bool, calls: seq<ToolCall>, sent: seq<ToolCall>)
    requires pos <= |cx.input| && cx.form.Valid()
    requires ReadCall(cx, start, pos, recovery, calls) == StopCalls(Incomplete(sent))
    ensures ReadCalls(cx, start, pos, recovery, calls) == Incomplete(sent)
  {
  }

  lemma ScopeIsRead(cx: Context, gap: string, start: nat, calls: seq<ToolCall>, sent: seq<ToolCall>)
    requires FormIsReadable(cx.form) && cx.form.Valid() && AllSpace(gap)
    requires OccursAt(cx.input, PrintScopeStart(cx.form, gap), start) &&
        start + |PrintScopeStart(cx.form, gap)| <= |cx.input|
    requires ReadCalls(cx, start, start + |PrintScopeStart(cx.form, gap)|, true, calls) == Incomplete(sent)
    ensures TryConsume(cx, start, calls) == Incomplete(sent)
  {
    hide FindLiteral;
    hide ReadCalls;
    hide OccursAt;
    hide EndsWith;
    if !AllSpace(cx.form.scopeStart) {
      SolidEndsGap(gap, cx.form.scopeStart);
      FindTerminator(cx, gap, cx.form.scopeStart, start);
    }
  }

  /** A message that ends in a plain value: sent are the calls that are complete and, for the last one, its complete
      arguments and what is visible of the value, up to the place where it may go on. */
  lemma CutValueIsSent(cx: Context, gap: string, written: seq<WrittenCall>, c: WrittenCall, a: WrittenArg, start: nat,
      calls: seq<ToolCall>, head: string, tail: string)
    requires IsBegun(cx, gap, written, c, start)
    requires AllSpace(a.gap) && AllSpace(a.gap2) && EndsWith(a.key, cx.form.keyValSep) &&
        KeyFresh(ArgsOf(c.args), a.key)
    requires var pos := start + |PrintBegun(cx.form, gap, written, c)|;
             var at := pos + |PrintArgHead(cx.form, a)|;
             && OccursAt(cx.input, PrintArgHead(cx.form, a), pos) && at <= |cx.input|
             && Find(cx.input, cx.form.valEnd, at).None? && TakenAsText(cx, at) && IsClosing(tail)
             && cx.json.dump(ArgsOf(c.args) + [(a.key, Plain(VisibleValue(cx, at) + PARTIAL_FLAG))]) ==
                head + (PARTIAL_FLAG + tail)
    ensures TryConsume(cx, start, calls) ==
            Incomplete(calls + CallsOf(cx, written) + [ToolCall(c.meant, WithoutQuote(head))])
  {
    hide *;
    var pos := start + |PrintBegun(cx.form, gap, written, c)|;
    var done := calls + CallsOf(cx, written);
    BegunMeans(cx, gap, written, c, start);
    NameIsMeantFirst(cx, c);
    OpenArgIsSent(cx, a, pos, c.meant, ArgsOf(c.args), done, head, tail);
    ArgStopsAlways(cx, start, pos, c, done, WithoutQuote(head));
    BegunCallIsRead(cx, gap, written, c, start, calls, WithoutQuote(head));
  }

  lemma ArgStopsAlways(cx: Context, start: nat, pos: nat, c: WrittenCall, calls: seq<ToolCall>, sent: string)
    requires pos <= |cx.input| && cx.form.Valid()
    requires ReadArg(cx, pos, c.meant, ArgsOf(c.args), calls) == StopAt(Incomplete(calls + [ToolCall(c.meant, sent)]))
    ensures StopsWith(cx, start, pos, c, calls, sent)
  {
    hide ReadArg;
  }

  /** A message that ends behind complete arguments: the last call is sent without its closing brace. */
  lemma DoneArgsAreSent(cx: Context, gap: string, written: seq<WrittenCall>, c: WrittenCall, start: nat,
      calls: seq<ToolCall>, sent: string)
    requires IsBegun(cx, gap, written, c, start) && start + |PrintBegun(cx.form, gap, written, c)| <= |cx.input|
    requires AllSpace(cx.input[start + |PrintBegun(cx.form, gap, written, c)|..])
    requires cx.json.dump(ArgsOf(c.args)) == sent + "}"
    ensures TryConsume(cx, start, calls) == Incomplete(calls + CallsOf(cx, written) + [ToolCall(c.meant, sent)])
  {
    hide *;
    var pos := start + |PrintBegun(cx.form, gap, written, c)|;
    BegunMeans(cx, gap, written, c, start);
    NameIsMeantFirst(cx, c);
    CallStaysOpen(cx, start, pos, c, calls + CallsOf(cx, written), sent);
    BegunCallIsRead(cx, gap, written, c, start, calls, sent);
  }

  lemma CallStaysOpen(cx: Context, start: nat, pos: nat, c: WrittenCall, calls: seq<ToolCall>, sent: string)
    requires FormIsReadable(cx.form) && cx.form.Valid() && pos <= |cx.input| && c.meant != ""
    requires AllSpace(cx.input[pos..]) && cx.json.dump(ArgsOf(c.args)) == sent + "}"
    ensures StopsWith(cx, start, pos, c, calls, sent)
  {
    NothingInSpaces(cx.input, cx.partial, pos, cx.form.keyStart);
    NothingInSpaces(cx.input, cx.partial, pos, cx.form.toolEnd);
    assert cx.form.lastToolEnd.None?;
    hide FindLiteral;
    hide FormIsReadable;
    hide AllSpace;
    assert OpenDump(cx, ArgsOf(c.args)) == sent;
  }

  lemma NothingInSpaces(input: string, partial: bool, pos: nat, d: string)
    requires pos <= |input| && AllSpace(input[pos..]) && Solid(d)
    ensures FindLiteral(input, partial, pos, d).None?
  {
    forall k | pos <= k < |input|
      ensures IsSpace(input[k])
    {
      assert input[pos..][k - pos] == input[k];
    }
    var at, held := Find(input, d, pos), PartialStop(input, d);
    if at.Some? {
      FirstOfOccurrence(input, d, at.value);
    }
    if held.Some? {
      assert input[held.value..][0] == d[0];
    }
  }

  /** A message that ends in the key of an argument: what is visible of the key is sent, without a value. */
  lemma CutKeyIsSent(cx: Context, gap: string, written: seq<WrittenCall>, c: WrittenCall, keyGap: string, start: nat,
      calls: seq<ToolCall>, head: string, tail: string)
    requires IsBegun(cx, gap, written, c, start) && AllSpace(keyGap)
    requires var pos := start + |PrintBegun(cx.form, gap, written, c)|;
             var at := pos + |keyGap + cx.form.keyStart|;
             && OccursAt(cx.input, keyGap + cx.form.keyStart, pos) && at <= |cx.input|
             && FindLiteral(cx.input, cx.partial, at, cx.form.keyValSep).None?
             && KeyFresh(ArgsOf(c.args), Truncated(cx.input[at..]) + PARTIAL_FLAG) && IsClosing(tail)
             && cx.json.dump(ArgsOf(c.args) + [(Truncated(cx.input[at..]) + PARTIAL_FLAG, Plain(""))]) ==
                head + (PARTIAL_FLAG + tail)
    ensures TryConsume(cx, start, calls) ==
            Incomplete(calls + CallsOf(cx, written) + [ToolCall(c.meant, WithoutQuote(head))])
  {
    hide *;
    var pos := start + |PrintBegun(cx.form, gap, written, c)|;
    var done := calls + CallsOf(cx, written);
    BegunMeans(cx, gap, written, c, start);
    NameIsMeantFirst(cx, c);
    SolidParts(cx.form);
    SolidEndsGap(keyGap, cx.form.keyStart);
    FindTerminator(cx, keyGap, cx.form.keyStart, pos);
    var at := pos + |keyGap + cx.form.keyStart|;
    var key := Truncated(cx.input[at..]) + PARTIAL_FLAG;
    SetFreshKey(ArgsOf(c.args), key, Plain(""));
    FlagIsCut(head, tail);
    KeyStops(cx, pos, pos + |keyGap|, c.meant, ArgsOf(c.args), done, WithoutQuote(head));
    ArgStopsAlways(cx, start, pos, c, done, WithoutQuote(head));
    BegunCallIsRead(cx, gap, written, c, start, calls, WithoutQuote(head));
  }

  lemma KeyStops(cx: Context, pos: nat, key: nat, name: string, args: Args, calls: seq<ToolCall>, sent: string)
    requires pos <= key <= |cx.input| && cx.form.Valid() && AllSpace(cx.input[pos..key]) && name != ""
    requires FindLiteral(cx.input, cx.partial, pos, cx.form.keyStart) == Some(Found(key, key + |cx.form.keyStart|))
    requires var at := key + |cx.form.keyStart|;
             && at <= |cx.input| && FindLiteral(cx.input, cx.partial, at, cx.form.keyValSep).None?
             && CutAtFlag(cx.json.dump(SetArg(args, Truncated(cx.input[at..]) + PARTIAL_FLAG, Plain("")))) == Some(sent)
    ensures ReadArg(cx, pos, name, args, calls) == StopAt(Incomplete(calls + [ToolCall(name, sent)]))
  {
    hide FindLiteral;
    hide AllSpace;
    hide CutAtFlag;
    hide SetArg;
  }

  /** A message that ends inside the literal in front of a key: the last call is sent without its closing brace. */
  lemma CutKeyStartIsSent(cx: Context, gap: string, written: seq<WrittenCall>, c: WrittenCall, key: nat, start: nat,
      calls: seq<ToolCall>, sent: string)
    requires IsBegun(cx, gap, written, c, start)
    requires var pos := start + |PrintBegun(cx.form, gap, written, c)|;
             && pos <= key <= |cx.input| < key + |cx.form.keyStart| && AllSpace(cx.input[pos..key])
             && FindLiteral(cx.input, cx.partial, pos, cx.form.keyStart) == Some(Found(key, |cx.input|))
    requires cx.json.dump(ArgsOf(c.args)) == sent + "}"
    ensures TryConsume(cx, start, calls) == Incomplete(calls + CallsOf(cx, written) + [ToolCall(c.meant, sent)])
  {
    hide *;
    var pos := start + |PrintBegun(cx.form, gap, written, c)|;
    var done := calls + CallsOf(cx, written);
    BegunMeans(cx, gap, written, c, start);
    NameIsMeantFirst(cx, c);
    KeyStartStops(cx, pos, key, c.meant, ArgsOf(c.args), done, sent);
    ArgStopsAlways(cx, start, pos, c, done, sent);
    BegunCallIsRead(cx, gap, written, c, start, calls, sent);
  }

  lemma KeyStartStops(cx: Context, pos: nat, key: nat, name: string, args: Args, calls: seq<ToolCall>, sent: string)
    requires pos <= key <= |cx.input| < key + |cx.form.keyStart| && cx.form.Valid() && AllSpace(cx.input[pos..key])
    requires FindLiteral(cx.input, cx.partial, pos, cx.form.keyStart) == Some(Found(key, |cx.input|)) && name != ""
    requires cx.json.dump(args) == sent + "}"
    ensures ReadArg(cx, pos, name, args, calls) == StopAt(Incomplete(calls + [ToolCall(name, sent)]))
  {
    hide FindLiteral;
    hide AllSpace;
    OpenDumpLacksTheBrace(cx, args);
    assert (sent + "}")[|sent|] == '}' && (sent + "}")[..|sent|] == sent;
  }

  /** A message that ends inside the literal behind a key: the key is sent, without a value. */
  lemma CutSeparatorIsSent(cx: Context, gap: string, written: seq<WrittenCall>, c: WrittenCall, keyGap: string,
      key: string,
      start: nat, calls: seq<ToolCall>, head: string, tail: string)
    requires IsBegun(cx, gap, written, c, start) && AllSpace(keyGap)
    requires var pos := start + |PrintBegun(cx.form, gap, written, c)|;
             var at := pos + |keyGap + cx.form.keyStart|;
             && OccursAt(cx.input, keyGap + cx.form.keyStart, pos) && at + |key| <= |cx.input|
             && FindLiteral(cx.input, cx.partial, at, cx.form.keyValSep) == Some(Found(at + |key|, |cx.input|))
             && cx.input[at..at + |key|] == key && |cx.input| < at + |key| + |cx.form.keyValSep|
             && KeyFresh(ArgsOf(c.args), key + PARTIAL_FLAG) && IsClosing(tail)
             && cx.json.dump(ArgsOf(c.args) + [(key + PARTIAL_FLAG, Plain(""))]) == head + (PARTIAL_FLAG + tail)
    ensures TryConsume(cx, start, calls) ==
            Incomplete(calls + CallsOf(cx, written) + [ToolCall(c.meant, WithoutQuote(head))])
  {
    hide *;
    var pos := start + |PrintBegun(cx.form, gap, written, c)|;
    var done := calls + CallsOf(cx, written);
    BegunMeans(cx, gap, written, c, start);
    NameIsMeantFirst(cx, c);
    SolidParts(cx.form);
    SolidEndsGap(keyGap, cx.form.keyStart);
    FindTerminator(cx, keyGap, cx.form.keyStart, pos);
    SetFreshKey(ArgsOf(c.args), key + PARTIAL_FLAG, Plain(""));
    FlagIsCut(head, tail);
    SeparatorStops(cx, pos, pos + |keyGap|, pos + |keyGap + cx.form.keyStart| + |key|, c.meant, ArgsOf(c.args), done,
        WithoutQuote(head));
    ArgStopsAlways(cx, start, pos, c, done, WithoutQuote(head));
    BegunCallIsRead(cx, gap, written, c, start, calls, WithoutQuote(head));
  }

  lemma SeparatorStops(cx: Context, pos: nat, keyStart: nat, sep: nat, name: string, args: Args, calls: seq<ToolCall>,
      sent: string)
    requires pos <= keyStart <= |cx.input| && cx.form.Valid() && AllSpace(cx.input[pos..keyStart]) && name != ""
    requires FindLiteral(cx.input, cx.partial, pos, cx.form.keyStart) ==
             Some(Found(keyStart, keyStart + |cx.form.keyStart|))
    requires var at := keyStart + |cx.form.keyStart|;
             && at <= sep <= |cx.input| < sep + |cx.form.keyValSep|
             && FindLiteral(cx.input, cx.partial, at, cx.form.keyValSep) == Some(Found(sep, |cx.input|))
             && CutAtFlag(cx.json.dump(SetArg(args, cx.input[at..sep] + PARTIAL_FLAG, Plain("")))) == Some(sent)
    ensures ReadArg(cx, pos, name, args, calls) == StopAt(Incomplete(calls + [ToolCall(name, sent)]))
  {
    hide FindLiteral;
    hide AllSpace;
    hide CutAtFlag;
    hide SetArg;
  }

  /** A message that ends inside the second separator, or where it is missing: the key is sent with a value that is not
      there yet. */
  lemma CutSecondSeparatorStops(cx: Context, pos: nat, name: string, key: string, args: Args, calls: seq<ToolCall>,
      head: string, tail: string)
    requires pos <= |cx.input| && cx.form.keyValSep2.Some? && name != "" && KeyFresh(args, key) && IsClosing(tail)
    requires var sep := FindLiteral(cx.input, cx.partial, pos, cx.form.keyValSep2.value);
             sep.None? || (AllSpace(cx.input[pos..sep.value.begin])
                           && sep.value.end - sep.value.begin != |cx.form.keyValSep2.value|)
    requires cx.json.dump(args + [(key, Plain(PARTIAL_FLAG))]) == head + (PARTIAL_FLAG + tail)
    ensures AfterKey(cx, pos, name, key, args, calls) ==
            StopAt(Incomplete(calls + [ToolCall(name, WithoutQuote(head))]))
  {
    SetFreshKey(args, key, Plain(PARTIAL_FLAG));
    FlagIsCut(head, tail);
    assert "" + PARTIAL_FLAG == PARTIAL_FLAG;
    hide FindLiteral;
    hide AllSpace;
    hide CutAtFlag;
    hide IsClosing;
    hide WithoutQuote;
  }

  /** Nothing is sent of a call without a name, whatever arguments it has, and it does not end. */
  lemma NamelessCallIsNotSent(cx: Context, start: nat, pos: nat, args: Args, recovery: bool, calls: seq<ToolCall>)
    requires pos <= |cx.input| && cx.form.Valid()
    ensures var t := RestOfCall(cx, start, pos, "", args, recovery, calls);
            t.StopCalls? && (t.outcome.Incomplete? ==> t.outcome.calls == calls)
    decreases |cx.input| - pos
  {
    NamelessArgIsNotSent(cx, pos, args, calls);
    hide ReadArg;
    var t := ReadArg(cx, pos, "", args, calls);
    if t.NextArg? {
      NamelessCallIsNotSent(cx, start, t.pos, t.args, false, calls);
    }
  }

  lemma NamelessArgIsNotSent(cx: Context, pos: nat, args: Args, calls: seq<ToolCall>)
    requires pos <= |cx.input| && cx.form.Valid()
    ensures var t := ReadArg(cx, pos, "", args, calls);
            t.StopAt? && t.outcome.Incomplete? ==> t.outcome.calls == calls
  {
    hide FindLiteral;
    hide FindValEnd;
    hide Detect;
    hide SetArg;
    hide CutAtFlag;
    hide AllSpace;
    hide RFind;
  }

  // ---- Values that may become JSON

  /** `[0-9-][0-9]*(\.\d*)?([eE][+-]?\d*)?`, with the parts that its groups match. */
  predicate IsNumberOf(s: string, first: char, digits: string, fraction: string, exponent: string) {
    && s == [first] + (digits + (fraction + exponent))
    && (first == '-' || '0' <= first <= '9') && AllDigits(digits)
    && IsFraction(fraction) && (exponent == "" || IsExponent(exponent))
  }

  predicate IsFraction(f: string) {
    f == "" || (f[0] == '.' && AllDigits(f[1..]))
  }

  predicate IsExponent(e: string) {
    && e != "" && (e[0] == 'e' || e[0] == 'E')
    && (AllDigits(e[1..]) || (|e| > 1 && (e[1] == '+' || e[1] == '-') && AllDigits(e[2..])))
  }

  lemma DigitsEndAt(s: string, i: nat, j: nat)
    requires i <= j <= |s| && AllDigits(s[i..j]) && (j < |s| ==> !('0' <= s[j] <= '9'))
    ensures SkipDigits(s, i) == j
    decreases j - i
  {
    if i < j {
      assert s[i..j][0] == s[i] && s[i..j][1..] == s[i + 1..j];
      DigitsEndAt(s, i + 1, j);
    }
  }

  lemma DigitsSkipped(s: string, i: nat)
    requires i <= |s|
    ensures var j := SkipDigits(s, i); AllDigits(s[i..j]) && (j < |s| ==> !('0' <= s[j] <= '9'))
    decreases |s| - i
  {
    if i < |s| && '0' <= s[i] <= '9' {
      DigitsSkipped(s, i + 1);
      var j := SkipDigits(s, i + 1);
      assert s[i..j] == [s[i]] + s[i + 1..j];
    }
  }

  /** The digits of an exponent begin here. */
  function ExponentDigits(s: string, j: nat): nat
    requires j < |s|
  {
    if j + 1 < |s| && (s[j + 1] == '+' || s[j + 1] == '-') then j + 2 else j + 1
  }

  function FractionEnd(s: string, i: nat): (j: nat)
    requires i <= |s|
    ensures i <= j <= |s|
  {
    if i < |s| && s[i] == '.' then SkipDigits(s, i + 1) else i
  }

  function ExponentEnd(s: string, j: nat): (k: nat)
    requires j <= |s|
    ensures j <= k <= |s|
  {
    if j < |s| && (s[j] == 'e' || s[j] == 'E') then SkipDigits(s, ExponentDigits(s, j)) else j
  }

  lemma NumberSteps(s: string)
    ensures IsNumberSoFar(s) <==>
            s != "" && (s[0] == '-' || '0' <= s[0] <= '9') && ExponentEnd(s, FractionEnd(s, SkipDigits(s, 1))) == |s|
  {
    hide SkipDigits;
  }

  lemma FractionRead(s: string, i: nat)
    requires i <= |s|
    ensures IsFraction(s[i..FractionEnd(s, i)])
  {
    if i < |s| && s[i] == '.' {
      DigitsSkipped(s, i + 1);
      var j := FractionEnd(s, i);
      assert s[i..j][0] == '.' && s[i..j][1..] == s[i + 1..j];
    }
  }

  lemma ExponentRead(s: string, j: nat)
    requires j < |s| && ExponentEnd(s, j) == |s|
    ensures IsExponent(s[j..])
  {
    var e, at := s[j..], ExponentDigits(s, j);
    DigitsSkipped(s, at);
    assert s[at..|s|] == s[at..] == e[at - j..];
    assert e[0] == s[j] && (|e| > 1 ==> e[1] == s[j + 1]);
  }

  lemma NumberIsSplit(s: string)
    requires IsNumberSoFar(s)
    ensures exists digits, fraction, exponent :: IsNumberOf(s, s[0], digits, fraction, exponent)
  {
    NumberSteps(s);
    var i := SkipDigits(s, 1);
    var j := FractionEnd(s, i);
    DigitsSkipped(s, 1);
    FractionRead(s, i);
    if j < |s| {
      ExponentRead(s, j);
    }
    NumberParts(s, i, j);
    hide *;
    IsSplit(s, i, j);
  }

  lemma NumberParts(s: string, i: nat, j: nat)
    requires 1 <= i <= j <= |s|
    ensures s == [s[0]] + (s[1..i] + (s[i..j] + s[j..]))
  {
  }

  lemma IsSplit(s: string, i: nat, j: nat)
    requires 1 <= i <= j <= |s| && s == [s[0]] + (s[1..i] + (s[i..j] + s[j..])) && (s[0] == '-' || '0' <= s[0] <= '9')
    requires AllDigits(s[1..i]) && IsFraction(s[i..j]) && (j < |s| ==> IsExponent(s[j..]))
    ensures exists digits, fraction, exponent :: IsNumberOf(s, s[0], digits, fraction, exponent)
  {
    hide IsExponent;
    hide AllDigits;
    hide IsFraction;
    assert IsNumberOf(s, s[0], s[1..i], s[i..j], s[j..]);
  }

  lemma ExponentEnds(e: string)
    requires IsExponent(e)
    ensures ExponentEnd(e, 0) == |e|
  {
    if |e| > 1 && (e[1] == '+' || e[1] == '-') {
      assert e[1..] != "" && e[1..][0] == e[1];
      DigitsEndAt(e, 2, |e|);
    } else {
      DigitsEndAt(e, 1, |e|);
    }
  }

  lemma SkippedInTail(s: string, front: nat, i: nat)
    requires front <= |s| && i <= |s| - front
    ensures SkipDigits(s, front + i) == front + SkipDigits(s[front..], i)
    decreases |s| - front - i
  {
    if i < |s| - front {
      assert s[front + i] == s[front..][i];
      SkippedInTail(s, front, i + 1);
    }
  }

  lemma ExponentInTail(s: string, j: nat)
    requires j < |s|
    ensures ExponentEnd(s, j) == j + ExponentEnd(s[j..], 0)
  {
    var e := s[j..];
    assert e[0] == s[j] && (|e| > 1 ==> e[1] == s[j + 1]);
    SkippedInTail(s, j, ExponentDigits(e, 0));
  }

  lemma FractionInTail(s: string, i: nat, fraction: string, exponent: string)
    requires i <= |s| && s[i..] == fraction + exponent && IsFraction(fraction) &&
        (exponent == "" || IsExponent(exponent))
    ensures FractionEnd(s, i) == i + |fraction|
  {
    var j := i + |fraction|;
    assert s[i..][|fraction|..] == exponent && s[i..][..|fraction|] == fraction;
    assert exponent != "" ==> s[j] == exponent[0];
    if fraction != "" {
      assert s[i] == s[i..][0] == fraction[0];
      assert s[i + 1..j] == fraction[1..];
      DigitsEndAt(s, i + 1, j);
    } else if i < |s| {
      assert s[i] == s[i..][0] == exponent[0];
    }
  }

  lemma SplitIsNumber(s: string, first: char, digits: string, fraction: string, exponent: string)
    requires IsNumberOf(s, first, digits, fraction, exponent)
    ensures IsNumberSoFar(s)
  {
    PartsOfNumber(s, first, digits, fraction, exponent);
    DigitsOfNumber(s, digits, fraction, exponent);
    NumberSteps(s);
    hide IsNumberSoFar;
    hide FractionEnd;
    hide ExponentEnd;
    hide IsExponent;
    hide IsFraction;
    hide AllDigits;
    NumberEnds(s, 1 + |digits|, fraction, exponent);
  }

  lemma DigitsOfNumber(s: string, digits: string, fraction: string, exponent: string)
    requires s != "" && s[1..] == digits + (fraction + exponent) && AllDigits(digits)
    requires IsFraction(fraction) && (exponent == "" || IsExponent(exponent))
    ensures SkipDigits(s, 1) == 1 + |digits|
  {
    var i := 1 + |digits|;
    assert s[1..][..|digits|] == s[1..i] && s[1..][|digits|..] == s[i..];
    assert i < |s| ==> s[i] == s[i..][0];
    DigitsEndAt(s, 1, i);
  }

  lemma NumberEnds(s: string, i: nat, fraction: string, exponent: string)
    requires i <= |s| && s[i..] == fraction + exponent && s[i + |fraction|..] == exponent
    requires IsFraction(fraction) && (exponent == "" || IsExponent(exponent))
    ensures ExponentEnd(s, FractionEnd(s, i)) == |s|
  {
    hide IsFraction;
    hide IsExponent;
    hide FractionEnd;
    FractionInTail(s, i, fraction, exponent);
    if exponent != "" {
      hide ExponentEnd;
      ExponentEnds(exponent);
      ExponentInTail(s, i + |fraction|);
    }
  }

  lemma PartsOfNumber(s: string, first: char, digits: string, fraction: string, exponent: string)
    requires s == [first] + (digits + (fraction + exponent))
    ensures var i := 1 + |digits|;
            && s[0] == first && s[1..] == digits + (fraction + exponent)
            && s[i..] == fraction + exponent && s[i + |fraction|..] == exponent
  {
  }

  /** What may be the beginning of a number: exactly the texts of that form. */
  lemma NumberSoFarExactly(s: string)
    ensures IsNumberSoFar(s) <==>
            exists first, digits, fraction, exponent :: IsNumberOf(s, first, digits, fraction, exponent)
  {
    if IsNumberSoFar(s) {
      NumberIsSplit(s);
    }
    if first, digits, fraction, exponent :| IsNumberOf(s, first, digits, fraction, exponent) {
      SplitIsNumber(s, first, digits, fraction, exponent);
    }
  }

  /** At the end of the input a beginning of a word or a number, behind white space. */
  predicate MayGoOnAsJson(rest: string) {
    rest in {"", "n", "nu", "nul", "null", "t", "tr", "tru", "true", "f", "fa", "fal", "fals", "false"} ||
        IsNumberSoFar(rest)
  }

  lemma WordsBegin(rest: string)
    ensures MayBecomeJson(rest) <==> MayGoOnAsJson(rest)
  {
    hide IsNumberSoFar;
    BeginningsOf(rest, "null");
    BeginningsOf(rest, "true");
    BeginningsOf(rest, "false");
  }

  lemma BeginningsOf(rest: string, word: string)
    requires 4 <= |word| <= 5
    ensures rest <= word <==>
            || rest == "" || rest == [word[0]] || rest == [word[0], word[1]] || rest == [word[0], word[1], word[2]]
            || rest == [word[0], word[1], word[2], word[3]] || (|word| == 5 && rest == word)
  {
    if rest <= word && rest != word {
      assert |rest| < |word|;
      assert rest == word[..|rest|];
    }
    assert |word| == 4 ==> word == [word[0], word[1], word[2], word[3]];
  }

  /** What may still become JSON is awaited, and sent as a value that is not there yet. */
  lemma AwaitedValueIsSent(cx: Context, pos: nat, name: string, key: string, args: Args, calls: seq<ToolCall>,
      rest: string,
      head: string, tail: string)
    requires pos <= |cx.input| && cx.form.Valid() && cx.form.rawArgval != Some(true) && name != ""
    requires cx.json.consume(cx.input, cx.partial, pos).None?
    requires SkipSpaces(cx.input, pos) <= TruncateSafe(cx.input)
    requires rest == cx.input[SkipSpaces(cx.input, pos)..TruncateSafe(cx.input)] && MayGoOnAsJson(rest)
    requires KeyFresh(args, key) && IsClosing(tail)
    requires cx.json.dump(args + [(key, Plain(PARTIAL_FLAG))]) == head + (PARTIAL_FLAG + tail)
    ensures ValueAt(cx, pos, name, key, args, calls) == StopAt(Incomplete(calls + [ToolCall(name, WithoutQuote(head))]))
  {
    WordsBegin(rest);
    AwaitedIsDetected(cx, pos, rest);
    hide *;
    JsonIsAwaited(cx, pos, name, key, args, calls, head, tail);
  }

  lemma AwaitedIsDetected(cx: Context, pos: nat, rest: string)
    requires pos <= |cx.input| && cx.form.rawArgval != Some(true) && cx.json.consume(cx.input, cx.partial, pos).None?
    requires SkipSpaces(cx.input, pos) <= TruncateSafe(cx.input)
    requires rest == cx.input[SkipSpaces(cx.input, pos)..TruncateSafe(cx.input)] && MayBecomeJson(rest)
    ensures Detect(cx, pos).Some? && !Detect(cx, pos).value.structured
    ensures Detect(cx, pos).value.end == SkipSpaces(cx.input, Detect(cx, pos).value.end) == |cx.input|
  {
    hide MayBecomeJson;
  }

  // ---- Scopes that do not end

  /** Printed calls of a scope, with anything behind them. */
  ghost predicate AreCalls(cx: Context, gap: string, written: seq<WrittenCall>, start: nat) {
    var form := cx.form;
    && FormIsReadable(form) && form.Valid() && AllSpace(gap)
    && (forall i :: 0 <= i < |written| ==> CallIsReadable(form, written[i]) && CallIsMeant(cx, written[i]))
    && OccursAt(cx.input, PrintScopeStart(form, gap) + PrintCalls(form, written), start)
    && start + |PrintScopeStart(form, gap)| + |PrintCalls(form, written)| <= |cx.input|
    && CallsAsMeant(cx, written, start + |PrintScopeStart(form, gap)|)
  }

  lemma CallsMean(cx: Context, gap: string, written: seq<WrittenCall>, start: nat)
    requires AreCalls(cx, gap, written, start)
    ensures FormIsReadable(cx.form) && cx.form.Valid() && AllSpace(gap)
    ensures forall i :: 0 <= i < |written| ==> CallIsReadable(cx.form, written[i]) && CallIsMeant(cx, written[i])
    ensures OccursAt(cx.input, PrintScopeStart(cx.form, gap) + PrintCalls(cx.form, written), start)
    ensures start + |PrintScopeStart(cx.form, gap)| + |PrintCalls(cx.form, written)| <= |cx.input|
    ensures CallsAsMeant(cx, written, start + |PrintScopeStart(cx.form, gap)|)
  {
    hide FormIsReadable;
    hide AllSpace;
    hide CallIsReadable;
    hide CallIsMeant;
    hide OccursAt;
    hide CallsAsMeant;
    hide PrintScopeStart;
    hide PrintCalls;
  }

  /** Calls behind which nothing but white space comes are kept, and the end of their scope is awaited. */
  lemma ScopeEndIsAwaited(cx: Context, gap: string, written: seq<WrittenCall>, start: nat, calls: seq<ToolCall>)
    requires AreCalls(cx, gap, written, start) && !AllSpace(cx.form.scopeEnd)
    requires var after := start + |PrintScopeStart(cx.form, gap)| + |PrintCalls(cx.form, written)|;
             after <= |cx.input| && AllSpace(cx.input[after..])
    ensures TryConsume(cx, start, calls) == Incomplete(calls + CallsOf(cx, written))
  {
    hide *;
    CallsMean(cx, gap, written, start);
    var head, body := PrintScopeStart(cx.form, gap), PrintCalls(cx.form, written);
    SplitAt(cx.input, head, body, start);
    var after := start + |head| + |body|;
    SolidScope(cx.form);
    SolidParts(cx.form);
    NothingInSpaces(cx.input, cx.partial, after, cx.form.toolStart);
    NothingInSpaces(cx.input, cx.partial, after, cx.form.scopeEnd);
    CallsAreReadFirst(cx, written, start, start + |head|, true, calls);
    NothingBehindCalls(cx, start, after, written == [], calls + CallsOf(cx, written));
    ScopeIsRead(cx, gap, start, calls, calls + CallsOf(cx, written));
  }

  lemma SolidScope(form: Form)
    requires FormIsReadable(form) && !AllSpace(form.scopeEnd)
    ensures Solid(form.scopeEnd)
  {
  }

  lemma NothingBehindCalls(cx: Context, start: nat, pos: nat, recovery: bool, calls: seq<ToolCall>)
    requires pos <= |cx.input| && cx.form.Valid() && AllSpace(cx.input[pos..]) && !AllSpace(cx.form.scopeEnd)
    requires FindLiteral(cx.input, cx.partial, pos, cx.form.toolStart).None?
    requires FindLiteral(cx.input, cx.partial, pos, cx.form.scopeEnd).None?
    ensures ReadCalls(cx, start, pos, recovery, calls) == Incomplete(calls)
  {
    hide FindLiteral;
    assert SkipSpaces(cx.input, pos) == |cx.input| by {
      assert forall k :: pos <= k < |cx.input| ==> cx.input[k] == cx.input[pos..][k - pos];
    }
    hide SkipSpaces;
  }

  /** Calls behind which something else comes than a call or the end of their scope are all taken back. */
  lemma CallsAreTakenBack(cx: Context, gap: string, written: seq<WrittenCall>, start: nat, calls: seq<ToolCall>)
    requires AreCalls(cx, gap, written, start) && written != [] && !AllSpace(cx.form.scopeEnd)
    requires var after := start + |PrintScopeStart(cx.form, gap)| + |PrintCalls(cx.form, written)|;
             && after <= |cx.input| && !AllSpace(cx.input[after..])
             && NotNext(cx, after, cx.form.toolStart) && NotNext(cx, after, cx.form.scopeEnd)
    ensures TryConsume(cx, start, calls) == Returned(false, start, calls)
  {
    hide *;
    CallsMean(cx, gap, written, start);
    var head, body := PrintScopeStart(cx.form, gap), PrintCalls(cx.form, written);
    SplitAt(cx.input, head, body, start);
    var after := start + |head| + |body|;
    CallsAreReadFirst(cx, written, start, start + |head|, true, calls);
    OtherBehindCalls(cx, start, after, calls + CallsOf(cx, written));
    ScopeIsRefused(cx, gap, start, calls, calls + CallsOf(cx, written));
    NothingAdded(calls, CallsOf(cx, written));
  }

  lemma NothingAdded(calls: seq<ToolCall>, more: seq<ToolCall>)
    ensures (calls + more)[..|calls|] == calls
  {
  }

  lemma OtherBehindCalls(cx: Context, start: nat, pos: nat, calls: seq<ToolCall>)
    requires pos <= |cx.input| && cx.form.Valid() && !AllSpace(cx.input[pos..]) && !AllSpace(cx.form.scopeEnd)
    requires NotNext(cx, pos, cx.form.toolStart) && NotNext(cx, pos, cx.form.scopeEnd)
    ensures ReadCalls(cx, start, pos, false, calls) == SyntaxError(calls)
  {
    NoCallFollows(cx, start, pos, false, calls);
    ScopeComes(cx, start, pos, false, calls);
    hide FindLiteral;
    hide ReadCall;
    hide ReadCalls;
    assert SkipSpaces(cx.input, pos) < |cx.input| by {
      assert forall k :: pos <= k < |cx.input| ==> cx.input[k] == cx.input[pos..][k - pos];
    }
  }

  lemma ScopeIsRefused(cx: Context, gap: string, start: nat, calls: seq<ToolCall>, read: seq<ToolCall>)
    requires FormIsReadable(cx.form) && cx.form.Valid() && AllSpace(gap) && |calls| <= |read|
    requires OccursAt(cx.input, PrintScopeStart(cx.form, gap), start) &&
        start + |PrintScopeStart(cx.form, gap)| <= |cx.input|
    requires ReadCalls(cx, start, start + |PrintScopeStart(cx.form, gap)|, true, calls) == SyntaxError(read)
    ensures TryConsume(cx, start, calls) == Returned(false, start, read[..|calls|])
  {
    hide FindLiteral;
    hide ReadCalls;
    hide OccursAt;
    hide EndsWith;
    if !AllSpace(cx.form.scopeStart) {
      SolidEndsGap(gap, cx.form.scopeStart);
      FindTerminator(cx, gap, cx.form.scopeStart, start);
    }
  }

  /** Without the start of a scope, where one is needed, nothing is read. */
  lemma NoScopeNoCalls(cx: Context, start: nat, calls: seq<ToolCall>)
    requires start <= |cx.input| && cx.form.Valid() && !AllSpace(cx.form.scopeStart) &&
        NotNext(cx, start, cx.form.scopeStart)
    ensures TryConsume(cx, start, calls) == Returned(false, start, calls)
  {
    hide FindLiteral;
  }

  /** A call whose name does not end is not sent. */
  lemma OpenNameIsNotSent(cx: Context, tool: nat, start: nat, pos: nat, recovery: bool, calls: seq<ToolCall>)
    requires pos <= tool <= |cx.input| && cx.form.Valid() && AllSpace(cx.input[pos..tool])
    requires FindLiteral(cx.input, cx.partial, pos, cx.form.toolStart) == Some(Found(tool, tool + |cx.form.toolStart|))
    requires var at := tool + |cx.form.toolStart|;
             && at <= |cx.input| && FindToolEnd(cx, at).found.None?
             && FindLiteral(cx.input, cx.partial, at, if AllSpace(cx.form.toolSep) then cx.form.keyStart
                            else cx.form.toolSep).None?
    ensures ReadCalls(cx, start, pos, recovery, calls) == Incomplete(calls)
  {
    hide *;
    NoNameEnds(cx, tool + |cx.form.toolStart|);
    OpenNameStops(cx, tool, start, pos, recovery, calls);
    CallsStop(cx, start, pos, recovery, calls, calls);
  }

  lemma OpenNameStops(cx: Context, tool: nat, start: nat, pos: nat, recovery: bool, calls: seq<ToolCall>)
    requires pos <= tool <= |cx.input| && cx.form.Valid() && AllSpace(cx.input[pos..tool])
    requires FindLiteral(cx.input, cx.partial, pos, cx.form.toolStart) == Some(Found(tool, tool + |cx.form.toolStart|))
    requires tool + |cx.form.toolStart| <= |cx.input| && FindNameEnd(cx, tool + |cx.form.toolStart|) == NoNameEnd(false)
    ensures ReadCall(cx, start, pos, recovery, calls) == StopCalls(Incomplete(calls))
  {
    hide FindLiteral;
    hide FindNameEnd;
    hide AllSpace;
    hide ReadArgs;
    hide FunctionName;
  }

  lemma NoNameEnds(cx: Context, at: nat)
    requires at <= |cx.input| && FindToolEnd(cx, at).found.None?
    requires FindLiteral(cx.input, cx.partial, at, if AllSpace(cx.form.toolSep) then cx.form.keyStart
                         else cx.form.toolSep).None?
    ensures FindNameEnd(cx, at) == NoNameEnd(false)
  {
    hide FindLiteral;
    hide FindToolEnd;
    hide AllSpace;
  }

  /** Behind the arguments of a call nothing but its end may stand: a call with other text there is refused. */
  lemma TextInCallIsRefused(cx: Context, start: nat, pos: nat, name: string, args: Args, recovery: bool,
      calls: seq<ToolCall>)
    requires pos <= |cx.input| && cx.form.Valid() && NotNext(cx, pos, cx.form.keyStart)
    requires FindToolEnd(cx, pos).found.Some? && !AllSpace(cx.input[pos..FindToolEnd(cx, pos).found.value.begin])
    ensures RestOfCall(cx, start, pos, name, args, recovery, calls) ==
            StopCalls(if recovery then Returned(false, start, calls) else SyntaxError(calls))
  {
    NoArgFollows(cx, pos, name, args, calls);
    NoMoreArgs(cx, pos, name, args, recovery, calls);
    hide FindToolEnd;
    hide ReadArgs;
    hide AllSpace;
  }

  /** Between the two separators of an argument nothing but white space may stand. */
  lemma TextAfterKeyIsRefused(cx: Context, pos: nat, name: string, key: string, args: Args, calls: seq<ToolCall>)
    requires pos <= |cx.input| && cx.form.keyValSep2.Some?
    requires var sep := FindLiteral(cx.input, cx.partial, pos, cx.form.keyValSep2.value);
             sep.Some? && !AllSpace(cx.input[pos..sep.value.begin])
    ensures AfterKey(cx, pos, name, key, args, calls) == StopAt(SyntaxError(calls))
  {
    hide FindLiteral;
    hide AllSpace;
  }

  // ---- Ends that are cut

  /** A message that ends inside the start of a scope: it is awaited. */
  lemma CutScopeStartIsAwaited(cx: Context, scope: nat, start: nat, calls: seq<ToolCall>)
    requires start <= scope <= |cx.input| < scope + |cx.form.scopeStart| && cx.form.Valid()
    requires !AllSpace(cx.form.scopeStart) && AllSpace(cx.input[start..scope])
    requires FindLiteral(cx.input, cx.partial, start, cx.form.scopeStart) == Some(Found(scope, |cx.input|))
    ensures TryConsume(cx, start, calls) == Incomplete(calls)
  {
    hide FindLiteral;
    hide AllSpace;
    hide ReadCalls;
  }

  /** A message that ends inside the end of a call: the call is sent without its closing brace. */
  lemma CutCallEndIsSent(cx: Context, gap: string, written: seq<WrittenCall>, c: WrittenCall, end: nat, start: nat,
      calls: seq<ToolCall>, sent: string)
    requires IsBegun(cx, gap, written, c, start) && cx.json.dump(ArgsOf(c.args)) == sent + "}"
    requires var pos := start + |PrintBegun(cx.form, gap, written, c)|;
             && pos <= end <= |cx.input| < end + |cx.form.toolEnd| && AllSpace(cx.input[pos..end])
             && NotNext(cx, pos, cx.form.keyStart)
             && FindLiteral(cx.input, cx.partial, pos, cx.form.toolEnd) == Some(Found(end, |cx.input|))
    ensures TryConsume(cx, start, calls) == Incomplete(calls + CallsOf(cx, written) + [ToolCall(c.meant, sent)])
  {
    hide *;
    var pos := start + |PrintBegun(cx.form, gap, written, c)|;
    BegunMeans(cx, gap, written, c, start);
    NameIsMeantFirst(cx, c);
    CallEndIsCut(cx, start, pos, end, c, calls + CallsOf(cx, written), sent);
    BegunCallIsRead(cx, gap, written, c, start, calls, sent);
  }

  lemma CallEndIsCut(cx: Context, start: nat, pos: nat, end: nat, c: WrittenCall, calls: seq<ToolCall>, sent: string)
    requires FormIsReadable(cx.form) && cx.form.Valid() && c.meant != ""
    requires pos <= end <= |cx.input| < end + |cx.form.toolEnd| && AllSpace(cx.input[pos..end])
    requires NotNext(cx, pos, cx.form.keyStart) && cx.json.dump(ArgsOf(c.args)) == sent + "}"
    requires FindLiteral(cx.input, cx.partial, pos, cx.form.toolEnd) == Some(Found(end, |cx.input|))
    ensures StopsWith(cx, start, pos, c, calls, sent)
  {
    assert cx.form.lastToolEnd.None?;
    assert OpenDump(cx, ArgsOf(c.args)) == sent;
    hide FindLiteral;
    hide FormIsReadable;
    hide AllSpace;
    hide OpenDump;
    forall recovery
      ensures RestOfCall(cx, start, pos, c.meant, ArgsOf(c.args), recovery, calls) ==
              StopCalls(Incomplete(calls + [ToolCall(c.meant, sent)]))
    {
      NoArgFollows(cx, pos, c.meant, ArgsOf(c.args), calls);
      NoMoreArgs(cx, pos, c.meant, ArgsOf(c.args), recovery, calls);
      hide ReadArgs;
    }
  }

  /** A JSON value that is not structured, or need not be JSON, at the end of the input, or in front of a value end that
      is cut off: it is awaited, and sent as a value that is not there yet. */
  lemma JsonIsAwaited(cx: Context, pos: nat, name: string, key: string, args: Args, calls: seq<ToolCall>, head: string,
      tail: string)
    requires pos <= |cx.input| && name != "" && KeyFresh(args, key) && IsClosing(tail) && Detect(cx, pos).Some?
    requires var json := Detect(cx, pos).value;
             if SkipSpaces(cx.input, json.end) == |cx.input| then !(cx.form.rawArgval == Some(false) && json.structured)
             else
               var close := FindValEnd(cx, json.end);
               && json.marker == "" && close.found.Some? && AllSpace(cx.input[json.end..close.found.value.begin])
               && close.found.value.end - close.found.value.begin != close.size
    requires cx.json.dump(args + [(key, Plain(PARTIAL_FLAG))]) == head + (PARTIAL_FLAG + tail)
    ensures ValueAt(cx, pos, name, key, args, calls) == StopAt(Incomplete(calls + [ToolCall(name, WithoutQuote(head))]))
  {
    SetFreshKey(args, key, Plain(PARTIAL_FLAG));
    FlagIsCut(head, tail);
    hide Detect;
    hide FindValEnd;
    hide AllSpace;
    hide CutAtFlag;
    hide IsClosing;
    hide WithoutQuote;
  }

  /** Where values are raw, every value is read as text, also one that is JSON. */
  lemma RawValueIsText(cx: Context, text: string, pos: nat, name: string, key: string, args: Args, calls: seq<ToolCall>)
    requires FormIsReadable(cx.form) && cx.form.rawArgval == Some(true) && EndsWith(text, cx.form.valEnd)
    requires OccursAt(cx.input, text + cx.form.valEnd, pos) && pos <= |cx.input|
    ensures ValueAt(cx, pos, name, key, args, calls) ==
            NextArg(pos + |text + cx.form.valEnd|,
                    SetArg(args, key, Plain(if cx.form.trimRawArgval then Strip(text) else text)))
  {
    assert Detect(cx, pos).None?;
    hide *;
    NothingIsTakenAsText(cx, pos);
    TextIsRead(cx, text, pos, name, key, args, calls);
    PlainTextIs(cx.form, text);
  }

  lemma NothingIsTakenAsText(cx: Context, pos: nat)
    requires pos <= |cx.input| && Detect(cx, pos).None?
    ensures TakenAsText(cx, pos)
  {
    hide Detect;
  }

  lemma PlainTextIs(form: Form, text: string)
    ensures PlainText(form, text) == Plain(if form.trimRawArgval then Strip(text) else text)
  {
  }
}
