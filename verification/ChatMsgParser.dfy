/** The parser object: a cursor over the input that collects content, reasoning and tool calls. */
module ChatMsgParser {
  import opened Text
  import opened Utf8
  import opened Reasoning
  import opened XmlToolCalls
  import opened XmlProgress
  import opened MessageText
  import opened MessageLoop

  class Parser {
    const input: string
    const partial: bool
    const syntax: Syntax
    const kimi: bool
    const json: JsonLibrary
    var pos: nat
    var content: string
    var reasoning: string
    var toolCalls: seq<ToolCall>

    predicate Valid()
      reads this
    {
      pos <= |input|
    }

    function Cx(form: Form): Context {
      Context(input, partial, form, json, kimi)
    }

    constructor (input: string, partial: bool, syntax: Syntax, kimi: bool, json: JsonLibrary)
      ensures Valid() && pos == 0 && content == "" && reasoning == "" && toolCalls == []
      ensures this.input == input && this.partial == partial && this.syntax == syntax
      ensures this.kimi == kimi && this.json == json
    {
      this.input, this.partial, this.syntax, this.kimi, this.json := input, partial, syntax, kimi, json;
      pos, content, reasoning, toolCalls := 0, "", "", [];
    }

    /** The exception for a position beyond the input is never raised: no caller passes one. */
    method MoveTo(p: nat)
      requires p <= |input|
      modifies `pos
      ensures pos == p
    {
      pos := p;
    }

    method AddContent(text: string)
      modifies `content
      ensures content == old(content) + text
    {
      content := content + text;
    }

    method AddReasoningContent(text: string)
      modifies `reasoning
      ensures reasoning == old(reasoning) + text
    {
      reasoning := reasoning + text;
    }

    method AddToolCall(name: string, arguments: string) returns (added: bool)
      modifies `toolCalls
      ensures added == (name != "")
      ensures toolCalls == AddCall(old(toolCalls), name, arguments)
    {
      if name == "" {
        return false;
      }
      toolCalls := toolCalls + [ToolCall(name, arguments)];
      return true;
    }

    method ConsumeSpaces() returns (consumed: bool)
      requires Valid()
      modifies `pos
      ensures pos == SkipSpaces(input, old(pos))
      ensures consumed == (old(pos) < pos)
    {
      var length := |input|;
      consumed := false;
      while pos < length && IsSpace(input[pos])
        invariant old(pos) <= pos <= length
        invariant SkipSpaces(input, pos) == SkipSpaces(input, old(pos))
        invariant consumed == (old(pos) < pos)
      {
        pos := pos + 1;
        consumed := true;
      }
    }

    method ConsumeRest() returns (rest: string)
      requires Valid()
      modifies `pos
      ensures rest == input[old(pos)..] && pos == |input|
    {
      rest := input[pos..];
      pos := |input|;
    }

    method TryFindLiteral(literal: string) returns (r: Option<Found>)
      requires Valid()
      modifies `pos
      ensures r == FindLiteral(input, partial, old(pos), literal)
      ensures pos == if r.Some? then r.value.end else old(pos)
      ensures Valid() && FoundIn(input, old(pos), r)
    {
      var idx := Find(input, literal, pos);
      if idx.Some? {
        var end := idx.value + |literal|;
        MoveTo(end);
        return Some(Found(idx.value, end));
      }
      if partial {
        var held := StringFindPartialStop(input, literal);
        if held.Some? && held.value >= pos {
          r := Some(Found(held.value, |input|));
          MoveTo(|input|);
          return r;
        }
      }
      return None;
    }

    method TryFindTwoLiterals(first: string, second: string) returns (r: Option<Found>)
      requires Valid()
      modifies `pos
      ensures r == FindTwo(input, partial, old(pos), first, second)
      ensures pos == if r.Some? then r.value.end else old(pos)
      ensures Valid() && FoundIn(input, old(pos), r)
    {
      hide FindLiteral;
      hide SkipSpaces;
      hide FindTwoFrom;
      hide SecondAfter;
      if |first| == 0 {
        r := TryFindLiteral(second);
        return;
      }
      var savedPos := pos;
      while true
        invariant savedPos <= pos <= |input|
        invariant FindTwoFrom(input, partial, pos, first, second) == FindTwo(input, partial, savedPos, first, second)
        decreases |input| - pos
      {
        FindTwoStep(input, partial, pos, first, second);
        var res := TryFindLiteral(first);
        if res.None? {
          break;
        }
        var matched := TryMatchSecond(second);
        if matched {
          return Some(Found(res.value.begin, pos));
        }
        MoveTo(res.value.begin + 1);
      }
      MoveTo(savedPos);
      return None;
    }

    /** Behind white space, as much of the literal as the input still holds. */
    method TryMatchSecond(second: string) returns (matched: bool)
      requires Valid()
      modifies `pos
      ensures matched == SecondAfter(input, old(pos), second).Some?
      ensures matched ==> Some(pos) == SecondAfter(input, old(pos), second)
      ensures Valid()
    {
      hide SkipSpaces;
      var _ := ConsumeSpaces();
      var matchLen := if |second| <= |input| - pos then |second| else |input| - pos;
      matched := input[pos..pos + matchLen] == second[..matchLen];
      if matched {
        MoveTo(pos + matchLen);
      }
    }

    method TryFindClose(end: string, altEnd: Option<string>, endNext: string, altEndNext: Option<string>)
      returns (size: nat, tc: Option<Found>)
      requires Valid()
      modifies `pos
      ensures Close(size, tc) == FindClose(input, partial, old(pos), end, altEnd, endNext, altEndNext)
      ensures pos == if tc.Some? then tc.value.end else old(pos)
      ensures Valid() && FoundIn(input, old(pos), tc)
    {
      hide FindLiteral;
      hide FindTwo;
      var savedPos := pos;
      tc := TryFindLiteral(end);
      size := |end|;
      if altEnd.Some? {
        var pos1 := pos;
        MoveTo(savedPos);
        var tc2 := TryFindTwoLiterals(altEnd.value, endNext);
        if altEndNext.Some? {
          MoveTo(savedPos);
          var tc3 := TryFindTwoLiterals(altEnd.value, altEndNext.value);
          if tc3.Some? && (tc2.None? || tc2.value.begin > tc3.value.begin) {
            tc2 := tc3;
          }
        }
        if tc2.Some? && (tc.None? || tc.value.begin > tc2.value.begin) {
          var stop := tc2.value.begin + |altEnd.value|;
          tc := Some(Found(tc2.value.begin, if stop <= |input| then stop else |input|));
          MoveTo(tc.value.end);
          size := |altEnd.value|;
        } else {
          MoveTo(pos1);
        }
      }
    }

    // ---- Reasoning

    ghost function Texts(): Shown
      reads this
    {
      Shown(content, reasoning)
    }

    /** One stripped piece of reasoning, with the literals around it. */
    method HandleReasoning(tags: Tags, pending: string, text: string, closed: bool) returns (pending': string)
      modifies `content, `reasoning
      ensures Texts() == Handle(syntax, tags, pending, text, closed, old(Texts()))
      ensures pending' == PendingAfterHandle(syntax, pending, text)
    {
      pending' := pending;
      var stripped := StringStrip(text);
      if stripped == "" {
        return;
      }
      if syntax.reasoningInContent {
        AddContent(if syntax.reasoningFormat == DeepSeek then "<think>" else tags.start);
        AddContent(stripped);
        if closed {
          AddContent(if syntax.reasoningFormat == DeepSeek then "</think>" else tags.end);
        } else {
          assert content + "" == content;
        }
      } else {
        if pending != "" {
          AddReasoningContent(pending);
          pending' := "";
        } else {
          assert reasoning + "" == reasoning;
        }
        AddReasoningContent(stripped);
      }
    }

    method SkipSpacesFrom(from: nat) returns (cursor: nat)
      requires from <= |input|
      ensures cursor == SkipSpaces(input, from)
    {
      cursor := from;
      while cursor < |input| && IsSpace(input[cursor])
        invariant from <= cursor <= |input|
        invariant SkipSpaces(input, cursor) == SkipSpaces(input, from)
      {
        cursor := cursor + 1;
      }
    }

    /** `try_parse_reasoning`. */
    method TryParseReasoning(tags: Tags) returns (handled: bool)
      requires Valid() && tags.Valid()
      modifies this
      ensures Valid()
      ensures Parsed(handled, pos, Texts()) == TryReasoning(input, partial, syntax, tags, old(pos), old(Texts()))
      ensures toolCalls == old(toolCalls)
    {
      hide SkipSpaces;
      hide Sections;
      hide Strip;
      if syntax.reasoningFormat == NoReasoning {
        return false;
      }
      var savedPos := pos;
      var whitespaceEnd := SkipSpacesFrom(pos);
      var pending := "";
      if whitespaceEnd >= |input| {
        if syntax.thinkingForcedOpen {
          var rest := input[savedPos..];
          OnlySpacesAreLeft(savedPos);
          if rest != "" {
            pending := HandleReasoning(tags, "", rest, !partial);
          }
          MoveTo(|input|);
          return true;
        }
        return false;
      }
      var cursor := whitespaceEnd;
      var startPrefix := PrefixLength(input, tags.start, cursor);
      var hasStartTag := input[cursor..cursor + startPrefix] == tags.start[..startPrefix];
      if hasStartTag && startPrefix < |tags.start| {
        MoveTo(|input|);
        return true;
      }
      if hasStartTag {
        if whitespaceEnd > pos {
          AddContent(input[pos..whitespaceEnd]);
        } else {
          assert content + input[pos..whitespaceEnd] == content;
        }
        pending := PendingAt(input, syntax, tags, "", cursor);
        cursor := cursor + |tags.start|;
      } else if syntax.thinkingForcedOpen {
        cursor := whitespaceEnd;
      } else {
        return false;
      }
      handled := ParseSections(tags, cursor, pending);
    }

    lemma OnlySpacesAreLeft(from: nat)
      requires from <= |input| && SkipSpaces(input, from) == |input|
      ensures Strip(input[from..]) == ""
    {
      var rest := input[from..];
      assert AllSpace(rest);
      assert rest == rest + "" + "";
      StripIsUnique(rest, rest, "", "");
    }

    lemma NothingIsHandled(tags: Tags, pending: string, text: string, closed: bool, shown: Shown)
      requires text == ""
      ensures Handle(syntax, tags, pending, text, closed, shown) == shown
    {
    }

    /** One turn of the loop over sections. */
    method ParseSection(tags: Tags, from: nat, pending0: string) returns (done: bool, cursor: nat, pending: string)
      requires from <= |input| && tags.Valid() && Valid()
      modifies this
      ensures Valid() && toolCalls == old(toolCalls)
      ensures SectionTurn(input, partial, syntax, tags, from, pending0, old(Texts()))
           == if done then Stop(Parsed(true, pos, Texts())) else Next(cursor, pending, Texts())
      ensures !done ==> pos == old(pos)
    {
      hide Find;
      hide Handle;
      hide PendingAt;
      hide PendingAfterHandle;
      hide AfterSection;
      hide PartialStop;
      hide Strip;
      cursor, pending := from, pending0;
      if cursor >= |input| {
        MoveTo(|input|);
        done := true;
        return;
      }
      var endPos := Find(input, tags.end, cursor);
      if endPos.None? {
        var partialOff := StringFindPartialStop(input[cursor..], tags.end);
        var reasoningEnd := if partialOff.None? then |input| else cursor + partialOff.value;
        if reasoningEnd > cursor {
          pending := HandleReasoning(tags, pending, input[cursor..reasoningEnd], partialOff.None? && !partial);
        } else {
          NothingIsHandled(tags, pending, input[cursor..reasoningEnd], partialOff.None? && !partial, Texts());
        }
        MoveTo(|input|);
        done := true;
        return;
      }
      pending := HandleReasoning(tags, pending, input[cursor..endPos.value], true);
      done, cursor, pending := ParseBehindSection(tags, endPos.value + |tags.end|, pending);
    }

    /** The part of a turn behind an end tag. */
    method ParseBehindSection(tags: Tags, after: nat, pending0: string)
        returns (done: bool, cursor: nat, pending: string)
      requires after <= |input| && tags.Valid() && Valid()
      modifies `pos
      ensures Valid()
      ensures AfterSection(input, syntax, tags, after, pending0, Texts())
           == if done then Stop(Parsed(true, pos, Texts())) else Next(cursor, pending, Texts())
      ensures !done ==> pos == old(pos)
    {
      hide PendingAt;
      pending := pending0;
      cursor := SkipSpacesFrom(after);
      var nextRemaining := |input| - cursor;
      if nextRemaining == 0 {
        MoveTo(cursor);
        done := true;
        return;
      }
      var nextPrefix := PrefixLength(input, tags.start, cursor);
      if input[cursor..cursor + nextPrefix] == tags.start[..nextPrefix] {
        if nextPrefix < |tags.start| {
          MoveTo(|input|);
          done := true;
          return;
        }
        pending := PendingAt(input, syntax, tags, pending, cursor);
        cursor := cursor + |tags.start|;
        done := false;
        return;
      }
      MoveTo(cursor);
      done := true;
    }

    /** The loop over sections. */
    method ParseSections(tags: Tags, from: nat, pending0: string) returns (handled: bool)
      requires from <= |input| && tags.Valid() && Valid()
      modifies this
      ensures Valid() && handled
      ensures Parsed(handled, pos, Texts()) == Sections(input, partial, syntax, tags, from, pending0, old(Texts()))
      ensures toolCalls == old(toolCalls)
    {
      hide SectionTurn;
      var cursor, pending, done := from, pending0, false;
      while !done
        invariant from <= cursor <= |input| && toolCalls == old(toolCalls) && Valid()
        invariant (if done then Parsed(true, pos, Texts())
            else Sections(input, partial, syntax, tags, cursor, pending, Texts()))
               == Sections(input, partial, syntax, tags, from, pending0, old(Texts()))
        decreases |input| - cursor, !done
      {
        var at := cursor;
        done, cursor, pending := ParseSection(tags, cursor, pending);
        if done {
          cursor := at;
        }
      }
      handled := true;
    }

    /** The content-only format, on a fresh parser. */
    method ParseContentOnly()
      requires pos == 0 && content == "" && reasoning == ""
      modifies this
      ensures Texts() == ContentOnly(input, partial, syntax, Tags("<think>", "</think>"))
      ensures pos == |input| && toolCalls == old(toolCalls)
    {
      var _ := TryParseReasoning(Tags("<think>", "</think>"));
      var rest := ConsumeRest();
      AddContent(rest);
    }

    // ---- XML-style tool calls

    method TryFindValEnd(form: Form) returns (size: nat, tc: Option<Found>)
      requires Valid()
      modifies `pos
      ensures Close(size, tc) == FindValEnd(Cx(form), old(pos))
      ensures pos == if tc.Some? then tc.value.end else old(pos)
      ensures Valid() && FoundIn(input, old(pos), tc)
    {
      hide FindClose;
      size, tc := TryFindClose(form.valEnd, form.lastValEnd, form.toolEnd, form.lastToolEnd);
    }

    method TryFindToolEnd(form: Form) returns (size: nat, tc: Option<Found>)
      requires Valid()
      modifies `pos
      ensures Close(size, tc) == FindToolEnd(Cx(form), old(pos))
      ensures pos == if tc.Some? then tc.value.end else old(pos)
      ensures Valid() && FoundIn(input, old(pos), tc)
    {
      hide FindClose;
      size, tc := TryFindClose(form.toolEnd, form.lastToolEnd, form.scopeEnd, None);
    }

    /** Drops the dump from the flag on, when only closing punctuation follows it. */
    method PartialJson(dump: string) returns (cut: Option<string>)
      ensures cut == CutAtFlag(dump)
    {
      var at := RFind(dump, PARTIAL_FLAG, |dump|);
      if at.None? {
        return None;
      }
      var i := at.value + |PARTIAL_FLAG|;
      while i < |dump|
        invariant at.value + |PARTIAL_FLAG| <= i <= |dump|
        invariant forall k :: at.value + |PARTIAL_FLAG| <= k < i ==> MayFollowFlag(dump[k])
      {
        if !MayFollowFlag(dump[i]) {
          return None;
        }
        i := i + 1;
      }
      var end := at.value;
      if end != 0 && dump[end - 1] == '"' {
        end := end - 1;
      }
      return Some(dump[..end]);
    }

    /** `gen_partial_json`, given the arguments already marked by the flag. */
    method GenPartialJson(form: Form, name: string, marked: Args)
      modifies `toolCalls
      ensures toolCalls == AddPartialCall(Cx(form), old(toolCalls), name, marked)
    {
      var cut := PartialJson(json.dump(marked));
      if cut.Some? {
        var _ := AddToolCall(name, cut.value);
      }
    }

    /** The state agrees with an outcome; after an exception the cursor no longer matters. */
    predicate Reached(o: Outcome)
      reads this
    {
      match o
      case Returned(_, p, calls) => pos == p && toolCalls == calls
      case Incomplete(calls) => toolCalls == calls
      case SyntaxError(calls) => toolCalls == calls
      case Undefined => true
    }

    predicate ReachedArg(t: ArgTurn, calls: seq<ToolCall>)
      reads this
    {
      match t
      case LeaveArgs => false
      case StopAt(o) => Reached(o)
      case NextArg(p, _) => pos == p && toolCalls == calls
    }

    /** The argument value as plain text. */
    method ParsePlainValue(form: Form, name: string, key: string, args: Args) returns (t: ArgTurn)
      requires Valid()
      modifies `pos, `toolCalls
      ensures t == PlainValue(Cx(form), old(pos), name, key, args, old(toolCalls))
      ensures Valid() && ReachedArg(t, old(toolCalls))
    {
      hide FindValEnd;
      var start := pos;
      var size, close := TryFindValEnd(form);
      if close.Some? {
        var value := input[start..close.value.begin];
        if form.trimRawArgval {
          value := StringStrip(value);
        }
        if close.value.end - close.value.begin != size {
          GenPartialJson(form, name, SetArg(args, key, Plain(value + PARTIAL_FLAG)));
          return StopAt(Incomplete(toolCalls));
        }
        return NextArg(pos, SetArg(args, key, Plain(value)));
      }
      var rest := ConsumeRest();
      var cut := Utf8TruncateSafe(rest);
      rest := rest[..cut];
      if form.trimRawArgval {
        rest := StringStrip(rest);
      }
      GenPartialJson(form, name, SetArg(args, key, Plain(rest + PARTIAL_FLAG)));
      return StopAt(Incomplete(toolCalls));
    }

    /** A JSON value with nothing but spaces behind it. */
    method ParseJsonAtEnd(form: Form, name: string, key: string, found: JsonArg, args: Args) returns (o: Outcome)
      modifies `toolCalls
      ensures o == JsonAtEnd(Cx(form), name, key, found, args, old(toolCalls))
      ensures o.Undefined? || (o.Incomplete? && toolCalls == o.calls)
    {
      if form.rawArgval == Some(false) && found.structured {
        var dump := json.dump(SetArg(args, key, found.value));
        if found.dumpMarker != "" {
          var at := RFind(dump, found.dumpMarker, |dump|);
          if at.None? {
            return Undefined;
          }
          dump := dump[..at.value];
        } else {
          if dump == "" || dump[|dump| - 1] != '}' {
            return Undefined;
          }
          dump := dump[..|dump| - 1];
        }
        var _ := AddToolCall(name, dump);
      } else {
        GenPartialJson(form, name, SetArg(args, key, Plain(PARTIAL_FLAG)));
      }
      return Incomplete(toolCalls);
    }

    /** Reads JSON at the start of a value, or takes the rest of the input if it may become JSON. */
    method TryDetect(form: Form) returns (value: Option<JsonArg>)
      requires Valid()
      modifies `pos
      ensures value == Detect(Cx(form), old(pos))
      ensures Valid() && pos == if value.Some? then value.value.end else old(pos)
    {
      hide MayBecomeJson;
      var valStart := pos;
      value := None;
      if form.rawArgval != Some(true) {
        value := json.consume(input, partial, pos);
        if value.Some? && valStart < value.value.end <= |input| {
          MoveTo(value.value.end);
        } else {
          value := None;
        }
        if pos == valStart {
          var _ := ConsumeSpaces();
          var cut := Utf8TruncateSafe(input);
          var rest := if pos <= cut then input[pos..cut] else "";
          if MayBecomeJson(rest) {
            value := Some(JsonArg(Json("123"), false, "123", "123", |input|));
            var _ := ConsumeRest();
          } else {
            MoveTo(valStart);
          }
        }
      }
    }

    /** The argument value: JSON if the form allows it and a value end follows, else plain text. */
    method ParseValue(form: Form, name: string, key: string, args0: Args) returns (t: ArgTurn)
      requires Valid()
      modifies `pos, `toolCalls
      ensures t == ValueAt(Cx(form), old(pos), name, key, args0, old(toolCalls))
      ensures Valid() && ReachedArg(t, old(toolCalls))
    {
      hide FindValEnd;
      hide PlainValue;
      hide JsonAtEnd;
      hide Detect;
      hide AddPartialCall;
      var valStart, args := pos, args0;
      var value := TryDetect(form);
      if value.Some? {
        var _ := ConsumeSpaces();
        if pos == |input| {
          var o := ParseJsonAtEnd(form, name, key, value.value, args);
          return StopAt(o);
        }
        MoveTo(value.value.end);
        var size, tc := TryFindValEnd(form);
        if tc.Some? && AllSpace(input[value.value.end..tc.value.begin]) && value.value.marker == "" {
          if tc.value.end - tc.value.begin != size {
            GenPartialJson(form, name, SetArg(args, key, Plain(PARTIAL_FLAG)));
            return StopAt(Incomplete(toolCalls));
          }
          args := SetArg(args, key, value.value.value);
        } else {
          MoveTo(valStart);
        }
      }
      if pos == valStart {
        t := ParsePlainValue(form, name, key, args);
      } else {
        t := NextArg(pos, args);
      }
    }

    /** The optional second separator between a key and its value. */
    method ParseAfterKey(form: Form, name: string, key: string, args: Args) returns (t: ArgTurn)
      requires Valid()
      modifies `pos, `toolCalls
      ensures t == AfterKey(Cx(form), old(pos), name, key, args, old(toolCalls))
      ensures Valid() && ReachedArg(t, old(toolCalls))
    {
      hide FindLiteral;
      hide ValueAt;
      hide AddPartialCall;
      if form.keyValSep2.Some? {
        var start := pos;
        var tc := TryFindLiteral(form.keyValSep2.value);
        if tc.None? {
          GenPartialJson(form, name, SetArg(args, key, Plain(PARTIAL_FLAG)));
          return StopAt(Incomplete(toolCalls));
        }
        if !AllSpace(input[start..tc.value.begin]) {
          return StopAt(SyntaxError(toolCalls));
        }
        if tc.value.end - tc.value.begin != |form.keyValSep2.value| {
          GenPartialJson(form, name, SetArg(args, key, Plain(PARTIAL_FLAG)));
          return StopAt(Incomplete(toolCalls));
        }
      }
      t := ParseValue(form, name, key, args);
    }

    /** The dump without its closing brace. */
    method DumpOpen(form: Form, args: Args) returns (dump: string)
      ensures dump == OpenDump(Cx(form), args)
    {
      dump := json.dump(args);
      if |dump| != 0 && dump[|dump| - 1] == '}' {
        dump := dump[..|dump| - 1];
      }
    }

    /** One turn of the argument loop. */
    method ParseArg(form: Form, name: string, args: Args) returns (t: ArgTurn)
      requires Valid() && form.Valid()
      modifies `pos, `toolCalls
      ensures t == ReadArg(Cx(form), old(pos), name, args, old(toolCalls))
      ensures Valid()
      ensures if t.LeaveArgs? then pos == old(pos) && toolCalls == old(toolCalls) else ReachedArg(t, old(toolCalls))
    {
      hide FindLiteral;
      hide AfterKey;
      hide AddPartialCall;
      hide OpenDump;
      var start := pos;
      var tc := TryFindLiteral(form.keyStart);
      if tc.None? {
        return LeaveArgs;
      }
      if !AllSpace(input[start..tc.value.begin]) {
        MoveTo(start);
        return LeaveArgs;
      }
      if tc.value.end - tc.value.begin != |form.keyStart| {
        var dump := DumpOpen(form, args);
        var _ := AddToolCall(name, dump);
        return StopAt(Incomplete(toolCalls));
      }
      var keyAt := pos;
      var keyRes := TryFindLiteral(form.keyValSep);
      if keyRes.None? {
        var rest := ConsumeRest();
        var cut := Utf8TruncateSafe(rest);
        GenPartialJson(form, name, SetArg(args, rest[..cut] + PARTIAL_FLAG, Plain("")));
        return StopAt(Incomplete(toolCalls));
      }
      var key := input[keyAt..keyRes.value.begin];
      if keyRes.value.end - keyRes.value.begin != |form.keyValSep| {
        GenPartialJson(form, name, SetArg(args, key + PARTIAL_FLAG, Plain("")));
        return StopAt(Incomplete(toolCalls));
      }
      t := ParseAfterKey(form, name, key, args);
    }

    /** The argument loop. */
    method ParseArgs(form: Form, name: string, recovery0: bool)
      returns (stop: Option<Outcome>, args: Args, recovery: bool)
      requires Valid() && form.Valid()
      modifies `pos, `toolCalls
      ensures ReadArgs(Cx(form), old(pos), name, [], recovery0, old(toolCalls))
           == if stop.Some? then ArgsStopped(stop.value) else ArgsDone(pos, args, recovery)
      ensures Valid()
      ensures if stop.Some? then !stop.value.Returned? && Reached(stop.value)
              else old(pos) <= pos && toolCalls == old(toolCalls)
    {
      hide ReadArg;
      args, recovery := [], recovery0;
      while true
        invariant old(pos) <= pos && Valid() && toolCalls == old(toolCalls)
        invariant ReadArgs(Cx(form), pos, name, args, recovery, toolCalls)
               == ReadArgs(Cx(form), old(pos), name, [], recovery0, old(toolCalls))
        decreases |input| - pos
      {
        var t := ParseArg(form, name, args);
        match t
        case LeaveArgs =>
          stop := None;
          return;
        case StopAt(o) =>
          stop := Some(o);
          return;
        case NextArg(_, args') =>
          args, recovery := args', false;
      }
    }

    /** Finds the literal that ends the name of a call. */
    method ParseNameEnd(form: Form) returns (r: NameEnd)
      requires Valid()
      modifies `pos
      ensures r == FindNameEnd(Cx(form), old(pos))
      ensures Valid()
    {
      hide FindLiteral;
      hide FindToolEnd;
      hide HoldsToolEnd;
      var start := pos;
      var funcName := TryFindLiteral(if AllSpace(form.toolSep) then form.keyStart else form.toolSep);
      if funcName.None? {
        var _, tc := TryFindToolEnd(form);
        funcName := tc;
      }
      if funcName.None? {
        return NoNameEnd(false);
      }
      if HoldsToolEnd(form, input[start..funcName.value.begin]) {
        MoveTo(start);
        var _, tc := TryFindToolEnd(form);
        if tc.None? {
          return NoNameEnd(true);
        }
        funcName := tc;
      }
      return NameEnd(funcName.value);
    }

    predicate ReachedCall(t: CallTurn, start: nat)
      reads this
    {
      match t
      case LeaveCalls => pos == start
      case StopCalls(o) => Reached(o)
      case NextCall(p, calls) => pos == p && toolCalls == calls
    }

    /** The closing tag of a call. */
    method ParseToolEnd(form: Form, start: nat, name: string, args: Args, recovery: bool) returns (t: CallTurn)
      requires Valid() && start <= |input|
      modifies `pos, `toolCalls
      ensures t == CloseCall(Cx(form), start, old(pos), name, args, recovery, old(toolCalls))
      ensures Valid() && ReachedCall(t, old(pos))
    {
      hide FindToolEnd;
      hide OpenDump;
      var from := pos;
      var size, tc := TryFindToolEnd(form);
      if tc.Some? {
        if !AllSpace(input[from..tc.value.begin]) {
          if recovery {
            MoveTo(start);
            return StopCalls(Returned(false, start, toolCalls));
          }
          return StopCalls(SyntaxError(toolCalls));
        }
        if tc.value.end - tc.value.begin == size {
          var added := AddToolCall(name, json.dump(args));
          if !added {
            return StopCalls(Incomplete(toolCalls));
          }
          return NextCall(pos, toolCalls);
        }
      }
      var dump := DumpOpen(form, args);
      var _ := AddToolCall(name, dump);
      return StopCalls(Incomplete(toolCalls));
    }

    /** One turn of the loop over calls. */
    method ParseCall(form: Form, start: nat, recovery: bool) returns (t: CallTurn)
      requires Valid() && form.Valid() && start <= |input|
      modifies `pos, `toolCalls
      ensures t == ReadCall(Cx(form), start, old(pos), recovery, old(toolCalls))
      ensures Valid() && ReachedCall(t, old(pos))
      ensures t.LeaveCalls? ==> toolCalls == old(toolCalls)
    {
      hide FindLiteral;
      hide FindNameEnd;
      hide ReadArgs;
      hide CloseCall;
      hide FunctionName;
      var from := pos;
      var tc := TryFindLiteral(form.toolStart);
      if tc.None? {
        return LeaveCalls;
      }
      if !AllSpace(input[from..tc.value.begin]) {
        MoveTo(from);
        return LeaveCalls;
      }
      var nameAt := pos;
      var end := ParseNameEnd(form);
      if end.NoNameEnd? {
        return StopCalls(if end.undefined then Undefined else Incomplete(toolCalls));
      }
      MoveTo(if AllSpace(form.toolSep) then end.at.begin else end.at.end);
      var name := FunctionName(Cx(form), input[nameAt..end.at.begin]);
      var stop, args, recovery' := ParseArgs(form, name, recovery);
      if stop.Some? {
        return StopCalls(stop.value);
      }
      t := ParseToolEnd(form, start, name, args, recovery');
    }

    /** The scope end, behind the last call. */
    method ParseScopeEnd(form: Form, start: nat, recovery: bool) returns (o: Outcome)
      requires Valid() && start <= |input|
      modifies `pos
      ensures o == CloseScope(Cx(form), start, old(pos), recovery, toolCalls)
      ensures Valid() && Reached(o)
    {
      hide FindLiteral;
      var from := pos;
      var tc := TryFindLiteral(form.scopeEnd);
      if tc.Some? {
        if AllSpace(input[from..tc.value.begin]) {
          return Returned(true, pos, toolCalls);
        }
      } else {
        if AllSpace(form.scopeEnd) {
          return Returned(true, pos, toolCalls);
        }
        var _ := ConsumeSpaces();
        if pos == |input| {
          return Incomplete(toolCalls);
        }
      }
      if recovery {
        MoveTo(start);
        return Returned(false, start, toolCalls);
      }
      return SyntaxError(toolCalls);
    }

    /** `parse_xml_tool_calls`. */
    method ParseXmlToolCalls(form: Form) returns (o: Outcome)
      requires Valid() && form.Valid()
      modifies `pos, `toolCalls
      ensures o == ParseCalls(Cx(form), old(pos), old(toolCalls))
      ensures Valid() && Reached(o)
    {
      hide FindLiteral;
      hide ReadCall;
      hide CloseScope;
      var recovery := true;
      var start := pos;
      if !AllSpace(form.scopeStart) {
        var tc := TryFindLiteral(form.scopeStart);
        if tc.None? {
          return Returned(false, start, toolCalls);
        }
        if !AllSpace(input[start..tc.value.begin]) {
          MoveTo(start);
          return Returned(false, start, toolCalls);
        }
        if tc.value.end - tc.value.begin != |form.scopeStart| {
          return Incomplete(toolCalls);
        }
      }
      while true
        invariant start <= pos && Valid()
        invariant ReadCalls(Cx(form), start, pos, recovery, toolCalls) == ParseCalls(Cx(form), start, old(toolCalls))
        decreases |input| - pos
      {
        var t := ParseCall(form, start, recovery);
        match t
        case LeaveCalls => break;
        case StopCalls(o') => return o';
        case NextCall(_, _) => recovery := false;
      }
      o := ParseScopeEnd(form, start, recovery);
    }

    /** `try_consume_xml_tool_calls`: when it reports no call, nothing has changed. */
    method TryConsumeXmlToolCalls(form: Form) returns (o: Outcome)
      requires Valid() && form.Valid()
      modifies `pos, `toolCalls
      ensures o == TryConsume(Cx(form), old(pos), old(toolCalls)) && !o.SyntaxError?
      ensures Valid() && Reached(o)
      ensures o.Returned? && !o.ok ==> pos == old(pos) && toolCalls == old(toolCalls)
      ensures !o.Undefined? ==> old(toolCalls) <= toolCalls
    {
      hide ParseCalls;
      var from, size := pos, |toolCalls|;
      NoCallLeavesNoTrace(Cx(form), pos, toolCalls);
      o := ParseXmlToolCalls(form);
      if o.SyntaxError? {
        MoveTo(from);
        toolCalls := toolCalls[..if size <= |toolCalls| then size else |toolCalls|];
        o := Returned(false, from, toolCalls);
      }
    }

    // ---- A whole message with reasoning and XML-style tool calls

    function St(form: Form, startThink: string, endThink: string): Setting {
      Setting(Cx(form), syntax, startThink, endThink)
    }

    /** Leading spaces, except those with which a literal may begin. */
    method SkipLeadingSpaces(form: Form, startThink: string, endThink: string)
      requires Valid()
      modifies `pos
      ensures Valid() && pos == SkippedTo(St(form, startThink, endThink), old(pos))
    {
      var from := pos;
      var _ := ConsumeSpaces();
      var spaces := input[from..pos];
      var kept := TrimSuffix(spaces, Words(form, startThink, endThink));
      MoveTo(from + |kept|);
    }

    /** Shows reasoning that has ended, or that the input has ended in. */
    method ShowThought(form: Form, startThink: string, endThink: string, unclosed: string, text: string, more: bool)
      modifies `content, `reasoning
      ensures Texts() == ShowReasoning(St(form, startThink, endThink), unclosed, text, more, old(Texts()))
    {
      if syntax.reasoningFormat == NoReasoning || syntax.reasoningInContent {
        AddContent(startThink);
        AddContent(unclosed);
        AddContent(text);
        if more {
          AddContent(endThink);
        }
        assert content == old(content) + (startThink + unclosed + text + if more then endThink else "");
      } else {
        AddReasoningContent(unclosed);
        AddReasoningContent(text);
        assert reasoning == old(reasoning) + (unclosed + text);
      }
    }

    /** Takes the closed think blocks out of a piece of content; an open one is cut off and returned. */
    method TakeThinkBlocks(form: Form, startThink: string, endThink: string, text: string, callStart: string)
      returns (rest: string, openBlock: Option<string>)
      requires St(form, startThink, endThink).Valid()
      modifies `reasoning
      ensures Taken(rest, openBlock, reasoning) ==
              Blocks(St(form, startThink, endThink), text, Find(text, startThink, 0), callStart, old(reasoning))
    {
      hide Blocks;
      hide Erased;
      hide Find;
      rest, openBlock := text, None;
      ghost var st := St(form, startThink, endThink);
      ghost var goal := Blocks(st, text, Find(text, startThink, 0), callStart, reasoning);
      var thinkStart := Find(rest, startThink, 0);
      while thinkStart.Some?
        invariant thinkStart.Some? ==> OccursAt(rest, startThink, thinkStart.value)
        invariant openBlock.Some? ==> thinkStart.None? && Taken(rest, openBlock, reasoning) == goal
        invariant openBlock.None? ==> Blocks(st, rest, thinkStart, callStart, reasoning) == goal
        decreases if thinkStart.Some? then |rest| - thinkStart.value else 0
      {
        var at := thinkStart.value;
        StartFits(rest, startThink, at);
        var thinkEnd := Find(rest, endThink, at + |startThink|);
        if thinkEnd.Some? {
          StartFits(rest, endThink, thinkEnd.value);
          ClosedBlockTurn(st, rest, at, thinkEnd.value, callStart, reasoning);
          if syntax.reasoningFormat != NoReasoning && !syntax.reasoningInContent {
            AddReasoningContent(rest[at + |startThink|..thinkEnd.value]);
            var next;
            rest, next := EraseSpaces(rest, at, thinkEnd.value + |endThink| - 1);
            thinkStart := Find(rest, startThink, next);
          } else {
            thinkStart := Find(rest, startThink, thinkEnd.value + |endThink| - 1);
          }
          if thinkStart.Some? {
            StartFits(rest, startThink, thinkStart.value);
          }
        } else {
          OpenBlockTurn(st, rest, at, callStart, reasoning);
          openBlock := Some(rest[at + |startThink|..] + if form.allowToolcallInThink then "" else callStart);
          rest := rest[..at];
          thinkStart := None;
        }
      }
      if openBlock.None? {
        NoBlock(st, rest, callStart, reasoning);
      }
    }

    /** Looks for the next tool call; what stands before it, or all the rest, is taken as text. */
    method FindNextCall(form: Form) returns (tc: Option<Found>, text: string, callStart: string)
      requires Valid() && form.Valid()
      modifies `pos
      ensures Valid() && tc == FindStart(Cx(form), old(pos)) && pos == Behind(Cx(form), old(pos))
      ensures text == TextBefore(Cx(form), old(pos)) && callStart == StartText(Cx(form), old(pos))
      ensures tc.Some? ==> old(pos) <= tc.value.begin < tc.value.end == pos
      ensures tc.None? ==> pos == |input|
    {
      hide FindTwo;
      var from := pos;
      tc := TryFindTwoLiterals(form.scopeStart, form.toolStart);
      callStart := "";
      if tc.Some? {
        StartHasText(Cx(form), from);
        text := input[from..tc.value.begin];
        callStart := input[tc.value.begin..tc.value.end];
      } else {
        text := ConsumeRest();
        var cut := Utf8TruncateSafe(text);
        text := text[..cut];
      }
    }

    /** A text read inside a think block that is still open: does the block end in it, or with the input? */
    method LeaveReasoning(form: Form, startThink: string, endThink: string, hasCall: bool, text0: string,
        callStart: string, unclosed0: string)
      returns (again: bool, text: string, unclosed: string, stillOpen: bool)
      modifies `content, `reasoning
      ensures Left(again, text, unclosed, stillOpen, Texts()) ==
              Leave(St(form, startThink, endThink), hasCall, pos == |input|, text0, callStart, unclosed0, old(Texts()))
    {
      hide TrimEnded;
      hide ShowReasoning;
      var words := Words(form, startThink, endThink);
      text, unclosed, again := text0, unclosed0, false;
      var at := Find(text, endThink, 0);
      if at.None? && pos != |input| {
        stillOpen := true;
        unclosed := unclosed + text;
        if !(form.allowToolcallInThink && hasCall) {
          unclosed := unclosed + callStart;
          again := true;
        } else {
          assert unclosed + "" == unclosed;
        }
        return;
      }
      stillOpen := false;
      var thought;
      if at.None? {
        thought := text;
        text := "";
      } else {
        thought := text[..at.value];
        text := text[at.value + |endThink|..];
      }
      if pos == |input| && AllSpace(text) {
        thought := TrimEnd(thought, words);
        if thought == "" {
          unclosed := TrimEnd(unclosed, words);
          if unclosed == "" {
            again := true;
            return;
          }
        }
      }
      ShowThought(form, startThink, endThink, unclosed, thought, pos != |input| || !AllSpace(text));
      unclosed := "";
    }

    /** `Cleaned`, step by step. */
    method CleanText(form: Form, startThink: string, endThink: string, text0: string) returns (text: string)
      requires St(form, startThink, endThink).Valid()
      ensures text == Cleaned(St(form, startThink, endThink), text0)
    {
      text := text0;
      if syntax.reasoningFormat != NoReasoning && !syntax.reasoningInContent {
        text := RStripped(text);
        text := EraseStrayEnds(text, endThink);
        if |text| > 0 && IsSpace(text[0]) {
          text := StringStrip(text);
        }
      }
    }

    /** Cleans a text outside of think blocks and adds it to the content; think blocks in it become reasoning. */
    method ShowTextOutside(form: Form, startThink: string, endThink: string, text0: string, callStart: string,
        unclosed0: string)
      returns (openBlock: bool, unclosed: string)
      requires St(form, startThink, endThink).Valid()
      modifies `content, `reasoning
      ensures TextShown(openBlock, unclosed, Texts()) ==
              ShowText(St(form, startThink, endThink), pos == |input|, text0, callStart, unclosed0, old(Texts()))
    {
      hide Blocks;
      hide Cleaned;
      hide TrimEnded;
      hide AddText;
      var words := Words(form, startThink, endThink);
      var showsReasoning := syntax.reasoningFormat != NoReasoning && !syntax.reasoningInContent;
      unclosed := unclosed0;
      var text, block := TakeThinkBlocks(form, startThink, endThink, text0, callStart);
      openBlock := block.Some?;
      if block.Some? {
        unclosed := block.value;
      }
      text := CleanText(form, startThink, endThink, text);
      // A suffix that may become a literal is held back
      if pos == |input| {
        if unclosed == "" {
          text := TrimEnd(text, words);
        } else {
          unclosed := TrimEnd(unclosed, words);
        }
      }
      if form.allowToolcallInThink && unclosed != "" {
        if showsReasoning {
          AddReasoningContent(unclosed);
        } else if text == "" {
          text := startThink + unclosed;
        } else {
          text := text + "\n\n" + startThink + unclosed;
        }
        unclosed := "";
      }
      AddShown(form, startThink, endThink, text);
    }

    method AddShown(form: Form, startThink: string, endThink: string, text: string)
      modifies `content
      ensures content == AddText(St(form, startThink, endThink), old(content), text)
    {
      if text != "" {
        if syntax.reasoningFormat != NoReasoning && !syntax.reasoningInContent && |content| != 0 {
          AddContent("\n\n");
        } else {
          assert content + "" == content;
        }
        AddContent(text);
      }
    }

    /** Tries to read the calls that start at begin; without calls, one character goes to the content. The program
        does not notice that it is stuck: where this method returns that, it goes on. */
    method TakeCallsAt(form: Form, startThink: string, endThink: string, begin: nat, repeats: bool, ghost open: bool,
                       ghost unclosed: string)
      returns (stop: Option<MessageEnd>)
      requires St(form, startThink, endThink).Valid() && begin < |input| && Valid()
      modifies `pos, `toolCalls, `content
      ensures Valid()
      ensures match TakeCalls(St(form, startThink, endThink), repeats,
          Reader(begin, open, unclosed, old(Texts()), old(toolCalls)))
              case Again(t) => stop == None && t == Reader(pos, open, unclosed, Texts(), toolCalls)
              case Stalled(t) => stop == Some(Stuck) && t == Reader(pos, open, unclosed, Texts(), toolCalls)
              case Ends(end, t) => stop == Some(end) && t.shown == Texts() && (!end.NoMeaning? ==> t.calls == toolCalls)
      ensures stop != Some(Complete)
    {
      hide TryConsume;
      MoveTo(begin);
      NoCallLeavesNoTrace(Cx(form), begin, toolCalls);
      var o := TryConsumeXmlToolCalls(form);
      match o
      case Incomplete(_) => return Some(Interrupted);
      case Undefined => return Some(NoMeaning);
      case Returned(ok, _, _) =>
        if ok {
          var endOfTool := pos;
          var _ := ConsumeSpaces();
          if pos != |input| {
            MoveTo(endOfTool);
            if content != "" {
              AddContent("\n\n");
            }
          }
          if pos == begin && repeats {
            return Some(Stuck);
          }
        } else {
          // The regular expression "." takes one character, but no line break.
          if input[pos] == '\n' || input[pos] == '\r' {
            return Some(Interrupted);
          }
          var c := input[pos..pos + 1];
          MoveTo(pos + 1);
          c := RStripped(c);
          AddContent(c);
        }
      return None;
    }

    /** One turn of the loop of `parse_msg_with_xml_tool_calls`. */
    method TakeTurn(form: Form, startThink: string, endThink: string, open0: bool, unclosed0: string)
      returns (stop: Option<MessageEnd>, open: bool, unclosed: string)
      requires Valid() && St(form, startThink, endThink).Valid()
      modifies this
      ensures Valid()
      ensures match NextTurn(St(form, startThink, endThink),
          Reader(old(pos), open0, unclosed0, old(Texts()), old(toolCalls)))
              case Again(t) => stop == None && t == Reader(pos, open, unclosed, Texts(), toolCalls)
              case Stalled(t) => stop == Some(Stuck) && t == Reader(pos, open, unclosed, Texts(), toolCalls)
              case Ends(end, t) =>
                && stop == Some(end) && t.shown == Texts() && (!end.NoMeaning? ==> t.calls == toolCalls)
                && (end.Complete? ==> t.pos == pos)
    {
      hide FindStart;
      hide Leave;
      hide ShowText;
      hide TakeCalls;
      hide TextBefore;
      var tc, text, callStart := FindNextCall(form);
      open, unclosed := open0, unclosed0;
      if open {
        var again;
        again, text, unclosed, open := LeaveReasoning(form, startThink, endThink, tc.Some?, text, callStart, unclosed);
        if again {
          return None, open, unclosed;
        }
      }
      var openBlock;
      openBlock, unclosed := ShowTextOutside(form, startThink, endThink, text, callStart, unclosed);
      open := open || openBlock;

      // A call that starts inside an open think block is skipped
      if openBlock && !form.allowToolcallInThink {
        return None, open, unclosed;
      }
      if tc.None? {
        return Some(Complete), open, unclosed;
      }
      stop := TakeCallsAt(form, startThink, endThink, tc.value.begin, !(open && pos == |input|), open, unclosed);
    }

    /** `parse_msg_with_xml_tool_calls`, as the function of the message loop says, for every form: what is shown, the
        calls and how it ends. */
    method ParseMsgWithXmlToolCalls(form: Form, startThink: string, endThink: string) returns (end: MessageEnd)
      requires Valid() && St(form, startThink, endThink).Valid()
      modifies this
      ensures var (how, t) := ReadMessage(St(form, startThink, endThink), old(pos), old(Texts()), old(toolCalls));
              && end == how && Texts() == t.shown
              && (!end.NoMeaning? ==> toolCalls == t.calls)
              && (end.Complete? ==> pos == t.pos == |input|)
      ensures !end.NoMeaning? ==> old(toolCalls) <= toolCalls
      ensures old(content) <= content && old(reasoning) <= reasoning
    {
      hide NextTurn;
      hide SkippedTo;
      ghost var st := St(form, startThink, endThink);
      SkipLeadingSpaces(form, startThink, endThink);

      var reasoningUnclosed, unclosed := syntax.thinkingForcedOpen, "";
      ghost var begun := Reader(pos, reasoningUnclosed, unclosed, Texts(), toolCalls);
      LoopKeeps(st, begun);
      while true
        invariant Valid() && IsReader(st, Reader(pos, reasoningUnclosed, unclosed, Texts(), toolCalls))
        invariant Loop(st, Reader(pos, reasoningUnclosed, unclosed, Texts(), toolCalls)) == Loop(st, begun)
        decreases |input| - pos, reasoningUnclosed
      {
        TurnMoves(st, Reader(pos, reasoningUnclosed, unclosed, Texts(), toolCalls));
        var stop;
        stop, reasoningUnclosed, unclosed := TakeTurn(form, startThink, endThink, reasoningUnclosed, unclosed);
        if stop.Some? {
          return stop.value;
        }
      }
    }
  }
}
