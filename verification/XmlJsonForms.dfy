/** Printing tool calls in a form that writes JSON objects, and reading them back: values are JSON, the last value has
    no end of its own, and the last call may have an end of its own. */
module XmlJsonForms {
  import opened Text
  import opened Utf8
  import opened XmlToolCalls
  import opened XmlRoundTrip
  import opened XmlForms

  predicate JsonLike(form: Form) {
    && form.Valid() && form.keyValSep2.None? && form.rawArgval != Some(true) && form.lastValEnd == Some("")
    && Solid(form.toolStart) && Solid(form.toolSep) && Solid(form.keyStart) && Solid(form.valEnd) && Solid(form.toolEnd)
    && form.valEnd[0] != form.toolEnd[0] && form.keyStart[0] != form.toolEnd[0]
    && (AllSpace(form.scopeStart) || Solid(form.scopeStart))
    && (form.scopeEnd == "" || (Solid(form.scopeEnd) && Apart(form.toolStart, form.scopeEnd)))
    && (form.lastToolEnd.Some? ==>
          var e := form.lastToolEnd.value;
          && e != "" && e < form.toolEnd && form.scopeEnd != ""
          && !IsSpace(form.toolEnd[|e|]) && form.toolEnd[|e|] != form.scopeEnd[0])
  }

  // ---- Printing

  function PrintField(form: Form, a: WrittenArg, last: bool): string {
    (a.gap + form.keyStart) + ((a.key + form.keyValSep) + (a.text + if last then "" else form.valEnd))
  }

  function PrintFields(form: Form, args: seq<WrittenArg>): string {
    if args == [] then "" else PrintField(form, args[0], |args| == 1) + PrintFields(form, args[1..])
  }

  function EndOf(form: Form, last: bool): string {
    if last && form.lastToolEnd.Some? then form.lastToolEnd.value else form.toolEnd
  }

  function PrintObject(form: Form, c: WrittenCall, last: bool): string {
    (c.gap + form.toolStart)
      + ((c.name + c.pad) + (form.toolSep + (PrintFields(form, c.args) + (c.endGap + EndOf(form, last)))))
  }

  function PrintObjects(form: Form, calls: seq<WrittenCall>): string {
    if calls == [] then "" else PrintObject(form, calls[0], |calls| == 1) + PrintObjects(form, calls[1..])
  }

  function PrintList(form: Form, gap: string, calls: seq<WrittenCall>, endGap: string): string {
    PrintScopeStart(form, gap) + (PrintObjects(form, calls) + (endGap + form.scopeEnd))
  }

  predicate FieldIsReadable(form: Form, a: WrittenArg) {
    AllSpace(a.gap) && EndsWith(a.key, form.keyValSep)
  }

  predicate ObjectIsReadable(form: Form, c: WrittenCall) {
    && AllSpace(c.gap) && AllSpace(c.pad) && AllSpace(c.endGap)
    && c.name != "" && Strip(c.name) == c.name
    && EndsWith(c.name + c.pad, form.toolSep) && !HoldsToolEnd(form, c.name + c.pad)
    && DistinctKeys(c.args)
    && forall i :: 0 <= i < |c.args| ==> FieldIsReadable(form, c.args[i])
  }

  /** The JSON library reads the value from the text of the argument, up to white space. */
  predicate ReadAsJson(cx: Context, a: WrittenArg, pos: nat) {
    var r, end := cx.json.consume(cx.input, cx.partial, pos), pos + |a.text|;
    && end <= |cx.input| && r.Some? && r.value.marker == "" && r.value.value == a.value
    && pos < r.value.end <= end && AllSpace(cx.input[r.value.end..end])
  }

  function FieldStart(form: Form, a: WrittenArg, pos: nat): nat {
    pos + |a.gap + form.keyStart| + |a.key + form.keyValSep|
  }

  predicate FieldsAsJson(cx: Context, args: seq<WrittenArg>, pos: nat) {
    args == [] ||
    (ReadAsJson(cx, args[0], FieldStart(cx.form, args[0], pos)) &&
     FieldsAsJson(cx, args[1..], pos + |PrintField(cx.form, args[0], |args| == 1)|))
  }

  function FieldsStart(form: Form, c: WrittenCall, pos: nat): nat {
    pos + |c.gap + form.toolStart| + |c.name + c.pad| + |form.toolSep|
  }

  predicate ObjectsAsJson(cx: Context, calls: seq<WrittenCall>, pos: nat) {
    calls == [] ||
    (FieldsAsJson(cx, calls[0].args, FieldsStart(cx.form, calls[0], pos)) &&
     ObjectsAsJson(cx, calls[1..], pos + |PrintObject(cx.form, calls[0], |calls| == 1)|))
  }

  // ---- Behind white space: what is found where something solid stands

  /** `at` is the first position from `from` on that holds no white space. */
  predicate SolidAt(input: string, from: nat, at: nat) {
    from <= at < |input| && !IsSpace(input[at]) && AllSpace(input[from..at])
  }

  /** No solid literal is found in front of that position, and none that begins with another character there. */
  lemma NotInFront(cx: Context, from: nat, at: nat, d: string)
    requires SolidAt(cx.input, from, at) && Solid(d)
    ensures var f := FindLiteral(cx.input, cx.partial, from, d);
            f.Some? ==> at <= f.value.begin && (d[0] != cx.input[at] ==> at < f.value.begin)
  {
    var f := FindLiteral(cx.input, cx.partial, from, d);
    LiteralCovers(cx, from, d);
    if f.Some? {
      SameStart(cx.input, d, f.value);
      SpaceInside(cx.input, from, at, f.value.begin);
    }
  }

  lemma SpaceInside(input: string, from: nat, at: nat, k: nat)
    requires SolidAt(input, from, at) && from <= k
    ensures k < at ==> IsSpace(input[k])
  {
    if k < at {
      assert input[from..at][k - from] == input[k];
    }
  }

  lemma FoundThere(cx: Context, from: nat, at: nat, d: string)
    requires SolidAt(cx.input, from, at) && Solid(d) && OccursAt(cx.input, d, at)
    ensures FindLiteral(cx.input, cx.partial, from, d) == Some(Found(at, at + |d|))
  {
    forall j | from <= j < at
      ensures !OccursAt(cx.input, d, j)
    {
      SpaceInside(cx.input, from, at, j);
      CharacterOf(cx.input, d, j, 0);
    }
    assert Find(cx.input, d, from) == Some(at);
  }

  lemma SolidBehind(input: string, gap: string, d: string, from: nat)
    requires OccursAt(input, gap + d, from) && AllSpace(gap) && Solid(d)
    ensures SolidAt(input, from, from + |gap|) && OccursAt(input, d, from + |gap|) && input[from + |gap|] == d[0]
  {
    SplitAt(input, gap, d, from);
    CharacterOf(input, d, from + |gap|, 0);
  }

  lemma SolidFurther(input: string, from: nat, mid: nat, at: nat)
    requires from <= mid <= |input| && AllSpace(input[from..mid]) && SolidAt(input, mid, at)
    ensures SolidAt(input, from, at)
  {
    assert input[from..at] == input[from..mid] + input[mid..at];
  }

  // ---- The end of a value

  lemma ValEndBetween(cx: Context, from: nat, at: nat)
    requires JsonLike(cx.form) && SolidAt(cx.input, from, at) && OccursAt(cx.input, cx.form.valEnd, at)
    ensures FindValEnd(cx, from) == Close(|cx.form.valEnd|, Some(Found(at, at + |cx.form.valEnd|)))
  {
    hide FindLiteral;
    FoundThere(cx, from, at, cx.form.valEnd);
    CharacterOf(cx.input, cx.form.valEnd, at, 0);
    NotInFront(cx, from, at, cx.form.toolEnd);
    if cx.form.lastToolEnd.Some? {
      NotInFront(cx, from, at, cx.form.lastToolEnd.value);
    }
  }

  predicate IsEnd(form: Form, end: string) {
    end == form.toolEnd || form.lastToolEnd == Some(end)
  }

  lemma EndsBeginAlike(form: Form, end: string)
    requires JsonLike(form) && IsEnd(form, end)
    ensures Solid(end) && end[0] == form.toolEnd[0] && end <= form.toolEnd
    ensures form.lastToolEnd.Some? ==> Solid(form.lastToolEnd.value) && form.lastToolEnd.value[0] == form.toolEnd[0]
  {
  }

  lemma ValEndAtLast(cx: Context, from: nat, at: nat, end: string)
    requires JsonLike(cx.form) && IsEnd(cx.form, end) && SolidAt(cx.input, from, at) && OccursAt(cx.input, end, at)
    ensures FindValEnd(cx, from) == Close(0, Some(Found(at, at)))
  {
    hide FindLiteral;
    EndsBeginAlike(cx.form, end);
    CharacterOf(cx.input, end, at, 0);
    NotInFront(cx, from, at, cx.form.valEnd);
    NotInFront(cx, from, at, cx.form.toolEnd);
    if cx.form.lastToolEnd.Some? {
      var e := cx.form.lastToolEnd.value;
      LastEndIsThere(cx, at, end);
      FoundThere(cx, from, at, e);
    } else {
      FoundThere(cx, from, at, end);
    }
  }

  lemma LastEndIsThere(cx: Context, at: nat, end: string)
    requires JsonLike(cx.form) && IsEnd(cx.form, end) && OccursAt(cx.input, end, at) && cx.form.lastToolEnd.Some?
    ensures OccursAt(cx.input, cx.form.lastToolEnd.value, at)
  {
    var e := cx.form.lastToolEnd.value;
    assert e <= end;
    PrefixOccurs(cx.input, end, e, at);
  }

  /** Reads one JSON value whose end is found at `at`. */
  lemma JsonIsRead(cx: Context, a: WrittenArg, pos: nat, at: nat, next: nat, name: string, args: Args,
      calls: seq<ToolCall>)
    requires JsonLike(cx.form) && ReadAsJson(cx, a, pos)
    requires var d := cx.json.consume(cx.input, cx.partial, pos).value.end;
             && SolidAt(cx.input, d, at) && at <= next <= |cx.input|
             && FindValEnd(cx, d) == Close(next - at, Some(Found(at, next)))
    ensures ValueAt(cx, pos, name, a.key, args, calls) == NextArg(next, SetArg(args, a.key, a.value))
  {
    hide FindValEnd;
    hide SetArg;
    hide MayBecomeJson;
    hide RestAt;
  }

  lemma FieldIsRead(cx: Context, a: WrittenArg, last: bool, pos: nat, at: nat, next: nat, name: string, args: Args,
      calls: seq<ToolCall>)
    requires JsonLike(cx.form) && FieldIsReadable(cx.form, a) && ReadAsJson(cx, a, FieldStart(cx.form, a, pos))
    requires OccursAt(cx.input, PrintField(cx.form, a, last), pos)
    requires var d := cx.json.consume(cx.input, cx.partial, FieldStart(cx.form, a, pos)).value.end;
             && SolidAt(cx.input, d, at) && at <= next <= |cx.input|
             && FindValEnd(cx, d) == Close(next - at, Some(Found(at, next)))
    ensures pos <= |cx.input| && ReadArg(cx, pos, name, args, calls) == NextArg(next, SetArg(args, a.key, a.value))
  {
    hide FindLiteral;
    hide FindValEnd;
    hide ValueAt;
    hide OccursAt;
    hide SetArg;
    hide EndsWith;
    hide ReadAsJson;
    var form := cx.form;
    var value := a.text + if last then "" else form.valEnd;
    var keyAt := pos + |a.gap + form.keyStart|;
    StartIsInside(cx.input, PrintField(form, a, last), pos);
    SplitAt(cx.input, a.gap + form.keyStart, (a.key + form.keyValSep) + value, pos);
    SolidEndsGap(a.gap, form.keyStart);
    FindTerminator(cx, a.gap, form.keyStart, pos);
    SplitAt(cx.input, a.key + form.keyValSep, value, keyAt);
    FindTerminator(cx, a.key, form.keyValSep, keyAt);
    JsonIsRead(cx, a, FieldStart(form, a, pos), at, next, name, args, calls);
  }

  /** Where the text of a value ends. */
  function TextEnd(form: Form, a: WrittenArg, pos: nat): nat {
    FieldStart(form, a, pos) + |a.text|
  }

  lemma FieldText(form: Form, a: WrittenArg, last: bool, pos: nat)
    ensures pos + |PrintField(form, a, last)| == TextEnd(form, a, pos) + if last then 0 else |form.valEnd|
  {
  }

  /** The text of a value stands in front of what follows it. */
  lemma TextIsThere(cx: Context, a: WrittenArg, last: bool, more: string, pos: nat)
    requires OccursAt(cx.input, PrintField(cx.form, a, last) + more, pos)
    ensures OccursAt(cx.input, PrintField(cx.form, a, last), pos)
    ensures OccursAt(cx.input, if last then more else cx.form.valEnd + more, TextEnd(cx.form, a, pos))
  {
    hide OccursAt;
    var form := cx.form;
    var close := if last then "" else form.valEnd;
    var before := (a.gap + form.keyStart) + ((a.key + form.keyValSep) + a.text);
    assert PrintField(form, a, last) + more == before + (close + more);
    assert close + more == if last then more else form.valEnd + more;
    SplitAt(cx.input, before, close + more, pos);
    SplitAt(cx.input, PrintField(form, a, last), more, pos);
  }

  lemma JsonStopsInFront(cx: Context, a: WrittenArg, pos: nat, at: nat)
    requires ReadAsJson(cx, a, pos) && SolidAt(cx.input, pos + |a.text|, at)
    ensures SolidAt(cx.input, cx.json.consume(cx.input, cx.partial, pos).value.end, at)
  {
    SolidFurther(cx.input, cx.json.consume(cx.input, cx.partial, pos).value.end, pos + |a.text|, at);
  }

  /** A value that is not the last stops in front of its end. */
  lemma ValueStops(cx: Context, a: WrittenArg, more: string, pos: nat)
    requires JsonLike(cx.form) && ReadAsJson(cx, a, pos)
    requires OccursAt(cx.input, cx.form.valEnd + more, pos + |a.text|)
    ensures var d, at := cx.json.consume(cx.input, cx.partial, pos).value.end, pos + |a.text|;
            && SolidAt(cx.input, d, at) && at + |cx.form.valEnd| <= |cx.input|
            && FindValEnd(cx, d) == Close(|cx.form.valEnd|, Some(Found(at, at + |cx.form.valEnd|)))
  {
    hide FindValEnd;
    var at := pos + |a.text|;
    SplitAt(cx.input, cx.form.valEnd, more, at);
    assert "" + cx.form.valEnd == cx.form.valEnd;
    SolidBehind(cx.input, "", cx.form.valEnd, at);
    JsonStopsInFront(cx, a, pos, at);
    ValEndBetween(cx, cx.json.consume(cx.input, cx.partial, pos).value.end, at);
  }

  lemma FieldBetweenIsRead(cx: Context, a: WrittenArg, more: string, pos: nat, name: string, args: Args,
      calls: seq<ToolCall>)
    requires JsonLike(cx.form) && FieldIsReadable(cx.form, a) && ReadAsJson(cx, a, FieldStart(cx.form, a, pos))
    requires OccursAt(cx.input, PrintField(cx.form, a, false) + more, pos)
    ensures pos <= |cx.input|
    ensures ReadArg(cx, pos, name, args, calls) ==
            NextArg(pos + |PrintField(cx.form, a, false)|, SetArg(args, a.key, a.value))
  {
    hide *;
    var start, at := FieldStart(cx.form, a, pos), TextEnd(cx.form, a, pos);
    TextIsThere(cx, a, false, more, pos);
    FieldText(cx.form, a, false, pos);
    TextEndIs(cx.form, a, pos);
    ValueStops(cx, a, more, start);
    FieldIsRead(cx, a, false, pos, at, at + |cx.form.valEnd|, name, args, calls);
  }

  /** The last value stops in front of the end of its call. */
  lemma LastValueStops(cx: Context, a: WrittenArg, gap: string, end: string, pos: nat)
    requires JsonLike(cx.form) && ReadAsJson(cx, a, pos) && IsEnd(cx.form, end) && AllSpace(gap)
    requires OccursAt(cx.input, gap + end, pos + |a.text|)
    ensures var d, at := cx.json.consume(cx.input, cx.partial, pos).value.end, pos + |a.text| + |gap|;
            SolidAt(cx.input, d, at) && at < |cx.input| && FindValEnd(cx, d) == Close(0, Some(Found(at, at)))
  {
    hide OccursAt;
    hide FindValEnd;
    hide JsonLike;
    hide IsEnd;
    var at := pos + |a.text| + |gap|;
    EndsBeginAlike(cx.form, end);
    SolidBehind(cx.input, gap, end, pos + |a.text|);
    JsonStopsInFront(cx, a, pos, at);
    ValEndAtLast(cx, cx.json.consume(cx.input, cx.partial, pos).value.end, at, end);
  }

  lemma LastFieldIsRead(cx: Context, a: WrittenArg, gap: string, end: string, pos: nat, name: string, args: Args,
      calls: seq<ToolCall>)
    requires JsonLike(cx.form) && FieldIsReadable(cx.form, a) && ReadAsJson(cx, a, FieldStart(cx.form, a, pos))
    requires IsEnd(cx.form, end) && AllSpace(gap)
    requires OccursAt(cx.input, PrintField(cx.form, a, true) + (gap + end), pos)
    ensures pos <= |cx.input|
    ensures ReadArg(cx, pos, name, args, calls) ==
            NextArg(pos + |PrintField(cx.form, a, true)| + |gap|, SetArg(args, a.key, a.value))
  {
    hide *;
    var start, at := FieldStart(cx.form, a, pos), TextEnd(cx.form, a, pos) + |gap|;
    TextIsThere(cx, a, true, gap + end, pos);
    FieldText(cx.form, a, true, pos);
    TextEndIs(cx.form, a, pos);
    LastValueStops(cx, a, gap, end, start);
    FieldIsRead(cx, a, true, pos, at, at, name, args, calls);
  }

  lemma TextEndIs(form: Form, a: WrittenArg, pos: nat)
    ensures TextEnd(form, a, pos) == FieldStart(form, a, pos) + |a.text|
  {
  }

  /** From `done` arguments on, the rest is read; behind the last one the cursor stands on the end of the call. */
  lemma {:induction false} FieldsAreRead(cx: Context, args: seq<WrittenArg>, done: nat, pos: nat, gap: string,
      end: string, name: string, recovery: bool, calls: seq<ToolCall>)
    requires JsonLike(cx.form) && cx.form.Valid() && IsEnd(cx.form, end) && AllSpace(gap)
    requires done <= |args| && DistinctKeys(args)
    requires forall i :: 0 <= i < |args| ==> FieldIsReadable(cx.form, args[i])
    requires OccursAt(cx.input, PrintFields(cx.form, args[done..]) + (gap + end), pos)
    requires FieldsAsJson(cx, args[done..], pos)
    ensures pos <= |cx.input|
    ensures ReadArgs(cx, pos, name, ArgsOf(args[..done]), recovery, calls) ==
            ArgsDone(pos + |PrintFields(cx.form, args[done..])| + (if done == |args| then 0 else |gap|), ArgsOf(args),
                     recovery && done == |args|)
    decreases |args| - done
  {
    hide ReadArg;
    hide PrintField;
    hide SetArg;
    hide ReadAsJson;
    hide FieldStart;
    hide KeyFresh;
    hide JsonLike;
    hide FieldIsReadable;
    hide OccursAt;
    hide NotNext;
    hide IsEnd;
    var form, rest := cx.form, args[done..];
    StartIsInside(cx.input, PrintFields(form, rest) + (gap + end), pos);
    if done == |args| {
      assert args[..done] == args;
      assert "" + (gap + end) == gap + end;
      NoFieldFollows(cx, gap, end, pos);
      NoArgFollows(cx, pos, name, ArgsOf(args), calls);
    } else {
      var a := args[done];
      assert rest[0] == a && rest[1..] == args[done + 1..];
      KeyIsFresh(args, done);
      SetFreshKey(ArgsOf(args[..done]), a.key, a.value);
      assert ArgsOf(args[..done + 1]) == ArgsOf(args[..done]) + [(a.key, a.value)];
      if done + 1 == |args| {
        OneField(form, rest);
        LastFieldIsRead(cx, a, gap, end, pos, name, ArgsOf(args[..done]), calls);
        var at := pos + |PrintField(form, a, true)| + |gap|;
        EndIsNext(cx, PrintField(form, a, true), gap, end, pos);
        FieldsAreRead(cx, args, done + 1, at, "", end, name, false, calls);
      } else {
        var more := PrintFields(form, rest[1..]) + (gap + end);
        assert PrintFields(form, rest) + (gap + end) == PrintField(form, a, false) + more;
        FieldBetweenIsRead(cx, a, more, pos, name, ArgsOf(args[..done]), calls);
        SplitAt(cx.input, PrintField(form, a, false), more, pos);
        FieldsAreRead(cx, args, done + 1, pos + |PrintField(form, a, false)|, gap, end, name, false, calls);
      }
    }
  }

  lemma OneField(form: Form, args: seq<WrittenArg>)
    requires |args| == 1
    ensures PrintFields(form, args) == PrintField(form, args[0], true)
  {
    assert args[1..] == [];
    assert PrintField(form, args[0], true) + "" == PrintField(form, args[0], true);
  }

  lemma KeyIsFresh(args: seq<WrittenArg>, done: nat)
    requires done < |args| && DistinctKeys(args)
    ensures KeyFresh(ArgsOf(args[..done]), args[done].key)
  {
  }

  lemma EndIsNext(cx: Context, printed: string, gap: string, end: string, pos: nat)
    requires OccursAt(cx.input, printed + (gap + end), pos)
    ensures OccursAt(cx.input, "" + ("" + end), pos + |printed| + |gap|)
  {
    SplitAt(cx.input, printed, gap + end, pos);
    SplitAt(cx.input, gap, end, pos + |printed|);
    assert "" + ("" + end) == end;
  }

  lemma NoFieldFollows(cx: Context, gap: string, end: string, pos: nat)
    requires JsonLike(cx.form) && IsEnd(cx.form, end) && AllSpace(gap) && pos <= |cx.input|
    requires OccursAt(cx.input, gap + end, pos)
    ensures NotNext(cx, pos, cx.form.keyStart)
  {
    EndsBeginAlike(cx.form, end);
    OtherTextIsNext(cx, gap, end, cx.form.keyStart, pos);
  }

  // ---- The end of a call

  /** Behind the last call, whose end may be one of its own, stands the end of the scope. */
  predicate ScopeEndsAt(cx: Context, endGap: string, pos: nat) {
    AllSpace(endGap) && OccursAt(cx.input, endGap + cx.form.scopeEnd, pos)
  }

  lemma SecondIsThere(input: string, gap: string, second: string, at: nat)
    requires AllSpace(gap) && Solid(second) && OccursAt(input, gap + second, at) && at <= |input|
    ensures SecondAfter(input, at, second).Some?
  {
    SolidBehind(input, gap, second, at);
    var next := at + |gap|;
    SpacesSkip(input, at, next);
    assert input[next..next + |second|] == second[..|second|];
  }

  lemma SpacesSkip(input: string, from: nat, at: nat)
    requires SolidAt(input, from, at)
    ensures SkipSpaces(input, from) == at
  {
    var r := SkipSpaces(input, from);
    SpaceInside(input, from, at, r);
  }

  /** An end that all calls may have: no call has one of its own, or this one has not. */
  lemma UsualEndIsFound(cx: Context, from: nat, at: nat)
    requires JsonLike(cx.form) && SolidAt(cx.input, from, at) && OccursAt(cx.input, cx.form.toolEnd, at)
    ensures FindToolEnd(cx, from) == Close(|cx.form.toolEnd|, Some(Found(at, at + |cx.form.toolEnd|)))
  {
    hide FindLiteral;
    hide SecondAfter;
    var form := cx.form;
    FoundThere(cx, from, at, form.toolEnd);
    if form.lastToolEnd.Some? {
      var e := form.lastToolEnd.value;
      EndsBeginAlike(form, form.toolEnd);
      LastEndIsThere(cx, at, form.toolEnd);
      FoundThere(cx, from, at, e);
      CharacterOf(cx.input, form.toolEnd, at, |e|);
      SecondIsOther(cx.input, at + |e|, form.scopeEnd);
      FindTwoStep(cx.input, cx.partial, from, e, form.scopeEnd);
    }
  }

  lemma LastEndIsFound(cx: Context, from: nat, at: nat, endGap: string)
    requires JsonLike(cx.form) && cx.form.lastToolEnd.Some? && SolidAt(cx.input, from, at)
    requires OccursAt(cx.input, cx.form.lastToolEnd.value, at)
    requires ScopeEndsAt(cx, endGap, at + |cx.form.lastToolEnd.value|)
    ensures var e := cx.form.lastToolEnd.value; FindToolEnd(cx, from) == Close(|e|, Some(Found(at, at + |e|)))
  {
    hide FindLiteral;
    hide SecondAfter;
    var form, e := cx.form, cx.form.lastToolEnd.value;
    EndsBeginAlike(form, e);
    FoundThere(cx, from, at, e);
    StartIsInside(cx.input, endGap + form.scopeEnd, at + |e|);
    SecondIsThere(cx.input, endGap, form.scopeEnd, at + |e|);
    FindTwoStep(cx.input, cx.partial, from, e, form.scopeEnd);
    NotInFront(cx, from, at, form.toolEnd);
    UsualEndIsNotThere(cx, from, at, endGap);
  }

  /** In front of the end of the scope the usual end of a call is not found, not even in part. */
  lemma UsualEndIsNotThere(cx: Context, from: nat, at: nat, endGap: string)
    requires JsonLike(cx.form) && cx.form.lastToolEnd.Some? && from <= at <= |cx.input|
    requires ScopeEndsAt(cx, endGap, at + |cx.form.lastToolEnd.value|)
    ensures var f := FindLiteral(cx.input, cx.partial, from, cx.form.toolEnd); f.Some? ==> f.value.begin != at
  {
    var form, n := cx.form, |cx.form.lastToolEnd.value|;
    var d, k := form.toolEnd, at + n;
    CharacterOf(cx.input, endGap + form.scopeEnd, k, 0);
    LiteralCovers(cx, from, d);
    var f := FindLiteral(cx.input, cx.partial, from, d);
    if f.Some? {
      CoveredCharacter(cx.input, d, f.value, n);
    }
  }

  lemma CoveredCharacter(input: string, d: string, f: Found, k: nat)
    ensures Covers(input, d, f) && k < |d| && f.begin + k < |input| ==> input[f.begin + k] == d[k]
  {
    if Covers(input, d, f) && k < |d| && f.begin + k < |input| {
      assert input[f.begin..f.end][k] == d[..f.end - f.begin][k];
    }
  }

  // ---- One call

  /** What the end of a call needs behind it. */
  predicate EndIsGood(cx: Context, end: string, endGap: string, pos: nat) {
    end == cx.form.toolEnd || (cx.form.lastToolEnd == Some(end) && ScopeEndsAt(cx, endGap, pos))
  }

  lemma ObjectCloses(cx: Context, gap: string, end: string, endGap: string, start: nat, pos: nat, name: string,
      args: Args, recovery: bool, calls: seq<ToolCall>)
    requires JsonLike(cx.form) && AllSpace(gap) && name != "" && OccursAt(cx.input, gap + end, pos)
    requires EndIsGood(cx, end, endGap, pos + |gap + end|)
    ensures pos <= |cx.input|
    ensures CloseCall(cx, start, pos, name, args, recovery, calls) ==
            NextCall(pos + |gap + end|, calls + [ToolCall(name, cx.json.dump(args))])
  {
    hide FindToolEnd;
    var at := pos + |gap|;
    EndsBeginAlike(cx.form, end);
    SolidBehind(cx.input, gap, end, pos);
    if end == cx.form.toolEnd {
      UsualEndIsFound(cx, pos, at);
    } else {
      LastEndIsFound(cx, pos, at, endGap);
    }
  }

  lemma {:induction false} FieldsAndEndAreRead(cx: Context, c: WrittenCall, end: string, endGap: string, start: nat,
      pos: nat, name: string, recovery: bool, calls: seq<ToolCall>)
    requires JsonLike(cx.form) && cx.form.Valid() && ObjectIsReadable(cx.form, c) && name != ""
    requires IsEnd(cx.form, end) && OccursAt(cx.input, PrintFields(cx.form, c.args) + (c.endGap + end), pos)
    requires FieldsAsJson(cx, c.args, pos)
    requires EndIsGood(cx, end, endGap, pos + |PrintFields(cx.form, c.args)| + |c.endGap + end|)
    ensures pos <= |cx.input|
    ensures var r := ReadArgs(cx, pos, name, [], recovery, calls);
            && r.ArgsDone?
            && CloseCall(cx, start, r.pos, name, r.args, r.recovery, calls) ==
               NextCall(pos + |PrintFields(cx.form, c.args)| + |c.endGap + end|,
                        calls + [ToolCall(name, cx.json.dump(ArgsOf(c.args)))])
  {
    hide ReadArgs;
    hide CloseCall;
    hide PrintFields;
    hide FieldIsReadable;
    hide JsonLike;
    hide OccursAt;
    hide EndIsGood;
    hide FieldsAsJson;
    hide IsEnd;
    hide EndsWith;
    hide HoldsToolEnd;
    hide Strip;
    var printed, args := PrintFields(cx.form, c.args), ArgsOf(c.args);
    assert c.args[0..] == c.args && c.args[..0] == [] && ArgsOf([]) == [];
    FieldsAreRead(cx, c.args, 0, pos, c.endGap, end, name, recovery, calls);
    if c.args == [] {
      SplitAt(cx.input, printed, c.endGap + end, pos);
      ObjectCloses(cx, c.endGap, end, endGap, start, pos + |printed|, name, args, recovery, calls);
    } else {
      var at := pos + |printed| + |c.endGap|;
      EndIsNext(cx, printed, c.endGap, end, pos);
      assert "" + ("" + end) == "" + end && |"" + end| == |end|;
      ObjectCloses(cx, "", end, endGap, start, at, name, args, false, calls);
    }
  }

  lemma {:induction false} ObjectIsRead(cx: Context, c: WrittenCall, last: bool, endGap: string, start: nat, pos: nat,
      recovery: bool, calls: seq<ToolCall>)
    requires JsonLike(cx.form) && cx.form.Valid() && ObjectIsReadable(cx.form, c) && CallIsMeant(cx, c)
    requires OccursAt(cx.input, PrintObject(cx.form, c, last), pos)
    requires FieldsAsJson(cx, c.args, FieldsStart(cx.form, c, pos))
    requires EndIsGood(cx, EndOf(cx.form, last), endGap, pos + |PrintObject(cx.form, c, last)|)
    ensures pos <= |cx.input|
    ensures ReadCall(cx, start, pos, recovery, calls) ==
            NextCall(pos + |PrintObject(cx.form, c, last)|, calls + [CallOf(cx, c)])
  {
    hide OccursAt;
    hide FindLiteral;
    hide FindNameEnd;
    hide ReadArgs;
    hide CloseCall;
    hide PrintFields;
    hide FunctionName;
    hide NameIsMeant;
    hide FieldsAsJson;
    hide EndsWith;
    hide HoldsToolEnd;
    hide EndIsGood;
    hide Strip;
    var form, end := cx.form, EndOf(cx.form, last);
    var head, text, body := c.gap + form.toolStart, c.name + c.pad, PrintFields(form, c.args) + (c.endGap + end);
    var nameAt := pos + |head|;
    StartIsInside(cx.input, PrintObject(form, c, last), pos);
    SplitAt(cx.input, head, text + (form.toolSep + body), pos);
    SolidEndsGap(c.gap, form.toolStart);
    FindTerminator(cx, c.gap, form.toolStart, pos);
    assert text + (form.toolSep + body) == (text + form.toolSep) + body;
    SplitAt(cx.input, text + form.toolSep, body, nameAt);
    NameEndsAt(cx, text, form.toolSep, nameAt);
    SameName(cx, c);
    MeantNameIsRead(cx, c.name, c.meant);
    FieldsAndEndAreRead(cx, c, end, endGap, start, nameAt + |text + form.toolSep|, c.meant, recovery, calls);
  }

  lemma SameName(cx: Context, c: WrittenCall)
    requires ObjectIsReadable(cx.form, c)
    ensures FunctionName(cx, c.name + c.pad) == FunctionName(cx, c.name)
  {
    NameText(cx.form, c.name, c.pad);
  }

  // ---- All calls and their scope

  lemma {:induction false} ObjectsAreRead(cx: Context, written: seq<WrittenCall>, endGap: string, start: nat, pos: nat,
      recovery: bool, calls: seq<ToolCall>)
    requires JsonLike(cx.form) && cx.form.Valid()
    requires forall i :: 0 <= i < |written| ==>
      ObjectIsReadable(cx.form, written[i]) && CallIsMeant(cx, written[i])
    requires OccursAt(cx.input, PrintObjects(cx.form, written), pos) && ObjectsAsJson(cx, written, pos)
    requires ScopeEndsAt(cx, endGap, pos + |PrintObjects(cx.form, written)|)
    requires pos + |PrintObjects(cx.form, written)| <= |cx.input|
    requires NotNext(cx, pos + |PrintObjects(cx.form, written)|, cx.form.toolStart)
    ensures ReadCalls(cx, start, pos, recovery, calls) ==
            CloseScope(cx, start, pos + |PrintObjects(cx.form, written)|, recovery && written == [],
                       calls + CallsOf(cx, written))
    decreases |written|
  {
    hide OccursAt;
    hide ReadCall;
    hide CloseScope;
    hide PrintObject;
    hide ObjectIsReadable;
    hide JsonLike;
    hide NotNext;
    hide CallOf;
    hide FieldsAsJson;
    hide FieldsStart;
    hide CallIsMeant;
    hide ScopeEndsAt;
    if written == [] {
      NoCallFollows(cx, start, pos, recovery, calls);
      assert calls + CallsOf(cx, written) == calls;
    } else {
      var c, rest, last := written[0], written[1..], |written| == 1;
      SplitAt(cx.input, PrintObject(cx.form, c, last), PrintObjects(cx.form, rest), pos);
      assert last ==> rest == [];
      ObjectIsRead(cx, c, last, endGap, start, pos, recovery, calls);
      ObjectsAreRead(cx, rest, endGap, start, pos + |PrintObject(cx.form, c, last)|, false, calls + [CallOf(cx, c)]);
      assert calls + [CallOf(cx, c)] + CallsOf(cx, rest) == calls + CallsOf(cx, written);
    }
  }

  /** Round trip for forms that write JSON objects: reading back a printed list of calls, whose values the JSON library
      reads, gives exactly those calls, appended in order, and stops behind the scope end; in streaming as in final
      mode, whatever the input goes on with. Without a scope end, what follows must not be one more call. */
  lemma {:induction false} PrintedObjectsAreReadBack(cx: Context, gap: string, written: seq<WrittenCall>,
      endGap: string, start: nat, calls: seq<ToolCall>)
    requires JsonLike(cx.form) && cx.form.Valid() && AllSpace(gap) && AllSpace(endGap) && start <= |cx.input|
    requires forall i :: 0 <= i < |written| ==>
      ObjectIsReadable(cx.form, written[i]) && CallIsMeant(cx, written[i])
    requires OccursAt(cx.input, PrintList(cx.form, gap, written, endGap), start)
    requires ObjectsAsJson(cx, written, start + |PrintScopeStart(cx.form, gap)|)
    requires cx.form.scopeEnd == "" ==>
      endGap == "" && NotNext(cx, start + |PrintList(cx.form, gap, written, endGap)|, cx.form.toolStart)
    ensures TryConsume(cx, start, calls) ==
            Returned(true, start + |PrintList(cx.form, gap, written, endGap)|, calls + CallsOf(cx, written))
  {
    hide OccursAt;
    hide FindLiteral;
    hide ReadCalls;
    hide CloseScope;
    hide ObjectIsReadable;
    hide PrintObjects;
    hide NotNext;
    hide ObjectsAsJson;
    hide CallsOf;
    hide CallIsMeant;
    var form := cx.form;
    var head, body, tail := PrintScopeStart(form, gap), PrintObjects(form, written), endGap + form.scopeEnd;
    SplitAt(cx.input, head, body + tail, start);
    var pos := start + |head|;
    SplitAt(cx.input, body, tail, pos);
    var after := pos + |body|;
    if form.scopeEnd != "" {
      OtherTextIsNext(cx, endGap, form.scopeEnd, form.toolStart, after);
    } else {
      assert tail == "";
    }
    StartIsInside(cx.input, tail, after);
    ObjectsAreRead(cx, written, endGap, start, pos, true, calls);
    ScopeCloses(cx, endGap, start, after, written == [], calls + CallsOf(cx, written));
    if !AllSpace(form.scopeStart) {
      SolidEndsGap(gap, form.scopeStart);
      FindTerminator(cx, gap, form.scopeStart, start);
    }
  }

  // ---- Forms that the program ships

  lemma KimiIsJsonLike()
    ensures JsonLike(KIMI_K2) && KIMI_K2.toolSep[0] == '<' && KIMI_K2.keyValSep[0] == '"' && KIMI_K2.toolEnd[0] == '}'
  {
    assert KIMI_K2.toolStart[11] == '_' && KIMI_K2.scopeEnd[11] == 's';
  }

  lemma AprielIsJsonLike()
    ensures JsonLike(APRIEL_1_5)
    ensures APRIEL_1_5.toolSep[0] == '"' && APRIEL_1_5.keyValSep[0] == '"' && APRIEL_1_5.toolEnd[0] == '}'
  {
    assert ("}, ")[..1] == "}";
  }

  lemma MimoIsJsonLike()
    ensures JsonLike(XIAOMI_MIMO)
    ensures XIAOMI_MIMO.toolSep[0] == '"' && XIAOMI_MIMO.keyValSep[0] == '"' && XIAOMI_MIMO.toolEnd[0] == '}'
  {
  }

  predicate ObjectIsTame(c: WrittenCall) {
    && AllSpace(c.gap) && AllSpace(c.pad) && AllSpace(c.endGap)
    && c.name != "" && Strip(c.name) == c.name && '"' !in c.name && '<' !in c.name && '}' !in c.name
    && DistinctKeys(c.args)
    && forall i :: 0 <= i < |c.args| ==> AllSpace(c.args[i].gap) && '"' !in c.args[i].key
  }

  lemma TameObjectIsReadable(form: Form, c: WrittenCall)
    requires JsonLike(form) && ObjectIsTame(c)
    requires form.toolSep[0] in "\"<" && form.keyValSep[0] == '"' && form.toolEnd[0] == '}'
    ensures ObjectIsReadable(form, c)
  {
    hide EndsWith;
    hide Find;
    hide Strip;
    SpacesAreNo(c.pad, form.toolSep[0]);
    SpacesAreNo(c.pad, '}');
    FirstCharacterDecides(c.name + c.pad, form.toolSep);
    FirstCharacterDecides(c.name + c.pad, form.toolEnd);
    if form.lastToolEnd.Some? {
      EndsBeginAlike(form, form.toolEnd);
      FirstCharacterDecides(c.name + c.pad, form.lastToolEnd.value);
    }
    forall i | 0 <= i < |c.args|
      ensures FieldIsReadable(form, c.args[i])
    {
      FirstCharacterDecides(c.args[i].key, form.keyValSep);
    }
  }

  /** The round trip for the forms of Kimi K2, Apriel 1.5 and MiMo: calls whose names hold no quotation mark, angle
      bracket or closing brace, and whose keys hold no quotation mark, are read back with the values that the library
      reads. */
  lemma ShippedObjectsAreReadBack(cx: Context, gap: string, written: seq<WrittenCall>, endGap: string, start: nat,
      calls: seq<ToolCall>)
    requires cx.form == KIMI_K2 || cx.form == APRIEL_1_5 || cx.form == XIAOMI_MIMO
    requires AllSpace(gap) && AllSpace(endGap) && start <= |cx.input|
    requires forall i :: 0 <= i < |written| ==> ObjectIsTame(written[i]) && CallIsMeant(cx, written[i])
    requires OccursAt(cx.input, PrintList(cx.form, gap, written, endGap), start)
    requires ObjectsAsJson(cx, written, start + |PrintScopeStart(cx.form, gap)|)
    requires cx.form == XIAOMI_MIMO ==>
      endGap == "" && NotNext(cx, start + |PrintList(cx.form, gap, written, endGap)|, cx.form.toolStart)
    ensures cx.form.Valid()
    ensures TryConsume(cx, start, calls) ==
            Returned(true, start + |PrintList(cx.form, gap, written, endGap)|, calls + CallsOf(cx, written))
  {
    KimiIsJsonLike();
    AprielIsJsonLike();
    MimoIsJsonLike();
    assert cx.form.scopeEnd == "" ==> cx.form == XIAOMI_MIMO;
    hide JsonLike;
    hide ObjectIsReadable;
    hide ObjectIsTame;
    hide CallIsMeant;
    hide OccursAt;
    hide NotNext;
    hide TryConsume;
    hide ObjectsAsJson;
    hide PrintList;
    hide CallsOf;
    forall i | 0 <= i < |written|
      ensures ObjectIsReadable(cx.form, written[i])
    {
      TameObjectIsReadable(cx.form, written[i]);
    }
    PrintedObjectsAreReadBack(cx, gap, written, endGap, start, calls);
  }
}
