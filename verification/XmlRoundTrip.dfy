/** Printing tool calls in an XML-style form and reading them back. */
module XmlRoundTrip {
  import opened Text
  import opened XmlToolCalls

  /** An argument as written: white space before it and before the second separator, the text of its value, and what
      that text is meant to be. */
  datatype WrittenArg = WrittenArg(gap: string, key: string, gap2: string, text: string, value: ArgValue)

  /** A call as written: white space before it, behind its name and before its end; and the function that its name is
      meant for. */
  datatype WrittenCall = WrittenCall(gap: string, name: string, pad: string, args: seq<WrittenArg>, endGap: string,
                                     meant: string)

  function PrintArg(form: Form, a: WrittenArg): string {
    (a.gap + form.keyStart) + ((a.key + form.keyValSep) + (PrintSep2(form, a) + (a.text + form.valEnd)))
  }

  function PrintSep2(form: Form, a: WrittenArg): string {
    if form.keyValSep2.Some? then a.gap2 + form.keyValSep2.value else ""
  }

  function PrintArgs(form: Form, args: seq<WrittenArg>): string {
    if args == [] then "" else PrintArg(form, args[0]) + PrintArgs(form, args[1..])
  }

  /** A separator made of white space is covered by the padding behind the name. */
  function PrintToolSep(form: Form): string {
    if AllSpace(form.toolSep) then "" else form.toolSep
  }

  function PrintCall(form: Form, c: WrittenCall): string {
    (c.gap + form.toolStart) +
        ((c.name + c.pad) + (PrintToolSep(form) + (PrintArgs(form, c.args) + (c.endGap + form.toolEnd))))
  }

  function PrintCalls(form: Form, calls: seq<WrittenCall>): string {
    if calls == [] then "" else PrintCall(form, calls[0]) + PrintCalls(form, calls[1..])
  }

  function PrintScopeStart(form: Form, gap: string): string {
    if AllSpace(form.scopeStart) then "" else gap + form.scopeStart
  }

  function Print(form: Form, gap: string, calls: seq<WrittenCall>, endGap: string): string {
    PrintScopeStart(form, gap) + (PrintCalls(form, calls) + (endGap + form.scopeEnd))
  }

  predicate Solid(d: string) {
    d != "" && !IsSpace(d[0])
  }

  /** Neither literal can be taken for the other. */
  predicate Apart(a: string, b: string) {
    !(a <= b) && !(b <= a)
  }

  /** d occurs in text + d only at its end. */
  predicate EndsWith(text: string, d: string) {
    Find(text + d, d, 0) == Some(|text|)
  }

  /** Whatever follows text, d does not begin inside it. */
  predicate CannotBeginIn(d: string, text: string) {
    forall j :: 0 <= j < |text| ==> Apart(text[j..], d)
  }

  predicate FormIsReadable(form: Form) {
    && form.Valid()
    && form.lastValEnd.None? && form.lastToolEnd.None?
    && Solid(form.toolStart) && Solid(form.keyStart) && Solid(form.toolEnd)
    && (AllSpace(form.scopeStart) || Solid(form.scopeStart))
    && (form.scopeEnd == "" || (Solid(form.scopeEnd) && Apart(form.toolStart, form.scopeEnd)))
    && (form.keyValSep2.Some? ==> Solid(form.keyValSep2.value))
    && Apart(form.keyStart, form.toolEnd)
  }

  predicate ArgIsReadable(form: Form, a: WrittenArg) {
    AllSpace(a.gap) && AllSpace(a.gap2) && EndsWith(a.key, form.keyValSep) && EndsWith(a.text, form.valEnd)
  }

  /** What stands between a name and the literal that ends it when there is no solid separator. */
  function AfterPad(c: WrittenCall): string {
    if c.args == [] then c.endGap else c.args[0].gap
  }

  predicate NameIsReadable(form: Form, c: WrittenCall) {
    && c.name != "" && Strip(c.name) == c.name
    && (if !AllSpace(form.toolSep) then
          EndsWith(c.name + c.pad, form.toolSep) && Find(c.name + c.pad, form.toolEnd, 0).None?
        else if c.args != [] then
          EndsWith(c.name + c.pad + AfterPad(c), form.keyStart) &&
              Find(c.name + c.pad + AfterPad(c), form.toolEnd, 0).None?
        else
          EndsWith(c.name + c.pad + AfterPad(c), form.toolEnd) &&
              CannotBeginIn(form.keyStart, c.name + c.pad + AfterPad(c) + form.toolEnd))
  }

  predicate DistinctKeys(args: seq<WrittenArg>) {
    forall i, j :: 0 <= i < j < |args| ==> args[i].key != args[j].key
  }

  predicate CallIsReadable(form: Form, c: WrittenCall) {
    && AllSpace(c.gap) && AllSpace(c.pad) && AllSpace(c.endGap)
    && NameIsReadable(form, c)
    && DistinctKeys(c.args)
    && forall i :: 0 <= i < |c.args| ==> ArgIsReadable(form, c.args[i])
  }

  function ArgsOf(args: seq<WrittenArg>): Args {
    seq(|args|, i requires 0 <= i < |args| => (args[i].key, args[i].value))
  }

  function CallOf(cx: Context, c: WrittenCall): ToolCall {
    ToolCall(c.meant, cx.json.dump(ArgsOf(c.args)))
  }

  function CallsOf(cx: Context, calls: seq<WrittenCall>): seq<ToolCall> {
    seq(|calls|, i requires 0 <= i < |calls| => CallOf(cx, calls[i]))
  }

  // ---- What a name stands for

  predicate AllDigits(s: string) {
    forall i :: 0 <= i < |s| ==> '0' <= s[i] <= '9'
  }

  /** The name of the function n as Kimi K2 writes it, with the number of the call. */
  predicate IsNumbered(name: string, n: string, number: string) {
    number != "" && AllDigits(number) && name == "functions." + (n + (":" + number))
  }

  ghost predicate CallIsMeant(cx: Context, c: WrittenCall) {
    c.meant != "" && NameIsMeant(cx, c.name, c.meant)
  }

  /** A numbered name of Kimi K2 is meant for the function that it names, and every other name for itself. */
  ghost predicate NameIsMeant(cx: Context, name: string, n: string) {
    if cx.kimi && exists m, number :: IsNumbered(name, m, number) then exists number :: IsNumbered(name, n, number)
    else n == name
  }

  lemma LastColon(head: string, number: string)
    requires AllDigits(number)
    ensures var s := head + (":" + number); RFind(s, ":", |s|) == Some(|head|)
  {
    var s := head + (":" + number);
    assert s[|head|..|head| + 1] == ":";
    assert OccursAt(s, ":", |head|);
    forall j | |head| < j <= |s|
      ensures !OccursAt(s, ":", j)
    {
      CharacterOf(s, ":", j, 0);
      assert j < |s| ==> s[j] == number[j - |head| - 1];
    }
  }

  /** The name between "functions." and the number. */
  lemma NumberedNameIsRead(name: string, n: string, number: string)
    requires IsNumbered(name, n, number)
    ensures KimiName(name) == n
  {
    var head := "functions." + n;
    assert name == head + (":" + number);
    LastColon(head, number);
    assert forall k :: |head| < k < |name| ==> name[k] == number[k - |head| - 1];
    assert name[10..|head|] == n;
  }

  /** A name that is not numbered is kept. */
  lemma OtherNameIsKept(name: string)
    requires forall n, number :: !IsNumbered(name, n, number)
    ensures KimiName(name) == name
  {
    var colon := RFind(name, ":", |name|);
    if "functions." <= name && colon.Some? && colon.value + 1 < |name| && 10 <= colon.value {
      var n, number := name[10..colon.value], name[colon.value + 1..];
      assert name[colon.value..colon.value + 1] == ":";
      assert name == "functions." + (n + (":" + number));
      assert !IsNumbered(name, n, number);
      assert DigitsFrom(name, colon.value + 1) ==> AllDigits(number);
    }
  }

  lemma MeantNameIsRead(cx: Context, name: string, n: string)
    requires NameIsMeant(cx, name, n) && Strip(name) == name
    ensures FunctionName(cx, name) == n
  {
    if cx.kimi {
      if m, number :| IsNumbered(name, m, number) {
        var d :| IsNumbered(name, n, d);
        NumberedNameIsRead(name, n, d);
      } else {
        OtherNameIsKept(name);
      }
    }
  }

  // ---- What a value is read as

  /** JSON is read at pos and, but for white space, up to end. */
  predicate TakenAsJson(cx: Context, pos: nat, end: nat)
    requires pos <= |cx.input|
  {
    var d := Detect(cx, pos);
    && d.Some? && d.value.marker == "" && d.value.end <= end <= |cx.input| && AllSpace(cx.input[d.value.end..end])
    && SkipSpaces(cx.input, d.value.end) < |cx.input|
  }

  /** No JSON is read at pos, or something that is not the end of a value follows it. */
  predicate TakenAsText(cx: Context, pos: nat)
    requires pos <= |cx.input|
  {
    var d := Detect(cx, pos);
    d.Some? ==>
      && SkipSpaces(cx.input, d.value.end) < |cx.input|
      && var close := FindValEnd(cx, d.value.end).found;
         d.value.marker != "" || close.None? || !AllSpace(cx.input[d.value.end..close.value.begin])
  }

  function PlainText(form: Form, text: string): ArgValue {
    Plain(if form.trimRawArgval then Strip(text) else text)
  }

  /** The text of the argument, which begins at pos, is read as what it is meant to be. */
  predicate ReadAsMeant(cx: Context, a: WrittenArg, pos: nat) {
    && pos <= |cx.input|
    && (|| (TakenAsText(cx, pos) && a.value == PlainText(cx.form, a.text))
        || (TakenAsJson(cx, pos, pos + |a.text|) && a.value == Detect(cx, pos).value.value))
  }

  /** Where the value of an argument begins that is printed at pos. */
  function ValueStart(form: Form, a: WrittenArg, pos: nat): nat {
    pos + |a.gap + form.keyStart| + |a.key + form.keyValSep| + |PrintSep2(form, a)|
  }

  /** Every value of the arguments printed at pos is read as meant. */
  predicate ArgsAsMeant(cx: Context, args: seq<WrittenArg>, pos: nat) {
    args == [] ||
    (ReadAsMeant(cx, args[0], ValueStart(cx.form, args[0], pos)) &&
     ArgsAsMeant(cx, args[1..], pos + |PrintArg(cx.form, args[0])|))
  }

  /** Where the arguments of a call begin that is printed at pos. */
  function ArgsStart(form: Form, c: WrittenCall, pos: nat): nat {
    pos + |c.gap + form.toolStart| + |c.name + c.pad| + |PrintToolSep(form)|
  }

  predicate CallsAsMeant(cx: Context, calls: seq<WrittenCall>, pos: nat) {
    calls == [] ||
    (ArgsAsMeant(cx, calls[0].args, ArgsStart(cx.form, calls[0], pos)) &&
     CallsAsMeant(cx, calls[1..], pos + |PrintCall(cx.form, calls[0])|))
  }

  // ---- Texts at a position of the input

  lemma SplitAt(input: string, a: string, b: string, pos: nat)
    requires OccursAt(input, a + b, pos)
    ensures OccursAt(input, a, pos) && OccursAt(input, b, pos + |a|)
    ensures input[pos..pos + |a|] == a
  {
    assert input[pos..pos + |a|] == input[pos..pos + |a + b|][..|a|] == (a + b)[..|a|] == a;
    assert input[pos + |a|..pos + |a| + |b|] == input[pos..pos + |a + b|][|a|..] == (a + b)[|a|..] == b;
  }

  lemma OccursInside(input: string, text: string, d: string, pos: nat, i: nat)
    requires OccursAt(input, text, pos) && i + |d| <= |text|
    ensures OccursAt(text, d, i) == OccursAt(input, d, pos + i)
  {
    SliceOfSlice(input, pos, pos + |text|, i, i + |d|);
  }

  /** The first occurrence inside a text is the first occurrence in the input from there on. */
  lemma {:induction false} FindInside(input: string, text: string, d: string, pos: nat, from: nat, at: nat)
    requires OccursAt(input, text, pos) && from <= at
    requires Find(text, d, from) == Some(at)
    ensures Find(input, d, pos + from) == Some(pos + at)
    decreases |text| - from
  {
    OccursInside(input, text, d, pos, from);
    if !OccursAt(text, d, from) {
      FindInside(input, text, d, pos, from + 1, at);
    }
  }

  lemma FindTerminator(cx: Context, text: string, d: string, pos: nat)
    requires OccursAt(cx.input, text + d, pos) && EndsWith(text, d)
    ensures FindLiteral(cx.input, cx.partial, pos, d) == Some(Found(pos + |text|, pos + |text| + |d|))
    ensures cx.input[pos..pos + |text|] == text
  {
    hide Find;
    hide OccursAt;
    FindInside(cx.input, text + d, d, pos, 0, |text|);
    SplitAt(cx.input, text, d, pos);
  }

  lemma FirstOfOccurrence(s: string, d: string, i: nat)
    requires OccursAt(s, d, i) && d != ""
    ensures s[i] == d[0]
  {
    assert s[i..i + |d|][0] == s[i];
  }

  lemma {:induction false} SpacesBefore(gap: string, d: string, from: nat)
    requires AllSpace(gap) && Solid(d) && from <= |gap|
    ensures Find(gap + d, d, from) == Some(|gap|)
    decreases |gap| - from
  {
    var text := gap + d;
    if from < |gap| {
      if OccursAt(text, d, from) {
        FirstOfOccurrence(text, d, from);
      }
      SpacesBefore(gap, d, from + 1);
    } else {
      assert text[from..from + |d|] == d;
    }
  }

  lemma SolidEndsGap(gap: string, d: string)
    requires AllSpace(gap) && Solid(d)
    ensures EndsWith(gap, d)
  {
    SpacesBefore(gap, d, 0);
  }

  /** White space and then a solid text that is apart from the literal: the literal is not next. */
  lemma OtherTextIsNext(cx: Context, gap: string, text: string, literal: string, pos: nat)
    requires OccursAt(cx.input, gap + text, pos) && AllSpace(gap)
    requires Solid(text) && Solid(literal) && Apart(literal, text)
    ensures NotNext(cx, pos, literal)
  {
    SplitAt(cx.input, gap, text, pos);
    var at := pos + |gap|;
    var f := FindLiteral(cx.input, cx.partial, pos, literal);
    assert cx.input[at] == text[0];
    if f.Some? && AllSpace(cx.input[pos..f.value.begin]) {
      LiteralCovers(cx, pos, literal);
      SameStart(cx.input, literal, f.value);
      FirstSolidIsUnique(cx.input, pos, at, f.value.begin);
      TwoTextsAt(cx.input, text, literal, f.value);
      assert false;
    }
  }

  lemma FirstSolidIsUnique(s: string, lo: nat, x: nat, y: nat)
    requires lo <= x < |s| && lo <= y < |s| && !IsSpace(s[x]) && !IsSpace(s[y])
    requires AllSpace(s[lo..x]) && AllSpace(s[lo..y])
    ensures x == y
  {
  }

  /** A found literal agrees with the input on the part it covers. */
  predicate Covers(input: string, literal: string, f: Found) {
    f.begin < f.end <= |input| && f.end - f.begin <= |literal| && input[f.begin..f.end] == literal[..f.end - f.begin]
    && (f.end == |input| || f.end - f.begin == |literal|)
  }

  lemma LiteralCovers(cx: Context, pos: nat, literal: string)
    requires pos <= |cx.input| && literal != ""
    ensures var f := FindLiteral(cx.input, cx.partial, pos, literal);
            f.Some? ==> Covers(cx.input, literal, f.value)
  {
  }

  lemma SameStart(input: string, literal: string, f: Found)
    requires Covers(input, literal, f)
    ensures input[f.begin] == literal[0]
  {
    assert input[f.begin..f.end][0] == literal[..f.end - f.begin][0];
  }

  lemma TwoTextsAt(input: string, text: string, literal: string, f: Found)
    requires Covers(input, literal, f) && OccursAt(input, text, f.begin)
    ensures text <= literal || literal <= text
  {
    var n := f.end - f.begin;
    if n <= |text| {
      assert literal[..n] == input[f.begin..f.end] == input[f.begin..f.begin + |text|][..n] == text[..n];
    } else {
      assert text == input[f.begin..f.begin + |text|] == input[f.begin..f.end][..|text|] == literal[..n][..|text|];
    }
  }

  lemma SecondIsOther(input: string, at: nat, second: string)
    requires at < |input| && !IsSpace(input[at]) && second != "" && input[at] != second[0]
    ensures SecondAfter(input, at, second).None?
  {
    var n := if |second| <= |input| - at then |second| else |input| - at;
    assert input[at..at + n][0] == input[at] && second[..n][0] == second[0];
  }

  // ---- One argument

  lemma ArgText(form: Form, a: WrittenArg)
    ensures |PrintArg(form, a)| ==
        |a.gap + form.keyStart| + |a.key + form.keyValSep| + |PrintSep2(form, a)| + |a.text + form.valEnd|
  {
  }

  lemma ValueEndsAt(cx: Context, text: string, pos: nat, from: nat)
    requires cx.form.lastValEnd.None? && EndsWith(text, cx.form.valEnd)
    requires OccursAt(cx.input, text + cx.form.valEnd, pos) && pos <= from <= pos + |text|
    ensures FindValEnd(cx, from) ==
            Close(|cx.form.valEnd|, Some(Found(pos + |text|, pos + |text| + |cx.form.valEnd|)))
    ensures pos + |text + cx.form.valEnd| <= |cx.input|
  {
    hide Find;
    var whole, d := text + cx.form.valEnd, cx.form.valEnd;
    assert OccursAt(whole, d, |text|);
    assert Find(whole, d, from - pos) == Some(|text|);
    FindInside(cx.input, whole, d, pos, from - pos, |text|);
  }

  lemma TextIsRead(cx: Context, text: string, pos: nat, name: string, key: string, args: Args, calls: seq<ToolCall>)
    requires FormIsReadable(cx.form) && EndsWith(text, cx.form.valEnd)
    requires OccursAt(cx.input, text + cx.form.valEnd, pos) && pos <= |cx.input| && TakenAsText(cx, pos)
    ensures ValueAt(cx, pos, name, key, args, calls) ==
            NextArg(pos + |text + cx.form.valEnd|, SetArg(args, key, PlainText(cx.form, text)))
  {
    hide FindValEnd;
    hide Detect;
    hide SetArg;
    hide Strip;
    hide EndsWith;
    ValueEndsAt(cx, text, pos, pos);
    SplitAt(cx.input, text, cx.form.valEnd, pos);
    hide OccursAt;
    assert cx.input[pos..pos + |text|] == text;
  }

  lemma OtherwiseIsRead(cx: Context, text: string, pos: nat, name: string, key: string, args: Args,
      calls: seq<ToolCall>)
    requires FormIsReadable(cx.form) && EndsWith(text, cx.form.valEnd)
    requires OccursAt(cx.input, text + cx.form.valEnd, pos) && pos <= |cx.input| && !TakenAsText(cx, pos)
    ensures var t := ValueAt(cx, pos, name, key, args, calls);
            if TakenAsJson(cx, pos, pos + |text|) then
              t == NextArg(pos + |text + cx.form.valEnd|, SetArg(args, key, Detect(cx, pos).value.value))
            else t.NextArg? ==> t.pos > pos + |text + cx.form.valEnd|
    ensures Detect(cx, pos).Some?
  {
    hide FindLiteral;
    hide Detect;
    hide SetArg;
    hide EndsWith;
    hide OccursAt;
    hide PlainValue;
    var d := Detect(cx, pos).value;
    if d.end <= pos + |text| {
      ValueEndsAt(cx, text, pos, d.end);
    }
  }

  lemma {:induction false} SetArgTellsValues(args: Args, key: string, v: ArgValue, w: ArgValue)
    requires SetArg(args, key, v) == SetArg(args, key, w)
    ensures v == w
  {
    if args != [] {
      if args[0].0 == key {
        assert SetArg(args, key, v)[0] == (key, v);
      } else {
        assert SetArg(args, key, v)[1..] == SetArg(args[1..], key, v);
        assert SetArg(args, key, w)[1..] == SetArg(args[1..], key, w);
        SetArgTellsValues(args[1..], key, v, w);
      }
    } else {
      assert SetArg(args, key, v)[0] == (key, v);
    }
  }

  lemma NotBothTextAndJson(cx: Context, text: string, pos: nat)
    requires cx.form.lastValEnd.None? && EndsWith(text, cx.form.valEnd)
    requires OccursAt(cx.input, text + cx.form.valEnd, pos) && pos <= |cx.input| && TakenAsText(cx, pos)
    ensures !TakenAsJson(cx, pos, pos + |text|)
  {
    hide FindValEnd;
    hide EndsWith;
    hide OccursAt;
    var d := Detect(cx, pos);
    hide Detect;
    if d.Some? && d.value.end <= pos + |text| {
      ValueEndsAt(cx, text, pos, d.value.end);
    }
  }

  /** A printed value is read up to its end and as what it is meant to be, exactly if the text is taken for that. */
  lemma ValueIsReadExactly(cx: Context, a: WrittenArg, pos: nat, name: string, args: Args, calls: seq<ToolCall>)
    requires FormIsReadable(cx.form) && ArgIsReadable(cx.form, a)
    requires OccursAt(cx.input, a.text + cx.form.valEnd, pos) && pos <= |cx.input|
    ensures ReadAsMeant(cx, a, pos) <==>
            ValueAt(cx, pos, name, a.key, args, calls) ==
            NextArg(pos + |a.text + cx.form.valEnd|, SetArg(args, a.key, a.value))
  {
    hide ValueAt;
    hide Detect;
    hide TakenAsText;
    hide TakenAsJson;
    hide PlainText;
    hide SetArg;
    hide OccursAt;
    hide EndsWith;
    if TakenAsText(cx, pos) {
      NotBothTextAndJson(cx, a.text, pos);
      TextIsRead(cx, a.text, pos, name, a.key, args, calls);
      if SetArg(args, a.key, PlainText(cx.form, a.text)) == SetArg(args, a.key, a.value) {
        SetArgTellsValues(args, a.key, PlainText(cx.form, a.text), a.value);
      }
    } else {
      OtherwiseIsRead(cx, a.text, pos, name, a.key, args, calls);
      if TakenAsJson(cx, pos, pos + |a.text|) {
        var v := Detect(cx, pos).value.value;
        if SetArg(args, a.key, v) == SetArg(args, a.key, a.value) {
          SetArgTellsValues(args, a.key, v, a.value);
        }
      }
    }
  }

  lemma AfterKeyIsRead(cx: Context, a: WrittenArg, pos: nat, name: string, args: Args, calls: seq<ToolCall>)
    requires FormIsReadable(cx.form) && ArgIsReadable(cx.form, a)
    requires ReadAsMeant(cx, a, pos + |PrintSep2(cx.form, a)|)
    requires OccursAt(cx.input, PrintSep2(cx.form, a) + (a.text + cx.form.valEnd), pos)
    ensures AfterKey(cx, pos, name, a.key, args, calls) ==
            NextArg(pos + |PrintSep2(cx.form, a)| + |a.text + cx.form.valEnd|, SetArg(args, a.key, a.value))
  {
    hide FindLiteral;
    hide ValueAt;
    hide OccursAt;
    hide Find;
    hide SetArg;
    hide EndsWith;
    hide ReadAsMeant;
    SplitAt(cx.input, PrintSep2(cx.form, a), a.text + cx.form.valEnd, pos);
    if cx.form.keyValSep2.Some? {
      SolidEndsGap(a.gap2, cx.form.keyValSep2.value);
      FindTerminator(cx, a.gap2, cx.form.keyValSep2.value, pos);
      ValueIsReadExactly(cx, a, pos + |PrintSep2(cx.form, a)|, name, args, calls);
    } else {
      ValueIsReadExactly(cx, a, pos, name, args, calls);
    }
  }

  lemma {:induction false} ArgIsRead(cx: Context, a: WrittenArg, pos: nat, name: string, args: Args,
      calls: seq<ToolCall>)
    requires FormIsReadable(cx.form) && ArgIsReadable(cx.form, a)
    requires ReadAsMeant(cx, a, ValueStart(cx.form, a, pos))
    requires OccursAt(cx.input, PrintArg(cx.form, a), pos)
    ensures ReadArg(cx, pos, name, args, calls) ==
            NextArg(pos + |PrintArg(cx.form, a)|, SetArg(args, a.key, a.value))
  {
    hide FindLiteral;
    hide AfterKey;
    hide OccursAt;
    hide SetArg;
    hide ReadAsMeant;
    hide EndsWith;
    hide PrintSep2;
    var form := cx.form;
    var tail := PrintSep2(form, a) + (a.text + form.valEnd);
    var keyAt := pos + |a.gap + form.keyStart|;
    SplitAt(cx.input, a.gap + form.keyStart, (a.key + form.keyValSep) + tail, pos);
    SolidEndsGap(a.gap, form.keyStart);
    FindTerminator(cx, a.gap, form.keyStart, pos);
    SplitAt(cx.input, a.key + form.keyValSep, tail, keyAt);
    FindTerminator(cx, a.key, form.keyValSep, keyAt);
    AfterKeyIsRead(cx, a, keyAt + |a.key + form.keyValSep|, name, args, calls);
    ArgText(form, a);
  }

  // ---- All arguments of a call

  predicate KeyFresh(args: Args, key: string) {
    forall i :: 0 <= i < |args| ==> args[i].0 != key
  }

  lemma {:induction false} SetFreshKey(args: Args, key: string, value: ArgValue)
    requires KeyFresh(args, key)
    ensures SetArg(args, key, value) == args + [(key, value)]
  {
    if args != [] {
      assert args[0].0 != key;
      assert KeyFresh(args[1..], key);
      SetFreshKey(args[1..], key, value);
      assert args == [args[0]] + args[1..];
    }
  }

  lemma NoArgFollows(cx: Context, pos: nat, name: string, args: Args, calls: seq<ToolCall>)
    requires pos <= |cx.input| && cx.form.Valid() && NotNext(cx, pos, cx.form.keyStart)
    ensures ReadArg(cx, pos, name, args, calls) == LeaveArgs
  {
  }

  /** Printed arguments are read, whatever follows them. */
  lemma {:induction false} ArgsAreReadFirst(cx: Context, args: seq<WrittenArg>, done: nat, pos: nat, name: string,
      recovery: bool, calls: seq<ToolCall>)
    requires FormIsReadable(cx.form) && cx.form.Valid()
    requires done <= |args| && DistinctKeys(args)
    requires forall i :: 0 <= i < |args| ==> ArgIsReadable(cx.form, args[i])
    requires OccursAt(cx.input, PrintArgs(cx.form, args[done..]), pos) && ArgsAsMeant(cx, args[done..], pos)
    requires pos + |PrintArgs(cx.form, args[done..])| <= |cx.input|
    ensures ReadArgs(cx, pos, name, ArgsOf(args[..done]), recovery, calls) ==
            ReadArgs(cx, pos + |PrintArgs(cx.form, args[done..])|, name, ArgsOf(args), recovery &&
                done == |args|, calls)
    decreases |args| - done
  {
    hide ReadArg;
    hide PrintArg;
    hide SetArg;
    hide ReadAsMeant;
    hide ValueStart;
    hide KeyFresh;
    hide FormIsReadable;
    hide ArgIsReadable;
    hide OccursAt;
    var form := cx.form;
    var rest := args[done..];
    if done == |args| {
      assert args[..done] == args;
      assert PrintArgs(form, rest) == "";
    } else {
      var a := args[done];
      assert rest[0] == a && rest[1..] == args[done + 1..];
      var next := pos + |PrintArg(form, a)|;
      assert pos + |PrintArgs(form, rest)| == next + |PrintArgs(form, rest[1..])|;
      SplitAt(cx.input, PrintArg(form, a), PrintArgs(form, rest[1..]), pos);
      ArgIsRead(cx, a, pos, name, ArgsOf(args[..done]), calls);
      SetFreshKey(ArgsOf(args[..done]), a.key, a.value);
      assert ArgsOf(args[..done + 1]) == ArgsOf(args[..done]) + [(a.key, a.value)];
      ArgsAreReadFirst(cx, args, done + 1, next, name, false, calls);
    }
  }

  /** From `done` arguments on, the rest is read; and what follows is not another argument. */
  lemma {:induction false} ArgsAreRead(cx: Context, args: seq<WrittenArg>, done: nat, pos: nat, name: string,
                                       recovery: bool, calls: seq<ToolCall>)
    requires FormIsReadable(cx.form) && cx.form.Valid()
    requires done <= |args| && DistinctKeys(args)
    requires forall i :: 0 <= i < |args| ==> ArgIsReadable(cx.form, args[i])
    requires OccursAt(cx.input, PrintArgs(cx.form, args[done..]), pos) && ArgsAsMeant(cx, args[done..], pos)
    requires pos + |PrintArgs(cx.form, args[done..])| <= |cx.input|
    requires NotNext(cx, pos + |PrintArgs(cx.form, args[done..])|, cx.form.keyStart)
    ensures ReadArgs(cx, pos, name, ArgsOf(args[..done]), recovery, calls) ==
            ArgsDone(pos + |PrintArgs(cx.form, args[done..])|, ArgsOf(args), recovery && done == |args|)
  {
    hide *;
    var after := pos + |PrintArgs(cx.form, args[done..])|;
    ArgsAreReadFirst(cx, args, done, pos, name, recovery, calls);
    NoArgFollows(cx, after, name, ArgsOf(args), calls);
    NoMoreArgs(cx, after, name, ArgsOf(args), recovery && done == |args|, calls);
  }

  lemma NoMoreArgs(cx: Context, pos: nat, name: string, args: Args, recovery: bool, calls: seq<ToolCall>)
    requires pos <= |cx.input| && cx.form.Valid() && ReadArg(cx, pos, name, args, calls) == LeaveArgs
    ensures ReadArgs(cx, pos, name, args, recovery, calls) == ArgsDone(pos, args, recovery)
  {
  }

  // ---- One call

  lemma NameText(form: Form, name: string, spaces: string)
    requires name != "" && Strip(name) == name && AllSpace(spaces)
    ensures Strip(name + spaces) == name
  {
    StripIsSolid(name);
    assert name + spaces == "" + name + spaces;
    StripIsUnique(name + spaces, "", name, spaces);
  }

  lemma StripIsSolid(s: string)
    requires Strip(s) == s && s != ""
    ensures !IsSpace(s[0]) && !IsSpace(s[|s| - 1])
  {
    var lo := SkipSpaces(s, 0);
    var hi := BackOverSpaces(s, lo, |s|);
    assert |s[lo..hi]| == |s|;
  }

  /** The literal is found from pos; the text before it is the name and spaces, and no tool end is in it. */
  lemma {:induction false} NameEndsAt(cx: Context, text: string, literal: string, pos: nat)
    requires OccursAt(cx.input, text + literal, pos) && EndsWith(text, literal)
    requires literal == (if AllSpace(cx.form.toolSep) then cx.form.keyStart else cx.form.toolSep)
    requires !HoldsToolEnd(cx.form, text)
    ensures FindNameEnd(cx, pos) == NameEnd(Found(pos + |text|, pos + |text| + |literal|))
    ensures cx.input[pos..pos + |text|] == text
  {
    hide FindLiteral;
    hide Find;
    hide OccursAt;
    FindTerminator(cx, text, literal, pos);
  }

  /** A call without arguments whose separator is white space: the name ends at the tool end, even when
      the literal that starts a key is found in a later call. */
  lemma NameEndsAtToolEnd(cx: Context, text: string, pos: nat)
    requires FormIsReadable(cx.form) && AllSpace(cx.form.toolSep)
    requires OccursAt(cx.input, text + cx.form.toolEnd, pos) && EndsWith(text, cx.form.toolEnd)
    requires CannotBeginIn(cx.form.keyStart, text + cx.form.toolEnd)
    ensures FindNameEnd(cx, pos) == NameEnd(Found(pos + |text|, pos + |text| + |cx.form.toolEnd|))
    ensures cx.input[pos..pos + |text|] == text
  {
    FindTerminator(cx, text, cx.form.toolEnd, pos);
    var f := FindLiteral(cx.input, cx.partial, pos, cx.form.keyStart);
    if f.Some? {
      KeyStartIsBeyond(cx, text + cx.form.toolEnd, pos);
      PreludeHoldsToolEnd(cx, text, pos, f.value.begin);
    } else {
      NoEarlierToolEnd(text, cx.form.toolEnd);
    }
  }

  lemma KeyStartIsBeyond(cx: Context, whole: string, pos: nat)
    requires cx.form.keyStart != "" && OccursAt(cx.input, whole, pos) && CannotBeginIn(cx.form.keyStart, whole)
    requires FindLiteral(cx.input, cx.partial, pos, cx.form.keyStart).Some?
    ensures pos + |whole| <= FindLiteral(cx.input, cx.partial, pos, cx.form.keyStart).value.begin
  {
    var f := FindLiteral(cx.input, cx.partial, pos, cx.form.keyStart).value;
    LiteralCovers(cx, pos, cx.form.keyStart);
    if f.begin < pos + |whole| {
      var j := f.begin - pos;
      SuffixOccurs(cx.input, whole, pos, j);
      assert Apart(whole[j..], cx.form.keyStart);
      TwoTextsAt(cx.input, whole[j..], cx.form.keyStart, f);
    }
  }

  lemma SuffixOccurs(input: string, whole: string, pos: nat, j: nat)
    requires OccursAt(input, whole, pos) && j <= |whole|
    ensures OccursAt(input, whole[j..], pos + j)
  {
    SliceOfSlice(input, pos, pos + |whole|, j, |whole|);
  }

  lemma PreludeHoldsToolEnd(cx: Context, text: string, pos: nat, begin: nat)
    requires OccursAt(cx.input, text + cx.form.toolEnd, pos)
    requires pos + |text + cx.form.toolEnd| <= begin <= |cx.input|
    ensures HoldsToolEnd(cx.form, cx.input[pos..begin])
  {
    SplitAt(cx.input, text, cx.form.toolEnd, pos);
    SliceOfSlice(cx.input, pos, begin, |text|, |text| + |cx.form.toolEnd|);
    assert OccursAt(cx.input[pos..begin], cx.form.toolEnd, |text|);
  }

  lemma NoEarlierToolEnd(text: string, toolEnd: string)
    requires EndsWith(text, toolEnd) && toolEnd != ""
    ensures Find(text, toolEnd, 0).None?
  {
    var f := Find(text, toolEnd, 0);
    if f.Some? {
      assert (text + toolEnd)[f.value..f.value + |toolEnd|] == text[f.value..f.value + |toolEnd|];
      assert OccursAt(text + toolEnd, toolEnd, f.value);
    }
  }

  lemma CallCloses(cx: Context, gap: string, start: nat, pos: nat, name: string, args: Args, recovery: bool,
          calls: seq<ToolCall>)
    requires FormIsReadable(cx.form) && AllSpace(gap) && name != ""
    requires OccursAt(cx.input, gap + cx.form.toolEnd, pos)
    ensures CloseCall(cx, start, pos, name, args, recovery, calls) ==
            NextCall(pos + |gap + cx.form.toolEnd|, calls + [ToolCall(name, cx.json.dump(args))])
  {
    SolidEndsGap(gap, cx.form.toolEnd);
    FindTerminator(cx, gap, cx.form.toolEnd, pos);
  }

  /** The arguments as the argument loop meets them: behind a white-space separator the cursor already
      stands on the first key. */
  function ArgsMet(form: Form, c: WrittenCall): seq<WrittenArg> {
    if AllSpace(form.toolSep) && c.args != [] then [c.args[0].(gap := "")] + c.args[1..] else c.args
  }

  function EndGapMet(form: Form, c: WrittenCall): string {
    if AllSpace(form.toolSep) && c.args == [] then "" else c.endGap
  }

  function BodyMet(form: Form, c: WrittenCall): string {
    PrintArgs(form, ArgsMet(form, c)) + (EndGapMet(form, c) + form.toolEnd)
  }

  /** Everything behind the name's first character, grouped as the parser meets it. */
  function PreludeMet(form: Form, c: WrittenCall): string {
    if AllSpace(form.toolSep) then c.name + c.pad + AfterPad(c) else c.name + c.pad
  }

  lemma FirstGapMoves(form: Form, a: WrittenArg)
    ensures PrintArg(form, a) == a.gap + PrintArg(form, a.(gap := ""))
  {
    var met := a.(gap := "");
    assert PrintSep2(form, a) == PrintSep2(form, met);
    var tail := (a.key + form.keyValSep) + (PrintSep2(form, a) + (a.text + form.valEnd));
    assert (a.gap + form.keyStart) + tail == a.gap + (("" + form.keyStart) + tail);
  }

  lemma Regroup(head: string, gap: string, arg: string, rest: string, close: string)
    ensures head + ("" + (((gap + arg) + rest) + close)) == (head + gap) + ("" + ((arg + rest) + close))
    ensures head + ("" + ("" + (gap + close))) == (head + gap) + ("" + ("" + ("" + close)))
  {
  }

  lemma CallTextMet(form: Form, c: WrittenCall)
    ensures (c.name + c.pad) + (PrintToolSep(form) + (PrintArgs(form, c.args) + (c.endGap + form.toolEnd)))
         == PreludeMet(form, c) + (PrintToolSep(form) + BodyMet(form, c))
  {
    hide PrintArg;
    if AllSpace(form.toolSep) {
      if c.args == [] {
        Regroup(c.name + c.pad, c.endGap, "", "", form.toolEnd);
      } else {
        var a := c.args[0];
        FirstGapMoves(form, a);
        assert ArgsMet(form, c)[1..] == c.args[1..];
        Regroup(c.name + c.pad, a.gap, PrintArg(form, a.(gap := "")), PrintArgs(form, c.args[1..]),
            c.endGap + form.toolEnd);
      }
    }
  }

  lemma PrintArgStartsWith(form: Form, a: WrittenArg)
    requires a.gap == ""
    ensures form.keyStart <= PrintArg(form, a)
  {
    assert a.gap + form.keyStart == form.keyStart;
  }

  /** A prefix of what occurs at a position occurs there. */
  lemma PrefixOccurs(input: string, text: string, head: string, pos: nat)
    requires OccursAt(input, text, pos) && head <= text
    ensures OccursAt(input, head, pos)
  {
    SliceOfSlice(input, pos, pos + |text|, 0, |head|);
  }

  /** The name ends where it should, and nothing but the name and spaces has been passed. */
  ghost predicate ReadsName(cx: Context, c: WrittenCall, nameAt: nat)
    requires nameAt <= |cx.input|
  {
    var text := PreludeMet(cx.form, c);
    var r := FindNameEnd(cx, nameAt);
    && r.NameEnd? && r.at.begin == nameAt + |text|
    && cx.input[nameAt..r.at.begin] == text
    && (if AllSpace(cx.form.toolSep) then r.at.begin else r.at.end) == nameAt + |text| + |PrintToolSep(cx.form)|
  }

  lemma NameIsRead(cx: Context, c: WrittenCall, nameAt: nat)
    requires FormIsReadable(cx.form) && CallIsReadable(cx.form, c)
    requires OccursAt(cx.input, PreludeMet(cx.form, c) + (PrintToolSep(cx.form) + BodyMet(cx.form, c)), nameAt)
    ensures nameAt <= |cx.input| && ReadsName(cx, c, nameAt)
  {
    hide *;
    StartIsInside(cx.input, PreludeMet(cx.form, c) + (PrintToolSep(cx.form) + BodyMet(cx.form, c)), nameAt);
    if !AllSpace(cx.form.toolSep) {
      NameBeforeSeparator(cx, c, nameAt);
    } else if c.args != [] {
      NameBeforeKey(cx, c, nameAt);
    } else {
      NameBeforeToolEnd(cx, c, nameAt);
    }
  }

  lemma StartIsInside(input: string, text: string, pos: nat)
    requires OccursAt(input, text, pos)
    ensures pos <= |input|
  {
  }

  lemma NameBeforeSeparator(cx: Context, c: WrittenCall, nameAt: nat)
    requires FormIsReadable(cx.form) && CallIsReadable(cx.form, c) && !AllSpace(cx.form.toolSep) && nameAt <= |cx.input|
    requires OccursAt(cx.input, PreludeMet(cx.form, c) + (PrintToolSep(cx.form) + BodyMet(cx.form, c)), nameAt)
    ensures ReadsName(cx, c, nameAt)
  {
    hide FindNameEnd;
    hide FindLiteral;
    hide Find;
    hide OccursAt;
    hide EndsWith;
    hide BodyMet;
    var text, body, sep := PreludeMet(cx.form, c), BodyMet(cx.form, c), cx.form.toolSep;
    assert text + sep <= text + (sep + body);
    PrefixOccurs(cx.input, text + (sep + body), text + sep, nameAt);
    NameEndsAt(cx, text, sep, nameAt);
  }

  lemma NameBeforeKey(cx: Context, c: WrittenCall, nameAt: nat)
    requires FormIsReadable(cx.form) && CallIsReadable(cx.form, c) && AllSpace(cx.form.toolSep) && c.args != []
    requires nameAt <= |cx.input|
    requires OccursAt(cx.input, PreludeMet(cx.form, c) + (PrintToolSep(cx.form) + BodyMet(cx.form, c)), nameAt)
    ensures ReadsName(cx, c, nameAt)
  {
    hide FindNameEnd;
    hide FindLiteral;
    hide Find;
    hide OccursAt;
    hide EndsWith;
    hide PrintArg;
    var text, body, keyStart := PreludeMet(cx.form, c), BodyMet(cx.form, c), cx.form.keyStart;
    var met := ArgsMet(cx.form, c);
    PrintArgStartsWith(cx.form, met[0]);
    assert keyStart <= PrintArgs(cx.form, met);
    assert text + keyStart <= text + ("" + body);
    PrefixOccurs(cx.input, text + ("" + body), text + keyStart, nameAt);
    NameEndsAt(cx, text, keyStart, nameAt);
  }

  lemma NoArgsMet(form: Form, c: WrittenCall)
    requires AllSpace(form.toolSep) && c.args == []
    ensures PrintToolSep(form) + BodyMet(form, c) == form.toolEnd
  {
    assert PrintArgs(form, ArgsMet(form, c)) == "";
    assert "" + ("" + ("" + form.toolEnd)) == form.toolEnd;
  }

  lemma NameBeforeToolEnd(cx: Context, c: WrittenCall, nameAt: nat)
    requires FormIsReadable(cx.form) && CallIsReadable(cx.form, c) && AllSpace(cx.form.toolSep) && c.args == []
    requires nameAt <= |cx.input|
    requires OccursAt(cx.input, PreludeMet(cx.form, c) + (PrintToolSep(cx.form) + BodyMet(cx.form, c)), nameAt)
    ensures ReadsName(cx, c, nameAt)
  {
    hide FindNameEnd;
    hide FindLiteral;
    hide Find;
    hide OccursAt;
    hide EndsWith;
    hide CannotBeginIn;
    hide Strip;
    hide PrintArg;
    hide ArgIsReadable;
    var text := PreludeMet(cx.form, c);
    NoArgsMet(cx.form, c);
    NameEndsAtToolEnd(cx, text, nameAt);
  }

  lemma NameOf(cx: Context, c: WrittenCall)
    requires FormIsReadable(cx.form) && CallIsReadable(cx.form, c)
    ensures FunctionName(cx, PreludeMet(cx.form, c)) == FunctionName(cx, c.name)
  {
    hide Strip;
    hide KimiName;
    hide EndsWith;
    hide Find;
    hide CannotBeginIn;
    NameText(cx.form, c.name, c.pad);
    var after := AfterPad(c);
    if AllSpace(cx.form.toolSep) {
      if c.args != [] {
        assert ArgIsReadable(cx.form, c.args[0]);
      }
      assert AllSpace(c.pad + after);
      NameText(cx.form, c.name, c.pad + after);
      assert c.name + (c.pad + after) == c.name + c.pad + after;
    }
  }

  lemma ArgsMetAreReadable(form: Form, c: WrittenCall)
    requires CallIsReadable(form, c)
    ensures forall i :: 0 <= i < |ArgsMet(form, c)| ==> ArgIsReadable(form, ArgsMet(form, c)[i])
    ensures DistinctKeys(ArgsMet(form, c)) && ArgsOf(ArgsMet(form, c)) == ArgsOf(c.args)
    ensures AllSpace(EndGapMet(form, c))
  {
    hide EndsWith;
    hide NameIsReadable;
    var met := ArgsMet(form, c);
    forall i | 0 <= i < |met|
      ensures ArgIsReadable(form, met[i]) && met[i].key == c.args[i].key && met[i].value == c.args[i].value
    {
      assert ArgIsReadable(form, c.args[i]);
    }
  }

  /** From the arguments to the end of the call. */
  lemma {:induction false} BodyIsRead(cx: Context, c: WrittenCall, start: nat, pos: nat, name: string,
          recovery: bool, calls: seq<ToolCall>)
    requires FormIsReadable(cx.form) && cx.form.Valid() && CallIsReadable(cx.form, c)
    requires name != ""
    requires OccursAt(cx.input, BodyMet(cx.form, c), pos) && ArgsAsMeant(cx, ArgsMet(cx.form, c), pos)
    ensures pos <= |cx.input|
    ensures var r := ReadArgs(cx, pos, name, [], recovery, calls);
            && r.ArgsDone?
            && CloseCall(cx, start, r.pos, name, r.args, r.recovery, calls) ==
               NextCall(pos + |BodyMet(cx.form, c)|, calls + [ToolCall(name, cx.json.dump(ArgsOf(c.args)))])
  {
    hide ReadArgs;
    hide CloseCall;
    hide PrintArgs;
    hide NotNext;
    hide ArgIsReadable;
    hide NameIsReadable;
    var form := cx.form;
    var met, gap := ArgsMet(form, c), EndGapMet(form, c);
    var printed := PrintArgs(form, met);
    ArgsMetAreReadable(form, c);
    SplitAt(cx.input, printed, gap + form.toolEnd, pos);
    var after := pos + |printed|;
    OtherTextIsNext(cx, gap, form.toolEnd, form.keyStart, after);
    assert met[0..] == met && met[..0] == [];
    ArgsAreRead(cx, met, 0, pos, name, recovery, calls);
    assert ArgsOf([]) == [];
    CallCloses(cx, gap, start, after, name, ArgsOf(c.args), recovery && 0 == |met|, calls);
  }

  /** Where white space is taken for a part of the name, the first argument is met without it. */
  lemma MetAsMeant(cx: Context, c: WrittenCall, pos: nat)
    requires ArgsAsMeant(cx, c.args, ArgsStart(cx.form, c, pos))
    ensures ArgsAsMeant(cx, ArgsMet(cx.form, c),
                        pos + |c.gap + cx.form.toolStart| + |PreludeMet(cx.form, c)| + |PrintToolSep(cx.form)|)
  {
    hide ReadAsMeant;
    hide PrintArg;
    if AllSpace(cx.form.toolSep) && c.args != [] {
      var a := c.args[0];
      var met, at := a.(gap := ""), ArgsStart(cx.form, c, pos);
      FirstGapMoves(cx.form, a);
      assert ArgsMet(cx.form, c)[1..] == c.args[1..];
      assert ValueStart(cx.form, met, at + |a.gap|) == ValueStart(cx.form, a, at);
      SameMeaning(cx, a, ValueStart(cx.form, a, at));
    }
  }

  lemma SameMeaning(cx: Context, a: WrittenArg, pos: nat)
    ensures ReadAsMeant(cx, a.(gap := ""), pos) == ReadAsMeant(cx, a, pos)
  {
  }

  lemma NameIsStripped(form: Form, c: WrittenCall)
    requires CallIsReadable(form, c)
    ensures Strip(c.name) == c.name
  {
  }

  lemma {:induction false} CallIsRead(cx: Context, c: WrittenCall, start: nat, pos: nat, recovery: bool,
          calls: seq<ToolCall>)
    requires FormIsReadable(cx.form) && cx.form.Valid() && CallIsReadable(cx.form, c)
    requires CallIsMeant(cx, c) && ArgsAsMeant(cx, c.args, ArgsStart(cx.form, c, pos))
    requires OccursAt(cx.input, PrintCall(cx.form, c), pos) && pos <= |cx.input|
    ensures ReadCall(cx, start, pos, recovery, calls) ==
        NextCall(pos + |PrintCall(cx.form, c)|, calls + [CallOf(cx, c)])
  {
    hide OccursAt;
    hide FindLiteral;
    hide FindNameEnd;
    hide ReadArgs;
    hide CloseCall;
    hide PrintArgs;
    hide NameIsReadable;
    hide FunctionName;
    hide NameIsMeant;
    hide Strip;
    hide BodyMet;
    hide ArgsAsMeant;
    hide ArgsStart;
    hide EndsWith;
    var form := cx.form;
    var text, sep, body := PreludeMet(form, c), PrintToolSep(form), BodyMet(form, c);
    CallTextMet(form, c);
    var nameAt := pos + |c.gap + form.toolStart|;
    SplitAt(cx.input, c.gap + form.toolStart, text + (sep + body), pos);
    SolidEndsGap(c.gap, form.toolStart);
    FindTerminator(cx, c.gap, form.toolStart, pos);
    NameIsRead(cx, c, nameAt);
    NameOf(cx, c);
    SplitAt(cx.input, text, sep + body, nameAt);
    SplitAt(cx.input, sep, body, nameAt + |text|);
    MetAsMeant(cx, c, pos);
    NameIsStripped(form, c);
    MeantNameIsRead(cx, c.name, c.meant);
    BodyIsRead(cx, c, start, nameAt + |text| + |sep|, c.meant, recovery, calls);
  }

  // ---- All calls and their scope

  /** Printed calls are read, whatever follows them. */
  lemma {:induction false} CallsAreReadFirst(cx: Context, written: seq<WrittenCall>, start: nat, pos: nat,
      recovery: bool,
      calls: seq<ToolCall>)
    requires FormIsReadable(cx.form) && cx.form.Valid()
    requires forall i :: 0 <= i < |written| ==> CallIsReadable(cx.form, written[i]) && CallIsMeant(cx, written[i])
    requires OccursAt(cx.input, PrintCalls(cx.form, written), pos) && CallsAsMeant(cx, written, pos)
    requires pos + |PrintCalls(cx.form, written)| <= |cx.input|
    ensures ReadCalls(cx, start, pos, recovery, calls) ==
            ReadCalls(cx, start, pos + |PrintCalls(cx.form, written)|, recovery && written == [],
                      calls + CallsOf(cx, written))
    decreases |written|
  {
    hide OccursAt;
    hide ReadCall;
    hide PrintCall;
    hide CallIsReadable;
    hide CallIsMeant;
    hide FormIsReadable;
    hide CallOf;
    hide ArgsAsMeant;
    hide ArgsStart;
    if written == [] {
      assert calls + CallsOf(cx, written) == calls;
    } else {
      var c, rest := written[0], written[1..];
      SplitAt(cx.input, PrintCall(cx.form, c), PrintCalls(cx.form, rest), pos);
      CallIsRead(cx, c, start, pos, recovery, calls);
      CallsAreReadFirst(cx, rest, start, pos + |PrintCall(cx.form, c)|, false, calls + [CallOf(cx, c)]);
      assert calls + [CallOf(cx, c)] + CallsOf(cx, rest) == calls + CallsOf(cx, written);
    }
  }

  lemma {:induction false} CallsAreRead(cx: Context, written: seq<WrittenCall>, start: nat, pos: nat, recovery: bool,
          calls: seq<ToolCall>)
    requires FormIsReadable(cx.form) && cx.form.Valid()
    requires forall i :: 0 <= i < |written| ==>
        CallIsReadable(cx.form, written[i]) && CallIsMeant(cx, written[i])
    requires OccursAt(cx.input, PrintCalls(cx.form, written), pos) && CallsAsMeant(cx, written, pos)
    requires pos + |PrintCalls(cx.form, written)| <= |cx.input|
    requires NotNext(cx, pos + |PrintCalls(cx.form, written)|, cx.form.toolStart)
    ensures ReadCalls(cx, start, pos, recovery, calls) ==
            CloseScope(cx, start, pos + |PrintCalls(cx.form, written)|, recovery &&
                written == [], calls + CallsOf(cx, written))
  {
    hide *;
    var after := pos + |PrintCalls(cx.form, written)|;
    CallsAreReadFirst(cx, written, start, pos, recovery, calls);
    NoCallFollows(cx, start, after, recovery && written == [], calls + CallsOf(cx, written));
    ScopeComes(cx, start, after, recovery && written == [], calls + CallsOf(cx, written));
  }

  lemma ScopeComes(cx: Context, start: nat, pos: nat, recovery: bool, calls: seq<ToolCall>)
    requires pos <= |cx.input| && cx.form.Valid() && ReadCall(cx, start, pos, recovery, calls) == LeaveCalls
    ensures ReadCalls(cx, start, pos, recovery, calls) == CloseScope(cx, start, pos, recovery, calls)
  {
  }

  lemma NoCallFollows(cx: Context, start: nat, pos: nat, recovery: bool, calls: seq<ToolCall>)
    requires pos <= |cx.input| && cx.form.Valid() && NotNext(cx, pos, cx.form.toolStart)
    ensures ReadCall(cx, start, pos, recovery, calls) == LeaveCalls
  {
  }

  lemma ScopeCloses(cx: Context, endGap: string, start: nat, pos: nat, recovery: bool, calls: seq<ToolCall>)
    requires AllSpace(endGap) && (if cx.form.scopeEnd == "" then endGap == "" else Solid(cx.form.scopeEnd))
    requires OccursAt(cx.input, endGap + cx.form.scopeEnd, pos)
    ensures CloseScope(cx, start, pos, recovery, calls) == Returned(true, pos + |endGap + cx.form.scopeEnd|, calls)
  {
    if cx.form.scopeEnd != "" {
      SolidEndsGap(endGap, cx.form.scopeEnd);
      FindTerminator(cx, endGap, cx.form.scopeEnd, pos);
    }
  }

  /** Round trip. Reading back a printed list of calls gives exactly those calls, appended in order, and
      stops just behind the scope end; in streaming as in final mode, whatever the input goes on with.
      Without a scope end, what follows must not be one more call, as nothing would separate it. */
  lemma {:induction false} PrintedCallsAreReadBack(cx: Context, gap: string, written: seq<WrittenCall>,
          endGap: string, start: nat, calls: seq<ToolCall>)
    requires FormIsReadable(cx.form) && cx.form.Valid()
    requires AllSpace(gap) && AllSpace(endGap)
    requires forall i :: 0 <= i < |written| ==>
        CallIsReadable(cx.form, written[i]) && CallIsMeant(cx, written[i])
    requires OccursAt(cx.input, Print(cx.form, gap, written, endGap), start) && start <= |cx.input|
    requires CallsAsMeant(cx, written, start + |PrintScopeStart(cx.form, gap)|)
    requires cx.form.scopeEnd == "" ==>
      endGap == "" && NotNext(cx, start + |Print(cx.form, gap, written, endGap)|, cx.form.toolStart)
    ensures ParseCalls(cx, start, calls) ==
            Returned(true, start + |Print(cx.form, gap, written, endGap)|, calls + CallsOf(cx, written))
    ensures TryConsume(cx, start, calls) == ParseCalls(cx, start, calls)
  {
    hide OccursAt;
    hide FindLiteral;
    hide ReadCalls;
    hide CloseScope;
    hide CallIsReadable;
    hide PrintCalls;
    hide NotNext;
    hide CallsAsMeant;
    hide CallsOf;
    hide FunctionName;
    var form := cx.form;
    var head, body, tail := PrintScopeStart(form, gap), PrintCalls(form, written), endGap + form.scopeEnd;
    SplitAt(cx.input, head, body + tail, start);
    var pos := start + |head|;
    SplitAt(cx.input, body, tail, pos);
    var after := pos + |body|;
    if form.scopeEnd != "" {
      OtherTextIsNext(cx, endGap, form.scopeEnd, form.toolStart, after);
    } else {
      assert tail == "";
    }
    CallsAreRead(cx, written, start, pos, true, calls);
    ScopeCloses(cx, endGap, start, after, written == [], calls + CallsOf(cx, written));
    if !AllSpace(form.scopeStart) {
      SolidEndsGap(gap, form.scopeStart);
      FindTerminator(cx, gap, form.scopeStart, start);
    }
  }
}
