/** Reasoning ("think") sections of a streamed chat message, as `try_parse_reasoning` and the
    content-only format read them, and the law that streaming never takes back what was shown. */
module Reasoning {
  import opened Text

  datatype ReasoningFormat = NoReasoning | Auto | DeepSeekLegacy | DeepSeek

  datatype Syntax = Syntax(
    reasoningFormat: ReasoningFormat,
    reasoningInContent: bool,
    thinkingForcedOpen: bool)

  /** The literals around a section of reasoning. */
  datatype Tags = Tags(start: string, end: string) {
    predicate Valid() { start != "" && end != "" }
  }

  /** The two texts of a message that a client sees growing. */
  datatype Shown = Shown(content: string, reasoning: string)

  datatype Parsed = Parsed(handled: bool, pos: nat, shown: Shown)

  /** A piece of reasoning is stripped and, when something is left, appended with what surrounds it. */
  function Handle(sx: Syntax, tags: Tags, pending: string, text: string, closed: bool, shown: Shown): Shown
  {
    var stripped := Strip(text);
    if stripped == "" then shown
    else if sx.reasoningInContent then
      var open := if sx.reasoningFormat == DeepSeek then "<think>" else tags.start;
      var close := if !closed then "" else if sx.reasoningFormat == DeepSeek then "</think>" else tags.end;
      shown.(content := shown.content + open + stripped + close)
    else shown.(reasoning := shown.reasoning + pending + stripped)
  }

  /** The opening literal still waiting to be shown in front of the next non-empty piece of reasoning. */
  function PendingAfterHandle(sx: Syntax, pending: string, text: string): string {
    if Strip(text) == "" || sx.reasoningInContent then pending else ""
  }

  function PendingAt(input: string, sx: Syntax, tags: Tags, pending: string, at: nat): string {
    if !sx.thinkingForcedOpen || sx.reasoningInContent then pending
    else if at + |tags.start| > |input| then ""
    else input[at..at + |tags.start|]
  }

  /** The length of the common part that `compare(cursor, min(tag, rest), tag, 0, ...)` looks at. */
  function PrefixLength(input: string, tag: string, cursor: nat): nat
    requires cursor <= |input|
  {
    if |tag| <= |input| - cursor then |tag| else |input| - cursor
  }

  predicate StartsHere(input: string, tag: string, cursor: nat)
    requires cursor <= |input|
  {
    var n := PrefixLength(input, tag, cursor);
    input[cursor..cursor + n] == tag[..n]
  }

  /** Where the still open section starting at cursor stops being shown. */
  function OpenEnd(input: string, endTag: string, cursor: nat): (r: nat)
    requires cursor <= |input|
    ensures cursor <= r <= |input|
  {
    var held := PartialStop(input[cursor..], endTag);
    if held.None? then |input| else cursor + held.value
  }

  /** What one turn of the section loop does: stop with a result, or go on behind the next start tag. */
  datatype Turn = Stop(result: Parsed) | Next(cursor: nat, pending: string, shown: Shown)

  function SectionTurn(input: string, partial: bool, sx: Syntax, tags: Tags,
                       cursor: nat, pending: string, shown: Shown): (r: Turn)
    requires cursor <= |input| && tags.Valid()
    ensures r.Stop? ==> cursor <= r.result.pos <= |input|
    ensures r.Next? ==> cursor < r.cursor <= |input|
  {
    if cursor == |input| then Stop(Parsed(true, |input|, shown))
    else
      var close := Find(input, tags.end, cursor);
      if close.None? then
        var end := OpenEnd(input, tags.end, cursor);
        Stop(Parsed(true, |input|,
                    Handle(sx, tags, pending, input[cursor..end], end == |input| && !partial, shown)))
      else
        ClosedTurn(input, sx, tags, input[cursor..close.value], close.value, pending, shown)
  }

  /** The turn for a section whose end tag is found at close. */
  function ClosedTurn(input: string, sx: Syntax, tags: Tags, text: string, close: nat, pending: string,
          shown: Shown): Turn
    requires close + |tags.end| <= |input|
  {
    AfterSection(input, sx, tags, close + |tags.end|,
                 PendingAfterHandle(sx, pending, text), Handle(sx, tags, pending, text, true, shown))
  }

  /** The part of a turn behind an end tag that ends at `after`. */
  function AfterSection(input: string, sx: Syntax, tags: Tags, after: nat, pending: string, shown: Shown): (r: Turn)
    requires after <= |input|
    ensures r.Stop? ==> after <= r.result.pos <= |input|
    ensures r.Next? ==> after <= r.cursor <= |input|
  {
    var next := SkipSpaces(input, after);
    if next < |input| && StartsHere(input, tags.start, next) then
      if |input| - next < |tags.start| then Stop(Parsed(true, |input|, shown))
      else Next(next + |tags.start|, PendingAt(input, sx, tags, pending, next), shown)
    else Stop(Parsed(true, next, shown))
  }

  /** All sections from one whose text starts at cursor. */
  function Sections(input: string, partial: bool, sx: Syntax, tags: Tags,
                    cursor: nat, pending: string, shown: Shown): (r: Parsed)
    requires cursor <= |input| && tags.Valid()
    ensures cursor <= r.pos <= |input|
    decreases |input| - cursor
  {
    match SectionTurn(input, partial, sx, tags, cursor, pending, shown)
    case Stop(r) => r
    case Next(cursor', pending', shown') => Sections(input, partial, sx, tags, cursor', pending', shown')
  }

  /** How the parse begins: where the first section starts, if one does. */
  function Opening(input: string, sx: Syntax, tags: Tags, pos: nat, shown: Shown): (r: Turn)
    requires pos <= |input|
    ensures r.Stop? ==> pos <= r.result.pos <= |input|
    ensures r.Next? ==> pos <= r.cursor <= |input|
  {
    var ws := SkipSpaces(input, pos);
    if ws == |input| then
      // Everything is white space: stripping leaves nothing to show.
      if sx.thinkingForcedOpen then Stop(Parsed(true, |input|, shown)) else Stop(Parsed(false, pos, shown))
    else if StartsHere(input, tags.start, ws) then
      if |input| - ws < |tags.start| then Stop(Parsed(true, |input|, shown))
      else Next(ws + |tags.start|, PendingAt(input, sx, tags, "", ws),
          shown.(content := shown.content + input[pos..ws]))
    else if sx.thinkingForcedOpen then Next(ws, "", shown)
    else Stop(Parsed(false, pos, shown))
  }

  function TryReasoning(input: string, partial: bool, sx: Syntax, tags: Tags, pos: nat, shown: Shown): (r: Parsed)
    requires pos <= |input| && tags.Valid()
    ensures pos <= r.pos <= |input|
  {
    if sx.reasoningFormat == NoReasoning then Parsed(false, pos, shown)
    else
      match Opening(input, sx, tags, pos, shown)
      case Stop(r) => r
      case Next(cursor, pending, shown') => Sections(input, partial, sx, tags, cursor, pending, shown')
  }

  function Finish(input: string, r: Parsed): Shown
    requires r.pos <= |input|
  {
    r.shown.(content := r.shown.content + input[r.pos..])
  }

  /** The content-only format, for any pair of tags. */
  function ContentOnly(input: string, partial: bool, sx: Syntax, tags: Tags): Shown
    requires tags.Valid()
  {
    Finish(input, TryReasoning(input, partial, sx, tags, 0, Shown("", "")))
  }

  predicate GrowsTo(a: Shown, b: Shown) {
    a.content <= b.content && a.reasoning <= b.reasoning
  }

  lemma GrowsTransitively(a: Shown, b: Shown, c: Shown)
    requires GrowsTo(a, b) && GrowsTo(b, c)
    ensures GrowsTo(a, c)
  {
  }

  lemma HandleGrows(sx: Syntax, tags: Tags, pending: string, text: string, closed: bool, shown: Shown)
    ensures GrowsTo(shown, Handle(sx, tags, pending, text, closed, shown))
  {
  }

  lemma FinishGrows(input: string, r: Parsed)
    requires r.pos <= |input|
    ensures GrowsTo(r.shown, Finish(input, r))
  {
  }

  /** What a turn leaves behind contains what was shown before it. */
  lemma TurnGrows(input: string, partial: bool, sx: Syntax, tags: Tags, cursor: nat, pending: string, shown: Shown)
    requires cursor <= |input| && tags.Valid()
    ensures var t := SectionTurn(input, partial, sx, tags, cursor, pending, shown);
            GrowsTo(shown, if t.Stop? then t.result.shown else t.shown)
  {
    if cursor < |input| {
      var close := Find(input, tags.end, cursor);
      if close.None? {
        var end := OpenEnd(input, tags.end, cursor);
        HandleGrows(sx, tags, pending, input[cursor..end], end == |input| && !partial, shown);
      } else {
        HandleGrows(sx, tags, pending, input[cursor..close.value], true, shown);
      }
    }
  }

  lemma {:induction false} SectionsGrow(input: string, partial: bool, sx: Syntax, tags: Tags,
                                        cursor: nat, pending: string, shown: Shown)
    requires cursor <= |input| && tags.Valid()
    ensures GrowsTo(shown, Finish(input, Sections(input, partial, sx, tags, cursor, pending, shown)))
    decreases |input| - cursor
  {
    TurnGrows(input, partial, sx, tags, cursor, pending, shown);
    var t := SectionTurn(input, partial, sx, tags, cursor, pending, shown);
    match t
    case Stop(r) =>
      FinishGrows(input, r);
      GrowsTransitively(shown, r.shown, Finish(input, r));
    case Next(cursor', pending', shown') =>
      SectionsGrow(input, partial, sx, tags, cursor', pending', shown');
      GrowsTransitively(shown, shown', Finish(input, Sections(input, partial, sx, tags, cursor, pending, shown)));
  }

  /** The texts appended for one piece of reasoning: to the content and to the reasoning. */
  lemma HandleKeepsPrefix(sx: Syntax, tags: Tags, pending: string, text: string, longer: string, closed: bool,
          shown: Shown)
    requires text <= longer
    ensures GrowsTo(Handle(sx, tags, pending, text, false, shown), Handle(sx, tags, pending, longer, closed, shown))
  {
    StripKeepsPrefix(text, longer);
    var a, b := Strip(text), Strip(longer);
    if a == "" {
      HandleGrows(sx, tags, pending, longer, closed, shown);
    } else if sx.reasoningInContent {
      var open := if sx.reasoningFormat == DeepSeek then "<think>" else tags.start;
      var close := if !closed then "" else if sx.reasoningFormat == DeepSeek then "</think>" else tags.end;
      AppendKeepsPrefix(shown.content + open, a, b, close);
      assert shown.content + open + a + "" == shown.content + open + a;
    } else {
      AppendKeepsPrefix(shown.reasoning + pending, a, b, "");
      assert shown.reasoning + pending + b + "" == shown.reasoning + pending + b;
    }
  }

  lemma AppendKeepsPrefix(base: string, a: string, b: string, more: string)
    requires a <= b
    ensures base + a <= base + b + more
  {
    assert b == a + b[|a|..];
    assert base + b + more == (base + a) + (b[|a|..] + more);
  }

  lemma OccursInExtension(p: string, q: string, d: string, i: nat)
    requires p <= q && i + |d| <= |p|
    ensures OccursAt(p, d, i) == OccursAt(q, d, i)
  {
    assert p[i..i + |d|] == q[i..i + |d|];
  }

  /** The end tag is found at the same place in every text long enough to hold it, and nowhere in shorter ones. */
  lemma {:induction false} FindInExtension(p: string, q: string, d: string, from: nat)
    requires p <= q && d != ""
    ensures Find(p, d, from).Some? ==> Find(q, d, from) == Find(p, d, from)
    ensures Find(p, d, from).None? && Find(q, d, from).Some? ==> |p| < Find(q, d, from).value + |d|
    decreases |p| - from
  {
    if from + |d| <= |p| {
      OccursInExtension(p, q, d, from);
      if !OccursAt(p, d, from) {
        FindInExtension(p, q, d, from + 1);
      }
    }
  }

  lemma SuffixInExtension(p: string, q: string, i: nat, cursor: nat)
    requires p <= q && cursor + i <= |p|
    ensures p[cursor..] <= q[cursor..]
    ensures q[cursor..][i..] == q[cursor + i..]
    ensures p[cursor..][i..] <= q[cursor..][i..]
  {
  }

  /** What is held back on the longer text is held back, from no later, on the shorter one. */
  lemma HeldBackEarlier(rest: string, restQ: string, stop: string)
    requires rest <= restQ
    ensures var held := PartialStop(restQ, stop);
            held.Some? && held.value < |rest| ==>
            PartialStop(rest, stop).Some? && PartialStop(rest, stop).value <= held.value
  {
    var held := PartialStop(restQ, stop);
    if held.Some? && held.value < |rest| {
      var i := held.value;
      SuffixInExtension(rest, restQ, 0, i);
      assert rest[i..] <= restQ[i..] <= stop;
    }
  }

  lemma OpenEndBeforeTag(p: string, q: string, endTag: string, cursor: nat, at: nat)
    requires p <= q && cursor < |p| && endTag != ""
    requires cursor <= at && OccursAt(q, endTag, at) && |p| < at + |endTag|
    ensures OpenEnd(p, endTag, cursor) <= at
  {
    if at < |p| {
      var i := at - cursor;
      SuffixInExtension(p, q, i, cursor);
      assert OccursAt(q[cursor..], endTag, i) by {
        assert q[cursor..][i..i + |endTag|] == q[at..at + |endTag|];
      }
      HeldBackSuffixIsEnough(p[cursor..], q[cursor..], endTag, i);
    }
  }

  lemma OpenEndNeverRetreats(p: string, q: string, endTag: string, cursor: nat)
    requires p <= q && cursor < |p| && endTag != ""
    requires Find(p, endTag, cursor).None?
    ensures Find(q, endTag, cursor).Some? ==> OpenEnd(p, endTag, cursor) <= Find(q, endTag, cursor).value
    ensures Find(q, endTag, cursor).None? ==> OpenEnd(p, endTag, cursor) <= OpenEnd(q, endTag, cursor)
  {
    FindInExtension(p, q, endTag, cursor);
    var close := Find(q, endTag, cursor);
    if close.Some? {
      OpenEndBeforeTag(p, q, endTag, cursor, close.value);
    } else {
      SuffixInExtension(p, q, 0, cursor);
      HeldBackEarlier(p[cursor..], q[cursor..], endTag);
    }
  }

  lemma StartsHereInExtension(p: string, q: string, tag: string, at: nat)
    requires p <= q && at <= |p|
    ensures StartsHere(q, tag, at) ==> StartsHere(p, tag, at)
    ensures StartsHere(p, tag, at) && |tag| <= |p| - at ==> StartsHere(q, tag, at)
  {
    var n := PrefixLength(p, tag, at);
    assert p[at..at + n] == q[at..at + n];
    if StartsHere(q, tag, at) {
      var m := PrefixLength(q, tag, at);
      assert q[at..at + n] == q[at..at + m][..n] == tag[..m][..n] == tag[..n];
    }
  }

  lemma SkipSpacesInExtension(p: string, q: string, i: nat)
    requires p <= q && i <= |p|
    ensures SkipSpaces(p, i) < |p| ==> SkipSpaces(q, i) == SkipSpaces(p, i)
    ensures SkipSpaces(p, i) <= SkipSpaces(q, i)
    decreases |p| - i
  {
    if i < |p| && IsSpace(p[i]) {
      SkipSpacesInExtension(p, q, i + 1);
    }
  }

  /** One turn on a streamed prefix against the same turn on its continuation: either both go on in the
      same way, or the prefix stops having shown no more than the continuation shows by then. */
  ghost predicate TurnAgrees(p: string, q: string, a: Turn, b: Turn) {
    if a.Next? then a == b
    else
      && a.result.pos <= |p|
      && (if b.Next? then GrowsTo(Finish(p, a.result), b.shown)
          else b.result.pos <= |q| && GrowsTo(Finish(p, a.result), Finish(q, b.result)))
  }

  lemma StoppedAtEnd(p: string, q: string, shown: Shown, b: Turn)
    requires b.Stop? ==> b.result.pos <= |q|
    requires GrowsTo(shown, if b.Stop? then b.result.shown else b.shown)
    ensures TurnAgrees(p, q, Stop(Parsed(true, |p|, shown)), b)
  {
    assert p[|p|..] == "";
    assert Finish(p, Parsed(true, |p|, shown)) == shown;
    if b.Stop? {
      FinishGrows(q, b.result);
      GrowsTransitively(shown, b.result.shown, Finish(q, b.result));
    }
  }

  lemma AfterSectionAgrees(p: string, q: string, sx: Syntax, tags: Tags, after: nat, pending: string, shown: Shown)
    requires p <= q && after <= |p| && tags.Valid()
    ensures TurnAgrees(p, q, AfterSection(p, sx, tags, after, pending, shown),
        AfterSection(q, sx, tags, after, pending, shown))
  {
    SkipSpacesInExtension(p, q, after);
    var next := SkipSpaces(p, after);
    var b := AfterSection(q, sx, tags, after, pending, shown);
    if next == |p| {
      StoppedAtEnd(p, q, shown, b);
    } else {
      StartsHereInExtension(p, q, tags.start, next);
      if StartsHere(p, tags.start, next) {
        if |p| - next < |tags.start| {
          StoppedAtEnd(p, q, shown, b);
        } else {
          assert p[next..next + |tags.start|] == q[next..next + |tags.start|];
        }
      } else {
        assert p[next..] <= q[next..];
        AppendKeepsPrefix(shown.content, p[next..], q[next..], "");
        assert shown.content + q[next..] + "" == shown.content + q[next..];
      }
    }
  }

  lemma {:induction false} OpenTurnNeverRetracts(p: string, q: string, partialQ: bool, sx: Syntax, tags: Tags,
                              cursor: nat, pending: string, shown: Shown)
    requires p <= q && cursor < |p| && tags.Valid()
    requires Find(p, tags.end, cursor).None?
    ensures TurnAgrees(p, q, SectionTurn(p, true, sx, tags, cursor, pending, shown),
                       SectionTurn(q, partialQ, sx, tags, cursor, pending, shown))
  {
    var b := SectionTurn(q, partialQ, sx, tags, cursor, pending, shown);
    var end := OpenEnd(p, tags.end, cursor);
    var text := p[cursor..end];
    OpenEndNeverRetreats(p, q, tags.end, cursor);
    var closeQ := Find(q, tags.end, cursor);
    if closeQ.Some? {
      var longer := q[cursor..closeQ.value];
      assert text <= longer;
      HandleKeepsPrefix(sx, tags, pending, text, longer, true, shown);
    } else {
      var endQ := OpenEnd(q, tags.end, cursor);
      var longer := q[cursor..endQ];
      assert text <= longer;
      HandleKeepsPrefix(sx, tags, pending, text, longer, endQ == |q| && !partialQ, shown);
    }
    StoppedAtEnd(p, q, Handle(sx, tags, pending, text, false, shown), b);
  }

  lemma {:induction false} ClosedTurnNeverRetracts(p: string, q: string, sx: Syntax, tags: Tags, text: string,
          close: nat, pending: string, shown: Shown)
    requires p <= q && close + |tags.end| <= |p| && tags.Valid()
    ensures TurnAgrees(p, q, ClosedTurn(p, sx, tags, text, close, pending, shown),
                       ClosedTurn(q, sx, tags, text, close, pending, shown))
  {
    hide TurnAgrees;
    hide AfterSection;
    hide Handle;
    AfterSectionAgrees(p, q, sx, tags, close + |tags.end|,
                       PendingAfterHandle(sx, pending, text), Handle(sx, tags, pending, text, true, shown));
  }

  lemma {:induction false} TurnNeverRetracts(p: string, q: string, partialQ: bool, sx: Syntax, tags: Tags,
                          cursor: nat, pending: string, shown: Shown)
    requires p <= q && cursor <= |p| && tags.Valid()
    ensures TurnAgrees(p, q, SectionTurn(p, true, sx, tags, cursor, pending, shown),
                       SectionTurn(q, partialQ, sx, tags, cursor, pending, shown))
  {
    if cursor == |p| {
      TurnGrows(q, partialQ, sx, tags, cursor, pending, shown);
      StoppedAtEnd(p, q, shown, SectionTurn(q, partialQ, sx, tags, cursor, pending, shown));
    } else {
      FindInExtension(p, q, tags.end, cursor);
      if Find(p, tags.end, cursor).None? {
        OpenTurnNeverRetracts(p, q, partialQ, sx, tags, cursor, pending, shown);
      } else {
        var close := Find(p, tags.end, cursor).value;
        assert p[cursor..close] == q[cursor..close];
        ClosedTurnNeverRetracts(p, q, sx, tags, p[cursor..close], close, pending, shown);
      }
    }
  }

  /** From a common cursor, what a streamed prefix shows is a prefix of what any continuation shows. */
  lemma {:induction false} SectionsNeverRetract(p: string, q: string, partialQ: bool, sx: Syntax, tags: Tags,
                                                cursor: nat, pending: string, shown: Shown)
    requires p <= q && cursor <= |p| && tags.Valid()
    ensures GrowsTo(Finish(p, Sections(p, true, sx, tags, cursor, pending, shown)),
                    Finish(q, Sections(q, partialQ, sx, tags, cursor, pending, shown)))
    decreases |p| - cursor
  {
    TurnNeverRetracts(p, q, partialQ, sx, tags, cursor, pending, shown);
    var a := SectionTurn(p, true, sx, tags, cursor, pending, shown);
    var b := SectionTurn(q, partialQ, sx, tags, cursor, pending, shown);
    if a.Next? {
      SectionsNeverRetract(p, q, partialQ, sx, tags, a.cursor, a.pending, a.shown);
    } else if b.Next? {
      StoppedBeforeSections(p, q, partialQ, sx, tags, a, b);
    }
  }

  lemma {:induction false} StoppedBeforeSections(p: string, q: string, partialQ: bool, sx: Syntax, tags: Tags,
          a: Turn, b: Turn)
    requires a.Stop? && b.Next? && TurnAgrees(p, q, a, b)
    requires b.cursor <= |q| && tags.Valid()
    ensures GrowsTo(Finish(p, a.result), Finish(q, Sections(q, partialQ, sx, tags, b.cursor, b.pending, b.shown)))
  {
    SectionsGrow(q, partialQ, sx, tags, b.cursor, b.pending, b.shown);
    GrowsTransitively(Finish(p, a.result), b.shown,
        Finish(q, Sections(q, partialQ, sx, tags, b.cursor, b.pending, b.shown)));
  }

  /** The only way to lose shown content: a prefix made of white space was shown as content, and the
      text then goes on with an unfinished start tag, which makes the parser drop that white space. */
  predicate DropsLeadingSpace(p: string, q: string, sx: Syntax, tags: Tags) {
    && sx.reasoningFormat != NoReasoning
    && !sx.thinkingForcedOpen
    && p != "" && AllSpace(p)
    && UnfinishedTag(q[SkipSpaces(q, 0)..], tags.start)
  }

  predicate UnfinishedTag(rest: string, tag: string) {
    rest != "" && rest < tag
  }

  lemma UnfinishedTagHere(q: string, tag: string, at: nat)
    requires at < |q|
    ensures UnfinishedTag(q[at..], tag) <==> StartsHere(q, tag, at) && |q| - at < |tag|
  {
    var rest := q[at..];
    if |q| - at < |tag| {
      assert q[at..at + PrefixLength(q, tag, at)] == rest;
    }
  }

  /** Streaming never retracts. For every prefix p of q, the reasoning shown for p is a prefix of the
      reasoning shown for q, and so is the content, except exactly in the one case above. */
  lemma {:induction false} StreamingNeverRetracts(p: string, q: string, partialQ: bool, sx: Syntax, tags: Tags)
    requires p <= q && tags.Valid()
    ensures ContentOnly(p, true, sx, tags).reasoning <= ContentOnly(q, partialQ, sx, tags).reasoning
    ensures ContentOnly(p, true, sx, tags).content <= ContentOnly(q, partialQ, sx, tags).content
            <==> !DropsLeadingSpace(p, q, sx, tags)
  {
    if sx.reasoningFormat == NoReasoning { return; }
    if SkipSpaces(p, 0) < |p| {
      PrefixWithText(p, q, partialQ, sx, tags);
    } else {
      PrefixOfSpaces(p, q, partialQ, sx, tags);
    }
  }

  lemma FinishAtStart(p: string, q: string)
    requires p <= q
    ensures GrowsTo(Finish(p, Parsed(false, 0, Shown("", ""))), Finish(q, Parsed(false, 0, Shown("", ""))))
    ensures Finish(q, Parsed(false, 0, Shown("", ""))) == Shown(q, "")
  {
    assert p[0..] == p && q[0..] == q && "" + p == p && "" + q == q;
  }

  lemma {:induction false} OpeningAgrees(p: string, q: string, sx: Syntax, tags: Tags)
    requires p <= q && tags.Valid() && SkipSpaces(p, 0) < |p|
    ensures TurnAgrees(p, q, Opening(p, sx, tags, 0, Shown("", "")), Opening(q, sx, tags, 0, Shown("", "")))
  {
    SkipSpacesInExtension(p, q, 0);
    var ws := SkipSpaces(p, 0);
    StartsHereInExtension(p, q, tags.start, ws);
    if StartsHere(p, tags.start, ws) && |p| - ws < |tags.start| {
      OpeningGrows(q, sx, tags);
      StoppedAtEnd(p, q, Shown("", ""), Opening(q, sx, tags, 0, Shown("", "")));
    } else {
      OpeningSame(p, q, sx, tags, ws);
      FinishAtStart(p, q);
    }
  }

  lemma OpeningSame(p: string, q: string, sx: Syntax, tags: Tags, ws: nat)
    requires p <= q && SkipSpaces(p, 0) == SkipSpaces(q, 0) == ws < |p|
    requires StartsHere(p, tags.start, ws) <==> StartsHere(q, tags.start, ws)
    requires StartsHere(p, tags.start, ws) ==> |tags.start| <= |p| - ws
    ensures Opening(p, sx, tags, 0, Shown("", "")) == Opening(q, sx, tags, 0, Shown("", ""))
  {
    if StartsHere(p, tags.start, ws) {
      assert p[0..ws] == q[0..ws];
      assert p[ws..ws + |tags.start|] == q[ws..ws + |tags.start|];
    }
  }

  lemma OpeningGrows(q: string, sx: Syntax, tags: Tags)
    ensures var b := Opening(q, sx, tags, 0, Shown("", ""));
            GrowsTo(Shown("", ""), if b.Stop? then b.result.shown else b.shown)
  {
  }

  lemma {:induction false} PrefixWithText(p: string, q: string, partialQ: bool, sx: Syntax, tags: Tags)
    requires p <= q && tags.Valid() && sx.reasoningFormat != NoReasoning
    requires SkipSpaces(p, 0) < |p|
    ensures GrowsTo(ContentOnly(p, true, sx, tags), ContentOnly(q, partialQ, sx, tags))
    ensures !AllSpace(p)
  {
    assert !IsSpace(p[SkipSpaces(p, 0)]);
    OpeningAgrees(p, q, sx, tags);
    var a, b := Opening(p, sx, tags, 0, Shown("", "")), Opening(q, sx, tags, 0, Shown("", ""));
    if a.Next? {
      SectionsNeverRetract(p, q, partialQ, sx, tags, a.cursor, a.pending, a.shown);
    } else if b.Next? {
      StoppedBeforeSections(p, q, partialQ, sx, tags, a, b);
    }
  }

  /** What is shown for a text that begins with the white space p. */
  lemma {:induction false} SpacesShown(p: string, q: string, partialQ: bool, sx: Syntax, tags: Tags)
    requires p <= q && tags.Valid() && sx.reasoningFormat != NoReasoning
    requires p <= q[..SkipSpaces(q, 0)]
    requires !sx.thinkingForcedOpen
    ensures UnfinishedTag(q[SkipSpaces(q, 0)..], tags.start) ==> ContentOnly(q, partialQ, sx, tags).content == ""
    ensures !UnfinishedTag(q[SkipSpaces(q, 0)..], tags.start) ==> p <= ContentOnly(q, partialQ, sx, tags).content
  {
    var ws := SkipSpaces(q, 0);
    var b := Opening(q, sx, tags, 0, Shown("", ""));
    if ws == |q| {
      FinishAtStart(p, q);
      assert q[ws..] == "";
    } else {
      UnfinishedTagHere(q, tags.start, ws);
      if b.Next? {
        SectionsGrow(q, partialQ, sx, tags, b.cursor, b.pending, b.shown);
        assert b.shown.content == "" + q[0..ws] == q[..ws];
      } else if StartsHere(q, tags.start, ws) {
        assert q[|q|..] == "";
      } else {
        FinishAtStart(p, q);
      }
    }
  }

  lemma {:induction false} PrefixOfSpaces(p: string, q: string, partialQ: bool, sx: Syntax, tags: Tags)
    requires p <= q && tags.Valid() && sx.reasoningFormat != NoReasoning
    requires SkipSpaces(p, 0) == |p|
    ensures ContentOnly(p, true, sx, tags).reasoning <= ContentOnly(q, partialQ, sx, tags).reasoning
    ensures ContentOnly(p, true, sx, tags).content <= ContentOnly(q, partialQ, sx, tags).content
            <==> !DropsLeadingSpace(p, q, sx, tags)
  {
    assert AllSpace(p);
    SkipSpacesInExtension(p, q, 0);
    FinishAtStart(p, p);
    if sx.thinkingForcedOpen {
      assert p[|p|..] == "";
    } else {
      SpacesShown(p, q, partialQ, sx, tags);
    }
  }

  /** The case is real: with "<think>", one space is shown for " " and then taken back by " <". */
  lemma LeadingSpaceIsRetracted()
    ensures var sx, tags := Syntax(Auto, false, false), Tags("<think>", "</think>");
            ContentOnly(" ", true, sx, tags).content == " " && ContentOnly(" <", true, sx, tags).content == ""
  {
    var p, q := " ", " <";
    assert IsSpace(p[0]) && IsSpace(q[0]) && !IsSpace(q[1]);
    assert SkipSpaces(p, 0) == 1 && SkipSpaces(q, 0) == 1;
    assert q[1..2] == "<think>"[..1];
  }
}
