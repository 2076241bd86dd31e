/** Which texts a message with reasoning shows, read off from how the message is written. */
module ReasoningTexts {
  import opened Text
  import opened Reasoning

  /** A closed section as written: the reasoning, and the white space behind its end tag. */
  datatype Section = Section(text: string, gap: string)

  /** Sections from the text of the first one on: each later one has its start tag in front. */
  function Written(tags: Tags, sections: seq<Section>, rest: string): string {
    if sections == [] then rest
    else
      sections[0].text + (tags.end + (sections[0].gap +
        ((if |sections| > 1 then tags.start else "") + Written(tags, sections[1..], rest))))
  }

  predicate IsReadable(tags: Tags, s: Section) {
    Find(s.text + tags.end, tags.end, 0) == Some(|s.text|) && AllSpace(s.gap)
  }

  predicate AreReadable(tags: Tags, sections: seq<Section>) {
    forall i :: 0 <= i < |sections| ==> IsReadable(tags, sections[i])
  }

  /** What follows the sections is solid and is not the beginning of one more. */
  predicate IsRest(tags: Tags, rest: string) {
    rest != "" ==> !IsSpace(rest[0]) && !(tags.start <= rest) && !(rest <= tags.start)
  }

  predicate SolidTags(tags: Tags) {
    tags.start != "" && tags.end != "" && !IsSpace(tags.start[0])
  }

  /** The stripped pieces of reasoning that are not blank, each behind the prefix. */
  function Thoughts(prefix: string, sections: seq<Section>): string {
    if sections == [] then ""
    else (if AllSpace(sections[0].text) then "" else prefix + Strip(sections[0].text)) + Thoughts(prefix, sections[1..])
  }

  /** The same between tags. */
  function TaggedThoughts(open: string, close: string, sections: seq<Section>): string {
    if sections == [] then ""
    else
      (if AllSpace(sections[0].text) then "" else open + Strip(sections[0].text) + close)
        + TaggedThoughts(open, close, sections[1..])
  }

  /** The literal that is shown in front of reasoning that a start tag has opened. */
  function Prefix(sx: Syntax, tags: Tags): string {
    if sx.thinkingForcedOpen && !sx.reasoningInContent then tags.start else ""
  }

  function OpenTag(sx: Syntax, tags: Tags): string {
    if sx.reasoningFormat == DeepSeek then "<think>" else tags.start
  }

  function CloseTag(sx: Syntax, tags: Tags): string {
    if sx.reasoningFormat == DeepSeek then "</think>" else tags.end
  }

  /** What the sections add to a message: to its content if reasoning belongs there, and else to its reasoning. The
      first section has a prefix of its own. */
  function Told(sx: Syntax, tags: Tags, first: string, sections: seq<Section>): Shown {
    if sx.reasoningInContent then Shown(TaggedThoughts(OpenTag(sx, tags), CloseTag(sx, tags), sections), "")
    else if sections == [] then Shown("", "")
    else Shown("", Thoughts(first, sections[..1]) + Thoughts(Prefix(sx, tags), sections[1..]))
  }

  lemma BlankIsStripped(s: string)
    ensures AllSpace(s) <==> Strip(s) == ""
  {
    var lo := SkipSpaces(s, 0);
    assert lo < |s| ==> !IsSpace(s[lo]);
  }

  /** Where a start tag, or a part of it at the end of the input, is met, the rest and the tag begin alike. */
  lemma BeginsAlike(input: string, tag: string, next: nat)
    requires next <= |input|
    ensures StartsHere(input, tag, next) ==> tag <= input[next..] || input[next..] <= tag
  {
    var rest, n := input[next..], PrefixLength(input, tag, next);
    assert input[next..next + n] == rest[..n];
    assert rest[..|rest|] == rest && tag[..|tag|] == tag;
  }

  lemma SectionBegins(input: string, tags: Tags, next: nat)
    requires next <= |input| && tags.start <= input[next..]
    ensures StartsHere(input, tags.start, next) && next + |tags.start| <= |input|
    ensures input[next..next + |tags.start|] == tags.start
  {
    assert input[next..next + |tags.start|] == input[next..][..|tags.start|];
  }

  /** Where the parts of a closed section stand. */
  lemma SectionParts(input: string, tags: Tags, cursor: nat, s: Section, more: string)
    requires cursor <= |input| && tags.Valid() && IsReadable(tags, s)
    requires input[cursor..] == s.text + (tags.end + (s.gap + more)) && (more != "" ==> !IsSpace(more[0]))
    ensures var close := cursor + |s.text|;
            var after, next := close + |tags.end|, close + |tags.end| + |s.gap|;
            && cursor < |input| && next <= |input| && input[cursor..close] == s.text && input[next..] == more
            && Find(input, tags.end, cursor) == Some(close) && SkipSpaces(input, after) == next
  {
    hide Find;
    TextAt(input, cursor, s.text, tags.end + (s.gap + more));
    TextAt(input, cursor + |s.text|, tags.end, s.gap + more);
    var after := cursor + |s.text| + |tags.end|;
    TextAt(input, after, s.gap, more);
    assert s.text + tags.end <= input[cursor..];
    FoundAt(input, cursor, s.text, tags.end, 0);
    var next := after + |s.gap|;
    assert more != "" ==> input[next] == more[0];
    SpacesEndAt(input, after, next);
  }

  /** One closed section, read from the beginning of its text. */
  lemma SectionIsRead(input: string, partial: bool, sx: Syntax, tags: Tags, cursor: nat, s: Section, more: string,
      pending: string, shown: Shown)
    requires cursor <= |input| && tags.Valid() && IsReadable(tags, s)
    requires input[cursor..] == s.text + (tags.end + (s.gap + more)) && (more != "" ==> !IsSpace(more[0]))
    ensures var next := cursor + |s.text| + |tags.end| + |s.gap|;
            && next <= |input| && input[next..] == more
            && SectionTurn(input, partial, sx, tags, cursor, pending, shown) ==
               (if more != "" && StartsHere(input, tags.start, next) then
                  if |more| < |tags.start| then
                      Stop(Parsed(true, |input|, Handle(sx, tags, pending, s.text, true, shown)))
                  else Next(next + |tags.start|,
                      PendingAt(input, sx, tags, PendingAfterHandle(sx, pending, s.text), next),
                            Handle(sx, tags, pending, s.text, true, shown))
                else Stop(Parsed(true, next, Handle(sx, tags, pending, s.text, true, shown))))
  {
    hide Find;
    hide Handle;
    hide PendingAt;
    hide PendingAfterHandle;
    hide IsReadable;
    hide SkipSpaces;
    hide StartsHere;
    SectionParts(input, tags, cursor, s, more);
  }

  /** The pieces that one section adds. */
  lemma HandledIsTold(sx: Syntax, tags: Tags, prefix: string, s: Section, shown: Shown)
    ensures Handle(sx, tags, prefix, s.text, true, shown) ==
            Shown(shown.content + Told(sx, tags, prefix, [s]).content,
                shown.reasoning + Told(sx, tags, prefix, [s]).reasoning)
  {
    BlankIsStripped(s.text);
    assert [s][1..] == [] && [s][..1] == [s];
    var open, close := OpenTag(sx, tags), CloseTag(sx, tags);
    assert TaggedThoughts(open, close, [s]) == if AllSpace(s.text) then "" else open + Strip(s.text) + close;
    assert Thoughts(prefix, [s]) == if AllSpace(s.text) then "" else prefix + Strip(s.text);
    assert shown.content + "" == shown.content && shown.reasoning + "" == shown.reasoning;
    assert shown.content + (open + Strip(s.text) + close) == shown.content + open + Strip(s.text) + close;
    assert shown.reasoning + (prefix + Strip(s.text)) == shown.reasoning + prefix + Strip(s.text);
  }

  /** The sections one after the other. */
  lemma ToldFirst(sx: Syntax, tags: Tags, first: string, sections: seq<Section>)
    requires sections != []
    ensures var all, one, more := Told(sx, tags, first, sections), Told(sx, tags, first, sections[..1]),
              Told(sx, tags, Prefix(sx, tags), sections[1..]);
            all.content == one.content + more.content && all.reasoning == one.reasoning + more.reasoning
  {
    hide Strip;
    hide AllSpace;
    hide Thoughts;
    hide TaggedThoughts;
    assert sections[..1] == [sections[0]] && [sections[0]][1..] == [] && [sections[0]][..1] == [sections[0]];
    if sx.reasoningInContent {
      TaggedFirst(OpenTag(sx, tags), CloseTag(sx, tags), sections);
    } else {
      NoThoughts(Prefix(sx, tags));
      if |sections| > 1 {
        ThoughtsFirst(Prefix(sx, tags), sections[1..]);
      }
    }
  }

  lemma NoThoughts(prefix: string)
    ensures Thoughts(prefix, []) == ""
  {
  }

  lemma TaggedFirst(open: string, close: string, sections: seq<Section>)
    requires sections != []
    ensures TaggedThoughts(open, close, sections) ==
            TaggedThoughts(open, close, [sections[0]]) + TaggedThoughts(open, close, sections[1..])
  {
    hide Strip;
    hide AllSpace;
    var one := if AllSpace(sections[0].text) then "" else open + Strip(sections[0].text) + close;
    assert [sections[0]][1..] == [] && one + "" == one;
  }

  lemma ThoughtsFirst(prefix: string, sections: seq<Section>)
    requires sections != []
    ensures Thoughts(prefix, sections) == Thoughts(prefix, sections[..1]) + Thoughts(prefix, sections[1..])
  {
    hide Strip;
    hide AllSpace;
    var one := if AllSpace(sections[0].text) then "" else prefix + Strip(sections[0].text);
    assert sections[..1] == [sections[0]] && [sections[0]][1..] == [] && one + "" == one;
  }

  /** The prefix that is pending when a start tag has been read. */
  lemma PendingIsPrefix(input: string, sx: Syntax, tags: Tags, pending: string, at: nat)
    requires at + |tags.start| <= |input| && input[at..at + |tags.start|] == tags.start
    requires pending == "" || pending == Prefix(sx, tags)
    ensures PendingAt(input, sx, tags, pending, at) == Prefix(sx, tags)
  {
  }

  /** A message with closed sections, from the text of the first one on: the reasoning is what the sections say,
      stripped, and the content goes on with what follows them. */
  lemma {:induction false} SectionsAreTold(input: string, partial: bool, sx: Syntax, tags: Tags, cursor: nat,
      sections: seq<Section>, rest: string, pending: string, shown: Shown)
    requires SolidTags(tags) && cursor <= |input| && sections != [] && AreReadable(tags, sections) && IsRest(tags, rest)
    requires input[cursor..] == Written(tags, sections, rest)
    requires pending == "" || pending == Prefix(sx, tags)
    ensures var told := Told(sx, tags, pending, sections);
            Finish(input, Sections(input, partial, sx, tags, cursor, pending, shown)) ==
            Shown(shown.content + told.content + rest, shown.reasoning + told.reasoning)
    decreases |sections|
  {
    hide *;
    var s, later := sections[0], sections[1..];
    assert IsReadable(tags, s) && AreReadable(tags, later) && tags.Valid() by { FirstIsReadable(tags, sections); }
    HandledIsTold(sx, tags, pending, s, shown);
    assert sections[..1] == [s];
    var after := Handle(sx, tags, pending, s.text, true, shown);
    if later == [] {
      assert sections == [s];
      LastIsTold(input, partial, sx, tags, cursor, sections, rest, pending, shown);
    } else {
      WrittenMore(tags, sections, rest);
      var next := SectionGoesOn(input, partial, sx, tags, cursor, s, Written(tags, later, rest), pending, shown);
      SectionsAreTold(input, partial, sx, tags, next, later, rest, Prefix(sx, tags), after);
      BothAreTold(sx, tags, pending, sections, shown, after, rest);
    }
  }

  lemma FirstIsReadable(tags: Tags, sections: seq<Section>)
    requires SolidTags(tags) && sections != [] && AreReadable(tags, sections)
    ensures IsReadable(tags, sections[0]) && AreReadable(tags, sections[1..]) && tags.Valid()
  {
  }

  lemma WrittenMore(tags: Tags, sections: seq<Section>, rest: string)
    requires |sections| > 1
    ensures Written(tags, sections, rest) ==
            sections[0].text + (tags.end + (sections[0].gap + (tags.start + Written(tags, sections[1..], rest))))
  {
  }

  /** A section with one more behind it. */
  lemma SectionGoesOn(input: string, partial: bool, sx: Syntax, tags: Tags, cursor: nat, s: Section, more: string,
      pending: string, shown: Shown) returns (next: nat)
    requires SolidTags(tags) && tags.Valid() && cursor <= |input| && IsReadable(tags, s)
    requires input[cursor..] == s.text + (tags.end + (s.gap + (tags.start + more)))
    requires pending == "" || pending == Prefix(sx, tags)
    ensures next <= |input| && input[next..] == more
    ensures Sections(input, partial, sx, tags, cursor, pending, shown) ==
            Sections(input, partial, sx, tags, next, Prefix(sx, tags), Handle(sx, tags, pending, s.text, true, shown))
  {
    hide SectionTurn;
    hide Handle;
    hide IsReadable;
    hide PendingAt;
    hide PendingAfterHandle;
    assert tags.start + more != "" && (tags.start + more)[0] == tags.start[0];
    SectionIsRead(input, partial, sx, tags, cursor, s, tags.start + more, pending, shown);
    var at := cursor + |s.text| + |tags.end| + |s.gap|;
    SectionBegins(input, tags, at);
    TextAt(input, at, tags.start, more);
    PendingStays(sx, tags, pending, s.text);
    PendingIsPrefix(input, sx, tags, PendingAfterHandle(sx, pending, s.text), at);
    next := at + |tags.start|;
  }

  lemma BothAreTold(sx: Syntax, tags: Tags, first: string, sections: seq<Section>, shown: Shown, after: Shown,
      rest: string)
    requires sections != []
    requires var one := Told(sx, tags, first, sections[..1]);
             after == Shown(shown.content + one.content, shown.reasoning + one.reasoning)
    ensures var all, more := Told(sx, tags, first, sections), Told(sx, tags, Prefix(sx, tags), sections[1..]);
            Shown(after.content + more.content + rest, after.reasoning + more.reasoning) ==
            Shown(shown.content + all.content + rest, shown.reasoning + all.reasoning)
  {
    hide Told;
    ToldFirst(sx, tags, first, sections);
    var one, more := Told(sx, tags, first, sections[..1]), Told(sx, tags, Prefix(sx, tags), sections[1..]);
    Appended3(shown.content, one.content, more.content);
    Appended3(shown.reasoning, one.reasoning, more.reasoning);
  }

  /** Behind the last section the content goes on. */
  lemma LastIsTold(input: string, partial: bool, sx: Syntax, tags: Tags, cursor: nat, sections: seq<Section>,
      rest: string,
      pending: string, shown: Shown)
    requires SolidTags(tags) && tags.Valid() && cursor <= |input| && |sections| == 1 && IsReadable(tags, sections[0])
    requires IsRest(tags, rest) && input[cursor..] == Written(tags, sections, rest)
    requires Handle(sx, tags, pending, sections[0].text, true, shown) ==
             Shown(shown.content + Told(sx, tags, pending, sections).content,
                   shown.reasoning + Told(sx, tags, pending, sections).reasoning)
    ensures var told := Told(sx, tags, pending, sections);
            Finish(input, Sections(input, partial, sx, tags, cursor, pending, shown)) ==
            Shown(shown.content + told.content + rest, shown.reasoning + told.reasoning)
  {
    hide SectionTurn;
    hide Handle;
    hide Told;
    hide StartsHere;
    hide IsReadable;
    hide PendingAt;
    hide PendingAfterHandle;
    var s := sections[0];
    assert sections[1..] == [] && "" + rest == rest;
    SectionIsRead(input, partial, sx, tags, cursor, s, rest, pending, shown);
    BeginsAlike(input, tags.start, cursor + |s.text| + |tags.end| + |s.gap|);
  }

  lemma PendingStays(sx: Syntax, tags: Tags, pending: string, text: string)
    requires pending == "" || pending == Prefix(sx, tags)
    ensures var p := PendingAfterHandle(sx, pending, text); p == "" || p == Prefix(sx, tags)
  {
  }

  lemma Appended3(a: string, b: string, c: string)
    ensures (a + b) + c == a + (b + c)
  {
  }

  // ---- A section that is still open

  /** The text of an open section: what may be shown, and an end with which the end tag may begin. */
  predicate IsOpenText(tags: Tags, body: string, held: string) {
    && Find(body + held, tags.end, 0).None?
    && (held != "" ==> held <= tags.end)
    && forall j :: 0 <= j < |body| ==> !((body + held)[j..] <= tags.end)
  }

  /** What an open section adds. */
  function ToldOpen(sx: Syntax, tags: Tags, prefix: string, body: string, closed: bool): Shown {
    if AllSpace(body) then Shown("", "")
    else if sx.reasoningInContent then
      Shown(OpenTag(sx, tags) + Strip(body) + if closed then CloseTag(sx, tags) else "", "")
    else Shown("", prefix + Strip(body))
  }

  lemma HeldIsFound(text: string, tags: Tags, body: string, held: string)
    requires text == body + held && IsOpenText(tags, body, held)
    ensures PartialStop(text, tags.end) == if held == "" then None else Some(|body|)
  {
    assert held != "" ==> text[|body|..] == held;
  }

  /** An open section shows its text up to the part that may be an end tag; in a final parse it is closed if nothing is
      held back. */
  lemma OpenIsTold(input: string, partial: bool, sx: Syntax, tags: Tags, cursor: nat, body: string, held: string,
      pending: string, shown: Shown)
    requires tags.Valid() && cursor <= |input| && input[cursor..] == body + held && IsOpenText(tags, body, held)
    ensures var told := ToldOpen(sx, tags, pending, body, held == "" && !partial);
            Finish(input, Sections(input, partial, sx, tags, cursor, pending, shown)) ==
            Shown(shown.content + told.content, shown.reasoning + told.reasoning)
  {
    BlankIsStripped(body);
    if cursor == |input| {
      assert body == "" && held == "";
      assert shown.content + "" == shown.content && shown.reasoning + "" == shown.reasoning;
    } else {
      NoneFoundFrom(input, cursor, body + held, tags.end);
      HeldIsFound(input[cursor..], tags, body, held);
      var end := cursor + |body|;
      assert OpenEnd(input, tags.end, cursor) == end && input[cursor..end] == body;
      HandledOpen(sx, tags, pending, body, end == |input| && !partial, shown);
    }
  }

  lemma HandledOpen(sx: Syntax, tags: Tags, prefix: string, body: string, closed: bool, shown: Shown)
    ensures var told := ToldOpen(sx, tags, prefix, body, closed);
            Handle(sx, tags, prefix, body, closed, shown) ==
            Shown(shown.content + told.content, shown.reasoning + told.reasoning)
  {
    BlankIsStripped(body);
    var open, close := OpenTag(sx, tags), if closed then CloseTag(sx, tags) else "";
    assert shown.content + "" == shown.content && shown.reasoning + "" == shown.reasoning;
    assert shown.content + (open + Strip(body) + close) == shown.content + open + Strip(body) + close;
    assert shown.reasoning + (prefix + Strip(body)) == shown.reasoning + prefix + Strip(body);
  }

  // ---- Whole messages of the content-only format

  /** A message whose reasoning begins with a start tag, behind white space that is shown as content. */
  lemma TaggedMessageIsShown(input: string, partial: bool, sx: Syntax, tags: Tags, lead: string, sections: seq<Section>,
      rest: string)
    requires SolidTags(tags) && sx.reasoningFormat != NoReasoning && AllSpace(lead) && sections != []
    requires AreReadable(tags, sections) && IsRest(tags, rest)
    requires input == lead + (tags.start + Written(tags, sections, rest))
    ensures tags.Valid()
    ensures var told := Told(sx, tags, Prefix(sx, tags), sections);
            ContentOnly(input, partial, sx, tags) == Shown(lead + told.content + rest, told.reasoning)
  {
    hide Sections;
    hide Told;
    var next := TagIsMet(input, sx, tags, lead, Written(tags, sections, rest));
    SectionsAreTold(input, partial, sx, tags, next, sections, rest, Prefix(sx, tags), Shown(lead, ""));
    assert "" + Told(sx, tags, Prefix(sx, tags), sections).reasoning ==
        Told(sx, tags, Prefix(sx, tags), sections).reasoning;
  }

  /** The start tag is met behind the white space. */
  lemma TagIsMet(input: string, sx: Syntax, tags: Tags, lead: string, more: string) returns (next: nat)
    requires SolidTags(tags) && AllSpace(lead) && input == lead + (tags.start + more)
    ensures next <= |input| && input[next..] == more
    ensures Opening(input, sx, tags, 0, Shown("", "")) == Next(next, Prefix(sx, tags), Shown(lead, ""))
  {
    var ws := |lead|;
    TextAt(input, 0, lead, tags.start + more);
    TextAt(input, ws, tags.start, more);
    assert input[ws] == tags.start[0];
    SpacesEndAt(input, 0, ws);
    SectionBegins(input, tags, ws);
    PendingIsPrefix(input, sx, tags, "", ws);
    assert "" + input[0..ws] == lead;
    next := ws + |tags.start|;
  }

  /** A message whose section is still open. */
  lemma OpenMessageIsShown(input: string, partial: bool, sx: Syntax, tags: Tags, lead: string, body: string,
      held: string)
    requires SolidTags(tags) && sx.reasoningFormat != NoReasoning && AllSpace(lead) && IsOpenText(tags, body, held)
    requires input == lead + (tags.start + (body + held))
    ensures tags.Valid()
    ensures var told := ToldOpen(sx, tags, Prefix(sx, tags), body, held == "" && !partial);
            ContentOnly(input, partial, sx, tags) == Shown(lead + told.content, told.reasoning)
  {
    hide Sections;
    hide ToldOpen;
    var next := TagIsMet(input, sx, tags, lead, body + held);
    OpenIsTold(input, partial, sx, tags, next, body, held, Prefix(sx, tags), Shown(lead, ""));
    var told := ToldOpen(sx, tags, Prefix(sx, tags), body, held == "" && !partial);
    assert "" + told.reasoning == told.reasoning;
  }

  /** A message whose reasoning is forced open, and begins without a start tag: its leading white space is dropped. */
  lemma ForcedMessageIsShown(input: string, partial: bool, sx: Syntax, tags: Tags, lead: string, sections: seq<Section>,
      rest: string)
    requires SolidTags(tags) && sx.reasoningFormat != NoReasoning && sx.thinkingForcedOpen && AllSpace(lead)
    requires sections != [] && AreReadable(tags, sections) && IsRest(tags, rest)
    requires Written(tags, sections, rest) != "" && IsRest(tags, Written(tags, sections, rest))
    requires input == lead + Written(tags, sections, rest)
    ensures tags.Valid()
    ensures var told := Told(sx, tags, "", sections);
            ContentOnly(input, partial, sx, tags) == Shown(told.content + rest, told.reasoning)
  {
    hide Sections;
    hide Told;
    hide Written;
    hide IsRest;
    hide AreReadable;
    hide Opening;
    TextIsMet(input, sx, tags, lead, Written(tags, sections, rest));
    SectionsAreTold(input, partial, sx, tags, |lead|, sections, rest, "", Shown("", ""));
    var told := Told(sx, tags, "", sections);
    NothingAdded(told.reasoning);
    NothingAdded(told.content);
  }

  lemma NothingAdded(s: string)
    ensures "" + s == s && s + "" == s
  {
  }

  lemma TextIsMet(input: string, sx: Syntax, tags: Tags, lead: string, more: string)
    requires SolidTags(tags) && sx.thinkingForcedOpen && AllSpace(lead) && input == lead + more && more != "" &&
        IsRest(tags, more)
    ensures input[|lead|..] == more
    ensures Opening(input, sx, tags, 0, Shown("", "")) == Next(|lead|, "", Shown("", ""))
  {
    TextAt(input, 0, lead, more);
    assert input[|lead|] == more[0];
    SpacesEndAt(input, 0, |lead|);
    BeginsAlike(input, tags.start, |lead|);
  }

  lemma ForcedOpenMessageIsShown(input: string, partial: bool, sx: Syntax, tags: Tags, lead: string, body: string,
      held: string)
    requires SolidTags(tags) && sx.reasoningFormat != NoReasoning && sx.thinkingForcedOpen && AllSpace(lead)
    requires IsOpenText(tags, body, held) && body + held != "" && IsRest(tags, body + held) &&
        input == lead + (body + held)
    ensures tags.Valid()
    ensures ContentOnly(input, partial, sx, tags) == ToldOpen(sx, tags, "", body, held == "" && !partial)
  {
    hide Sections;
    hide ToldOpen;
    TextIsMet(input, sx, tags, lead, body + held);
    OpenIsTold(input, partial, sx, tags, |lead|, body, held, "", Shown("", ""));
    var told := ToldOpen(sx, tags, "", body, held == "" && !partial);
    assert "" + told.reasoning == told.reasoning && "" + told.content == told.content;
  }

  /** Without reasoning to look for, or without a start tag, the whole message is content. */
  lemma PlainContentIsShown(input: string, partial: bool, sx: Syntax, tags: Tags, lead: string, rest: string)
    requires SolidTags(tags) && input == lead + rest && AllSpace(lead) && IsRest(tags, rest)
    requires sx.reasoningFormat == NoReasoning || !sx.thinkingForcedOpen
    ensures tags.Valid() && ContentOnly(input, partial, sx, tags) == Shown(input, "")
  {
    TextAt(input, 0, lead, rest);
    assert rest != "" ==> input[|lead|] == rest[0];
    SpacesEndAt(input, 0, |lead|);
    BeginsAlike(input, tags.start, |lead|);
    assert "" + input[0..] == input;
  }

  /** An unfinished start tag is not shown, and nothing with it. */
  lemma UnfinishedTagIsHeldBack(input: string, partial: bool, sx: Syntax, tags: Tags, lead: string, piece: string)
    requires SolidTags(tags) && sx.reasoningFormat != NoReasoning && AllSpace(lead)
    requires piece != "" && piece < tags.start && input == lead + piece
    ensures tags.Valid() && ContentOnly(input, partial, sx, tags) == Shown("", "")
  {
    TextAt(input, 0, lead, piece);
    assert input[|lead|] == piece[0] == tags.start[0];
    SpacesEndAt(input, 0, |lead|);
    assert input[|lead|..|lead| + |piece|] == piece;
  }

  /** One thought and an answer, in a text of its own: the reasoning is the thought and the content the answer. */
  lemma ThoughtAndAnswer(partial: bool, format: ReasoningFormat, tags: Tags, thought: string, gap: string,
      answer: string)
    requires SolidTags(tags) && format != NoReasoning && AllSpace(gap) && IsRest(tags, answer)
    requires Find(thought + tags.end, tags.end, 0) == Some(|thought|)
    ensures tags.Valid()
    ensures ContentOnly(tags.start + thought + tags.end + gap + answer, partial, Syntax(format, false, false), tags) ==
            Shown(answer, Strip(thought))
  {
    hide ContentOnly;
    hide Find;
    hide Strip;
    hide IsRest;
    hide Written;
    hide Told;
    var sx, sections := Syntax(format, false, false), [Section(thought, gap)];
    var input := tags.start + thought + tags.end + gap + answer;
    OneIsWritten(tags, thought, gap, answer);
    NothingAdded(input);
    TaggedMessageIsShown(input, partial, sx, tags, "", sections, answer);
    OneIsTold(sx, tags, thought, gap);
    NothingAdded(answer);
    NothingAdded("");
  }

  lemma OneIsWritten(tags: Tags, thought: string, gap: string, answer: string)
    ensures tags.start + thought + tags.end + gap + answer ==
            tags.start + Written(tags, [Section(thought, gap)], answer)
  {
    assert [Section(thought, gap)][1..] == [] && "" + answer == answer;
    assert tags.start + thought + tags.end + gap + answer == tags.start + (thought + (tags.end + (gap + answer)));
  }

  lemma OneIsTold(sx: Syntax, tags: Tags, thought: string, gap: string)
    requires !sx.reasoningInContent && !sx.thinkingForcedOpen
    ensures Told(sx, tags, Prefix(sx, tags), [Section(thought, gap)]) == Shown("", Strip(thought))
  {
    var sections := [Section(thought, gap)];
    assert sections[1..] == [] && sections[..1] == sections;
    BlankIsStripped(thought);
    NothingAdded(Strip(thought));
    assert Thoughts("", []) == "";
    assert Thoughts("", sections) == Strip(thought);
  }
}
