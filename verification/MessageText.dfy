/** The small editing steps that message parsing applies to content. */
module MessageText {
  import opened Text
  import opened XmlToolCalls

  /** Every literal that a streamed suffix may turn out to begin. */
  function Words(form: Form, startThink: string, endThink: string): seq<string> {
    [startThink, endThink, form.scopeStart, form.toolStart, form.toolSep, form.keyStart, form.keyValSep,
     if form.keyValSep2.Some? then form.keyValSep2.value else "",
     form.valEnd, if form.lastValEnd.Some? then form.lastValEnd.value else "",
     form.toolEnd, if form.lastToolEnd.Some? then form.lastToolEnd.value else "",
     form.scopeEnd]
  }

  predicate BeginsSome(suffix: string, words: seq<string>) {
    exists w :: w in words && suffix <= w
  }

  method RStripped(s: string) returns (r: string)
    ensures r == RStrip(s)
  {
    var end := |s|;
    while end > 0 && IsSpace(s[end - 1])
      invariant 0 <= end <= |s|
      invariant BackOverSpaces(s, 0, end) == BackOverSpaces(s, 0, |s|)
    {
      end := end - 1;
    }
    r := s[..end];
  }

  /** The first position, from j on, from which the text is the beginning of a word; the end if there is none. */
  function HeldFrom(content: string, words: seq<string>, j: nat): (r: nat)
    requires j <= |content|
    ensures j <= r <= |content|
    ensures forall k :: j <= k < r ==> !BeginsSome(content[k..], words)
    ensures r < |content| ==> BeginsSome(content[r..], words)
    decreases |content| - j
  {
    if j == |content| || BeginsSome(content[j..], words) then j else HeldFrom(content, words, j + 1)
  }

  function TrimSuffixed(content: string, words: seq<string>): string {
    content[..HeldFrom(content, words, 0)]
  }

  /** `trim_suffix`: cuts at the first position from which the text is the beginning of a word. */
  method TrimSuffix(content: string, words: seq<string>) returns (r: string)
    ensures r <= content
    ensures forall j :: 0 <= j < |r| ==> !BeginsSome(content[j..], words)
    ensures r != content ==> BeginsSome(content[|r|..], words)
    ensures r == TrimSuffixed(content, words)
  {
    var best := |content|;
    var i := 0;
    while i < |words|
      invariant 0 <= i <= |words| && 0 <= best <= |content|
      invariant forall j :: 0 <= j < best ==> !BeginsSome(content[j..], words[..i])
      invariant best < |content| ==> BeginsSome(content[best..], words)
    {
      var pattern := words[i];
      var next := best;
      if |pattern| != 0 {
        var from := |content| - if |pattern| <= |content| then |pattern| else |content|;
        var at := from;
        while at < |content|
          invariant 0 <= from <= at <= |content| && 0 <= next <= best
          invariant forall j :: from <= j < at ==> (content[j..] <= pattern ==> next <= j)
          invariant next < best ==> content[next..] <= pattern
        {
          if content[at..] == pattern[..|content| - at] && next > at {
            next := at;
          }
          at := at + 1;
        }
      }
      assert words[..i + 1] == words[..i] + [pattern];
      forall j | 0 <= j < next
        ensures !BeginsSome(content[j..], words[..i + 1])
      {
        assert !BeginsSome(content[j..], words[..i]);
        assert !(content[j..] <= pattern);
      }
      if next < best {
        assert pattern in words;
      }
      best := next;
      i := i + 1;
    }
    assert words[..i] == words;
    assert best == HeldFrom(content, words, 0);
    r := content[..best];
  }

  function TrimEnded(s: string, words: seq<string>): (r: string)
    ensures r <= s
  {
    RStrip(TrimSuffixed(RStrip(s), words))
  }

  /** Stripping, holding back a suffix, and stripping again. */
  method TrimEnd(s: string, words: seq<string>) returns (r: string)
    ensures r <= s && r == TrimEnded(s, words)
  {
    r := RStripped(s);
    r := TrimSuffix(r, words);
    r := RStripped(r);
  }

  function ErasedFrom(s: string, l: nat): nat
    requires l <= |s|
  {
    BackOverSpaces(s, 0, l)
  }

  function ErasedTo(s: string, r: nat): nat
    requires r < |s|
  {
    SkipSpaces(s, r + 1)
  }

  /** The text without [l, r] and the spaces around it, and where it goes on behind that. */
  function Erased(s: string, l: nat, r: nat): (t: (string, nat))
    requires l < r < |s|
    ensures t.1 <= |t.0| && |t.0| - t.1 < |s| - r && |t.0| <= |s| - (r + 1 - l) + 2
  {
    var lo, hi := ErasedFrom(s, l), ErasedTo(s, r);
    if lo == 0 then (s[hi..], 0) else (s[..lo] + "\n\n" + s[hi..], lo + 2)
  }

  lemma TwoLineBreaks(s: string, lo: nat, hi: nat)
    requires lo + 2 <= hi <= |s|
    ensures s[lo := '\n'][lo + 1 := '\n'][..lo + 2] == s[..lo] + "\n\n"
    ensures s[lo := '\n'][lo + 1 := '\n'][hi..] == s[hi..]
  {
  }

  /** `erase_spaces`: removes [l, r] and the spaces around it; two line breaks are left in the middle of a text. */
  method EraseSpaces(s: string, l: nat, r: nat) returns (t: string, next: nat)
    requires l < r < |s|
    ensures (t, next) == Erased(s, l, r)
    ensures t == s[..ErasedFrom(s, l)] + (if ErasedFrom(s, l) == 0 then "" else "\n\n") + s[ErasedTo(s, r)..]
    ensures next == if ErasedFrom(s, l) == 0 then 0 else ErasedFrom(s, l) + 2
    ensures next <= |t| && |t| - next < |s| - r && |t| <= |s| - (r + 1 - l) + 2
  {
    var lo := l;
    while lo > 0 && IsSpace(s[lo - 1])
      invariant 0 <= lo <= l
      invariant BackOverSpaces(s, 0, lo) == BackOverSpaces(s, 0, l)
    {
      lo := lo - 1;
    }
    var hi := r + 1;
    while hi < |s| && IsSpace(s[hi])
      invariant r + 1 <= hi <= |s|
      invariant SkipSpaces(s, hi) == SkipSpaces(s, r + 1)
    {
      hi := hi + 1;
    }
    TwoLineBreaks(s, lo, hi);
    t := s[lo := '\n'][lo + 1 := '\n'];
    next := if lo != 0 then lo + 2 else lo;
    t := t[..next] + t[hi..];
    assert "" + s[hi..] == s[hi..] && s[..0] + "" + s[hi..] == s[hi..];
  }

  lemma OccursBehind(s: string, head: string, hi: nat, d: string, j: nat)
    requires hi <= |s| && |head| <= j
    ensures OccursAt(head + s[hi..], d, j) ==> OccursAt(s, d, hi + (j - |head|))
  {
    var t := head + s[hi..];
    if OccursAt(t, d, j) {
      var k := hi + (j - |head|);
      assert t[j..j + |d|] == s[hi..][j - |head|..j - |head| + |d|] == s[k..k + |d|];
    }
  }

  /** The text after erasing the end tag at `at`, and then the last one in front of that, as long as there is one. */
  function EndsErasedFrom(s: string, endThink: string, at: Option<nat>): string
    requires |endThink| >= 3 && (at.Some? ==> OccursAt(s, endThink, at.value))
    decreases |s|, at.Some?
  {
    if at.None? then s
    else
      var (t, next) := Erased(s, at.value, at.value + |endThink| - 1);
      EndsErasedFrom(t, endThink, RFind(t, endThink, next))
  }

  function EndsErased(text: string, endThink: string): string
    requires |endThink| >= 3
  {
    EndsErasedFrom(text, endThink, RFind(text, endThink, |text|))
  }

  /** Behind the place where the last end tag has been erased there is none. */
  lemma NoneIsAdded(s: string, endThink: string, at: nat)
    requires |endThink| >= 3 && OccursAt(s, endThink, at) && forall j :: at < j ==> !OccursAt(s, endThink, j)
    ensures var (t, next) := Erased(s, at, at + |endThink| - 1); forall j :: next < j ==> !OccursAt(t, endThink, j)
  {
    hide OccursAt;
    assert at + |endThink| <= |s| by { TagFits(s, endThink, at); }
    var last := at + |endThink| - 1;
    var (t, next) := Erased(s, at, last);
    var lo, hi := ErasedFrom(s, at), ErasedTo(s, last);
    var head := s[..lo] + if lo == 0 then "" else "\n\n";
    assert t == head + s[hi..];
    forall j | next < j
      ensures !OccursAt(t, endThink, j)
    {
      OccursBehind(s, head, hi, endThink, j);
    }
  }

  lemma TagFits(s: string, d: string, at: nat)
    requires OccursAt(s, d, at)
    ensures at + |d| <= |s|
  {
  }

  lemma {:induction false} NoEndIsLeft(s: string, endThink: string, at: Option<nat>)
    requires |endThink| >= 3 && (at.Some? ==> OccursAt(s, endThink, at.value))
    requires at.Some? ==> forall j :: at.value < j ==> !OccursAt(s, endThink, j)
    requires at.None? ==> forall j :: 0 <= j ==> !OccursAt(s, endThink, j)
    ensures !Contains(EndsErasedFrom(s, endThink, at), endThink)
    decreases |s|, at.Some?
  {
    hide OccursAt;
    hide Erased;
    if at.Some? {
      TagFits(s, endThink, at.value);
      NoneIsAdded(s, endThink, at.value);
      var (t, next) := Erased(s, at.value, at.value + |endThink| - 1);
      NoEndIsLeft(t, endThink, RFind(t, endThink, next));
    }
  }

  /** Deletes every end tag that no start tag precedes. */
  method EraseStrayEnds(text: string, endThink: string) returns (r: string)
    requires |endThink| >= 3
    ensures r == EndsErased(text, endThink)
    ensures !Contains(r, endThink)
    ensures !Contains(text, endThink) ==> r == text
  {
    hide Erased;
    hide OccursAt;
    NoEndIsLeft(text, endThink, LastEnd(text, endThink));
    r := text;
    var pos: Option<nat> := RFind(r, endThink, |r|);
    if pos.Some? {
      TagFits(r, endThink, pos.value);
      assert Contains(text, endThink);
    }
    while pos.Some?
      invariant pos.Some? ==> OccursAt(r, endThink, pos.value)
      invariant EndsErasedFrom(r, endThink, pos) == EndsErased(text, endThink)
      decreases |r|, pos.Some?
    {
      TagFits(r, endThink, pos.value);
      var next;
      r, next := EraseSpaces(r, pos.value, pos.value + |endThink| - 1);
      pos := RFind(r, endThink, next);
    }
  }

  lemma NoneBeyondTheEnd(s: string, d: string)
    requires d != ""
    ensures forall j :: |s| < j ==> !OccursAt(s, d, j)
  {
  }

  /** The last end tag; behind it there is none. */
  function LastEnd(text: string, endThink: string): (r: Option<nat>)
    requires endThink != ""
    ensures r == RFind(text, endThink, |text|)
    ensures r.Some? ==> OccursAt(text, endThink, r.value) && forall j :: r.value < j ==> !OccursAt(text, endThink, j)
    ensures r.None? ==> forall j :: 0 <= j ==> !OccursAt(text, endThink, j)
  {
    NoneBeyondTheEnd(text, endThink);
    RFind(text, endThink, |text|)
  }
}
