/** Splitting a string at a delimiter, joining the parts, and replacing every occurrence of a string. */
module Splitting {

  import opened Text

  /** The parts of s from `from` on: a delimiter ends a part where it first occurs, and the search goes on behind it. */
  function SplitFrom(s: string, d: string, from: nat): (r: seq<string>)
    requires d != "" && from <= |s|
    ensures r != []
    decreases |s| - from
  {
    var at := Find(s, d, from);
    if at.None? then [s[from..]]
    else [s[from..at.value]] + SplitFrom(s, d, at.value + |d|)
  }

  function Split(s: string, d: string): (r: seq<string>)
    requires d != ""
    ensures r != []
  {
    SplitFrom(s, d, 0)
  }

  function Join(parts: seq<string>, d: string): string {
    if parts == [] then ""
    else if |parts| == 1 then parts[0]
    else parts[0] + d + Join(parts[1..], d)
  }

  lemma JoinStep(parts: seq<string>, d: string)
    requires |parts| > 1
    ensures Join(parts, d) == parts[0] + (d + Join(parts[1..], d))
    ensures parts[0] + d <= Join(parts, d)
  {
  }

  lemma {:induction false} JoinTwo(xs: seq<string>, ys: seq<string>, d: string)
    requires xs != [] && ys != []
    ensures Join(xs + ys, d) == Join(xs, d) + d + Join(ys, d)
  {
    JoinStep(xs + ys, d);
    if |xs| == 1 {
      assert (xs + ys)[1..] == ys && xs == [xs[0]];
      OnePart(xs[0], d);
      hide Join;
      assert xs[0] + (d + Join(ys, d)) == xs[0] + d + Join(ys, d);
    } else {
      JoinStep(xs, d);
      hide Join;
      JoinTwo(xs[1..], ys, d);
      assert (xs + ys)[1..] == xs[1..] + ys;
      InFront(xs[0], d, Join(xs[1..], d), Join(ys, d));
    }
  }

  lemma InFront(x: string, d: string, xs: string, ys: string)
    ensures x + (d + (xs + d + ys)) == (x + (d + xs)) + d + ys
  {
  }

  /** Joining takes splitting back. */
  lemma {:induction false} JoinTakesSplitBack(s: string, d: string, from: nat)
    requires d != "" && from <= |s|
    ensures Join(SplitFrom(s, d, from), d) == s[from..]
    decreases |s| - from
  {
    var at := Find(s, d, from);
    if at.Some? {
      var next := at.value + |d|;
      FirstOfSplit(s, d, from);
      hide Find;
      hide SplitFrom;
      JoinTakesSplitBack(s, d, next);
      JoinStep(SplitFrom(s, d, from), d);
      hide Join;
      PartsOf(s, from, at.value, next, d);
    } else {
      LastPart(s, d, from);
      OnePart(s[from..], d);
    }
  }

  lemma FirstOfSplit(s: string, d: string, from: nat)
    requires d != "" && from <= |s| && Find(s, d, from).Some?
    ensures var at := Find(s, d, from).value;
            && from <= at && at + |d| <= |s| && s[at..at + |d|] == d && |SplitFrom(s, d, from)| > 1
            && SplitFrom(s, d, from)[0] == s[from..at]
            && SplitFrom(s, d, from)[1..] == SplitFrom(s, d, at + |d|)
  {
    hide Find;
    var at := Find(s, d, from).value;
    var first, more := s[from..at], SplitFrom(s, d, at + |d|);
    assert SplitFrom(s, d, from) == [first] + more;
    hide SplitFrom;
    assert ([first] + more)[0] == first && ([first] + more)[1..] == more;
  }

  lemma PartsOf(s: string, lo: nat, mid: nat, hi: nat, d: string)
    requires lo <= mid <= hi <= |s| && s[mid..hi] == d
    ensures s[lo..mid] + (d + s[hi..]) == s[lo..]
  {
  }

  /** No part contains the delimiter, not even together with the beginning of the delimiter that ended it. */
  lemma {:induction false} PartsHoldNoDelimiter(s: string, d: string, from: nat)
    requires d != "" && from <= |s|
    ensures forall p :: p in SplitFrom(s, d, from) ==> !Contains(p, d)
    decreases |s| - from
  {
    var at := Find(s, d, from);
    var end := if at.Some? then at.value else |s|;
    if Contains(s[from..end], d) {
      var i :| 0 <= i <= end - from && OccursAt(s[from..end], d, i);
      SliceOfSlice(s, from, end, i, i + |d|);
      assert OccursAt(s, d, from + i);
    }
    if at.Some? {
      PartsHoldNoDelimiter(s, d, at.value + |d|);
      forall p | p in SplitFrom(s, d, from)
        ensures !Contains(p, d)
      {
        assert p == s[from..end] || p in SplitFrom(s, d, at.value + |d|);
      }
    } else {
      assert s[from..] == s[from..end];
    }
  }

  lemma StepSplit(parts: seq<string>, s: string, d: string, from: nat)
    requires d != "" && from <= |s| && Find(s, d, from).Some?
    ensures var at := Find(s, d, from).value;
            parts + SplitFrom(s, d, from) == (parts + [s[from..at]]) + SplitFrom(s, d, at + |d|)
  {
  }

  lemma LastPart(s: string, d: string, from: nat)
    requires d != "" && from <= |s| && Find(s, d, from).None?
    ensures SplitFrom(s, d, from) == [s[from..]]
  {
  }

  lemma OnePart(p: string, d: string)
    ensures Join([p], d) == p
  {
  }

  lemma StepReplace(r: string, s: string, d: string, e: string, from: nat)
    requires d != "" && from <= |s| && Find(s, d, from).Some?
    ensures var at := Find(s, d, from).value;
            from <= at && at + |d| <= |s| &&
            r + Join(SplitFrom(s, d, from), e) == r + s[from..at] + e + Join(SplitFrom(s, d, at + |d|), e)
  {
    var at := Find(s, d, from).value;
    var first, rest := s[from..at], SplitFrom(s, d, at + |d|);
    assert SplitFrom(s, d, from) == [first] + rest;
    JoinTwo([first], rest, e);
    assert Join([first], e) == first;
    assert r + (first + e + Join(rest, e)) == r + first + e + Join(rest, e);
  }

  method StringSplit(s: string, delimiter: string) returns (parts: seq<string>)
    requires delimiter != ""
    ensures parts == Split(s, delimiter)
  {
    hide SplitFrom;
    parts := [];
    var start := 0;
    var end := Find(s, delimiter, 0);
    while end.Some?
      invariant start <= |s| && end == Find(s, delimiter, start)
      invariant parts + SplitFrom(s, delimiter, start) == Split(s, delimiter)
      decreases |s| - start, end.Some?
    {
      StepSplit(parts, s, delimiter, start);
      parts := parts + [s[start..end.value]];
      start := end.value + |delimiter|;
      end := Find(s, delimiter, start);
    }
    assert SplitFrom(s, delimiter, start) == [s[start..]] by { LastPart(s, delimiter, start); }
    parts := parts + [s[start..]];
  }

  method StringJoin(values: seq<string>, separator: string) returns (r: string)
    ensures r == Join(values, separator)
  {
    r := "";
    for i := 0 to |values|
      invariant r == Join(values[..i], separator)
    {
      if i > 0 {
        JoinTwo(values[..i], [values[i]], separator);
        r := r + separator;
      }
      assert values[..i + 1] == values[..i] + [values[i]];
      r := r + values[i];
    }
    assert values[..|values|] == values;
  }

  lemma StartReplace(s: string, d: string, e: string)
    requires d != ""
    ensures "" + Join(SplitFrom(s, d, 0), e) == Join(Split(s, d), e)
  {
  }

  /** Replacing is splitting and joining with something else; an empty search string changes nothing. */
  method StringReplaceAll(s: string, search: string, replace: string) returns (r: string)
    ensures r == if search == "" then s else Join(Split(s, search), replace)
  {
    if search == "" {
      return s;
    }
    hide *;
    StartReplace(s, search, replace);
    r := "";
    var lastPos: nat := 0;
    var pos := Find(s, search, 0);
    while pos.Some?
      invariant lastPos <= |s| && pos == Find(s, search, lastPos)
      invariant r + Join(SplitFrom(s, search, lastPos), replace) == Join(Split(s, search), replace)
      decreases |s| - lastPos, pos.Some?
    {
      StepReplace(r, s, search, replace, lastPos);
      r := r + s[lastPos..pos.value];
      r := r + replace;
      lastPos := pos.value + |search|;
      pos := Find(s, search, lastPos);
    }
    LastPart(s, search, lastPos);
    OnePart(s[lastPos..], replace);
    r := r + s[lastPos..];
  }

  /** Replacing a string by itself changes nothing. */
  lemma ReplacingByItselfIsNeutral(s: string, d: string)
    requires d != ""
    ensures Join(Split(s, d), d) == s
  {
    JoinTakesSplitBack(s, d, 0);
  }

  /** Parts in front of which, and in which, no delimiter begins earlier than where it is written. */
  predicate AreParts(parts: seq<string>, d: string) {
    parts != [] &&
    (if |parts| == 1 then Find(parts[0], d, 0).None?
     else Find(parts[0] + d, d, 0) == Some(|parts[0]|) && AreParts(parts[1..], d))
  }

  /** Splitting takes joining back. */
  lemma {:induction false} SplitTakesJoinBackFrom(s: string, parts: seq<string>, d: string, from: nat)
    requires d != "" && AreParts(parts, d) && from <= |s| && s[from..] == Join(parts, d)
    ensures SplitFrom(s, d, from) == parts
    decreases |parts|
  {
    hide Find;
    if |parts| == 1 {
      NoneFoundFrom(s, from, parts[0], d);
    } else {
      var p, rest := parts[0], Join(parts[1..], d);
      JoinStep(parts, d);
      TextAt(s, from, p, d + rest);
      TextAt(s, from + |p|, d, rest);
      FoundAt(s, from, p, d, 0);
      SplitTakesJoinBackFrom(s, parts[1..], d, from + |p| + |d|);
      assert parts == [p] + parts[1..];
    }
  }

  lemma SplitTakesJoinBack(parts: seq<string>, d: string)
    requires d != "" && AreParts(parts, d)
    ensures Split(Join(parts, d), d) == parts
  {
    assert Join(parts, d)[0..] == Join(parts, d);
    SplitTakesJoinBackFrom(Join(parts, d), parts, d, 0);
  }
}
