/** Byte strings as the C++ part of the program sees them: searching, stripping and held-back suffixes.
    Every character stands for one byte of a `std::string`. */
module Text {

  datatype Option<+T> = None | Some(value: T)

  /** `std::isspace` in the C locale. */
  predicate IsSpace(c: char) {
    c == ' ' || '\t' <= c <= '\r'
  }

  /** The white space of C: tab, line feed, vertical tab, form feed, carriage return and space. */
  lemma SpacesAre(c: char)
    ensures IsSpace(c) <==> c as int in {9, 10, 11, 12, 13, 32}
  {
  }

  predicate AllSpace(s: string) {
    forall i :: 0 <= i < |s| ==> IsSpace(s[i])
  }

  predicate OccursAt(s: string, d: string, i: int) {
    0 <= i && i + |d| <= |s| && s[i..i + |d|] == d
  }

  predicate Contains(s: string, d: string) {
    exists i :: 0 <= i <= |s| && OccursAt(s, d, i)
  }

  lemma SliceOfSlice(s: string, lo: nat, hi: nat, i: nat, j: nat)
    requires lo <= hi <= |s| && i <= j <= hi - lo
    ensures s[lo..hi][i..j] == s[lo + i..lo + j]
  {
    assert forall k :: 0 <= k < j - i ==> s[lo..hi][i..j][k] == s[lo + i + k] == s[lo + i..lo + j][k];
  }

  lemma CharacterOf(s: string, d: string, i: nat, k: nat)
    requires k < |d|
    ensures OccursAt(s, d, i) ==> i + k < |s| && s[i + k] == d[k]
  {
    if OccursAt(s, d, i) {
      assert s[i..i + |d|][k] == s[i + k];
    }
  }

  /** `std::string::find`: the first occurrence of d at or after `from`. */
  function Find(s: string, d: string, from: nat): (r: Option<nat>)
    ensures r.Some? ==> from <= r.value && OccursAt(s, d, r.value)
    ensures r.Some? ==> forall j :: from <= j < r.value ==> !OccursAt(s, d, j)
    ensures r.None? ==> forall j :: from <= j ==> !OccursAt(s, d, j)
    decreases |s| - from
  {
    if from + |d| > |s| then None
    else if OccursAt(s, d, from) then Some(from)
    else Find(s, d, from + 1)
  }

  /** `std::string::rfind`: the last occurrence of d at or before `from`. */
  function RFind(s: string, d: string, from: int): (r: Option<nat>)
    ensures r.Some? ==> r.value <= from && OccursAt(s, d, r.value)
    ensures r.Some? ==> forall j :: r.value < j <= from ==> !OccursAt(s, d, j)
    ensures r.None? ==> forall j :: j <= from ==> !OccursAt(s, d, j)
    decreases if from < 0 then 0 else from + 1
  {
    if from < 0 then None
    else if OccursAt(s, d, from) then Some(from)
    else RFind(s, d, from - 1)
  }

  /** The first position at or after i that does not hold a space. */
  function SkipSpaces(s: string, i: nat): (r: nat)
    requires i <= |s|
    ensures i <= r <= |s|
    ensures forall k :: i <= k < r ==> IsSpace(s[k])
    ensures r < |s| ==> !IsSpace(s[r])
    decreases |s| - i
  {
    if i < |s| && IsSpace(s[i]) then SkipSpaces(s, i + 1) else i
  }

  /** One past the last position before `hi` (and not before `lo`) that does not hold a space. */
  function BackOverSpaces(s: string, lo: nat, hi: nat): (r: nat)
    requires lo <= hi <= |s|
    ensures lo <= r <= hi
    ensures forall k :: r <= k < hi ==> IsSpace(s[k])
    ensures lo < r ==> !IsSpace(s[r - 1])
    decreases hi
  {
    if lo < hi && IsSpace(s[hi - 1]) then BackOverSpaces(s, lo, hi - 1) else hi
  }

  function RStrip(s: string): string {
    s[..BackOverSpaces(s, 0, |s|)]
  }

  function Strip(s: string): string {
    var lo := SkipSpaces(s, 0);
    s[lo..BackOverSpaces(s, lo, |s|)]
  }

  method StringStrip(str: string) returns (r: string)
    ensures r == Strip(str)
  {
    var start, end := 0, |str|;
    while start < end && IsSpace(str[start])
      invariant 0 <= start <= end == |str|
      invariant SkipSpaces(str, start) == SkipSpaces(str, 0)
    {
      start := start + 1;
    }
    while end > start && IsSpace(str[end - 1])
      invariant start <= end <= |str|
      invariant BackOverSpaces(str, start, end) == BackOverSpaces(str, start, |str|)
    {
      end := end - 1;
    }
    r := str[start..end];
  }

  /** A stripped string is what is left after removing exactly the outer spaces, and is uniquely determined by that. */
  lemma StripIsUnique(s: string, before: string, core: string, after: string)
    requires s == before + core + after
    requires AllSpace(before) && AllSpace(after)
    requires core != "" ==> !IsSpace(core[0]) && !IsSpace(core[|core| - 1])
    ensures Strip(s) == core
  {
    var lo := SkipSpaces(s, 0);
    if core == "" {
      assert AllSpace(s);
    } else {
      assert s[|before|] == core[0];
      assert lo == |before| by {
        assert forall k :: 0 <= k < |before| ==> IsSpace(s[k]);
      }
      var hi := BackOverSpaces(s, lo, |s|);
      assert s[|before| + |core| - 1] == core[|core| - 1];
      assert hi == |before| + |core| by {
        assert forall k :: |before| + |core| <= k < |s| ==> IsSpace(s[k]);
      }
    }
  }

  /** Stripping keeps prefixes: a longer text never takes back a character shown for a shorter one. */
  lemma StripKeepsPrefix(p: string, q: string)
    requires p <= q
    ensures Strip(p) <= Strip(q)
  {
    var lo := SkipSpaces(p, 0);
    if lo < |p| {
      FirstSolidStays(p, q);
      var hi, hiQ := BackOverSpaces(p, lo, |p|), BackOverSpaces(q, lo, |q|);
      assert lo < hi && p[hi - 1] == q[hi - 1];
      assert hi <= hiQ;
      PrefixOfSlice(p, q, lo, hi, hiQ);
    }
  }

  lemma FirstSolidStays(p: string, q: string)
    requires p <= q && SkipSpaces(p, 0) < |p|
    ensures SkipSpaces(q, 0) == SkipSpaces(p, 0)
  {
    var lo := SkipSpaces(p, 0);
    assert p[lo] == q[lo];
    assert forall k :: 0 <= k < lo ==> p[k] == q[k];
  }

  lemma PrefixOfSlice(p: string, q: string, lo: nat, hi: nat, hiQ: nat)
    requires p <= q && lo <= hi <= |p| && hi <= hiQ <= |q|
    ensures p[lo..hi] <= q[lo..hiQ]
  {
    assert p[lo..hi] == q[lo..hi] == q[lo..hiQ][..hi - lo];
  }

  /** The longest suffix of s, no longer than n, that is a prefix of stop. */
  function PartialStopUpTo(s: string, stop: string, n: nat): (r: Option<nat>)
    requires n <= |stop|
    ensures r.Some? ==> r.value < |s| && s[r.value..] <= stop && |s| - r.value <= n
    ensures forall j :: 0 <= j < |s| && |s| - j <= n && s[j..] <= stop ==> r.Some? && r.value <= j
  {
    if n == 0 then None
    else if n <= |s| && s[|s| - n..] == stop[..n] then Some(|s| - n)
    else
      var r := PartialStopUpTo(s, stop, n - 1);
      assert forall j :: 0 <= j < |s| && |s| - j == n ==> !(s[j..] <= stop);
      r
  }

  /** Where a text must be cut so that no shown character can turn out to belong to `stop`. */
  function PartialStop(s: string, stop: string): (r: Option<nat>)
    ensures r.Some? ==> r.value < |s| && s[r.value..] <= stop
    ensures forall j :: 0 <= j < |s| && s[j..] <= stop ==> r.Some? && r.value <= j
  {
    PartialStopUpTo(s, stop, |stop|)
  }

  method StringEndsWith(str: string, suffix: string) returns (r: bool)
    ensures r == (|suffix| <= |str| && str[|str| - |suffix|..] == suffix)
  {
    r := |str| >= |suffix| && str[|str| - |suffix|..] == suffix;
  }

  method StringFindPartialStop(str: string, stop: string) returns (r: Option<nat>)
    ensures r == PartialStop(str, stop)
  {
    if |str| != 0 && |stop| != 0 {
      var textLastChar := str[|str| - 1];
      var charIndex := |stop| - 1;
      while charIndex >= 0
        invariant -1 <= charIndex < |stop|
        invariant PartialStopUpTo(str, stop, charIndex + 1) == PartialStop(str, stop)
      {
        if stop[charIndex] == textLastChar {
          var currentPartial := stop[..charIndex + 1];
          var found := StringEndsWith(str, currentPartial);
          if found {
            return Some(|str| - charIndex - 1);
          }
        } else if charIndex + 1 <= |str| {
          assert str[|str| - (charIndex + 1)..][charIndex] == textLastChar;
          assert stop[..charIndex + 1][charIndex] == stop[charIndex];
        }
        charIndex := charIndex - 1;
      }
    } else {
      PartialStopOfEmpty(str, stop, |stop|);
    }
    return None;
  }

  lemma PartialStopOfEmpty(str: string, stop: string, n: nat)
    requires n <= |stop| && (str == "" || stop == "")
    ensures PartialStopUpTo(str, stop, n) == None
  {
  }

  /** The hold-back law: whatever the text is extended with, `stop` cannot start before the cut. */
  lemma HeldBackSuffixIsEnough(p: string, q: string, stop: string, i: nat)
    requires p <= q && stop != ""
    requires OccursAt(q, stop, i) && i < |p| < i + |stop|
    ensures PartialStop(p, stop).Some? && PartialStop(p, stop).value <= i
  {
    assert p[i..] == q[i..|p|] == q[i..i + |stop|][..|p| - i];
    assert p[i..] <= stop;
  }

  lemma TextAt(input: string, cursor: nat, a: string, b: string)
    requires cursor <= |input| && input[cursor..] == a + b
    ensures OccursAt(input, a, cursor) && cursor + |a| <= |input| && input[cursor + |a|..] == b
    ensures input[cursor..cursor + |a|] == a
  {
    assert input[cursor..][..|a|] == a && input[cursor..][|a|..] == b;
  }

  lemma FindStep(s: string, d: string, from: nat)
    requires from + |d| <= |s|
    ensures Find(s, d, from) == if OccursAt(s, d, from) then Some(from) else Find(s, d, from + 1)
  {
  }

  lemma {:induction false} FoundAt(input: string, cursor: nat, text: string, d: string, from: nat)
    requires cursor <= |input| && from <= |text| && text + d <= input[cursor..]
    requires Find(text + d, d, from) == Some(|text|)
    ensures Find(input, d, cursor + from) == Some(cursor + |text|)
    decreases |text| - from
  {
    hide Find;
    var rest := input[cursor..];
    assert rest[..|text + d|] == text + d;
    assert rest[from..from + |d|] == (text + d)[from..from + |d|];
    assert rest[from..from + |d|] == input[cursor + from..cursor + from + |d|];
    FindStep(text + d, d, from);
    FindStep(input, d, cursor + from);
    if from < |text| {
      assert !OccursAt(text + d, d, from);
      FoundAt(input, cursor, text, d, from + 1);
    }
  }

  lemma NoneFoundFrom(input: string, cursor: nat, text: string, d: string)
    requires cursor <= |input| && input[cursor..] == text && Find(text, d, 0).None?
    ensures Find(input, d, cursor).None?
  {
    forall j | cursor <= j
      ensures OccursAt(input, d, j) ==> OccursAt(text, d, j - cursor)
    {
      if OccursAt(input, d, j) {
        assert text[j - cursor..j - cursor + |d|] == input[j..j + |d|];
      }
    }
  }

  lemma SpacesEndAt(input: string, i: nat, j: nat)
    requires i <= j <= |input| && AllSpace(input[i..j]) && (j < |input| ==> !IsSpace(input[j]))
    ensures SkipSpaces(input, i) == j
  {
    var r := SkipSpaces(input, i);
    assert forall k :: i <= k < j ==> input[i..j][k - i] == input[k];
  }
}
