/** Cutting a byte string so that no UTF-8 sequence is left incomplete at its end. */
module Utf8 {
  import opened Text

  /** The length a lead byte announces; none for a byte that cannot lead a longer sequence.
      The comparisons are the masks 0xE0, 0xF0 and 0xF8 of the code, read as ranges of a byte. */
  function ExpectedLength(c: char): (r: Option<nat>) {
    var b := c as int;
    if 0xC0 <= b < 0xE0 then Some(2)
    else if 0xE0 <= b < 0xF0 then Some(3)
    else if 0xF0 <= b < 0xF8 then Some(4)
    else None
  }

  /** The decision taken on the byte at i, the (back + 1)-th from the end. */
  function CutFrom(s: string, i: nat, back: nat): (r: nat)
    requires 0 < i <= |s| && back <= 4
    ensures r <= |s|
    decreases 4 - back
  {
    if back == 4 then |s| - (if |s| < 3 then |s| else 3)
    else
      var c := s[i - 1] as int;
      if c < 0x80 then |s|
      else if 0xC0 <= c then
        match ExpectedLength(s[i - 1])
        case None => i - 1
        case Some(n) => if |s| - (i - 1) >= n then |s| else i - 1
      else if i == 1 then |s| - (if |s| < 3 then |s| else 3)
      else CutFrom(s, i - 1, back + 1)
  }

  function TruncateSafe(s: string): (r: nat)
    ensures r <= |s|
  {
    if s == "" then 0 else CutFrom(s, |s|, 0)
  }

  function Truncated(s: string): string {
    s[..TruncateSafe(s)]
  }

  /** `utf8_truncate_safe`. */
  method Utf8TruncateSafe(s: string) returns (r: nat)
    ensures r == TruncateSafe(s)
  {
    var len := |s|;
    if len == 0 {
      return 0;
    }
    var i := len;
    var back := 0;
    while back < 4 && i > 0
      invariant 0 <= i <= len && 0 <= back <= 4
      invariant i > 0 ==> CutFrom(s, i, back) == TruncateSafe(s)
      invariant i == 0 ==> len - (if len < 3 then len else 3) == TruncateSafe(s)
    {
      i := i - 1;
      var c := s[i] as int;
      if c < 0x80 {
        return len;
      } else if 0xC0 <= c {
        var expectedLen;
        if 0xC0 <= c < 0xE0 {
          expectedLen := 2;
        } else if 0xE0 <= c < 0xF0 {
          expectedLen := 3;
        } else if 0xF0 <= c < 0xF8 {
          expectedLen := 4;
        } else {
          return i;
        }
        if len - i >= expectedLen {
          return len;
        } else {
          return i;
        }
      }
      back := back + 1;
    }
    return len - (if len < 3 then len else 3);
  }

  predicate InRange(c: char, lo: int, hi: int) {
    lo <= c as int <= hi
  }

  predicate IsTail(c: char) {
    InRange(c, 0x80, 0xBF)
  }

  /** One well-formed sequence, by the grammar of section 4 of RFC 3629. */
  predicate IsSequence(s: string) {
    || (|s| == 1 && InRange(s[0], 0x00, 0x7F))
    || (|s| == 2 && InRange(s[0], 0xC2, 0xDF) && IsTail(s[1]))
    || (|s| == 3 && IsTail(s[2]) &&
        (|| (s[0] as int == 0xE0 && InRange(s[1], 0xA0, 0xBF))
         || (InRange(s[0], 0xE1, 0xEC) && IsTail(s[1]))
         || (s[0] as int == 0xED && InRange(s[1], 0x80, 0x9F))
         || (InRange(s[0], 0xEE, 0xEF) && IsTail(s[1]))))
    || (|s| == 4 && IsTail(s[2]) && IsTail(s[3]) &&
        (|| (s[0] as int == 0xF0 && InRange(s[1], 0x90, 0xBF))
         || (InRange(s[0], 0xF1, 0xF3) && IsTail(s[1]))
         || (s[0] as int == 0xF4 && InRange(s[1], 0x80, 0x8F))))
  }

  predicate AllSequences(chars: seq<string>) {
    forall i :: 0 <= i < |chars| ==> IsSequence(chars[i])
  }

  function Concat(chars: seq<string>): string {
    if chars == [] then "" else chars[0] + Concat(chars[1..])
  }

  /** The bytes of the first n characters end at a boundary. */
  function Boundary(chars: seq<string>, n: nat): nat
    requires n <= |chars|
  {
    |Concat(chars[..n])|
  }

  /** What the cut does on a byte string of whole characters followed by a proper piece of one more. */
  lemma CutAfterWholeCharacters(whole: string, last: string, piece: string)
    requires (last == "" && whole == "") || (IsSequence(last) && |last| <= |whole| && whole[|whole| - |last|..] == last)
    requires piece == "" || exists c :: IsSequence(c) && piece < c
    ensures TruncateSafe(whole + piece) == |whole|
  {
    var s := whole + piece;
    if piece == "" {
      assert s == whole;
      if whole != "" {
        assert forall k :: 0 <= k < |last| ==> whole[|whole| - |last| + k] == last[k];
        LeadDecides(whole, |whole| - |last|);
      }
    } else {
      var c :| IsSequence(c) && piece < c;
      assert forall k :: 0 <= k < |piece| ==> s[|whole| + k] == piece[k] == c[k];
      LeadDecides(s, |whole|);
    }
  }

  /** Scanning back over continuation bytes reaches the lead byte at `lead` and decides there. */
  lemma LeadDecides(s: string, lead: nat)
    requires lead < |s| <= lead + 4
    requires forall k :: lead < k < |s| ==> IsTail(s[k])
    requires InRange(s[lead], 0xC0, 0xF7) || (InRange(s[lead], 0x00, 0x7F) && lead + 1 == |s|)
    ensures TruncateSafe(s) ==
            if s[lead] as int < 0x80 || |s| - lead >= ExpectedLength(s[lead]).value then |s| else lead
  {
    CutReaches(s, lead, |s|, 0);
  }

  lemma CutReaches(s: string, lead: nat, i: nat, back: nat)
    requires lead < i <= |s| <= lead + 4 && back == |s| - i
    requires forall k :: lead < k < |s| ==> IsTail(s[k])
    requires InRange(s[lead], 0xC0, 0xF7) || InRange(s[lead], 0x00, 0x7F)
    ensures CutFrom(s, i, back) ==
            if s[lead] as int < 0x80 || |s| - lead >= ExpectedLength(s[lead]).value then |s| else lead
    decreases i
  {
    if lead + 1 < i {
      CutReaches(s, lead, i - 1, back + 1);
    }
  }

  /** For valid UTF-8 and any cut point k, the cut of the first k bytes is the greatest character
      boundary that does not exceed k: it is a boundary, and the next one lies beyond k. */
  lemma {:induction false} CutIsGreatestBoundary(chars: seq<string>, k: nat) returns (n: nat)
    requires AllSequences(chars)
    requires k <= |Concat(chars)|
    ensures n <= |chars| && Boundary(chars, n) == TruncateSafe(Concat(chars)[..k]) <= k
    ensures n < |chars| ==> k < Boundary(chars, n + 1)
  {
    n := BoundaryBelow(chars, k);
    var s, whole := Concat(chars), Concat(chars[..n]);
    BoundaryIsPrefix(chars, n);
    var piece := s[|whole|..k];
    PieceBehindBoundary(chars, n, k);
    hide TruncateSafe;
    hide IsSequence;
    assert s[..k] == whole + piece;
    var last := if n == 0 then "" else chars[n - 1];
    if n > 0 {
      LastCharacter(chars[..n]);
    }
    CutAfterWholeCharacters(whole, last, piece);
  }

  lemma PieceBehindBoundary(chars: seq<string>, n: nat, k: nat)
    requires AllSequences(chars) && n <= |chars| && Boundary(chars, n) <= k <= |Concat(chars)|
    requires n < |chars| ==> k < Boundary(chars, n + 1)
    ensures var piece := Concat(chars)[Boundary(chars, n)..k];
            if n < |chars| then IsSequence(chars[n]) && piece < chars[n] else piece == ""
  {
    hide IsSequence;
    BoundaryIsPrefix(chars, n);
    if n < |chars| {
      var whole, piece := Concat(chars[..n]), Concat(chars)[Boundary(chars, n)..k];
      BoundaryIsPrefix(chars, n + 1);
      LastCharacter(chars[..n + 1]);
      assert chars[..n + 1][..n] == chars[..n];
      var longer := Concat(chars[..n + 1]);
      assert longer == whole + chars[n];
      assert piece == longer[|whole|..k] == chars[n][..k - |whole|];
    } else {
      assert chars[..n] == chars;
    }
  }

  lemma {:induction false} BoundaryBelow(chars: seq<string>, k: nat) returns (n: nat)
    requires AllSequences(chars)
    requires k <= |Concat(chars)|
    ensures n <= |chars| && Boundary(chars, n) <= k
    ensures n < |chars| ==> k < Boundary(chars, n + 1)
  {
    n := 0;
    while n < |chars| && Boundary(chars, n + 1) <= k
      invariant n <= |chars| && Boundary(chars, n) <= k
    {
      n := n + 1;
    }
  }

  lemma {:induction false} BoundaryIsPrefix(chars: seq<string>, n: nat)
    requires n <= |chars|
    ensures Concat(chars[..n]) <= Concat(chars)
  {
    if n > 0 {
      BoundaryIsPrefix(chars[1..], n - 1);
      assert chars[..n][1..] == chars[1..][..n - 1];
    }
  }

  lemma {:induction false} LastCharacter(chars: seq<string>)
    requires chars != []
    ensures Concat(chars) == Concat(chars[..|chars| - 1]) + chars[|chars| - 1]
  {
    if |chars| > 1 {
      LastCharacter(chars[1..]);
      assert chars[1..][..|chars| - 2] == chars[..|chars| - 1][1..];
    } else {
      assert chars[1..] == [] && chars[..0] == [];
      assert Concat(chars) == chars[0] + "";
    }
  }

  /** The cut on any bytes, well-formed or not, when a byte that is no continuation is among the last four: a byte below
      0x80 ends a character; one that announces two, three or four bytes stays if they are there, and goes with what is
      behind it if they are not; any other one goes. */
  lemma CutAtLead(s: string, lead: nat)
    requires lead < |s| <= lead + 4 && !IsTail(s[lead]) && s[lead] as int < 0x100
    requires forall k :: lead < k < |s| ==> IsTail(s[k])
    ensures var b, n := s[lead] as int, |s| - lead;
            TruncateSafe(s) ==
            if b < 0x80 || (b < 0xE0 && n >= 2) || (0xE0 <= b < 0xF0 && n >= 3) || (0xF0 <= b < 0xF8 && n >= 4) then |s|
            else lead
  {
    CutBackTo(s, lead, |s|, 0);
  }

  lemma CutBackTo(s: string, lead: nat, i: nat, back: nat)
    requires lead < i <= |s| <= lead + 4 && back == |s| - i && !IsTail(s[lead]) && s[lead] as int < 0x100
    requires forall k :: lead < k < |s| ==> IsTail(s[k])
    ensures var b, n := s[lead] as int, |s| - lead;
            CutFrom(s, i, back) ==
            if b < 0x80 || (b < 0xE0 && n >= 2) || (0xE0 <= b < 0xF0 && n >= 3) || (0xF0 <= b < 0xF8 && n >= 4) then |s|
            else lead
    decreases i
  {
    if lead + 1 < i {
      CutBackTo(s, lead, i - 1, back + 1);
    }
  }

  /** Without such a byte among the last four, three bytes are cut off, or all there are. */
  lemma CutWithoutLead(s: string)
    requires s != "" && forall k :: 0 <= k < |s| && |s| - 4 <= k ==> IsTail(s[k])
    ensures TruncateSafe(s) == if |s| < 3 then 0 else |s| - 3
  {
    AllTails(s, |s|, 0);
  }

  lemma AllTails(s: string, i: nat, back: nat)
    requires 0 < i <= |s| && back == |s| - i && back <= 4
    requires forall k :: 0 <= k < |s| && |s| - 4 <= k ==> IsTail(s[k])
    ensures CutFrom(s, i, back) == if |s| < 3 then 0 else |s| - 3
    decreases 4 - back
  {
    if back < 4 && i > 1 {
      AllTails(s, i - 1, back + 1);
    }
  }
}
