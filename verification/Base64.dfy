/** Encoding and decoding of base 64 (RFC 4648, sections 4 and 5), with an alphabet that may be detected while
    decoding, and decoding over the buffer that is being read. */
module Base64 {

  import opened Text

  datatype Result<+T> = Ok(value: T) | InvalidCharacter

  datatype Alphabet = Auto | Standard | UrlFilenameSafe

  datatype Behavior = Moderate | Loose

  const PAD: bv8 := 61

  /** The character for a value of six bits. */
  function Letter(url: bool, v: bv8): bv8 {
    if v < 26 then 65 + v
    else if v < 52 then 71 + v
    else if v < 62 then v - 4
    else if v == 62 then (if url then 45 else 43)
    else (if url then 95 else 47)
  }

  /** The value of a character, and the alphabet in use after it. */
  function Value(alphabet: Alphabet, c: bv8): Option<(bv8, Alphabet)> {
    if 65 <= c <= 90 then Some((c - 65, alphabet))
    else if 97 <= c <= 122 then Some((c - 71, alphabet))
    else if 48 <= c <= 57 then Some((c + 4, alphabet))
    else
      match alphabet
      case Standard =>
        if c == 43 then Some((62, Standard)) else if c == 47 then Some((63, Standard)) else None
      case UrlFilenameSafe =>
        if c == 45 then Some((62, UrlFilenameSafe)) else if c == 95 then Some((63, UrlFilenameSafe)) else None
      case Auto =>
        if c == 43 then Some((62, Standard))
        else if c == 47 then Some((63, Standard))
        else if c == 45 then Some((62, UrlFilenameSafe))
        else if c == 95 then Some((63, UrlFilenameSafe))
        else None
  }

  // The four values of six bits that three bytes are cut into.

  function Six0(b0: bv8): bv8 {
    (b0 >> 2) & 0x3f
  }

  function Six1(b0: bv8, b1: bv8): bv8 {
    ((b0 & 0x3) << 4) | ((b1 >> 4) & 0x0f)
  }

  function Six2(b1: bv8, b2: bv8): bv8 {
    ((b1 & 0xf) << 2) | ((b2 >> 6) & 0x03)
  }

  function Six3(b2: bv8): bv8 {
    b2 & 0x3f
  }

  /** The characters for three bytes at a time, and for one or two bytes at the end as if zeros followed. */
  function Letters(x: seq<bv8>, url: bool): (r: seq<bv8>) {
    if |x| == 0 then []
    else if |x| == 1 then [Letter(url, Six0(x[0])), Letter(url, Six1(x[0], 0))]
    else if |x| == 2 then [Letter(url, Six0(x[0])), Letter(url, Six1(x[0], x[1])), Letter(url, Six2(x[1], 0))]
    else Four(x[0], x[1], x[2], url) + Letters(x[3..], url)
  }

  function Four(b0: bv8, b1: bv8, b2: bv8, url: bool): seq<bv8> {
    [Letter(url, Six0(b0)), Letter(url, Six1(b0, b1)), Letter(url, Six2(b1, b2)), Letter(url, Six3(b2))]
  }

  function Padding(n: nat): seq<bv8> {
    if n % 3 == 1 then [PAD, PAD] else if n % 3 == 2 then [PAD] else []
  }

  function Encoded(x: seq<bv8>, url: bool): seq<bv8> {
    Letters(x, url) + Padding(|x|)
  }

  predicate IsPadding(s: seq<bv8>) {
    forall i :: 0 <= i < |s| ==> s[i] == PAD
  }

  /** The bits left over from the last character (none, two, four or six) and the next one make a byte, or not yet. */
  function ByteOf(bits: int, last: bv8, part: bv8): bv8
    requires bits == 2 || bits == 4 || bits == 6
  {
    if bits == 6 then (last << 2) | (part >> 4)
    else if bits == 4 then (last << 4) | (part >> 2)
    else (last << 6) | part
  }

  function Decoded(s: seq<bv8>, alphabet: Alphabet, behavior: Behavior, bits: int, last: bv8): (r: Result<seq<bv8>>)
    requires bits in {0, 2, 4, 6}
  {
    if s == [] then Ok([])
    else if s[0] == PAD then
      if behavior == Loose || IsPadding(s[1..]) then Ok([]) else InvalidCharacter
    else
      var v := Value(alphabet, s[0]);
      if v.None? then InvalidCharacter
      else
        var (part, next) := v.value;
        if bits == 0 then Decoded(s[1..], next, behavior, 6, part)
        else
          var rest := Decoded(s[1..], next, behavior, bits - 2, part);
          if rest.Ok? then Ok([ByteOf(bits, last, part)] + rest.value) else InvalidCharacter
  }

  function RequiredEncodeSize(size: nat): nat {
    (size / 3 + if size % 3 != 0 then 1 else 0) * 4
  }

  function MaxDecodeSize(size: nat): nat {
    (size / 4 + if size % 4 != 0 then 1 else 0) * 3
  }

  // ---- Round trip

  /** An alphabet that reads what was written: the same one, or none chosen yet. */
  predicate Reads(alphabet: Alphabet, url: bool) {
    alphabet == Auto || alphabet == if url then UrlFilenameSafe else Standard
  }

  lemma LetterIsRead(alphabet: Alphabet, url: bool, v: bv8)
    requires Reads(alphabet, url) && v < 64
    ensures Letter(url, v) != PAD
    ensures var r := Value(alphabet, Letter(url, v)); r.Some? && r.value.0 == v && Reads(r.value.1, url)
  {
  }

  /** One character in front of the rest. */
  lemma {:induction false} LetterFirst(t: seq<bv8>, alphabet: Alphabet, behavior: Behavior, bits: int, last: bv8,
          url: bool, v: bv8) returns (next: Alphabet)
    requires Reads(alphabet, url) && v < 64 && bits in {0, 2, 4, 6}
    ensures Reads(next, url)
    ensures var r := Decoded([Letter(url, v)] + t, alphabet, behavior, bits, last);
            if bits == 0 then r == Decoded(t, next, behavior, 6, v)
            else
              var rest := Decoded(t, next, behavior, bits - 2, v);
              r == if rest.Ok? then Ok([ByteOf(bits, last, v)] + rest.value) else InvalidCharacter
  {
    LetterIsRead(alphabet, url, v);
    next := Value(alphabet, Letter(url, v)).value.1;
    var s := [Letter(url, v)] + t;
    assert s[0] == Letter(url, v) && s[1..] == t;
  }

  lemma BytesComeBack(b0: bv8, b1: bv8, b2: bv8)
    ensures ByteOf(6, Six0(b0), Six1(b0, b1)) == b0
    ensures ByteOf(4, Six1(b0, b1), Six2(b1, b2)) == b1
    ensures ByteOf(2, Six2(b1, b2), Six3(b2)) == b2
    ensures Six0(b0) < 64 && Six1(b0, b1) < 64 && Six2(b1, b2) < 64 && Six3(b2) < 64
  {
  }

  function Prepended(x: seq<bv8>, r: Result<seq<bv8>>): Result<seq<bv8>> {
    if r.Ok? then Ok(x + r.value) else InvalidCharacter
  }

  lemma TwoLetters(t: seq<bv8>, alphabet: Alphabet, behavior: Behavior, last: bv8, url: bool, b0: bv8, b1: bv8)
    returns (next: Alphabet)
    requires Reads(alphabet, url)
    ensures Reads(next, url)
    ensures Decoded([Letter(url, Six0(b0)), Letter(url, Six1(b0, b1))] + t, alphabet, behavior, 0, last)
         == Prepended([b0], Decoded(t, next, behavior, 4, Six1(b0, b1)))
  {
    hide Decoded;
    hide ByteOf;
    hide Letter;
    hide Reads;
    BytesComeBack(b0, b1, 0);
    hide Six0;
    hide Six1;
    var s := [Letter(url, Six1(b0, b1))] + t;
    assert [Letter(url, Six0(b0)), Letter(url, Six1(b0, b1))] + t == [Letter(url, Six0(b0))] + s;
    var n0 := LetterFirst(s, alphabet, behavior, 0, last, url, Six0(b0));
    next := LetterFirst(t, n0, behavior, 6, Six0(b0), url, Six1(b0, b1));
  }

  lemma ThreeLetters(t: seq<bv8>, alphabet: Alphabet, behavior: Behavior, last: bv8, url: bool, b0: bv8, b1: bv8,
          b2: bv8) returns (next: Alphabet)
    requires Reads(alphabet, url)
    ensures Reads(next, url)
    ensures Decoded([Letter(url, Six0(b0)), Letter(url, Six1(b0, b1)), Letter(url, Six2(b1, b2))] + t, alphabet,
        behavior, 0, last)
         == Prepended([b0, b1], Decoded(t, next, behavior, 2, Six2(b1, b2)))
  {
    hide Decoded;
    hide ByteOf;
    hide Letter;
    hide Reads;
    BytesComeBack(b0, b1, b2);
    hide Six0;
    hide Six1;
    hide Six2;
    var s := [Letter(url, Six2(b1, b2))] + t;
    assert [Letter(url, Six0(b0)), Letter(url, Six1(b0, b1)), Letter(url, Six2(b1, b2))] + t
        == [Letter(url, Six0(b0)), Letter(url, Six1(b0, b1))] + s;
    var n1 := TwoLetters(s, alphabet, behavior, last, url, b0, b1);
    next := LetterFirst(t, n1, behavior, 4, Six1(b0, b1), url, Six2(b1, b2));
    var r := Decoded(t, next, behavior, 2, Six2(b1, b2));
    assert r.Ok? ==> [b0] + ([b1] + r.value) == [b0, b1] + r.value;
  }

  lemma FourLetters(t: seq<bv8>, alphabet: Alphabet, behavior: Behavior, last: bv8, url: bool, b0: bv8, b1: bv8,
      b2: bv8)
    returns (next: Alphabet)
    requires Reads(alphabet, url)
    ensures Reads(next, url)
    ensures Decoded(Four(b0, b1, b2, url) + t, alphabet, behavior, 0, last)
         == Prepended([b0, b1, b2], Decoded(t, next, behavior, 0, Six3(b2)))
  {
    hide Decoded;
    hide ByteOf;
    hide Letter;
    hide Reads;
    BytesComeBack(b0, b1, b2);
    hide Six0;
    hide Six1;
    hide Six2;
    hide Six3;
    var s := [Letter(url, Six3(b2))] + t;
    assert Four(b0, b1, b2, url) + t ==
        [Letter(url, Six0(b0)), Letter(url, Six1(b0, b1)), Letter(url, Six2(b1, b2))] + s;
    var n2 := ThreeLetters(s, alphabet, behavior, last, url, b0, b1, b2);
    next := LetterFirst(t, n2, behavior, 2, Six2(b1, b2), url, Six3(b2));
    var r := Decoded(t, next, behavior, 0, Six3(b2));
    assert r.Ok? ==> [b0, b1] + ([b2] + r.value) == [b0, b1, b2] + r.value;
  }

  lemma PaddingEnds(pads: seq<bv8>, alphabet: Alphabet, behavior: Behavior, bits: int, last: bv8)
    requires IsPadding(pads) && bits in {0, 2, 4, 6}
    ensures Decoded(pads, alphabet, behavior, bits, last) == Ok([])
  {
  }

  /** Decoding takes encoding back, for every byte string, both alphabets, chosen or detected, and both behaviours;
      and it does not matter how much padding follows. */
  lemma {:induction false} DecodingTakesLettersBack(x: seq<bv8>, pads: seq<bv8>, url: bool, alphabet: Alphabet,
          behavior: Behavior, last: bv8)
    requires Reads(alphabet, url) && IsPadding(pads)
    ensures Decoded(Letters(x, url) + pads, alphabet, behavior, 0, last) == Ok(x)
    decreases |x|
  {
    hide Decoded;
    hide Letter;
    hide Reads;
    hide Six0;
    hide Six1;
    hide Six2;
    hide Six3;
    hide Four;
    if x == [] {
      assert [] + pads == pads;
      PaddingEnds(pads, alphabet, behavior, 0, last);
    } else if |x| == 1 {
      var next := TwoLetters(pads, alphabet, behavior, last, url, x[0], 0);
      PaddingEnds(pads, next, behavior, 4, Six1(x[0], 0));
      assert x == [x[0]] + [];
    } else if |x| == 2 {
      var next := ThreeLetters(pads, alphabet, behavior, last, url, x[0], x[1], 0);
      PaddingEnds(pads, next, behavior, 2, Six2(x[1], 0));
      assert x == [x[0], x[1]] + [];
    } else {
      var t := Letters(x[3..], url) + pads;
      assert Letters(x, url) + pads == Four(x[0], x[1], x[2], url) + t;
      var next := FourLetters(t, alphabet, behavior, last, url, x[0], x[1], x[2]);
      DecodingTakesLettersBack(x[3..], pads, url, next, behavior, Six3(x[2]));
      assert x == [x[0], x[1], x[2]] + x[3..];
    }
  }

  lemma DecodingTakesEncodingBack(x: seq<bv8>, url: bool, alphabet: Alphabet, behavior: Behavior)
    requires Reads(alphabet, url)
    ensures Decoded(Encoded(x, url), alphabet, behavior, 0, 0) == Ok(x)
  {
    DecodingTakesLettersBack(x, Padding(|x|), url, alphabet, behavior, 0);
  }

  /** Detection: decoding with no alphabet chosen succeeds exactly if it does with one of the two chosen, and gives
      the same bytes; so a text that mixes their characters is refused. */
  lemma {:induction false} DetectionTriesBoth(s: seq<bv8>, behavior: Behavior, bits: int, last: bv8)
    requires bits in {0, 2, 4, 6}
    ensures var standard := Decoded(s, Standard, behavior, bits, last);
            Decoded(s, Auto, behavior, bits, last) ==
              if standard.Ok? then standard else Decoded(s, UrlFilenameSafe, behavior, bits, last)
    ensures var standard, url := Decoded(s, Standard, behavior, bits, last),
        Decoded(s, UrlFilenameSafe, behavior, bits, last);
            standard.Ok? && url.Ok? ==> standard == url
  {
    if s != [] && s[0] != PAD {
      if Value(Auto, s[0]).Some? {
        DetectionTriesBoth(s[1..], behavior, if bits == 0 then 6 else bits - 2, Value(Auto, s[0]).value.0);
      }
    }
  }

  // ---- Sizes

  lemma {:induction false} LettersCount(x: seq<bv8>, url: bool)
    ensures |Letters(x, url)| == 4 * (|x| / 3) + (if |x| % 3 == 0 then 0 else |x| % 3 + 1)
    decreases |x|
  {
    if |x| >= 3 {
      LettersCount(x[3..], url);
    }
  }

  lemma EncodedSizeIsRequiredSize(x: seq<bv8>, url: bool)
    ensures |Encoded(x, url)| == RequiredEncodeSize(|x|)
  {
    LettersCount(x, url);
  }

  lemma {:induction false} DecodedBits(s: seq<bv8>, alphabet: Alphabet, behavior: Behavior, bits: int, last: bv8)
    requires bits in {0, 2, 4, 6}
    ensures var r := Decoded(s, alphabet, behavior, bits, last); r.Ok? ==> 8 * |r.value| <= 6 * |s| + bits
  {
    if s != [] && s[0] != PAD && Value(alphabet, s[0]).Some? {
      var (part, next) := Value(alphabet, s[0]).value;
      DecodedBits(s[1..], next, behavior, if bits == 0 then 6 else bits - 2, part);
    }
  }

  lemma DecodedFitsMaxSize(s: seq<bv8>, alphabet: Alphabet, behavior: Behavior)
    ensures var r := Decoded(s, alphabet, behavior, 0, 0); r.Ok? ==> |r.value| <= MaxDecodeSize(|s|)
  {
    DecodedBits(s, alphabet, behavior, 0, 0);
  }

  // ---- The program

  method Encode(x: seq<bv8>, alphabet: Alphabet) returns (out: seq<bv8>)
    ensures out == Encoded(x, alphabet == UrlFilenameSafe)
  {
    hide Letter;
    hide Encoded;
    hide Six0;
    hide Six1;
    hide Six2;
    hide Six3;
    var url := alphabet == UrlFilenameSafe;
    out := [];
    var i := 0;
    NothingIsEncoded(x, url);
    assert x[0..] == x;
    while i < |x|
      invariant i <= |x|
      invariant out + Encoded(x[i..], url) == Encoded(x, url)
    {
      ghost var before, todo := out, x[i..];
      EncodedStep(before, todo, url);
      var i0 := x[i];
      i := i + 1;
      SixesAreCut(i0, 0);
      out := out + [Letter(url, (i0 >> 2) & 0x3f)];
      if i >= |x| {
        out := out + [Letter(url, (i0 & 0x3) << 4)];
        out := out + [PAD];
        out := out + [PAD];
        AppendFour(before, Letter(url, Six0(i0)), Letter(url, Six1(i0, 0)), PAD, PAD);
        return;
      }
      var i1 := x[i];
      i := i + 1;
      SixesAreCut(i0, i1);
      out := out + [Letter(url, ((i0 & 0x3) << 4) | ((i1 >> 4) & 0x0f))];
      if i >= |x| {
        out := out + [Letter(url, (i1 & 0xf) << 2)];
        out := out + [PAD];
        AppendFour(before, Letter(url, Six0(i0)), Letter(url, Six1(i0, i1)), Letter(url, Six2(i1, 0)), PAD);
        return;
      }
      var i2 := x[i];
      i := i + 1;
      SixesAreCut(i1, i2);
      out := out + [Letter(url, ((i1 & 0xf) << 2) | ((i2 >> 6) & 0x03))];
      out := out + [Letter(url, i2 & 0x3f)];
      AppendFour(before, Letter(url, Six0(i0)), Letter(url, Six1(i0, i1)), Letter(url, Six2(i1, i2)),
          Letter(url, Six3(i2)));
      assert todo[3..] == x[i..];
    }
    assert x[i..] == [] && out + [] == out;
  }

  lemma AppendFour(s: seq<bv8>, a: bv8, b: bv8, c: bv8, d: bv8)
    ensures s + [a] + [b] + [c] + [d] == s + [a, b, c, d]
  {
  }

  lemma SixesAreCut(b0: bv8, b1: bv8)
    ensures (b0 >> 2) & 0x3f == Six0(b0) && (b0 & 0x3) << 4 == Six1(b0, 0) &&
        ((b0 & 0x3) << 4) | ((b1 >> 4) & 0x0f) == Six1(b0, b1)
    ensures (b1 & 0xf) << 2 == Six2(b1, 0) && ((b0 & 0xf) << 2) | ((b1 >> 6) & 0x03) == Six2(b0, b1) &&
        b1 & 0x3f == Six3(b1)
  {
  }

  lemma NothingIsEncoded(x: seq<bv8>, url: bool)
    ensures Encoded([], url) == [] && [] + Encoded(x, url) == Encoded(x, url)
  {
  }

  lemma EncodedStep(out: seq<bv8>, x: seq<bv8>, url: bool)
    requires x != []
    ensures out + Encoded(x, url) ==
      if |x| == 1 then out + [Letter(url, Six0(x[0])), Letter(url, Six1(x[0], 0)), PAD, PAD]
      else if |x| == 2 then out +
          [Letter(url, Six0(x[0])), Letter(url, Six1(x[0], x[1])), Letter(url, Six2(x[1], 0)), PAD]
      else out + Four(x[0], x[1], x[2], url) + Encoded(x[3..], url)
  {
    hide Letter;
    hide Six0;
    hide Six1;
    hide Six2;
    hide Six3;
    hide Four;
    if |x| >= 3 {
      var first, rest, pad := Four(x[0], x[1], x[2], url), Letters(x[3..], url), Padding(|x|);
      assert Padding(|x| - 3) == pad;
      assert out + ((first + rest) + pad) == (out + first) + (rest + pad);
    }
  }

  predicate IsBitCount(bits: int) {
    bits == 0 || bits == 2 || bits == 4 || bits == 6
  }

  /** The result so far in front of what the rest decodes to. */
  lemma DecodedStep(out: seq<bv8>, s: seq<bv8>, alphabet: Alphabet, behavior: Behavior, bits: int, last: bv8)
    requires s != [] && s[0] != PAD && IsBitCount(bits)
    ensures var v := Value(alphabet, s[0]);
            Prepended(out, Decoded(s, alphabet, behavior, bits, last)) ==
              if v.None? then InvalidCharacter
              else if bits == 0 then Prepended(out, Decoded(s[1..], v.value.1, behavior, 6, v.value.0))
              else Prepended(out + [ByteOf(bits, last, v.value.0)],
                  Decoded(s[1..], v.value.1, behavior, bits - 2, v.value.0))
  {
    hide ByteOf;
    hide Value;
    var v := Value(alphabet, s[0]);
    if v.Some? && bits != 0 {
      var byte := ByteOf(bits, last, v.value.0);
      var rest := Decoded(s[1..], v.value.1, behavior, bits - 2, v.value.0);
      assert rest.Ok? ==> out + ([byte] + rest.value) == (out + [byte]) + rest.value;
    }
  }

  lemma DecodedEnds(out: seq<bv8>, s: seq<bv8>, alphabet: Alphabet, behavior: Behavior, bits: int, last: bv8)
    requires IsBitCount(bits) && (s == [] || s[0] == PAD)
    ensures Prepended(out, Decoded(s, alphabet, behavior, bits, last)) ==
      if s == [] || behavior == Loose || IsPadding(s[1..]) then Ok(out) else InvalidCharacter
  {
    assert out + [] == out;
  }

  method Decode(s: seq<bv8>, alphabet: Alphabet, behavior: Behavior) returns (r: Result<seq<bv8>>)
    ensures r == Decoded(s, alphabet, behavior, 0, 0)
  {
    hide Decoded;
    hide ByteOf;
    hide Value;
    hide IsPadding;
    var out: seq<bv8> := [];
    var last: bv8 := 0;
    var bits := 0;
    var current := alphabet;
    var i := 0;
    PrependedNothing(Decoded(s, alphabet, behavior, 0, 0));
    assert s[0..] == s;
    while i < |s| && s[i] != PAD
      invariant i <= |s| && IsBitCount(bits)
      invariant Prepended(out, Decoded(s[i..], current, behavior, bits, last)) == Decoded(s, alphabet, behavior, 0, 0)
    {
      DecodedStep(out, s[i..], current, behavior, bits, last);
      assert s[i..][1..] == s[i + 1..];
      var v := Value(current, s[i]);
      if v.None? {
        return InvalidCharacter;
      }
      var part := v.value.0;
      current := v.value.1;
      if bits + 6 >= 8 {
        out := out + [ByteOf(bits, last, part)];
        bits := bits - 2;
      } else {
        bits := bits + 6;
      }
      last := part;
      i := i + 1;
    }
    DecodedEnds(out, s[i..], current, behavior, bits, last);
    if i < |s| {
      assert s[i..][1..] == s[i + 1..];
      var ok := OnlyPadding(s, i + 1);
      if behavior != Loose && !ok {
        return InvalidCharacter;
      }
    }
    return Ok(out);
  }

  lemma PrependedNothing(r: Result<seq<bv8>>)
    ensures Prepended([], r) == r
  {
    assert r.Ok? ==> [] + r.value == r.value;
  }

  /** The check of what follows the first padding character. */
  method OnlyPadding(s: seq<bv8>, from: nat) returns (ok: bool)
    requires from <= |s|
    ensures ok == IsPadding(s[from..])
  {
    var i := from;
    while i < |s|
      invariant from <= i <= |s|
      invariant forall k :: from <= k < i ==> s[k] == PAD
    {
      if s[i] != PAD {
        assert s[from..][i - from] == s[i];
        return false;
      }
      i := i + 1;
    }
    return true;
  }

  /** Decoding over the buffer that is read: the write position never passes the read position, so the result is
      that of decoding the text that was there. */
  method DecodeInPlace(a: array<bv8>, alphabet: Alphabet, behavior: Behavior) returns (r: Result<nat>)
    modifies a
    ensures match Decoded(old(a[..]), alphabet, behavior, 0, 0)
            case Ok(bytes) => r == Ok(|bytes|) && |bytes| <= a.Length && a[..|bytes|] == bytes
            case InvalidCharacter => r == InvalidCharacter
  {
    hide Decoded;
    hide ByteOf;
    hide Value;
    hide IsPadding;
    ghost var s := a[..];
    var last: bv8 := 0;
    var bits := 0;
    var current := alphabet;
    var i, out := 0, 0;
    PrependedNothing(Decoded(s, alphabet, behavior, 0, 0));
    assert s[0..] == s;
    while i < a.Length && a[i] != PAD
      invariant out <= i <= a.Length && IsBitCount(bits)
      invariant bits > 0 ==> out < i
      invariant forall k :: i <= k < a.Length ==> a[k] == s[k]
      invariant Prepended(a[..out], Decoded(s[i..], current, behavior, bits, last)) ==
          Decoded(s, alphabet, behavior, 0, 0)
    {
      ghost var before := a[..out];
      DecodedStep(before, s[i..], current, behavior, bits, last);
      assert s[i..][1..] == s[i + 1..];
      var v := Value(current, a[i]);
      if v.None? {
        return InvalidCharacter;
      }
      var part := v.value.0;
      current := v.value.1;
      if bits + 6 >= 8 {
        a[out] := ByteOf(bits, last, part);
        out := out + 1;
        bits := bits - 2;
        assert a[..out] == before + [ByteOf(bits + 2, last, part)];
      } else {
        bits := bits + 6;
      }
      last := part;
      i := i + 1;
    }
    DecodedEnds(a[..out], s[i..], current, behavior, bits, last);
    if i < a.Length {
      assert s[i..][1..] == s[i + 1..];
      assert a[i + 1..] == s[i + 1..];
      var ok := OnlyPadding(a[..], i + 1);
      assert a[..][i + 1..] == a[i + 1..];
      if behavior != Loose && !ok {
        return InvalidCharacter;
      }
    }
    return Ok(out);
  }

  // ---- The letters of RFC 4648

  /** The letters in order, as in tables 1 and 2 of RFC 4648: A to Z, a to z, 0 to 9, and + and /, or - and _. */
  lemma LettersAreThoseOfTheStandard(url: bool)
    ensures [Letter(url, 0), Letter(url, 1), Letter(url, 2), Letter(url, 3), Letter(url, 4), Letter(url, 5),
              Letter(url, 6), Letter(url, 7), Letter(url, 8), Letter(url, 9), Letter(url, 10), Letter(url, 11),
              Letter(url, 12), Letter(url, 13), Letter(url, 14), Letter(url, 15), Letter(url, 16),
              Letter(url, 17), Letter(url, 18), Letter(url, 19), Letter(url, 20), Letter(url, 21),
              Letter(url, 22), Letter(url, 23), Letter(url, 24), Letter(url, 25), Letter(url, 26),
              Letter(url, 27), Letter(url, 28), Letter(url, 29), Letter(url, 30), Letter(url, 31),
              Letter(url, 32), Letter(url, 33), Letter(url, 34), Letter(url, 35), Letter(url, 36),
              Letter(url, 37), Letter(url, 38), Letter(url, 39), Letter(url, 40), Letter(url, 41),
              Letter(url, 42), Letter(url, 43), Letter(url, 44), Letter(url, 45), Letter(url, 46),
              Letter(url, 47), Letter(url, 48), Letter(url, 49), Letter(url, 50), Letter(url, 51),
              Letter(url, 52), Letter(url, 53), Letter(url, 54), Letter(url, 55), Letter(url, 56),
              Letter(url, 57), Letter(url, 58), Letter(url, 59), Letter(url, 60), Letter(url, 61),
              Letter(url, 62), Letter(url, 63)] ==
            [65, 66, 67, 68, 69, 70, 71, 72, 73, 74, 75, 76, 77, 78, 79, 80, 81, 82, 83, 84, 85, 86, 87, 88, 89,
              90, 97, 98, 99, 100, 101, 102, 103, 104, 105, 106, 107, 108, 109, 110, 111, 112, 113, 114, 115,
              116, 117, 118, 119, 120, 121, 122, 48, 49, 50, 51, 52, 53, 54, 55, 56, 57]
            + if url then [45, 95] else [43, 47]
  {
  }

  /** Three bytes make twenty-four bits, and the letters stand for these in groups of six (section 4 of RFC 4648). */
  lemma LettersAreGroupsOfSix(b0: bv8, b1: bv8, b2: bv8, url: bool)
    ensures var bits := (b0 as bv24 << 16) | (b1 as bv24 << 8) | b2 as bv24;
            Four(b0, b1, b2, url) == [Letter(url, (bits >> 18) as bv8), Letter(url, ((bits >> 12) & 0x3f) as bv8),
                                      Letter(url, ((bits >> 6) & 0x3f) as bv8), Letter(url, (bits & 0x3f) as bv8)]
  {
    SixesAreGroups(b0, b1, b2);
    hide Letter;
  }

  lemma SixesAreGroups(b0: bv8, b1: bv8, b2: bv8)
    ensures var bits := (b0 as bv24 << 16) | (b1 as bv24 << 8) | b2 as bv24;
            && Six0(b0) == (bits >> 18) as bv8 && Six1(b0, b1) == ((bits >> 12) & 0x3f) as bv8
            && Six2(b1, b2) == ((bits >> 6) & 0x3f) as bv8 && Six3(b2) == (bits & 0x3f) as bv8
  {
  }

  ghost predicate IsLetter(url: bool, c: bv8) {
    exists v: bv8 :: v < 64 && Letter(url, v) == c
  }

  /** A text may be decoded if only letters stand in front of the first padding character, and only padding behind it,
      unless that does not matter. */
  ghost predicate IsReadable(s: seq<bv8>, url: bool, behavior: Behavior) {
    forall i :: 0 <= i < |s| ==>
                  if PAD in s[..i] then behavior == Loose || s[i] == PAD else s[i] == PAD || IsLetter(url, s[i])
  }

  lemma ValueOfLetter(url: bool, c: bv8)
    ensures var r := Value(if url then UrlFilenameSafe else Standard, c);
            && (r.Some? <==> IsLetter(url, c))
            && (r.Some? ==> r.value.1 == if url then UrlFilenameSafe else Standard)
  {
    var alphabet := if url then UrlFilenameSafe else Standard;
    if Value(alphabet, c).Some? {
      var v := Value(alphabet, c).value.0;
      assert v < 64 && Letter(url, v) == c;
    }
    if v: bv8 :| v < 64 && Letter(url, v) == c {
      LetterIsRead(alphabet, url, v);
    }
  }

  lemma ReadableStep(s: seq<bv8>, url: bool, behavior: Behavior)
    requires s != []
    ensures IsReadable(s, url, behavior) <==>
            if s[0] == PAD then behavior == Loose || IsPadding(s[1..])
            else IsLetter(url, s[0]) && IsReadable(s[1..], url, behavior)
  {
    hide IsLetter;
    forall i | 0 < i < |s|
      ensures s[1..][i - 1] == s[i] && (PAD in s[..i] <==> s[0] == PAD || PAD in s[1..][..i - 1])
    {
      assert s[..i] == [s[0]] + s[1..][..i - 1];
    }
    assert s[..0] == [];
    if IsReadable(s, url, behavior) && s[0] != PAD {
      forall i | 0 <= i < |s| - 1
        ensures if PAD in s[1..][..i] then behavior == Loose || s[1..][i] == PAD
                else s[1..][i] == PAD || IsLetter(url, s[1..][i])
      {
        assert s[i + 1] == s[1..][i];
      }
    }
    if IsReadable(s, url, behavior) && s[0] == PAD && behavior != Loose {
      forall i | 0 <= i < |s| - 1
        ensures s[1..][i] == PAD
      {
        assert s[i + 1] == s[1..][i] && PAD in s[..i + 1];
      }
    }
  }

  /** Decoding succeeds exactly on those texts. */
  lemma {:induction false} DecodesExactly(s: seq<bv8>, url: bool, behavior: Behavior, bits: int, last: bv8)
    requires bits in {0, 2, 4, 6}
    ensures Decoded(s, if url then UrlFilenameSafe else Standard, behavior, bits, last).Ok? <==>
        IsReadable(s, url, behavior)
  {
    hide IsReadable;
    hide IsLetter;
    hide Letter;
    hide Value;
    if s == [] {
      NothingIsReadable(url, behavior);
    } else {
      ReadableStep(s, url, behavior);
      ValueOfLetter(url, s[0]);
      var v := Value(if url then UrlFilenameSafe else Standard, s[0]);
      if s[0] != PAD && v.Some? {
        DecodesExactly(s[1..], url, behavior, if bits == 0 then 6 else bits - 2, v.value.0);
      }
    }
  }

  lemma NothingIsReadable(url: bool, behavior: Behavior)
    ensures IsReadable([], url, behavior)
  {
  }

  /** The buffers have the room that is needed for any text of their size: four letters for every three bytes, and three
      bytes for every four letters, rounded up. */
  lemma SizesAreRoundedUp(n: nat)
    ensures RequiredEncodeSize(n) == 4 * ((n + 2) / 3) && MaxDecodeSize(n) == 3 * ((n + 3) / 4)
  {
  }
}
