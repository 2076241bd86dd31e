/** Replacing escape sequences in a buffer that is overwritten while it is still being read. */
module Escapes {

  import opened Text

  function HexValue(c: char): Option<int> {
    if '0' <= c <= '9' then Some((c - '0') as int)
    else if 'a' <= c <= 'f' then Some((c - 'a') as int + 10)
    else if 'A' <= c <= 'F' then Some((c - 'A') as int + 10)
    else None
  }

  /** `strtol` in base 16 on two characters, when it consumes both: two digits, or one space or sign and a digit. */
  function StrtolOfTwo(x: char, y: char): Option<int> {
    var hx, hy := HexValue(x), HexValue(y);
    if hy.None? then None
    else if hx.Some? then Some(16 * hx.value + hy.value)
    else if IsSpace(x) || x == '+' then Some(hy.value)
    else if x == '-' then Some(-hy.value)
    else None
  }

  /** The conversion of a long to a char keeps the low byte. */
  function ByteOf(v: int): char {
    (v % 256) as char
  }

  function Simple(c: char): Option<char> {
    match c
    case 'n' => Some('\n')
    case 'r' => Some('\r')
    case 't' => Some('\t')
    case '\'' => Some('\'')
    case '\"' => Some('\"')
    case '\\' => Some('\\')
    case _ => None
  }

  /** What stands at i: how much of the input it takes, and what it is replaced by. */
  function Token(s: string, i: nat): (r: (nat, string))
    requires i < |s|
    ensures i + r.0 <= |s| && 1 <= |r.1| <= r.0
  {
    if s[i] == '\\' && i + 1 < |s| then
      var c := s[i + 1];
      if Simple(c).Some? then (2, [Simple(c).value])
      else if c == 'x' && i + 3 < |s| && StrtolOfTwo(s[i + 2], s[i + 3]).Some? then
        (4, [ByteOf(StrtolOfTwo(s[i + 2], s[i + 3]).value)])
      else (2, ['\\', c])
    else (1, [s[i]])
  }

  /** The unescaped text of s from i on, read from left to right. */
  function Unescaped(s: string, i: nat): string
    requires i <= |s|
    decreases |s| - i
  {
    if i == |s| then "" else Token(s, i).1 + Unescaped(s, i + Token(s, i).0)
  }

  /** The text never grows, and it keeps its length only if nothing was replaced. */
  lemma {:induction false} UnescapingShrinks(s: string, i: nat)
    requires i <= |s|
    ensures |Unescaped(s, i)| <= |s| - i
    ensures |Unescaped(s, i)| == |s| - i ==> Unescaped(s, i) == s[i..]
    decreases |s| - i
  {
    if i < |s| {
      var next := i + Token(s, i).0;
      UnescapingShrinks(s, next);
      assert s[i..] == s[i..next] + s[next..];
    }
  }

  lemma UnescapedStep(done: string, s: string, i: nat)
    requires i < |s|
    ensures done + Unescaped(s, i) == done + Token(s, i).1 + Unescaped(s, i + Token(s, i).0)
  {
    var token, rest := Token(s, i).1, Unescaped(s, i + Token(s, i).0);
    assert done + (token + rest) == (done + token) + rest;
  }

  lemma UnescapedEnd(s: string)
    ensures Unescaped(s, |s|) == ""
  {
  }

  /** The buffer is overwritten from its start while it is read ahead of that, and still the result is that of
      reading the original text. */
  method StringProcessEscapes(input: array<char>) returns (length: nat)
    modifies input
    ensures length <= input.Length
    ensures input[..length] == Unescaped(old(input[..]), 0)
  {
    hide Unescaped;
    ghost var text := input[..];
    var inputIdx, outputIdx := 0, 0;
    while inputIdx < input.Length
      invariant outputIdx <= inputIdx <= input.Length
      invariant forall k :: inputIdx <= k < input.Length ==> input[k] == text[k]
      invariant input[..outputIdx] + Unescaped(text, inputIdx) == Unescaped(text, 0)
    {
      ghost var done, token := input[..outputIdx], Token(text, inputIdx).1;
      UnescapedStep(done, text, inputIdx);
      var c := input[inputIdx];
      if c == '\\' && inputIdx + 1 < input.Length {
        inputIdx := inputIdx + 1;
        var escaped := input[inputIdx];
        if escaped in {'n', 'r', 't', '\'', '\"', '\\'} {
          input[outputIdx] := Simple(escaped).value;
          outputIdx := outputIdx + 1;
        } else if escaped == 'x' && inputIdx + 2 < input.Length &&
            StrtolOfTwo(input[inputIdx + 1], input[inputIdx + 2]).Some? {
          var val := StrtolOfTwo(input[inputIdx + 1], input[inputIdx + 2]).value;
          inputIdx := inputIdx + 2;
          input[outputIdx] := ByteOf(val);
          outputIdx := outputIdx + 1;
        } else {
          input[outputIdx] := '\\';
          outputIdx := outputIdx + 1;
          input[outputIdx] := input[inputIdx];
          outputIdx := outputIdx + 1;
        }
      } else {
        input[outputIdx] := input[inputIdx];
        outputIdx := outputIdx + 1;
      }
      inputIdx := inputIdx + 1;
      assert input[..outputIdx] == done + token;
    }
    UnescapedEnd(text);
    length := outputIdx;
  }

  /** Doubling every backslash protects any text. */
  function Protected(s: string): string {
    if s == "" then ""
    else (if s[0] == '\\' then "\\\\" else [s[0]]) + Protected(s[1..])
  }

  lemma TokenTail(s: string, t: string, i: nat)
    requires i < |t|
    ensures Token(s + t, |s| + i) == Token(t, i)
  {
    hide Simple;
    hide StrtolOfTwo;
    assert forall k :: i <= k < |t| ==> (s + t)[|s| + k] == t[k];
  }

  lemma {:induction false} UnescapedTail(s: string, t: string, i: nat)
    requires i <= |t|
    ensures Unescaped(s + t, |s| + i) == Unescaped(t, i)
    decreases |t| - i
  {
    hide Token;
    if i < |t| {
      TokenTail(s, t, i);
      UnescapedTail(s, t, i + Token(t, i).0);
    }
  }

  lemma {:induction false} ProtectedTextSurvives(s: string)
    ensures Unescaped(Protected(s), 0) == s
  {
    if s != "" {
      var head, rest := if s[0] == '\\' then "\\\\" else [s[0]], Protected(s[1..]);
      assert Protected(s) == head + rest;
      assert Token(Protected(s), 0) == (|head|, [s[0]]);
      UnescapedTail(head, rest, 0);
      ProtectedTextSurvives(s[1..]);
    }
  }

  // ---- What an escape stands for

  /** A piece of text as written, and the text that it stands for. */
  datatype Piece = Piece(written: string, meant: string)

  predicate IsHexDigit(c: char, v: nat) {
    v < 16 && (c == "0123456789abcdef"[v] || c == "0123456789ABCDEF"[v])
  }

  /** Two digits behind a backslash and an x. */
  predicate StandsForByte(p: Piece, h: nat, l: nat) {
    && |p.written| == 4 && p.written[0] == '\\' && p.written[1] == 'x'
    && IsHexDigit(p.written[2], h) && IsHexDigit(p.written[3], l) && p.meant == [(16 * h + l) as char]
  }

  /** A line break, a carriage return, a tab, a quotation mark or a backslash behind a backslash; two digits for a
      byte; any other character behind a backslash, for both; or one plain character. */
  ghost predicate IsPiece(p: Piece) {
    || (p.written == "\\n" && p.meant == [10 as char]) || (p.written == "\\r" && p.meant == [13 as char])
    || (p.written == "\\t" && p.meant == [9 as char]) || (p.written == "\\'" && p.meant == [39 as char])
    || (p.written == "\\\"" && p.meant == [34 as char]) || (p.written == "\\\\" && p.meant == "\\")
    || (exists h: nat, l: nat :: StandsForByte(p, h, l))
    || (|p.written| == 2 && p.written[0] == '\\' && p.written[1] !in "nrtx'\"\\" && p.meant == p.written)
    || (|p.written| == 1 && p.written[0] != '\\' && p.meant == p.written)
  }

  function Writing(pieces: seq<Piece>): string {
    if pieces == [] then "" else pieces[0].written + Writing(pieces[1..])
  }

  function Meaning(pieces: seq<Piece>): string {
    if pieces == [] then "" else pieces[0].meant + Meaning(pieces[1..])
  }

  lemma HexDigitIsRead(c: char, v: nat)
    requires IsHexDigit(c, v)
    ensures HexValue(c) == Some(v)
  {
  }

  lemma ByteIsRead(p: Piece, h: nat, l: nat, s: string)
    requires StandsForByte(p, h, l) && p.written <= s
    ensures Token(s, 0) == (4, p.meant)
  {
    HexDigitIsRead(p.written[2], h);
    HexDigitIsRead(p.written[3], l);
    hide HexValue;
    assert forall k :: 0 <= k < 4 ==> s[k] == p.written[k];
    assert StrtolOfTwo(s[2], s[3]) == Some(16 * h + l);
    assert ByteOf(16 * h + l) == (16 * h + l) as char;
    assert Simple('x').None?;
  }

  lemma PieceIsRead(p: Piece, rest: string)
    requires IsPiece(p)
    ensures Token(p.written + rest, 0) == (|p.written|, p.meant)
  {
    var s := p.written + rest;
    if h: nat, l: nat :| StandsForByte(p, h, l) {
      ByteIsRead(p, h, l, s);
    } else {
      OtherPieceIsRead(p, s);
    }
  }

  lemma OtherPieceIsRead(p: Piece, s: string)
    requires IsPiece(p) && p.written <= s && !exists h: nat, l: nat :: StandsForByte(p, h, l)
    ensures Token(s, 0) == (|p.written|, p.meant)
  {
    assert forall k :: 0 <= k < |p.written| ==> s[k] == p.written[k];
    assert p.written == if |p.written| == 1 then [s[0]] else [s[0], s[1]];
  }

  /** A text that is written in pieces is unescaped to what the pieces stand for. */
  lemma {:induction false} PiecesAreRead(pieces: seq<Piece>)
    requires forall i :: 0 <= i < |pieces| ==> IsPiece(pieces[i])
    ensures Unescaped(Writing(pieces), 0) == Meaning(pieces)
  {
    hide IsPiece;
    if pieces != [] {
      var p, rest := pieces[0], Writing(pieces[1..]);
      PieceIsRead(p, rest);
      PieceHasText(p);
      hide Token;
      UnescapedTail(p.written, rest, 0);
      UnescapedStep("", p.written + rest, 0);
      PiecesAreRead(pieces[1..]);
    }
  }

  lemma PieceHasText(p: Piece)
    requires IsPiece(p)
    ensures p.written != ""
  {
  }

  /** A backslash at the end stays, and so does one in front of an x without two characters that make a number. */
  lemma OtherwiseKept(s: string, i: nat)
    requires i < |s| && s[i] == '\\'
    ensures i + 1 == |s| ==> Token(s, i) == (1, "\\")
    ensures i + 1 < |s| && s[i + 1] == 'x' && (i + 3 < |s| ==> s[i + 3] !in "0123456789abcdefABCDEF") ==>
              Token(s, i) == (2, "\\x")
  {
    if i + 3 < |s| && HexValue(s[i + 3]).Some? {
      var v, c := HexValue(s[i + 3]).value, s[i + 3];
      assert c == "0123456789abcdefABCDEF"[if c <= 'F' && 'A' <= c then v + 6 else v];
    }
  }
}
