/**
 String literals by the grammar of section 7 of RFC 8259: a body is a row of characters and
 escapes, and means the row of what they stand for. Characters are UTF-8, whose well-formed
 sequences are exactly the encodings of scalar values (section 3 of RFC 3629).
 */
module JsonEscapes {
  import opened Wrappers
  import opened Lines
  import opened Utf8
  import opened JsonText

  // ----- scalar values and their encodings

  predicate IsScalar(c: nat) {
    c <= 0x10ffff && !(0xd800 <= c <= 0xdfff)
  }

  lemma EncodedIsWhole(c: nat)
    requires IsScalar(c)
    ensures Whole(Encode(c)) && ScalarOf(Encode(c)) == c
  {
    assert c == c / 64 * 64 + c % 64;
    assert c / 64 == c / 4096 * 64 + c / 64 % 64;
    assert c / 4096 == c / 262144 * 64 + c / 4096 % 64;
  }

  lemma By64(c: nat, q: nat, r: nat)
    requires c == q * 64 + r && r < 64
    ensures c / 64 == q && c % 64 == r
  {
  }

  lemma By4096(c: nat)
    ensures c / 4096 == c / 64 / 64 && c / 262144 == c / 4096 / 64
  {
  }

  lemma WholeIsScalar(w: seq<byte>)
    requires Whole(w)
    ensures IsScalar(ScalarOf(w))
    ensures |w| == if ScalarOf(w) < 0x80 then 1 else if ScalarOf(w) < 0x800 then 2 else if ScalarOf(w) < 0x10000 then 3 else 4
  {
  }

  lemma WholeIsEncoded(w: seq<byte>)
    requires Whole(w)
    ensures IsScalar(ScalarOf(w)) && Encode(ScalarOf(w)) == w
  {
    WholeIsScalar(w);
    var c, n := ScalarOf(w), |w|;
    if n > 1 {
      var q := if n == 2 then w[0] - 0xc0
               else if n == 3 then (w[0] - 0xe0) * 64 + Low(w[1])
               else ((w[0] - 0xf0) * 64 + Low(w[1])) * 64 + Low(w[2]);
      By64(c, q, Low(w[n - 1]));
      if n == 3 {
        By64(q, w[0] - 0xe0, Low(w[1]));
      } else if n == 4 {
        By64(q, (w[0] - 0xf0) * 64 + Low(w[1]), Low(w[2]));
        By64((w[0] - 0xf0) * 64 + Low(w[1]), w[0] - 0xf0, Low(w[1]));
      }
      By4096(c);
    }
  }

  /** A sequence of bytes is well formed exactly when it encodes a scalar value. */
  lemma WholeIffEncoded(w: seq<byte>)
    ensures Whole(w) <==> exists c: nat :: IsScalar(c) && w == Encode(c)
  {
    hide Whole, Encode, ScalarOf;
    if Whole(w) {
      WholeIsEncoded(w);
    }
    if c: nat :| IsScalar(c) && w == Encode(c) {
      EncodedIsWhole(c);
    }
  }

  // ----- the grammar

  datatype Piece =
    /** A byte that stands for itself. */
    | Itself(b: byte)
    /** A backslash and one of eight marks. */
    | Marked(mark: byte)
    /** The number of a character, in four hexadecimal digits. */
    | Numbered(h: seq<byte>)
    /** A character beyond four digits, as its two surrogates. */
    | Pair(h: seq<byte>, l: seq<byte>)

  const MARKS: map<byte, byte> :=
    map[0x22 := 0x22, 0x5c := 0x5c, 0x2f := 0x2f, 0x62 := 0x08, 0x66 := 0x0c, 0x6e := 0x0a, 0x72 := 0x0d, 0x74 := 0x09]

  const LOWER_HEX := "0123456789abcdef"
  const UPPER_HEX := "0123456789ABCDEF"

  predicate HexStandsFor(b: byte, n: nat) {
    n < 16 && (b == LOWER_HEX[n] as int || b == UPPER_HEX[n] as int)
  }

  ghost predicate Counts(h: seq<byte>, c: nat) {
    exists n0: nat, n1: nat, n2: nat, n3: nat ::
      && |h| == 4
      && HexStandsFor(h[0], n0) && HexStandsFor(h[1], n1) && HexStandsFor(h[2], n2) && HexStandsFor(h[3], n3)
      && c == n0 * 4096 + n1 * 256 + n2 * 16 + n3
  }

  /** These bytes are the character with this number. */
  predicate IsCharacter(t: seq<byte>, c: nat) {
    Whole(t) && ScalarOf(t) == c
  }

  function Spelled(p: Piece): seq<byte> {
    match p
    case Itself(b) => [b]
    case Marked(mark) => [0x5c, mark]
    case Numbered(h) => [0x5c, 0x75] + h
    case Pair(h, l) => [0x5c, 0x75] + h + [0x5c, 0x75] + l
  }

  /** The piece is written as it may be, and stands for `t`. */
  ghost predicate StandsFor(p: Piece, t: seq<byte>) {
    match p
    case Itself(b) => 0x20 <= b && b != 0x22 && b != 0x5c && t == [b]
    case Marked(mark) => mark in MARKS && t == [MARKS[mark]]
    case Numbered(h) => exists c: nat :: Counts(h, c) && IsCharacter(t, c)
    case Pair(h, l) =>
      exists high: nat, low: nat ::
        && Counts(h, high) && Counts(l, low) && 0xd800 <= high < 0xdc00 <= low < 0xe000
        && IsCharacter(t, 0x10000 + (high - 0xd800) * 0x400 + (low - 0xdc00))
  }

  /** The pieces spell the body, and stand for the text, one after the other. */
  ghost predicate Reads(ps: seq<Piece>, body: seq<byte>, text: seq<byte>)
    decreases |ps|
  {
    if ps == [] then body == [] && text == []
    else
      exists rest, t, more ::
        && body == Spelled(ps[0]) + rest && text == t + more
        && StandsFor(ps[0], t) && Reads(ps[1..], rest, more)
  }

  // ----- the decoder, piece by piece

  lemma DigitStandsFor(b: byte)
    ensures Hex(b) ==> HexStandsFor(b, HexValue(b))
    ensures forall n: nat :: HexStandsFor(b, n) ==> Hex(b) && HexValue(b) == n
  {
  }

  lemma CodeCounts(h: seq<byte>)
    ensures |h| == 4 && AllHex(h) ==> Counts(h, Code(h))
    ensures forall c: nat :: Counts(h, c) ==> |h| == 4 && AllHex(h) && Code(h) == c
  {
    hide HexStandsFor, Hex, HexValue;
    forall i | 0 <= i < |h|
      ensures Hex(h[i]) ==> HexStandsFor(h[i], HexValue(h[i]))
      ensures forall n: nat :: HexStandsFor(h[i], n) ==> Hex(h[i]) && HexValue(h[i]) == n
    {
      DigitStandsFor(h[i]);
    }
  }

  lemma MarksExactly(b: byte)
    ensures Short(b) == if b in MARKS then Some(MARKS[b]) else None
  {
  }

  lemma CharacterExactly(t: seq<byte>, c: nat)
    requires c <= 0x10ffff
    ensures IsCharacter(t, c) <==> IsScalar(c) && t == Encode(c)
  {
    hide Whole, Encode, ScalarOf;
    if IsCharacter(t, c) {
      WholeIsEncoded(t);
    }
    if IsScalar(c) {
      EncodedIsWhole(c);
    }
  }

  /** The piece a body starts with. */
  function PieceOf(s: seq<byte>): Piece
    requires s != [] && NextPiece(s).Some?
  {
    var k := NextPiece(s).value.0;
    if k == 1 then Itself(s[0]) else if k == 2 then Marked(s[1])
    else if k == 6 then Numbered(s[2..6]) else Pair(s[2..6], s[6..][2..6])
  }

  lemma EscapeParts(s: seq<byte>)
    requires UnicodeEscape(s)
    ensures s == [0x5c, 0x75] + s[2..6] + s[6..] && |s[2..6]| == 4
  {
  }

  lemma NumberStandsFor(h: seq<byte>, t: seq<byte>)
    requires |h| == 4 && AllHex(h)
    ensures StandsFor(Numbered(h), t) <==> !High(Code(h)) && !LowHalf(Code(h)) && t == Encode(Code(h))
  {
    CodeCounts(h);
    CodeBound(h);
    hide Counts, Encode, ScalarOf, Whole, Code, AllHex, IsCharacter;
    CharacterExactly(t, Code(h));
  }

  lemma PairStandsFor(h: seq<byte>, l: seq<byte>, t: seq<byte>)
    requires |h| == 4 && AllHex(h) && |l| == 4 && AllHex(l)
    ensures StandsFor(Pair(h, l), t) <==> High(Code(h)) && LowHalf(Code(l)) && t == Encode(Joined(Code(h), Code(l)))
  {
    CodeCounts(h);
    CodeCounts(l);
    hide Counts, Encode, ScalarOf, Whole, Code, AllHex, IsCharacter;
    if High(Code(h)) && LowHalf(Code(l)) {
      CharacterExactly(t, Joined(Code(h), Code(l)));
    }
  }

  /** What the decoder makes of a body that starts with a numbered escape. */
  lemma NextNumber(s: seq<byte>)
    requires UnicodeEscape(s)
    ensures var c, r := Code(s[2..6]), NextPiece(s); var pair := UnicodeEscape(s[6..]) && LowHalf(Code(s[6..][2..6]));
      && c <= 0xffff
      && (r.Some? <==> (!High(c) && !LowHalf(c)) || (High(c) && pair))
      && (r.Some? && !High(c) ==> r.value == (6, Encode(c)))
      && (r.Some? && High(c) ==> r.value == (12, Encode(Joined(c, Code(s[6..][2..6])))))
  {
    CodeBound(s[2..6]);
    hide Encode, Code, AllHex;
  }

  lemma NextStandsFor(s: seq<byte>)
    requires s != [] && NextPiece(s).Some?
    ensures s == Spelled(PieceOf(s)) + s[NextPiece(s).value.0..] && StandsFor(PieceOf(s), NextPiece(s).value.1)
  {
    var k, t := NextPiece(s).value.0, NextPiece(s).value.1;
    if UnicodeEscape(s) {
      EscapeParts(s);
      NextNumber(s);
      hide NextPiece, Encode, Code, AllHex, Joined, StandsFor;
      if k == 6 {
        NumberStandsFor(s[2..6], t);
      } else {
        EscapeParts(s[6..]);
        PairStandsFor(s[2..6], s[6..][2..6], t);
      }
    } else if k == 2 {
      MarksExactly(s[1]);
    }
  }

  lemma SpelledNumber(h: seq<byte>, rest: seq<byte>)
    requires |h| == 4 && AllHex(h)
    ensures var s := Spelled(Numbered(h)) + rest; UnicodeEscape(s) && s[2..6] == h && s[6..] == rest
  {
    var s := Spelled(Numbered(h)) + rest;
    assert s[2..6] == h && s[6..] == rest;
  }

  lemma NumberedIsNext(h: seq<byte>, rest: seq<byte>, t: seq<byte>)
    requires StandsFor(Numbered(h), t)
    ensures NextPiece(Spelled(Numbered(h)) + rest) == Some((6, t))
  {
    assert |h| == 4 && AllHex(h) by { CodeCounts(h); }
    NumberStandsFor(h, t);
    SpelledNumber(h, rest);
    NextNumber(Spelled(Numbered(h)) + rest);
  }

  lemma PairIsHex(h: seq<byte>, l: seq<byte>, t: seq<byte>)
    requires StandsFor(Pair(h, l), t)
    ensures |h| == 4 && AllHex(h) && |l| == 4 && AllHex(l)
  {
    CodeCounts(h);
    CodeCounts(l);
    hide Counts;
  }

  lemma PairSpells(h: seq<byte>, l: seq<byte>, rest: seq<byte>)
    ensures Spelled(Pair(h, l)) + rest == Spelled(Numbered(h)) + (Spelled(Numbered(l)) + rest)
  {
  }

  lemma PairIsNext(h: seq<byte>, l: seq<byte>, rest: seq<byte>, t: seq<byte>)
    requires StandsFor(Pair(h, l), t)
    ensures NextPiece(Spelled(Pair(h, l)) + rest) == Some((12, t))
  {
    hide StandsFor, AllHex, Encode, Code, Joined, NextPiece, Spelled, UnicodeEscape;
    PairIsHex(h, l, t);
    PairStandsFor(h, l, t);
    PairSpells(h, l, rest);
    SpelledNumber(h, Spelled(Numbered(l)) + rest);
    SpelledNumber(l, rest);
    NextNumber(Spelled(Numbered(h)) + (Spelled(Numbered(l)) + rest));
  }

  lemma SpelledIsNext(p: Piece, rest: seq<byte>, t: seq<byte>)
    requires StandsFor(p, t)
    ensures NextPiece(Spelled(p) + rest) == Some((|Spelled(p)|, t))
    ensures (Spelled(p) + rest)[|Spelled(p)|..] == rest
  {
    match p
    case Itself(_) =>
    case Marked(mark) => MarksExactly(mark);
    case Numbered(h) =>
      NumberedIsNext(h, rest, t);
      assert |h| == 4 by { CodeCounts(h); }
    case Pair(h, l) =>
      PairIsNext(h, l, rest, t);
      assert |h| == 4 && |l| == 4 by {
        CodeCounts(h);
        CodeCounts(l);
      }
  }

  lemma {:induction false} DecodedReads(body: seq<byte>) returns (ps: seq<Piece>)
    requires Decode(body).Some?
    ensures Reads(ps, body, Decode(body).value)
    decreases |body|
  {
    if body == [] {
      ps := [];
    } else {
      var k, t := NextPiece(body).value.0, NextPiece(body).value.1;
      NextStandsFor(body);
      hide NextPiece, StandsFor, Spelled;
      var more := DecodedReads(body[k..]);
      ps := [PieceOf(body)] + more;
      assert ps[0] == PieceOf(body) && ps[1..] == more;
    }
  }

  lemma {:induction false} ReadIsDecoded(ps: seq<Piece>, body: seq<byte>, text: seq<byte>)
    requires Reads(ps, body, text)
    ensures Decode(body) == Some(text)
    decreases |ps|
  {
    if ps != [] {
      var rest, t, more :| body == Spelled(ps[0]) + rest && text == t + more && StandsFor(ps[0], t) && Reads(ps[1..], rest, more);
      SpelledIsNext(ps[0], rest, t);
      assert Spelled(ps[0]) != [];
      hide NextPiece, StandsFor, Spelled;
      ReadIsDecoded(ps[1..], rest, more);
    }
  }

  /** The decoder answers with a text exactly when the body reads as it, by the grammar. */
  lemma DecodesExactly(body: seq<byte>, text: seq<byte>)
    ensures Decode(body) == Some(text) <==> exists ps :: Reads(ps, body, text)
  {
    hide Decode, Reads;
    if Decode(body) == Some(text) {
      var ps := DecodedReads(body);
    }
    if ps :| Reads(ps, body, text) {
      ReadIsDecoded(ps, body, text);
    }
  }
}
