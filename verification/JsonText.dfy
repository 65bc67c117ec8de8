/**
 The leaves of JSON: string literals with their escapes, and numbers by the grammar of
 section 6 of RFC 8259. Texts are UTF-8 bytes.
 */
module JsonText {
  import opened Wrappers
  import opened Lines

  const QUOTE: byte := 0x22
  const SLASH: byte := 0x5c

  predicate Digit(b: byte) { 0x30 <= b <= 0x39 }

  predicate Hex(b: byte) {
    Digit(b) || 0x61 <= b <= 0x66 || 0x41 <= b <= 0x46
  }

  function HexValue(b: byte): nat
    requires Hex(b)
  {
    if Digit(b) then b - 0x30 else if b >= 0x61 then b - 0x61 + 10 else b - 0x41 + 10
  }

  predicate AllHex(b: seq<byte>) {
    forall i :: 0 <= i < |b| ==> Hex(b[i])
  }

  function Code(b: seq<byte>): nat
    requires |b| == 4 && AllHex(b)
  {
    HexValue(b[0]) * 4096 + HexValue(b[1]) * 256 + HexValue(b[2]) * 16 + HexValue(b[3])
  }

  // ----- finding the end of a string

  /** How far one character or escape reaches; 0 when it is neither. */
  function SkipLen(s: seq<byte>): (k: nat)
    ensures k <= |s|
  {
    if s == [] || s[0] < 0x20 then 0
    else if s[0] != SLASH then 1
    else if |s| < 2 then 0
    else if s[1] != 0x75 then 2
    else if |s| >= 6 && AllHex(s[2..6]) then 6
    else 0
  }

  /** The length of a string's body up to its closing quote; absent when it has none. */
  function BodyLen(s: seq<byte>): (n: Option<nat>)
    ensures n.Some? ==> n.value < |s| && s[n.value] == QUOTE
    decreases |s|
  {
    if StartsWith(s, QUOTE) then Some(0)
    else
      var k := SkipLen(s);
      if k == 0 then None
      else
        var n := BodyLen(s[k..]);
        if n.None? then None else Some(k + n.value)
  }

  predicate StartsWith(s: seq<byte>, b: byte) {
    s != [] && s[0] == b
  }

  // ----- decoding a body

  /** The UTF-8 form of a scalar value. */
  function Encode(c: nat): seq<byte>
    requires c <= 0x10ffff
  {
    if c < 0x80 then [c]
    else if c < 0x800 then [0xc0 + c / 64, 0x80 + c % 64]
    else if c < 0x10000 then [0xe0 + c / 4096, 0x80 + c / 64 % 64, 0x80 + c % 64]
    else [0xf0 + c / 262144, 0x80 + c / 4096 % 64, 0x80 + c / 64 % 64, 0x80 + c % 64]
  }

  predicate High(c: nat) { 0xd800 <= c <= 0xdbff }

  predicate LowHalf(c: nat) { 0xdc00 <= c <= 0xdfff }

  function Joined(high: nat, low: nat): (c: nat)
    requires High(high) && LowHalf(low)
    ensures 0x10000 <= c <= 0x10ffff
  {
    0x10000 + (high - 0xd800) * 1024 + (low - 0xdc00)
  }

  /** What a two-byte escape stands for. */
  function Short(b: byte): Option<byte> {
    if b == QUOTE || b == SLASH || b == 0x2f then Some(b)
    else if b == 0x62 then Some(0x08)
    else if b == 0x66 then Some(0x0c)
    else if b == 0x6e then Some(0x0a)
    else if b == 0x72 then Some(0x0d)
    else if b == 0x74 then Some(0x09)
    else None
  }

  predicate UnicodeEscape(s: seq<byte>) {
    |s| >= 6 && s[0] == SLASH && s[1] == 0x75 && AllHex(s[2..6])
  }

  /** How many bytes of a body stand for the next piece of text, and which; absent when they are no escape. */
  function NextPiece(s: seq<byte>): (r: Option<(nat, seq<byte>)>)
    requires s != []
    ensures r.Some? ==> 0 < r.value.0 <= |s|
  {
    if s[0] != SLASH then (if s[0] < 0x20 || s[0] == QUOTE then None else Some((1, [s[0]])))
    else if |s| > 1 && s[1] != 0x75 then
      var c := Short(s[1]);
      if c.None? then None else Some((2, [c.value]))
    else if !UnicodeEscape(s) then None
    else
      var c := Code(s[2..6]);
      CodeBound(s[2..6]);
      if LowHalf(c) then None
      else if !High(c) then Some((6, Encode(c)))
      else if UnicodeEscape(s[6..]) && LowHalf(Code(s[6..][2..6])) then
        Some((12, Encode(Joined(c, Code(s[6..][2..6])))))
      else None
  }

  lemma CodeBound(b: seq<byte>)
    requires |b| == 4 && AllHex(b)
    ensures Code(b) <= 0xffff
  {
  }

  function Decode(body: seq<byte>): Option<seq<byte>>
    decreases |body|
  {
    if body == [] then Some([])
    else
      var piece := NextPiece(body);
      if piece.None? then None
      else
        var rest := Decode(body[piece.value.0..]);
        if rest.None? then None else Some(piece.value.1 + rest.value)
  }

  // ----- rendering a text

  function HexDigit(n: nat): byte
    requires n < 16
  {
    if n < 10 then 0x30 + n else 0x61 + n - 10
  }

  /** The compact form of one byte of text. */
  function Quoted(b: byte): seq<byte> {
    if b == QUOTE || b == SLASH then [SLASH, b]
    else if b == 0x08 then [SLASH, 0x62]
    else if b == 0x0c then [SLASH, 0x66]
    else if b == 0x0a then [SLASH, 0x6e]
    else if b == 0x0d then [SLASH, 0x72]
    else if b == 0x09 then [SLASH, 0x74]
    else if b < 0x20 then [SLASH, 0x75, 0x30, 0x30, HexDigit(b / 16), HexDigit(b % 16)]
    else [b]
  }

  function RenderText(t: seq<byte>): seq<byte> {
    if t == [] then [] else Quoted(t[0]) + RenderText(t[1..])
  }

  lemma Regroup(a: seq<byte>, b: seq<byte>, c: seq<byte>)
    ensures (a + b) + c == a + (b + c)
  {
  }

  lemma BodyStep(all: seq<byte>, k: nat)
    requires !StartsWith(all, QUOTE) && SkipLen(all) == k > 0
    ensures BodyLen(all[k..]).Some? ==> BodyLen(all) == Some(k + BodyLen(all[k..]).value)
  {
    hide SkipLen, StartsWith;
  }

  lemma QuotedPiece(b: byte, s: seq<byte>)
    ensures NextPiece(Quoted(b) + s) == Some((|Quoted(b)|, [b]))
  {
    var q := Quoted(b);
    if |q| == 6 {
      var all := q + s;
      assert all[2..6] == q[2..6] && AllHex(q[2..6]);
      assert Code(all[2..6]) == b;
      assert Encode(b) == [b];
    }
  }

  lemma {:induction false} DecodeRendered(t: seq<byte>)
    ensures Decode(RenderText(t)) == Some(t)
    decreases |t|
  {
    if t == [] {
    } else {
      DecodeRendered(t[1..]);
      hide Quoted, NextPiece;
      var q, rest := Quoted(t[0]), RenderText(t[1..]);
      QuotedPiece(t[0], rest);
      assert (q + rest)[|q|..] == rest;
      assert [t[0]] + t[1..] == t;
      assert q + rest != [] by { QuotedNonempty(t[0]); }
    }
  }

  lemma QuotedNonempty(b: byte)
    ensures Quoted(b) != []
  {
  }

  /** Where a piece of text ends, the scan of the body stops too. */
  lemma PieceSkips(s: seq<byte>)
    requires s != [] && NextPiece(s).Some?
    ensures !StartsWith(s, QUOTE) && s[0] >= 0x20
    ensures var k := NextPiece(s).value.0;
      if k == 12 then SkipLen(s) == 6 && SkipLen(s[6..]) == 6 && !StartsWith(s[6..], QUOTE) else SkipLen(s) == k
  {
  }

  lemma SkipExtends(s: seq<byte>, rest: seq<byte>)
    requires SkipLen(s) > 0 && !StartsWith(s, QUOTE)
    ensures SkipLen(s + rest) == SkipLen(s) && !StartsWith(s + rest, QUOTE)
  {
    if |s| >= 6 {
      assert (s + rest)[2..6] == s[2..6];
    }
  }

  /** The body of a decodable string ends at the first quote after it. */
  lemma {:induction false} DecodedEnds(body: seq<byte>, rest: seq<byte>)
    requires Decode(body).Some?
    ensures BodyLen(body + ([QUOTE] + rest)) == Some(|body|)
    decreases |body|
  {
    var close := [QUOTE] + rest;
    if body == [] {
      assert body + close == close;
    } else {
      PieceSkips(body);
      var k := NextPiece(body).value.0;
      hide NextPiece, SkipLen, BodyLen;
      DecodedEnds(body[k..], rest);
      if k == 12 {
        SkipBody(body[6..], close);
        SkipBody(body, close);
        assert body[6..][6..] == body[12..];
      } else {
        SkipBody(body, close);
      }
    }
  }

  lemma SkipBody(s: seq<byte>, rest: seq<byte>)
    requires SkipLen(s) > 0 && !StartsWith(s, QUOTE) && BodyLen(s[SkipLen(s)..] + rest).Some?
    ensures BodyLen(s + rest) == Some(SkipLen(s) + BodyLen(s[SkipLen(s)..] + rest).value)
  {
    hide BodyLen, SkipLen;
    SkipExtends(s, rest);
    TailOf(s, rest, SkipLen(s));
    BodyStep(s + rest, SkipLen(s));
  }

  // ----- numbers

  /** The number of leading digits. */
  function DigitRun(s: seq<byte>): (n: nat)
    ensures n <= |s|
  {
    if s != [] && Digit(s[0]) then 1 + DigitRun(s[1..]) else 0
  }

  function SignLen(s: seq<byte>): nat {
    if StartsWith(s, 0x2d) then 1 else 0
  }

  /** The integer part: a lone zero or a run of digits; 0 when there is none. */
  function IntLen(s: seq<byte>): (n: nat)
    ensures n <= |s|
  {
    if StartsWith(s, 0x30) then 1 else DigitRun(s)
  }

  function FracLen(s: seq<byte>): (n: Option<nat>)
    ensures n.Some? ==> n.value <= |s|
  {
    if !StartsWith(s, 0x2e) then Some(0)
    else if DigitRun(s[1..]) == 0 then None
    else Some(1 + DigitRun(s[1..]))
  }

  function ExpSignLen(s: seq<byte>): nat {
    if StartsWith(s, 0x2b) || StartsWith(s, 0x2d) then 1 else 0
  }

  function ExpLen(s: seq<byte>): (n: Option<nat>)
    ensures n.Some? ==> n.value <= |s|
  {
    if !StartsWith(s, 0x65) && !StartsWith(s, 0x45) then Some(0)
    else
      var k := 1 + ExpSignLen(s[1..]);
      if DigitRun(s[k..]) == 0 then None else Some(k + DigitRun(s[k..]))
  }

  /** A fraction and an exponent, either of which may be missing. */
  function TailLen(s: seq<byte>): (n: Option<nat>)
    ensures n.Some? ==> n.value <= |s|
  {
    var c := FracLen(s);
    if c.None? then None
    else
      var d := ExpLen(s[c.value..]);
      if d.None? then None else Some(c.value + d.value)
  }

  function UnsignedLen(s: seq<byte>): (n: Option<nat>)
    ensures n.Some? ==> 0 < n.value <= |s|
  {
    var b := IntLen(s);
    if b == 0 then None
    else
      var t := TailLen(s[b..]);
      if t.None? then None else Some(b + t.value)
  }

  /** The length of the number at the start of `s`. */
  function NumLen(s: seq<byte>): (n: Option<nat>)
    ensures n.Some? ==> 0 < n.value <= |s|
  {
    var u := UnsignedLen(s[SignLen(s)..]);
    if u.None? then None else Some(SignLen(s) + u.value)
  }

  /** A byte that cannot continue a number. */
  predicate Stops(rest: seq<byte>) {
    rest != [] ==>
      && !Digit(rest[0]) && rest[0] != 0x2e && rest[0] != 0x65 && rest[0] != 0x45
      && rest[0] != 0x2b && rest[0] != 0x2d
  }

  lemma {:induction false} DigitRunStops(s: seq<byte>, rest: seq<byte>)
    requires Stops(rest)
    ensures DigitRun(s + rest) == DigitRun(s)
    decreases |s|
  {
    if s == [] {
      assert s + rest == rest;
    } else {
      assert (s + rest)[0] == s[0] && (s + rest)[1..] == s[1..] + rest;
      DigitRunStops(s[1..], rest);
    }
  }

  lemma TailOf(s: seq<byte>, rest: seq<byte>, k: nat)
    requires k <= |s|
    ensures (s + rest)[k..] == s[k..] + rest
  {
  }

  lemma IntStops(s: seq<byte>, rest: seq<byte>)
    requires Stops(rest)
    ensures SignLen(s + rest) == SignLen(s) && IntLen(s + rest) == IntLen(s)
  {
    DigitRunStops(s, rest);
    if s == [] {
      assert s + rest == rest;
    }
  }

  lemma FracStops(s: seq<byte>, rest: seq<byte>)
    requires Stops(rest)
    ensures FracLen(s + rest) == FracLen(s)
  {
    if s == [] {
      assert s + rest == rest;
    } else {
      TailOf(s, rest, 1);
      DigitRunStops(s[1..], rest);
    }
  }

  lemma ExpStops(s: seq<byte>, rest: seq<byte>)
    requires Stops(rest)
    ensures ExpLen(s + rest) == ExpLen(s)
  {
    hide DigitRun;
    if s == [] {
      assert s + rest == rest;
    } else {
      TailOf(s, rest, 1);
      ExpSignStops(s[1..], rest);
      var k := 1 + ExpSignLen(s[1..]);
      TailOf(s, rest, k);
      DigitRunStops(s[k..], rest);
    }
  }

  lemma ExpSignStops(s: seq<byte>, rest: seq<byte>)
    requires Stops(rest)
    ensures ExpSignLen(s + rest) == ExpSignLen(s)
  {
    if s == [] {
      assert s + rest == rest;
    }
  }

  lemma TailStops(s: seq<byte>, rest: seq<byte>)
    requires Stops(rest)
    ensures TailLen(s + rest) == TailLen(s)
  {
    hide Stops, FracLen, ExpLen;
    FracStops(s, rest);
    if FracLen(s).Some? {
      TailOf(s, rest, FracLen(s).value);
      ExpStops(s[FracLen(s).value..], rest);
    }
  }

  /** What follows a number does not change how long it is. */
  lemma NumStops(s: seq<byte>, rest: seq<byte>)
    requires Stops(rest)
    ensures NumLen(s + rest) == NumLen(s)
  {
    hide Stops, IntLen, TailLen;
    IntStops(s, rest);
    var u := s[SignLen(s)..];
    TailOf(s, rest, SignLen(s));
    IntStops(u, rest);
    TailOf(u, rest, IntLen(u));
    TailStops(u[IntLen(u)..], rest);
  }

  // ----- a number cut off after its last byte

  lemma Slice(s: seq<byte>, a: nat, n: nat)
    requires a <= n <= |s|
    ensures s[..n][a..] == s[a..][..n - a]
  {
  }

  lemma {:induction false} RunAlone(s: seq<byte>, k: nat)
    requires DigitRun(s) <= k <= |s|
    ensures DigitRun(s[..k]) == DigitRun(s)
    decreases |s|
  {
    if s != [] && Digit(s[0]) {
      Slice(s, 1, k);
      RunAlone(s[1..], k - 1);
    }
  }

  lemma IntAlone(s: seq<byte>, k: nat)
    requires 0 < IntLen(s) <= k <= |s|
    ensures IntLen(s[..k]) == IntLen(s)
  {
    RunAlone(s, if DigitRun(s) <= k then k else |s|);
  }

  lemma FracAlone(s: seq<byte>, k: nat)
    requires FracLen(s).Some? && FracLen(s).value <= k <= |s|
    ensures FracLen(s[..k]) == FracLen(s)
  {
    if StartsWith(s, 0x2e) {
      Slice(s, 1, k);
      RunAlone(s[1..], k - 1);
    }
  }

  lemma ExpAlone(s: seq<byte>, k: nat)
    requires ExpLen(s) == Some(k)
    ensures k <= |s| && ExpLen(s[..k]) == Some(k)
  {
    if k > 0 {
      var j := 1 + ExpSignLen(s[1..]);
      Slice(s, 1, k);
      assert ExpSignLen(s[..k][1..]) == ExpSignLen(s[1..]);
      Slice(s, j, k);
      RunAlone(s[j..], k - j);
    }
  }

  lemma TailAlone(s: seq<byte>, n: nat)
    requires TailLen(s) == Some(n)
    ensures TailLen(s[..n]) == Some(n)
  {
    hide FracLen, ExpLen;
    var c := FracLen(s).value;
    FracAlone(s, n);
    Slice(s, c, n);
    ExpAlone(s[c..], n - c);
  }

  lemma UnsignedAlone(s: seq<byte>, n: nat)
    requires UnsignedLen(s) == Some(n)
    ensures UnsignedLen(s[..n]) == Some(n)
  {
    hide IntLen, TailLen;
    var b := IntLen(s);
    IntAlone(s, n);
    Slice(s, b, n);
    TailAlone(s[b..], n - b);
  }

  /** A number's lexeme is a number of that length by itself. */
  lemma NumberAlone(s: seq<byte>, n: nat)
    requires NumLen(s) == Some(n)
    ensures NumLen(s[..n]) == Some(n)
  {
    hide UnsignedLen;
    var a := SignLen(s);
    Slice(s, a, n);
    UnsignedAlone(s[a..], n - a);
  }
}
