/** The number grammar of section 6 of RFC 8259, and the scanner that reads it. */
module JsonNumbers {
  import opened Wrappers
  import opened Lines
  import opened JsonText

  predicate Digits(s: seq<byte>) {
    s != [] && forall i :: 0 <= i < |s| ==> 0x30 <= s[i] <= 0x39
  }

  predicate IsInt(s: seq<byte>) {
    s == [0x30] || (Digits(s) && s[0] != 0x30)
  }

  predicate IsFrac(s: seq<byte>) {
    s == [] || (s[0] == 0x2e && Digits(s[1..]))
  }

  predicate IsExpSign(s: seq<byte>) {
    s == [] || s == [0x2b] || s == [0x2d]
  }

  ghost predicate IsExp(s: seq<byte>) {
    s == []
    || ((s[0] == 0x65 || s[0] == 0x45)
        && exists sign, digits :: s[1..] == sign + digits && IsExpSign(sign) && Digits(digits))
  }

  /** [ frac ] [ exp ] */
  ghost predicate IsTail(s: seq<byte>) {
    exists frac, exp :: s == frac + exp && IsFrac(frac) && IsExp(exp)
  }

  ghost predicate IsUnsigned(s: seq<byte>) {
    exists whole, tail :: s == whole + tail && IsInt(whole) && IsTail(tail)
  }

  /** number = [ minus ] int [ frac ] [ exp ] */
  ghost predicate IsNumber(s: seq<byte>) {
    IsUnsigned(s) || (s != [] && s[0] == 0x2d && IsUnsigned(s[1..]))
  }

  // ----- a run of digits

  lemma {:induction false} RunOfDigits(s: seq<byte>)
    ensures DigitRun(s) > 0 ==> Digits(s[..DigitRun(s)])
    decreases |s|
  {
    if s != [] && Digit(s[0]) {
      RunOfDigits(s[1..]);
      var n := DigitRun(s[1..]);
      assert s[..n + 1] == [s[0]] + s[1..][..n];
    }
  }

  lemma {:induction false} DigitsRun(s: seq<byte>, rest: seq<byte>)
    requires Digits(s) && (rest != [] ==> !Digit(rest[0]))
    ensures DigitRun(s + rest) == |s|
    decreases |s|
  {
    assert (s + rest)[1..] == s[1..] + rest;
    if |s| > 1 {
      DigitsRun(s[1..], rest);
    } else {
      assert s[1..] + rest == rest;
    }
  }

  // ----- scanned texts are numbers

  lemma IntScanned(s: seq<byte>)
    requires IntLen(s) > 0
    ensures IsInt(s[..IntLen(s)])
  {
    RunOfDigits(s);
  }

  lemma FracScanned(s: seq<byte>)
    requires FracLen(s).Some?
    ensures IsFrac(s[..FracLen(s).value])
  {
    if StartsWith(s, 0x2e) {
      RunOfDigits(s[1..]);
      var n := DigitRun(s[1..]);
      assert s[..n + 1][1..] == s[1..][..n];
    }
  }

  lemma ExpScanned(s: seq<byte>)
    requires ExpLen(s) == Some(|s|)
    ensures IsExp(s)
  {
    if s != [] {
      var k := 1 + ExpSignLen(s[1..]);
      RunOfDigits(s[k..]);
      var sign, digits := s[1..k], s[k..];
      assert digits[..DigitRun(digits)] == digits;
      assert s[1..] == sign + digits;
      assert k == 2 ==> sign == [s[1]];
    }
  }

  // ----- numbers are scanned to their end

  lemma SignThenDigits(sign: seq<byte>, digits: seq<byte>)
    requires IsExpSign(sign) && Digits(digits)
    ensures ExpSignLen(sign + digits) == |sign| && (sign + digits)[|sign|..] == digits
  {
    if sign == [] {
      assert sign + digits == digits;
    }
  }

  lemma DigitsAlone(digits: seq<byte>)
    requires Digits(digits)
    ensures DigitRun(digits) == |digits|
  {
    DigitsRun(digits, []);
    assert digits + [] == digits;
  }

  lemma ExpOf(s: seq<byte>, k: nat)
    requires s != [] && (s[0] == 0x65 || s[0] == 0x45)
    requires k == 1 + ExpSignLen(s[1..]) && k < |s| && DigitRun(s[k..]) == |s| - k
    ensures ExpLen(s) == Some(|s|)
  {
    hide DigitRun, ExpSignLen;
  }

  lemma ExpIsScanned(s: seq<byte>)
    requires IsExp(s)
    ensures ExpLen(s) == Some(|s|)
  {
    if s != [] {
      hide Digits, IsExpSign, DigitRun, ExpSignLen, ExpLen;
      var sign, digits :| s[1..] == sign + digits && IsExpSign(sign) && Digits(digits);
      SignThenDigits(sign, digits);
      DigitsAlone(digits);
      SomeDigits(digits);
      assert s[1 + |sign|..] == s[1..][|sign|..];
      ExpOf(s, 1 + |sign|);
    }
  }

  lemma SomeDigits(digits: seq<byte>)
    requires Digits(digits)
    ensures digits != []
  {
  }

  lemma FracIsScanned(frac: seq<byte>, exp: seq<byte>)
    requires IsFrac(frac) && IsExp(exp)
    ensures FracLen(frac + exp) == Some(|frac|)
  {
    var s := frac + exp;
    if frac == [] {
      assert s == exp;
    } else {
      assert s[1..] == frac[1..] + exp;
      DigitsRun(frac[1..], exp);
    }
  }

  lemma IntIsScanned(whole: seq<byte>, rest: seq<byte>)
    requires IsInt(whole) && (rest != [] ==> !Digit(rest[0]))
    ensures IntLen(whole + rest) == |whole|
  {
    if whole != [0x30] {
      DigitsRun(whole, rest);
    }
  }

  lemma Halves(s: seq<byte>, k: nat)
    requires k <= |s|
    ensures s == s[..k] + s[k..]
  {
  }

  lemma Joined(a: seq<byte>, b: seq<byte>)
    ensures (a + b)[..|a|] == a && (a + b)[|a|..] == b
  {
  }

  lemma TailIffScanned(s: seq<byte>)
    ensures TailLen(s) == Some(|s|) <==> IsTail(s)
  {
    if TailLen(s) == Some(|s|) {
      var c := FracLen(s).value;
      FracScanned(s);
      ExpScanned(s[c..]);
      Halves(s, c);
    }
    if IsTail(s) {
      var frac, exp :| s == frac + exp && IsFrac(frac) && IsExp(exp);
      FracIsScanned(frac, exp);
      ExpIsScanned(exp);
      hide FracLen, ExpLen, IsFrac, IsExp;
      Joined(frac, exp);
    }
  }

  /** A tail does not go on with digits. */
  lemma TailStarts(s: seq<byte>)
    requires IsTail(s)
    ensures s != [] ==> !Digit(s[0])
  {
    var frac, exp :| s == frac + exp && IsFrac(frac) && IsExp(exp);
    if frac == [] {
      assert s == exp;
    }
  }

  lemma UnsignedScanned(s: seq<byte>)
    requires UnsignedLen(s) == Some(|s|)
    ensures IsUnsigned(s)
  {
    hide IntLen, TailLen, IsInt, IsTail;
    var b := IntLen(s);
    IntScanned(s);
    TailIffScanned(s[b..]);
    Halves(s, b);
  }

  lemma UnsignedIsScanned(whole: seq<byte>, tail: seq<byte>)
    requires IsInt(whole) && IsTail(tail)
    ensures UnsignedLen(whole + tail) == Some(|whole + tail|)
  {
    assert whole != [];
    hide IntLen, TailLen, IsInt, IsTail;
    TailStarts(tail);
    IntIsScanned(whole, tail);
    TailIffScanned(tail);
    Joined(whole, tail);
  }

  lemma UnsignedIffScanned(s: seq<byte>)
    ensures UnsignedLen(s) == Some(|s|) <==> IsUnsigned(s)
  {
    hide UnsignedLen, IsInt, IsTail;
    if UnsignedLen(s) == Some(|s|) {
      UnsignedScanned(s);
    }
    if IsUnsigned(s) {
      var whole, tail :| s == whole + tail && IsInt(whole) && IsTail(tail);
      UnsignedIsScanned(whole, tail);
    }
  }

  lemma UnsignedStarts(s: seq<byte>)
    requires IsUnsigned(s)
    ensures s != [] && Digit(s[0])
  {
    var whole, tail :| s == whole + tail && IsInt(whole) && IsTail(tail);
  }

  /** The scanner reads a text to its end exactly when it is a number of the grammar. */
  lemma NumberIffScanned(s: seq<byte>)
    ensures NumLen(s) == Some(|s|) <==> IsNumber(s)
  {
    hide UnsignedLen, IsUnsigned;
    if IsUnsigned(s) {
      UnsignedStarts(s);
    }
    if StartsWith(s, 0x2d) {
      UnsignedIffScanned(s[1..]);
    } else {
      UnsignedIffScanned(s);
      assert s[0..] == s;
    }
  }
}
