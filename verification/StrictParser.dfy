/** The strict parser as the planner runs it: an index into the bytes, loops and recursion. */
module StrictParser {
  import opened Wrappers
  import opened Lines
  import opened Utf8
  import opened JsonText
  import opened StrictJson

  class Parser {
    const bytes: seq<byte>
    const range: Range
    var index: nat

    predicate Inside()
      reads this
    {
      index <= |bytes|
    }

    /** What is left to read. */
    function Left(): seq<byte>
      requires Inside()
      reads this
    {
      bytes[index..]
    }

    constructor (bytes: seq<byte>, range: Range)
      ensures this.bytes == bytes && this.range == range && index == 0 && Inside() && Left() == bytes
    {
      this.bytes, this.range, index := bytes, range, 0;
    }

    /** The method answered what the function answers on what was left before it. */
    ghost predicate Agrees<T(!new)>(r: Result<T, Fault>, spec: Parsed<T>)
      requires Inside()
      reads this
    {
      if spec.Ok? then r == Ok(spec.value.0) && Left() == spec.value.1 else r == Err(spec.error)
    }

    method SkipWhitespace()
      requires Inside()
      modifies this
      ensures Inside() && old(index) <= index && Left() == SkipBlanks(old(Left()))
    {
      while index < |bytes| && Blank(bytes[index])
        invariant Inside() && old(index) <= index && SkipBlanks(Left()) == SkipBlanks(old(Left()))
      {
        assert Left()[1..] == bytes[index + 1..];
        index := index + 1;
      }
    }

    method Bump() returns (b: Option<byte>)
      requires Inside()
      modifies this
      ensures Inside()
      ensures if old(Left()) == [] then b.None? && index == old(index)
              else b == Some(old(Left())[0]) && index == old(index) + 1 && Left() == old(Left())[1..]
    {
      if index == |bytes| {
        return None;
      }
      b := Some(bytes[index]);
      index := index + 1;
    }

    method ReadLiteral(word: seq<byte>, v: Value) returns (r: Result<Value, Fault>)
      requires Inside() && word != []
      modifies this
      ensures Inside() && old(index) <= index && Agrees(r, ParseLiteral(old(Left()), word, v))
    {
      ghost var s := Left();
      var i := 0;
      while i < |word|
        invariant 0 <= i <= |word| && Inside() && index == old(index) + i
        invariant Left() == s[i..] && word[..i] == s[..i]
      {
        var b := Bump();
        if b != Some(word[i]) {
          return Err(Malformed);
        }
        i := i + 1;
      }
      r := Ok(v);
    }

    /** The four digits of a \\u escape. */
    method ReadHex() returns (ok: bool)
      requires Inside()
      modifies this
      ensures Inside() && old(index) <= index
      ensures ok <==> |old(Left())| >= 4 && AllHex(old(Left())[..4])
      ensures ok ==> index == old(index) + 4
    {
      ghost var s := Left();
      var i := 0;
      while i < 4
        invariant 0 <= i <= 4 && Inside() && index == old(index) + i
        invariant i <= |s| && Left() == s[i..] && AllHex(s[..i])
      {
        var digit := Bump();
        if digit.None? || !Hex(digit.value) {
          assert |s| >= 4 ==> s[..4][i] == s[i];
          return false;
        }
        assert s[..i + 1] == s[..i] + [s[i]];
        i := i + 1;
      }
      ok := true;
    }

    /** One character or escape of a string's body, when it is neither the closing quote nor the end. */
    method SkipOne(b: byte) returns (ok: bool)
      requires 0 < index <= |bytes| && bytes[index - 1] == b && b != QUOTE
      modifies this
      ensures Inside() && old(index) <= index
      ensures ok <==> SkipLen(bytes[old(index) - 1..]) > 0
      ensures ok ==> index == old(index) - 1 + SkipLen(bytes[old(index) - 1..])
    {
      ghost var s := bytes[index - 1..];
      if b == SLASH {
        assert Left() == s[1..];
        var escaped := Bump();
        if escaped.None? {
          return false;
        }
        if escaped.value == 0x75 {
          assert Left() == s[2..];
          ok := ReadHex();
          assert |s| >= 6 ==> s[2..][..4] == s[2..6];
          return;
        }
        return true;
      }
      ok := b >= 0x20;
    }

    method ReadString() returns (r: Result<seq<byte>, Fault>)
      requires Inside()
      modifies this
      ensures Inside() && old(index) <= index && Agrees(r, ParseString(old(Left())))
    {
      hide Decode, SkipLen;
      ghost var s := Left();
      var start := index;
      var open := Bump();
      if open != Some(QUOTE) {
        return Err(Malformed);
      }
      var length := ReadBody();
      if length.None? {
        return Err(Malformed);
      }
      var body := bytes[start + 1..][..length.value];
      if !Valid(body) {
        return Err(Malformed);
      }
      var text := Decode(body);
      if text.None? {
        return Err(Malformed);
      }
      r := Ok(text.value);
    }

    method ReadBody() returns (length: Option<nat>)
      requires Inside()
      modifies this
      ensures Inside() && old(index) <= index && length == BodyLen(old(Left()))
      ensures length.Some? ==> Left() == old(Left())[length.value + 1..]
    {
      hide SkipLen, BodyLen;
      ghost var s := Left();
      var start := index;
      while true
        invariant Inside() && start <= index && BodyLen(s) == Later(index - start, BodyLen(Left()))
        decreases |bytes| - index
      {
        ghost var here := Left();
        var at := index;
        BodyCases(here);
        var b := Bump();
        if b.None? {
          return None;
        }
        if b.value == QUOTE {
          length := Some(at - start);
          assert Left() == s[at - start + 1..];
          return;
        }
        var ok := SkipOne(b.value);
        if !ok {
          return None;
        }
        assert Left() == here[SkipLen(here)..];
      }
    }

    method SkipDigits()
      requires Inside()
      modifies this
      ensures Inside() && index == old(index) + DigitRun(old(Left()))
      ensures Left() == old(Left())[DigitRun(old(Left()))..]
    {
      ghost var s := Left();
      while index < |bytes| && Digit(bytes[index])
        invariant Inside() && old(index) <= index && Left() == s[index - old(index)..]
        invariant DigitRun(s) == index - old(index) + DigitRun(Left())
      {
        assert Left()[1..] == bytes[index + 1..];
        index := index + 1;
      }
    }

    method Peek() returns (b: Option<byte>)
      requires Inside()
      ensures if Left() == [] then b.None? else b == Some(Left()[0])
    {
      b := if index < |bytes| then Some(bytes[index]) else None;
    }

    method ReadInteger() returns (ok: bool)
      requires Inside()
      modifies this
      ensures Inside() && ok == (IntLen(old(Left())) > 0)
      ensures index == old(index) + IntLen(old(Left())) && Left() == old(Left())[IntLen(old(Left()))..]
    {
      var b := Peek();
      if b == Some(0x30) {
        index := index + 1;
        return true;
      }
      ok := b.Some? && Digit(b.value);
      SkipDigits();
    }

    method ReadFraction() returns (ok: bool)
      requires Inside()
      modifies this
      ensures Inside() && old(index) <= index && ok == FracLen(old(Left())).Some?
      ensures ok ==> index == old(index) + FracLen(old(Left())).value && Left() == old(Left())[FracLen(old(Left())).value..]
    {
      var b := Peek();
      if b != Some(0x2e) {
        return true;
      }
      index := index + 1;
      ok := index < |bytes| && Digit(bytes[index]);
      SkipDigits();
    }

    method ReadExponent() returns (ok: bool)
      requires Inside()
      modifies this
      ensures Inside() && old(index) <= index && ok == ExpLen(old(Left())).Some?
      ensures ok ==> index == old(index) + ExpLen(old(Left())).value && Left() == old(Left())[ExpLen(old(Left())).value..]
    {
      var b := Peek();
      if b != Some(0x65) && b != Some(0x45) {
        return true;
      }
      ghost var s := Left();
      index := index + 1;
      assert Left() == s[1..];
      var sign := Peek();
      if sign == Some(0x2b) || sign == Some(0x2d) {
        index := index + 1;
      }
      assert Left() == s[1 + ExpSignLen(s[1..])..];
      ok := index < |bytes| && Digit(bytes[index]);
      SkipDigits();
    }

    method ReadTail() returns (ok: bool)
      requires Inside()
      modifies this
      ensures Inside() && old(index) <= index && ok == TailLen(old(Left())).Some?
      ensures ok ==> index == old(index) + TailLen(old(Left())).value
    {
      hide FracLen, ExpLen;
      ok := ReadFraction();
      if ok {
        ok := ReadExponent();
      }
    }

    method ReadUnsigned() returns (ok: bool)
      requires Inside()
      modifies this
      ensures Inside() && old(index) <= index && ok == UnsignedLen(old(Left())).Some?
      ensures ok ==> index == old(index) + UnsignedLen(old(Left())).value
    {
      hide IntLen, TailLen;
      ok := ReadInteger();
      if ok {
        ok := ReadTail();
      }
    }

    method ReadNumber() returns (r: Result<Value, Fault>)
      requires Inside()
      modifies this
      ensures Inside() && old(index) <= index && Agrees(r, ParseNumber(old(Left()), range))
    {
      hide UnsignedLen;
      ghost var s := Left();
      var start := index;
      var b := Peek();
      if b == Some(0x2d) {
        index := index + 1;
      }
      assert Left() == s[SignLen(s)..];
      var ok := ReadUnsigned();
      if !ok {
        return Err(Malformed);
      }
      var lexeme := bytes[start..index];
      assert lexeme == s[..index - start] && Left() == s[index - start..];
      r := if range(lexeme) then Ok(Number(lexeme)) else Err(Malformed);
    }

    method ReadValue() returns (r: Result<Value, Fault>)
      requires Inside()
      modifies this
      ensures Inside() && old(index) <= index && Agrees(r, ParseValue(old(Left()), range))
      decreases |bytes| - index, 1
    {
      hide ParseMembers, ParseItems, ParseString, ParseNumber, ParseLiteral;
      SkipWhitespace();
      var b := Peek();
      if b.None? {
        return Err(Malformed);
      }
      if b.value == OPEN_OBJECT {
        r := ReadObject();
      } else if b.value == OPEN_ARRAY {
        r := ReadArray();
      } else if b.value == QUOTE {
        var text := ReadString();
        r := if text.Ok? then Ok(Str(text.value)) else Err(text.error);
      } else if b.value == TRUE[0] {
        r := ReadLiteral(TRUE, Bool(true));
      } else if b.value == FALSE[0] {
        r := ReadLiteral(FALSE, Bool(false));
      } else if b.value == NULL[0] {
        r := ReadLiteral(NULL, Null);
      } else if b.value == 0x2d || Digit(b.value) {
        r := ReadNumber();
      } else {
        r := Err(Malformed);
      }
    }

    method ReadObject() returns (r: Result<Value, Fault>)
      requires Inside() && StartsWith(Left(), OPEN_OBJECT)
      modifies this
      ensures Inside() && old(index) <= index && Agrees(r, ParseValue(old(Left()), range))
      decreases |bytes| - index, 0
    {
      hide ParseMember, ParseItems, ParseString, ParseNumber;
      ghost var spec := ParseValue(Left(), range);
      var open := Bump();
      SkipWhitespace();
      var b := Peek();
      if b == Some(CLOSE_OBJECT) {
        index := index + 1;
        return Ok(Object([]));
      }
      var members: seq<Member> := [];
      while true
        invariant Inside() && old(index) < index && spec == ParseMembers(Left(), range, members)
        decreases |bytes| - index
      {
        var member := ReadMember(members);
        if member.Err? {
          return Err(member.error);
        }
        members := members + [member.value];
        SkipWhitespace();
        var mark := Bump();
        if mark == Some(COMMA) {
        } else if mark == Some(CLOSE_OBJECT) {
          return Ok(Object(members));
        } else {
          return Err(Malformed);
        }
      }
    }

    method ReadMember(members: seq<Member>) returns (r: Result<Member, Fault>)
      requires Inside()
      modifies this
      ensures Inside() && old(index) <= index && Agrees(r, ParseMember(old(Left()), range, members))
      decreases |bytes| - index, 2
    {
      hide ParseValue, HasKey;
      SkipWhitespace();
      ghost var s := Left();
      var key := ReadString();
      if key.Err? {
        return Err(key.error);
      }
      if HasKey(members, key.value) {
        return Err(DuplicateKey(key.value));
      }
      assert |Left()| < |s|;
      hide ParseString;
      SkipWhitespace();
      var colon := Bump();
      if colon != Some(COLON) {
        return Err(Malformed);
      }
      var value := ReadValue();
      r := if value.Ok? then Ok(Member(key.value, value.value)) else Err(value.error);
    }

    method ReadArray() returns (r: Result<Value, Fault>)
      requires Inside() && StartsWith(Left(), OPEN_ARRAY)
      modifies this
      ensures Inside() && old(index) <= index && Agrees(r, ParseValue(old(Left()), range))
      decreases |bytes| - index, 0
    {
      hide ParseMembers, ParseString, ParseNumber;
      ghost var spec := ParseValue(Left(), range);
      var open := Bump();
      SkipWhitespace();
      var b := Peek();
      if b == Some(CLOSE_ARRAY) {
        index := index + 1;
        return Ok(Array([]));
      }
      hide ParseValue;
      var items: seq<Value> := [];
      while true
        invariant Inside() && old(index) < index && spec == ParseItems(Left(), range, items)
        decreases |bytes| - index
      {
        var item := ReadValue();
        if item.Err? {
          return Err(item.error);
        }
        items := items + [item.value];
        SkipWhitespace();
        var mark := Bump();
        if mark == Some(COMMA) {
        } else if mark == Some(CLOSE_ARRAY) {
          return Ok(Array(items));
        } else {
          return Err(Malformed);
        }
      }
    }
  }

  /** A length found further on, counted from the start. */
  function Later(k: nat, n: Option<nat>): Option<nat> {
    if n.None? then None else Some(k + n.value)
  }

  /** A body ends here, goes on after one character, or does not end at all. */
  lemma BodyCases(s: seq<byte>)
    ensures s == [] ==> BodyLen(s).None?
    ensures StartsWith(s, QUOTE) ==> BodyLen(s) == Some(0)
    ensures !StartsWith(s, QUOTE) && SkipLen(s) == 0 ==> BodyLen(s).None?
    ensures !StartsWith(s, QUOTE) && SkipLen(s) > 0 ==> BodyLen(s) == Later(SkipLen(s), BodyLen(s[SkipLen(s)..]))
  {
  }

  /** Parse a whole text: one value, and then nothing but blanks. */
  method ParseStrict(input: seq<byte>, range: Range) returns (r: Result<Value, Fault>)
    ensures r == Parse(input, range)
    ensures r.Ok? ==> Strict(r.value, range)
  {
    hide ParseValue;
    var parser := new Parser(input, range);
    var value := parser.ReadValue();
    if value.Err? {
      return value;
    }
    parser.SkipWhitespace();
    if parser.index != |parser.bytes| {
      return Err(TrailingData);
    }
    AcceptedIsStrict(input, range);
    r := value;
  }
}
