/**
 The planner's strict JSON: one value, nothing after it, no key twice in any object
 (section 2.3 of RFC 7493). An object keeps its members in the order they were written.
 */
module StrictJson {
  import opened Wrappers
  import opened Lines
  import opened Utf8
  import opened JsonText
  import opened JsonStrings

  datatype Value =
    | Null
    | Bool(on: bool)
    | Number(lexeme: seq<byte>)
    | Str(text: seq<byte>)
    | Array(items: seq<Value>)
    | Object(members: seq<Member>)

  datatype Member = Member(key: seq<byte>, value: Value)

  datatype Fault = Malformed | DuplicateKey(key: seq<byte>) | TrailingData

  /** Which number lexemes the number type can hold. */
  type Range = seq<byte> -> bool

  const TRUE: seq<byte> := [0x74, 0x72, 0x75, 0x65]
  const FALSE: seq<byte> := [0x66, 0x61, 0x6c, 0x73, 0x65]
  const NULL: seq<byte> := [0x6e, 0x75, 0x6c, 0x6c]
  const COMMA: byte := 0x2c
  const COLON: byte := 0x3a
  const OPEN_ARRAY: byte := 0x5b
  const CLOSE_ARRAY: byte := 0x5d
  const OPEN_OBJECT: byte := 0x7b
  const CLOSE_OBJECT: byte := 0x7d

  /** Space, tab, newline, form feed and carriage return. */
  predicate Blank(b: byte) {
    b == 0x20 || b == 0x09 || b == 0x0a || b == 0x0c || b == 0x0d
  }

  function SkipBlanks(s: seq<byte>): (r: seq<byte>)
    ensures |r| <= |s| && (r != [] ==> !Blank(r[0]))
  {
    if s != [] && Blank(s[0]) then SkipBlanks(s[1..]) else s
  }

  type Parsed<T> = Result<(T, seq<byte>), Fault>

  // ----- the parser, as a function of what is left to read

  function ParseLiteral(s: seq<byte>, word: seq<byte>, v: Value): (r: Parsed<Value>)
    requires word != []
    ensures r.Ok? ==> |r.value.1| < |s|
  {
    if word <= s then Ok((v, s[|word|..])) else Err(Malformed)
  }

  function ParseString(s: seq<byte>): (r: Parsed<seq<byte>>)
    ensures r.Ok? ==> |r.value.1| < |s|
  {
    if !StartsWith(s, QUOTE) then Err(Malformed)
    else
      var n := BodyLen(s[1..]);
      if n.None? then Err(Malformed)
      else
        var body := s[1..][..n.value];
        var text := Decode(body);
        if !Valid(body) || text.None? then Err(Malformed) else Ok((text.value, s[1..][n.value + 1..]))
  }

  function ParseNumber(s: seq<byte>, range: Range): (r: Parsed<Value>)
    ensures r.Ok? ==> |r.value.1| < |s|
  {
    var n := NumLen(s);
    if n.None? || !range(s[..n.value]) then Err(Malformed) else Ok((Number(s[..n.value]), s[n.value..]))
  }

  function ParseValue(input: seq<byte>, range: Range): (r: Parsed<Value>)
    ensures r.Ok? ==> |r.value.1| < |input|
    decreases |input|, 1
  {
    var s := SkipBlanks(input);
    if s == [] then Err(Malformed)
    else if s[0] == OPEN_OBJECT then
      var t := SkipBlanks(s[1..]);
      if StartsWith(t, CLOSE_OBJECT) then Ok((Object([]), t[1..])) else ParseMembers(t, range, [])
    else if s[0] == OPEN_ARRAY then
      var t := SkipBlanks(s[1..]);
      if StartsWith(t, CLOSE_ARRAY) then Ok((Array([]), t[1..])) else ParseItems(t, range, [])
    else if s[0] == QUOTE then
      var text := ParseString(s);
      if text.Err? then Err(text.error) else Ok((Str(text.value.0), text.value.1))
    else if s[0] == TRUE[0] then ParseLiteral(s, TRUE, Bool(true))
    else if s[0] == FALSE[0] then ParseLiteral(s, FALSE, Bool(false))
    else if s[0] == NULL[0] then ParseLiteral(s, NULL, Null)
    else if s[0] == 0x2d || Digit(s[0]) then ParseNumber(s, range)
    else Err(Malformed)
  }

  function ParseItems(s: seq<byte>, range: Range, items: seq<Value>): (r: Parsed<Value>)
    ensures r.Ok? ==> |r.value.1| < |s|
    decreases |s|, 2
  {
    var item := ParseValue(s, range);
    if item.Err? then Err(item.error)
    else
      var t := SkipBlanks(item.value.1);
      var more := items + [item.value.0];
      if StartsWith(t, COMMA) then ParseItems(t[1..], range, more)
      else if StartsWith(t, CLOSE_ARRAY) then Ok((Array(more), t[1..]))
      else Err(Malformed)
  }

  predicate HasKey(members: seq<Member>, key: seq<byte>) {
    exists i :: 0 <= i < |members| && members[i].key == key
  }

  /** One member up to the byte after its value. */
  function ParseMember(input: seq<byte>, range: Range, members: seq<Member>): (r: Parsed<Member>)
    ensures r.Ok? ==> |r.value.1| < |input| && !HasKey(members, r.value.0.key)
    decreases |input|, 2
  {
    var s := SkipBlanks(input);
    var key := ParseString(s);
    if key.Err? then Err(key.error)
    else if HasKey(members, key.value.0) then Err(DuplicateKey(key.value.0))
    else
      var t := SkipBlanks(key.value.1);
      if !StartsWith(t, COLON) then Err(Malformed)
      else
        var v := ParseValue(t[1..], range);
        if v.Err? then Err(v.error) else Ok((Member(key.value.0, v.value.0), v.value.1))
  }

  function ParseMembers(s: seq<byte>, range: Range, members: seq<Member>): (r: Parsed<Value>)
    ensures r.Ok? ==> |r.value.1| < |s|
    decreases |s|, 3
  {
    var member := ParseMember(s, range, members);
    if member.Err? then Err(member.error)
    else
      var t := SkipBlanks(member.value.1);
      var more := members + [member.value.0];
      if StartsWith(t, COMMA) then ParseMembers(t[1..], range, more)
      else if StartsWith(t, CLOSE_OBJECT) then Ok((Object(more), t[1..]))
      else Err(Malformed)
  }

  function Parse(input: seq<byte>, range: Range): Result<Value, Fault> {
    var r := ParseValue(input, range);
    if r.Err? then Err(r.error)
    else if SkipBlanks(r.value.1) != [] then Err(TrailingData)
    else Ok(r.value.0)
  }

  // ----- strict values

  predicate DistinctKeys(members: seq<Member>) {
    forall i, j :: 0 <= i < j < |members| ==> members[i].key != members[j].key
  }

  /** At every depth keys are distinct, numbers are in range and texts are valid UTF-8. */
  predicate Strict(v: Value, range: Range)
    decreases v
  {
    match v
    case Number(lexeme) => NumLen(lexeme) == Some(|lexeme|) && range(lexeme)
    case Str(text) => Valid(text)
    case Array(items) => forall i :: 0 <= i < |items| ==> Strict(items[i], range)
    case Object(members) =>
      && DistinctKeys(members)
      && forall i :: 0 <= i < |members| ==> Valid(members[i].key) && Strict(members[i].value, range)
    case _ => true
  }

  lemma StringIsValid(s: seq<byte>)
    requires ParseString(s).Ok?
    ensures Valid(ParseString(s).value.0)
  {
    DecodeIsValid(s[1..][..BodyLen(s[1..]).value]);
  }

  lemma NumberIsStrict(s: seq<byte>, range: Range)
    requires ParseNumber(s, range).Ok?
    ensures Strict(ParseNumber(s, range).value.0, range)
  {
    var n := NumLen(s).value;
    NumberAlone(s, n);
  }

  lemma DistinctGrows(members: seq<Member>, m: Member)
    requires DistinctKeys(members) && !HasKey(members, m.key)
    ensures DistinctKeys(members + [m])
  {
  }

  lemma {:induction false} ValueIsStrict(input: seq<byte>, range: Range)
    requires ParseValue(input, range).Ok?
    ensures Strict(ParseValue(input, range).value.0, range)
    decreases |input|, 1
  {
    var s := SkipBlanks(input);
    if s[0] == OPEN_OBJECT {
      var t := SkipBlanks(s[1..]);
      if !StartsWith(t, CLOSE_OBJECT) {
        MembersAreStrict(t, range, []);
      }
    } else if s[0] == OPEN_ARRAY {
      var t := SkipBlanks(s[1..]);
      if !StartsWith(t, CLOSE_ARRAY) {
        ItemsAreStrict(t, range, []);
      }
    } else if s[0] == QUOTE {
      StringIsValid(s);
    } else if s[0] == 0x2d || Digit(s[0]) {
      NumberIsStrict(s, range);
    }
  }

  lemma {:induction false} ItemsAreStrict(s: seq<byte>, range: Range, items: seq<Value>)
    requires ParseItems(s, range, items).Ok?
    requires forall i :: 0 <= i < |items| ==> Strict(items[i], range)
    ensures Strict(ParseItems(s, range, items).value.0, range)
    decreases |s|, 2
  {
    hide ParseValue;
    ValueIsStrict(s, range);
    var item := ParseValue(s, range);
    var t := SkipBlanks(item.value.1);
    if StartsWith(t, COMMA) {
      ItemsAreStrict(t[1..], range, items + [item.value.0]);
    }
  }

  lemma {:induction false} MemberIsStrict(s: seq<byte>, range: Range, members: seq<Member>)
    requires ParseMember(s, range, members).Ok?
    ensures var m := ParseMember(s, range, members).value.0; Valid(m.key) && Strict(m.value, range)
    decreases |s|, 2
  {
    hide ParseValue, ParseString;
    var key := ParseString(SkipBlanks(s));
    StringIsValid(SkipBlanks(s));
    ValueIsStrict(SkipBlanks(key.value.1)[1..], range);
  }

  lemma {:induction false} MembersAreStrict(s: seq<byte>, range: Range, members: seq<Member>)
    requires ParseMembers(s, range, members).Ok? && DistinctKeys(members)
    requires forall i :: 0 <= i < |members| ==> Valid(members[i].key) && Strict(members[i].value, range)
    ensures Strict(ParseMembers(s, range, members).value.0, range)
    decreases |s|, 3
  {
    hide ParseMember, Valid;
    MemberIsStrict(s, range, members);
    var member := ParseMember(s, range, members);
    DistinctGrows(members, member.value.0);
    hide DistinctKeys;
    var t := SkipBlanks(member.value.1);
    if StartsWith(t, COMMA) {
      MembersAreStrict(t[1..], range, members + [member.value.0]);
    }
  }

  /** Whatever is accepted is strict at every depth, and nothing but blanks follows it. */
  lemma AcceptedIsStrict(input: seq<byte>, range: Range)
    requires Parse(input, range).Ok?
    ensures Strict(Parse(input, range).value, range)
    ensures ParseValue(input, range).Ok? && SkipBlanks(ParseValue(input, range).value.1) == []
  {
    ValueIsStrict(input, range);
  }
}
