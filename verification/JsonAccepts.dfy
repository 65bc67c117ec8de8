/** Completeness: the strict parser reads every well-formed text, and refuses only repeated keys. */
module JsonAccepts {
  import opened Wrappers
  import opened Lines
  import opened Utf8
  import opened JsonText
  import opened JsonNumbers
  import opened StrictJson
  import opened JsonGrammar

  /** Numbers are in range and texts valid, whatever the keys are. */
  predicate Lexical(v: Value, range: Range)
    decreases v
  {
    match v
    case Number(lexeme) => NumLen(lexeme) == Some(|lexeme|) && range(lexeme)
    case Str(text) => Valid(text)
    case Array(items) => forall i :: 0 <= i < |items| ==> Lexical(items[i], range)
    case Object(members) =>
      forall i :: 0 <= i < |members| ==> Valid(members[i].key) && Lexical(members[i].value, range)
    case _ => true
  }

  lemma {:induction false} StrictIsLexical(v: Value, range: Range)
    requires Strict(v, range)
    ensures Lexical(v, range)
    decreases v
  {
    match v
    case Array(items) =>
      forall i | 0 <= i < |items| ensures Lexical(items[i], range) {
        StrictIsLexical(items[i], range);
      }
    case Object(members) =>
      forall i | 0 <= i < |members| ensures Lexical(members[i].value, range) {
        StrictIsLexical(members[i].value, range);
      }
    case _ =>
  }

  // ----- leaves

  lemma LiteralShape(body: seq<byte>, rest: seq<byte>)
    ensures var s := [QUOTE] + (body + [QUOTE]) + rest;
      && s[0] == QUOTE && s[1..] == body + ([QUOTE] + rest)
      && s[1..][..|body|] == body && s[1..][|body| + 1..] == rest
  {
    var s := [QUOTE] + (body + [QUOTE]) + rest;
    assert s[1..] == body + ([QUOTE] + rest);
  }

  lemma LiteralParses(body: seq<byte>, rest: seq<byte>)
    requires GoodBody(body)
    ensures ParseString(Literal(body) + rest) == Ok((TextOfBody(body), rest))
  {
    hide BodyLen, Valid, Decode;
    LiteralShape(body, rest);
    DecodedEnds(body, rest);
  }

  lemma TextParses(body: seq<byte>, rest: seq<byte>, range: Range)
    requires GoodBody(body)
    ensures ParseValue(Literal(body) + rest, range) == Ok((Str(TextOfBody(body)), rest))
  {
    LiteralParses(body, rest);
    hide ParseString, GoodBody, TextOfBody;
    var s := Literal(body) + rest;
    assert s[0] == QUOTE && SkipBlanks(s) == s;
  }

  lemma NumberHead(s: seq<byte>)
    requires NumLen(s).Some?
    ensures s[0] == 0x2d || Digit(s[0])
  {
  }

  lemma NumberValue(s: seq<byte>, range: Range)
    requires s != [] && (s[0] == 0x2d || Digit(s[0]))
    ensures ParseValue(s, range) == ParseNumber(s, range)
  {
    hide ParseNumber, ParseItems, ParseMembers;
    NoBlank(s);
  }

  lemma NumberParses(lexeme: seq<byte>, rest: seq<byte>, range: Range)
    requires NumLen(lexeme) == Some(|lexeme|) && range(lexeme) && Stops(rest)
    ensures ParseValue(lexeme + rest, range) == Ok((Number(lexeme), rest))
  {
    NumberHead(lexeme);
    hide NumLen, ParseValue, Stops;
    NumStops(lexeme, rest);
    var s := lexeme + rest;
    NumberValue(s, range);
    assert s[..|lexeme|] == lexeme && s[|lexeme|..] == rest;
  }

  lemma WordParses(word: seq<byte>, v: Value, rest: seq<byte>, range: Range)
    requires (word == TRUE && v == Bool(true)) || (word == FALSE && v == Bool(false)) || (word == NULL && v == Null)
    ensures ParseValue(word + rest, range) == Ok((v, rest))
  {
    var s := word + rest;
    assert SkipBlanks(s) == s && s[0] == word[0];
    assert s[|word|..] == rest;
  }

  /** How a tree's text begins. */
  lemma FlatHead(t: Tree, range: Range)
    requires Lexical(Meaning(t), range)
    ensures StartsItem(Flat(t))
  {
    if t.Numeral? {
      NumberHead(t.lexeme);
    }
  }

  // ----- structures

  /** What parsing a text should give: its value if keys are distinct throughout, else a duplicate. */
  predicate Right(r: Parsed<Value>, v: Value, rest: seq<byte>, good: bool) {
    if good then r == Ok((v, rest)) else r.Err? && r.error.DuplicateKey?
  }

  predicate AllStrict(v: Value, range: Range)
    requires v.Array?
  {
    forall i :: 0 <= i < |v.items| ==> Strict(v.items[i], range)
  }

  lemma Snoc<T>(s: seq<T>, i: nat)
    requires i < |s|
    ensures s[..i] + [s[i]] == s[..i + 1]
  {
  }

  /** One item and the byte after it, when the item's own parse is known. */
  lemma ItemStep(s: seq<byte>, item: Value, after: seq<byte>, mark: byte, tail: seq<byte>, range: Range, items: seq<Value>)
    requires ParseValue(s, range) == Ok((item, after + ([mark] + tail)))
    requires Blanks(after) && (mark == COMMA || mark == CLOSE_ARRAY)
    ensures ParseItems(s, range, items)
      == if mark == COMMA then ParseItems(tail, range, items + [item]) else Ok((Array(items + [item]), tail))
  {
    hide ParseValue;
    SkipTo(after, mark, tail);
    assert ([mark] + tail)[1..] == tail;
  }

  lemma ItemFails(s: seq<byte>, range: Range, items: seq<Value>)
    requires ParseValue(s, range).Err?
    ensures ParseItems(s, range, items) == ParseValue(s, range)
  {
    hide ParseValue;
  }

  lemma ItemsSplit(t: Tree, i: nat, rest: seq<byte>) returns (mark: byte, tail: seq<byte>)
    requires t.Bracket? && i < |t.items|
    ensures mark == if i + 1 == |t.items| then CLOSE_ARRAY else COMMA
    ensures i + 1 == |t.items| ==> tail == rest
    ensures i + 1 < |t.items| ==> tail == FlatItems(t, i + 1) + rest
    ensures var p := t.items[i];
      FlatItems(t, i) + rest == p.before + (Flat(p.tree) + (p.after + ([mark] + tail)))
  {
    hide Flat;
    var p, last := t.items[i], i + 1 == |t.items|;
    mark, tail := if last then CLOSE_ARRAY else COMMA, if last then rest else FlatItems(t, i + 1) + rest;
    var more := if last then [CLOSE_ARRAY] else [COMMA] + FlatItems(t, i + 1);
    assert more + rest == [mark] + tail;
    Regroup(p.after, more, rest);
    Regroup(Flat(p.tree), p.after + more, rest);
    Regroup(p.before, Flat(p.tree) + (p.after + more), rest);
  }

  lemma ItemFacts(t: Tree, i: nat, range: Range)
    requires t.Bracket? && i < |t.items| && WellFormed(t) && Lexical(Meaning(t), range)
    ensures var p, v := t.items[i], Meaning(t);
      && PaddingOk(p) && WellFormed(p.tree) && Lexical(Meaning(p.tree), range)
      && v.Array? && |v.items| == |t.items| && v.items[i] == Meaning(p.tree)
  {
    hide IsNumber, GoodBody, NumLen, Valid, Blanks;
    var v := Meaning(t);
    assert v.items[i] == Meaning(t.items[i].tree);
    assert Lexical(v.items[i], range);
  }

  lemma {:induction false} ItemsParse(t: Tree, i: nat, rest: seq<byte>, range: Range)
    requires t.Bracket? && i < |t.items| && WellFormed(t) && Lexical(Meaning(t), range)
    requires forall j :: 0 <= j < i ==> Strict(Meaning(t).items[j], range)
    ensures Right(ParseItems(FlatItems(t, i) + rest, range, Meaning(t).items[..i]), Meaning(t), rest, AllStrict(Meaning(t), range))
    decreases t, |t.items| - i
  {
    hide Flat, FlatItems, Lexical, ParseItems, ParseValue, Stops, Strict, WellFormed, Meaning, Blanks;
    ItemFacts(t, i, range);
    var p, v := t.items[i], Meaning(t);
    var mark, tail := ItemsSplit(t, i, rest);
    BlanksStop(p.after, mark, tail);
    TreeParses(p.tree, p.after + ([mark] + tail), range);
    var s := Flat(p.tree) + (p.after + ([mark] + tail));
    ValueSkips(p.before, s, range);
    Snoc(v.items, i);
    if Strict(v.items[i], range) {
      ItemStep(p.before + s, v.items[i], p.after, mark, tail, range, v.items[..i]);
      if i + 1 == |t.items| {
        assert v.items[..i + 1] == v.items;
      } else {
        ItemsParse(t, i + 1, rest, range);
      }
    } else {
      ItemFails(p.before + s, range, v.items[..i]);
    }
  }

  predicate MembersStrict(v: Value, range: Range)
    requires v.Object?
  {
    DistinctKeys(v.members) && forall i :: 0 <= i < |v.members| ==> Strict(v.members[i].value, range)
  }

  /** One field whose key is new: its value's parse decides. */
  lemma FieldStep(before: seq<byte>, body: seq<byte>, between: seq<byte>, s: seq<byte>, range: Range, members: seq<Member>)
    requires Blanks(before) && GoodBody(body) && Blanks(between)
    ensures var key := TextOfBody(body);
      ParseMember(before + (Literal(body) + (between + ([COLON] + s))), range, members) ==
        if HasKey(members, key) then Err(DuplicateKey(key))
        else if ParseValue(s, range).Err? then Err(ParseValue(s, range).error)
        else Ok((Member(key, ParseValue(s, range).value.0), ParseValue(s, range).value.1))
  {
    var rest := between + ([COLON] + s);
    LiteralParses(body, rest);
    hide ParseString, ParseValue, GoodBody, TextOfBody, HasKey;
    assert Literal(body) + rest == [QUOTE] + ((body + [QUOTE]) + rest);
    SkipTo(before, QUOTE, (body + [QUOTE]) + rest);
    SkipTo(between, COLON, s);
    assert ([COLON] + s)[1..] == s;
  }

  lemma FieldsStep(s: seq<byte>, m: Member, after: seq<byte>, mark: byte, tail: seq<byte>, range: Range, members: seq<Member>)
    requires ParseMember(s, range, members) == Ok((m, after + ([mark] + tail)))
    requires Blanks(after) && (mark == COMMA || mark == CLOSE_OBJECT)
    ensures ParseMembers(s, range, members)
      == if mark == COMMA then ParseMembers(tail, range, members + [m]) else Ok((Object(members + [m]), tail))
  {
    hide ParseMember;
    SkipTo(after, mark, tail);
    assert ([mark] + tail)[1..] == tail;
  }

  lemma FieldFails(s: seq<byte>, range: Range, members: seq<Member>)
    requires ParseMember(s, range, members).Err?
    ensures ParseMembers(s, range, members).Err?
    ensures ParseMembers(s, range, members).error == ParseMember(s, range, members).error
  {
    hide ParseMember;
  }

  lemma RepeatedKey(members: seq<Member>, i: nat)
    requires i < |members| && HasKey(members[..i], members[i].key)
    ensures !DistinctKeys(members)
  {
    var j :| 0 <= j < |members[..i]| && members[..i][j].key == members[i].key;
    assert members[j].key == members[i].key;
  }

  lemma FieldsSplit(t: Tree, i: nat, rest: seq<byte>) returns (mark: byte, tail: seq<byte>)
    requires t.Brace? && i < |t.fields|
    ensures mark == if i + 1 == |t.fields| then CLOSE_OBJECT else COMMA
    ensures i + 1 == |t.fields| ==> tail == rest
    ensures i + 1 < |t.fields| ==> tail == FlatFields(t, i + 1) + rest
    ensures var f := t.fields[i];
      FlatFields(t, i) + rest == f.before + (Literal(f.key) + (f.between + ([COLON]
        + (f.value.before + (Flat(f.value.tree) + (f.value.after + ([mark] + tail)))))))
  {
    hide Flat, Literal;
    var f, last := t.fields[i], i + 1 == |t.fields|;
    mark, tail := if last then CLOSE_OBJECT else COMMA, if last then rest else FlatFields(t, i + 1) + rest;
    var more := if last then [CLOSE_OBJECT] else [COMMA] + FlatFields(t, i + 1);
    assert more + rest == [mark] + tail;
    var key, value := Literal(f.key), Flat(f.value.tree);
    Regroup(f.value.after, more, rest);
    Regroup(value, f.value.after + more, rest);
    Regroup(f.value.before, value + (f.value.after + more), rest);
    var s := f.value.before + (value + (f.value.after + more));
    Regroup([COLON], s, rest);
    Regroup(f.between, [COLON] + s, rest);
    Regroup(key, f.between + ([COLON] + s), rest);
    Regroup(f.before, key + (f.between + ([COLON] + s)), rest);
  }

  lemma FieldFacts(t: Tree, i: nat, range: Range)
    requires t.Brace? && i < |t.fields| && WellFormed(t) && Lexical(Meaning(t), range)
    ensures var f, v := t.fields[i], Meaning(t);
      && FieldOk(f) && WellFormed(f.value.tree) && Lexical(Meaning(f.value.tree), range)
      && v.Object? && |v.members| == |t.fields|
      && v.members[i] == Member(TextOfBody(f.key), Meaning(f.value.tree))
  {
    hide IsNumber, GoodBody, NumLen, Valid, Blanks, TextOfBody, FieldOk;
    var v := Meaning(t);
    assert v.members[i] == Member(TextOfBody(t.fields[i].key), Meaning(t.fields[i].value.tree));
    assert Lexical(v.members[i].value, range);
  }

  /** The text of a field, up to what follows its value. */
  function FieldText(f: Field, s: seq<byte>): seq<byte> {
    f.before + (Literal(f.key) + (f.between + ([COLON] + (f.value.before + (Flat(f.value.tree) + s)))))
  }

  lemma FieldParses(f: Field, s: seq<byte>, range: Range, members: seq<Member>)
    requires FieldOk(f)
    requires Right(ParseValue(Flat(f.value.tree) + s, range), Meaning(f.value.tree), s, Strict(Meaning(f.value.tree), range))
    ensures var r, m := ParseMember(FieldText(f, s), range, members), Member(TextOfBody(f.key), Meaning(f.value.tree));
      if HasKey(members, m.key) || !Strict(m.value, range) then r.Err? && r.error.DuplicateKey? else r == Ok((m, s))
  {
    hide Literal, Flat, ParseMember, ParseValue, Strict, Meaning, GoodBody, TextOfBody, HasKey;
    var text := Flat(f.value.tree) + s;
    ValueSkips(f.value.before, text, range);
    FieldStep(f.before, f.key, f.between, f.value.before + text, range, members);
  }

  lemma {:induction false} FieldsParse(t: Tree, i: nat, rest: seq<byte>, range: Range)
    requires t.Brace? && i < |t.fields| && WellFormed(t) && Lexical(Meaning(t), range)
    requires DistinctKeys(Meaning(t).members[..i])
    requires forall j :: 0 <= j < i ==> Strict(Meaning(t).members[j].value, range)
    ensures Right(ParseMembers(FlatFields(t, i) + rest, range, Meaning(t).members[..i]), Meaning(t), rest, MembersStrict(Meaning(t), range))
    decreases t, |t.fields| - i
  {
    hide Literal, Flat, FlatFields, Lexical, ParseMember, ParseMembers, ParseValue, Stops, Strict, WellFormed, Meaning,
         GoodBody, TextOfBody, Blanks, HasKey;
    FieldFacts(t, i, range);
    var f, v := t.fields[i], Meaning(t);
    var m, done := v.members[i], v.members[..i];
    var mark, tail := FieldsSplit(t, i, rest);
    var after, all := f.value.after + ([mark] + tail), FlatFields(t, i) + rest;
    BlanksStop(f.value.after, mark, tail);
    TreeParses(f.value.tree, after, range);
    FieldParses(f, after, range, done);
    Snoc(v.members, i);
    if HasKey(done, m.key) {
      RepeatedKey(v.members, i);
      FieldFails(all, range, done);
    } else if !Strict(m.value, range) {
      FieldFails(all, range, done);
    } else {
      FieldsStep(all, m, f.value.after, mark, tail, range, done);
      DistinctGrows(done, m);
      if i + 1 == |t.fields| {
        assert v.members[..i + 1] == v.members;
      } else {
        FieldsParse(t, i + 1, rest, range);
      }
    }
  }

  lemma ArrayOpens(s: seq<byte>, range: Range)
    requires s != [] && SkipBlanks(s) != [] && SkipBlanks(s)[0] != CLOSE_ARRAY
    ensures ParseValue([OPEN_ARRAY] + s, range) == ParseItems(SkipBlanks(s), range, [])
  {
    hide ParseItems;
    NoBlank([OPEN_ARRAY] + s);
    assert ([OPEN_ARRAY] + s)[1..] == s;
  }

  lemma ObjectOpens(s: seq<byte>, range: Range)
    requires StartsWith(SkipBlanks(s), QUOTE)
    ensures ParseValue([OPEN_OBJECT] + s, range) == ParseMembers(SkipBlanks(s), range, [])
  {
    hide ParseMembers;
    NoBlank([OPEN_OBJECT] + s);
    assert ([OPEN_OBJECT] + s)[1..] == s;
  }

  lemma EmptyParses(gap: seq<byte>, rest: seq<byte>, range: Range)
    requires Blanks(gap)
    ensures ParseValue([OPEN_ARRAY] + (gap + [CLOSE_ARRAY]) + rest, range) == Ok((Array([]), rest))
    ensures ParseValue([OPEN_OBJECT] + (gap + [CLOSE_OBJECT]) + rest, range) == Ok((Object([]), rest))
  {
    hide ParseItems, ParseMembers;
    var a, o := [OPEN_ARRAY] + (gap + [CLOSE_ARRAY]) + rest, [OPEN_OBJECT] + (gap + [CLOSE_OBJECT]) + rest;
    NoBlank(a);
    NoBlank(o);
    assert a[1..] == gap + ([CLOSE_ARRAY] + rest) && o[1..] == gap + ([CLOSE_OBJECT] + rest);
    SkipTo(gap, CLOSE_ARRAY, rest);
    SkipTo(gap, CLOSE_OBJECT, rest);
    assert ([CLOSE_ARRAY] + rest)[1..] == rest && ([CLOSE_OBJECT] + rest)[1..] == rest;
  }

  /** An item list is parsed the same from where its first blanks end. */
  lemma ItemsSkip(s: seq<byte>, range: Range, items: seq<Value>)
    ensures ParseItems(SkipBlanks(s), range, items) == ParseItems(s, range, items)
  {
    hide ParseItems, ParseMembers;
    var blanks := SkippedBlanks(s);
    ValueSkips(blanks, SkipBlanks(s), range);
    SameItems(SkipBlanks(s), s, range, items);
  }

  lemma SameItems(a: seq<byte>, b: seq<byte>, range: Range, items: seq<Value>)
    requires ParseValue(a, range) == ParseValue(b, range)
    ensures ParseItems(a, range, items) == ParseItems(b, range, items)
  {
    hide ParseValue;
  }

  lemma MembersSkip(s: seq<byte>, range: Range, members: seq<Member>)
    ensures ParseMembers(SkipBlanks(s), range, members) == ParseMembers(s, range, members)
  {
    hide ParseValue, ParseString;
    SkipTwice(s);
    assert ParseMember(SkipBlanks(s), range, members) == ParseMember(s, range, members);
    hide ParseMember;
  }

  lemma SkipTwice(s: seq<byte>)
    ensures SkipBlanks(SkipBlanks(s)) == SkipBlanks(s)
  {
  }

  lemma {:induction false} ArrayParses(t: Tree, rest: seq<byte>, range: Range)
    requires t.Bracket? && t.items != [] && WellFormed(t) && Lexical(Meaning(t), range)
    ensures Right(ParseValue(Flat(t) + rest, range), Meaning(t), rest, Strict(Meaning(t), range))
    decreases t, |t.items| + 1
  {
    ItemFacts(t, 0, range);
    var v, p := Meaning(t), t.items[0];
    assert AllStrict(v, range) == Strict(v, range);
    FlatHead(p.tree, range);
    ItemsParse(t, 0, rest, range);
    var mark, tail := ItemsSplit(t, 0, rest);
    var s := FlatItems(t, 0) + rest;
    assert Flat(t) + rest == [OPEN_ARRAY] + s by { Regroup([OPEN_ARRAY], FlatItems(t, 0), rest); }
    hide Flat, FlatItems, Lexical, ParseItems, ParseValue, Strict, WellFormed, Meaning;
    SkipAll(p.before, Flat(p.tree) + (p.after + ([mark] + tail)));
    NoBlank(Flat(p.tree) + (p.after + ([mark] + tail)));
    ArrayOpens(s, range);
    ItemsSkip(s, range, []);
    assert v.items[..0] == [];
  }

  lemma {:induction false} ObjectParses(t: Tree, rest: seq<byte>, range: Range)
    requires t.Brace? && t.fields != [] && WellFormed(t) && Lexical(Meaning(t), range)
    ensures Right(ParseValue(Flat(t) + rest, range), Meaning(t), rest, Strict(Meaning(t), range))
    decreases t, |t.fields| + 1
  {
    hide FlatFields, Lexical, ParseMembers, ParseValue, Strict, WellFormed, Meaning;
    var v, s := Meaning(t), FlatFields(t, 0) + rest;
    FieldFacts(t, 0, range);
    KeysAreValid(t, range);
    assert v.members[..0] == [];
    FieldsParse(t, 0, rest, range);
    FieldsOpen(t, rest);
    Regroup([OPEN_OBJECT], FlatFields(t, 0), rest);
    ObjectOpens(s, range);
    MembersSkip(s, range, []);
  }

  lemma FieldsOpen(t: Tree, rest: seq<byte>)
    requires t.Brace? && t.fields != [] && FieldOk(t.fields[0])
    ensures StartsWith(SkipBlanks(FlatFields(t, 0) + rest), QUOTE)
  {
    hide Flat, FlatFields, GoodBody, SkipBlanks;
    var mark, tail := FieldsSplit(t, 0, rest);
    var f := t.fields[0];
    var more := f.between + ([COLON] + (f.value.before + (Flat(f.value.tree) + (f.value.after + ([mark] + tail)))));
    assert Literal(f.key) + more == [QUOTE] + ((f.key + [QUOTE]) + more);
    SkipTo(f.before, QUOTE, (f.key + [QUOTE]) + more);
  }

  lemma KeysAreValid(t: Tree, range: Range)
    requires t.Brace? && Lexical(Meaning(t), range)
    ensures MembersStrict(Meaning(t), range) == Strict(Meaning(t), range)
  {
    hide Valid, NumLen, TextOfBody;
  }

  /** Every well-formed text is read to its end: as its value, or refused for a repeated key. */
  lemma {:induction false} TreeParses(t: Tree, rest: seq<byte>, range: Range)
    requires WellFormed(t) && Lexical(Meaning(t), range) && Stops(rest)
    ensures Right(ParseValue(Flat(t) + rest, range), Meaning(t), rest, Strict(Meaning(t), range))
    decreases t, Arity(t) + 2
  {
    hide ParseValue, Valid, NumLen, Stops, Literal, GoodBody, TextOfBody, IsNumber;
    match t
    case NullWord => WordParses(NULL, Null, rest, range);
    case BoolWord(on) => WordParses(if on then TRUE else FALSE, Bool(on), rest, range);
    case Numeral(lexeme) => NumberParses(lexeme, rest, range);
    case Quotation(body) => TextParses(body, rest, range);
    case Bracket(items, gap) =>
      if items == [] {
        EmptyParses(gap, rest, range);
      } else {
        ArrayParses(t, rest, range);
      }
    case Brace(fields, gap) =>
      if fields == [] {
        EmptyParses(gap, rest, range);
      } else {
        ObjectParses(t, rest, range);
      }
  }

  /** A derivable text is accepted as its value if that is strict. */
  lemma DerivedParses(input: seq<byte>, v: Value, range: Range)
    requires Derives(input, v) && Strict(v, range)
    ensures Parse(input, range) == Ok(v)
  {
    var p :| PaddingOk(p) && WellFormed(p.tree) && PaddedText(p) == input && Meaning(p.tree) == v;
    StrictIsLexical(v, range);
    PaddedParses(p, range);
  }

  lemma PaddedParses(p: Padded, range: Range)
    requires PaddingOk(p) && WellFormed(p.tree) && Lexical(Meaning(p.tree), range)
    ensures var r := Parse(PaddedText(p), range);
      if Strict(Meaning(p.tree), range) then r == Ok(Meaning(p.tree)) else r.Err? && r.error.DuplicateKey?
  {
    hide WellFormed, Lexical, Meaning, Flat, Strict, ParseValue;
    assert Stops(p.after);
    TreeParses(p.tree, p.after, range);
    ValueSkips(p.before, Flat(p.tree) + p.after, range);
    SkipAll(p.after, []);
    assert p.after + [] == p.after;
  }
}
