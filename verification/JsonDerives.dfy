/** Soundness: whatever the strict parser reads is a well-formed text of the value it returns. */
module JsonDerives {
  import opened Wrappers
  import opened Lines
  import opened Utf8
  import opened JsonText
  import opened JsonNumbers
  import opened StrictJson
  import opened JsonGrammar
  import opened JsonAccepts

  // ----- leaves

  lemma StringDerives(s: seq<byte>) returns (body: seq<byte>)
    requires ParseString(s).Ok?
    ensures GoodBody(body) && TextOfBody(body) == ParseString(s).value.0
    ensures s == Literal(body) + ParseString(s).value.1
  {
    hide Decode, Valid, BodyLen;
    var n := BodyLen(s[1..]).value;
    body := s[1..][..n];
    assert s == [QUOTE] + s[1..] && s[1..] == body + ([QUOTE] + s[1..][n + 1..]);
    assert [QUOTE] + (body + ([QUOTE] + s[1..][n + 1..])) == Literal(body) + s[1..][n + 1..];
  }

  lemma NumberDerives(s: seq<byte>, range: Range) returns (lexeme: seq<byte>)
    requires ParseNumber(s, range).Ok?
    ensures IsNumber(lexeme) && ParseNumber(s, range).value.0 == Number(lexeme)
    ensures s == lexeme + ParseNumber(s, range).value.1
  {
    hide NumLen;
    var n := NumLen(s).value;
    lexeme := s[..n];
    NumberAlone(s, n);
    NumberIffScanned(lexeme);
  }

  lemma WordDerives(s: seq<byte>, word: seq<byte>, v: Value)
    requires word != [] && ParseLiteral(s, word, v).Ok?
    ensures s == word + ParseLiteral(s, word, v).value.1
  {
  }

  // ----- structures

  function Items(ps: seq<Padded>): Tree { Bracket(ps, []) }

  function Fields(fs: seq<Field>): Tree { Brace(fs, []) }

  lemma {:induction false} ItemsShift(p: Padded, ps: seq<Padded>, i: nat)
    requires i < |ps|
    ensures FlatItems(Items([p] + ps), i + 1) == FlatItems(Items(ps), i)
    decreases |ps| - i
  {
    hide Flat;
    if i + 1 < |ps| {
      ItemsShift(p, ps, i + 1);
    }
  }

  lemma {:induction false} FieldsShift(f: Field, fs: seq<Field>, i: nat)
    requires i < |fs|
    ensures FlatFields(Fields([f] + fs), i + 1) == FlatFields(Fields(fs), i)
    decreases |fs| - i
  {
    hide Flat, Literal;
    if i + 1 < |fs| {
      FieldsShift(f, fs, i + 1);
    }
  }

  ghost predicate ItemsOk(ps: seq<Padded>) {
    forall i :: 0 <= i < |ps| ==> PaddingOk(ps[i]) && WellFormed(ps[i].tree)
  }

  ghost predicate FieldsOk(fs: seq<Field>) {
    forall i :: 0 <= i < |fs| ==> FieldOk(fs[i]) && WellFormed(fs[i].value.tree)
  }

  function ItemValues(ps: seq<Padded>): seq<Value> {
    seq(|ps|, i requires 0 <= i < |ps| => Meaning(ps[i].tree))
  }

  function FieldMembers(fs: seq<Field>): seq<Member> {
    seq(|fs|, i requires 0 <= i < |fs| => Member(TextOfBody(fs[i].key), Meaning(fs[i].value.tree)))
  }

  /** What follows an item: blanks, and a mark. */
  lemma MarkAfter(s: seq<byte>, mark: byte) returns (after: seq<byte>)
    requires StartsWith(SkipBlanks(s), mark)
    ensures Blanks(after) && s == after + ([mark] + SkipBlanks(s)[1..])
  {
    after := SkippedBlanks(s);
    assert SkipBlanks(s) == [mark] + SkipBlanks(s)[1..];
  }

  lemma FirstItem(p: Padded, ps: seq<Padded>, rest: seq<byte>)
    ensures FlatItems(Items([p] + ps), 0) + rest == p.before + (Flat(p.tree) + (p.after
      + if ps == [] then [CLOSE_ARRAY] + rest else [COMMA] + (FlatItems(Items(ps), 0) + rest)))
  {
    hide Flat;
    var t := Items([p] + ps);
    var mark, tail := ItemsSplit(t, 0, rest);
    if ps != [] {
      ItemsShift(p, ps, 0);
    }
  }

  lemma {:induction false} ItemsDerive(s: seq<byte>, range: Range, items: seq<Value>) returns (ps: seq<Padded>)
    requires ParseItems(s, range, items).Ok?
    ensures ps != [] && ItemsOk(ps)
    ensures ParseItems(s, range, items).value.0 == Array(items + ItemValues(ps))
    ensures s == FlatItems(Items(ps), 0) + ParseItems(s, range, items).value.1
    decreases |s|, 2
  {
    hide ParseValue, Flat, FlatItems, WellFormed, Meaning;
    var item, before, tree := ParseValue(s, range).value, [], NullWord;
    before, tree := ValueDerives(s, range);
    var t := SkipBlanks(item.1);
    var mark := if StartsWith(t, COMMA) then COMMA else CLOSE_ARRAY;
    var after := MarkAfter(item.1, mark);
    var p := Padded(before, tree, after);
    var rest := ParseItems(s, range, items).value.1;
    if mark == COMMA {
      var more := ItemsDerive(t[1..], range, items + [item.0]);
      ps := [p] + more;
      assert items + [item.0] + ItemValues(more) == items + ItemValues(ps);
      FirstItem(p, more, rest);
    } else {
      ps := [p];
      assert items + [item.0] == items + ItemValues(ps);
      FirstItem(p, [], rest);
      assert [p] + [] == [p];
    }
  }

  lemma FirstField(f: Field, fs: seq<Field>, rest: seq<byte>)
    ensures FlatFields(Fields([f] + fs), 0) + rest
      == FieldText(f, f.value.after + if fs == [] then [CLOSE_OBJECT] + rest else [COMMA] + (FlatFields(Fields(fs), 0) + rest))
  {
    hide Flat, Literal;
    var t := Fields([f] + fs);
    var mark, tail := FieldsSplit(t, 0, rest);
    if fs != [] {
      FieldsShift(f, fs, 0);
    }
  }

  /** A member read is the text of a field, up to what follows its value. */
  lemma {:induction false} MemberDerives(s: seq<byte>, range: Range, members: seq<Member>) returns (f: Field)
    requires ParseMember(s, range, members).Ok?
    ensures FieldOk(f) && WellFormed(f.value.tree) && f.value.after == []
    ensures ParseMember(s, range, members).value.0 == Member(TextOfBody(f.key), Meaning(f.value.tree))
    ensures s == FieldText(f, ParseMember(s, range, members).value.1)
    decreases |s|, 2
  {
    hide ParseValue, ParseString, Flat, WellFormed, Meaning, HasKey, Literal, GoodBody, TextOfBody;
    var before := SkippedBlanks(s);
    var u := SkipBlanks(s);
    var body := StringDerives(u);
    var r := ParseString(u).value.1;
    var between := MarkAfter(r, COLON);
    var rest := SkipBlanks(r)[1..];
    var pad, tree := ValueDerives(rest, range);
    f := Field(before, body, between, Padded(pad, tree, []));
  }

  lemma {:induction false} MembersDerive(s: seq<byte>, range: Range, members: seq<Member>) returns (fs: seq<Field>)
    requires ParseMembers(s, range, members).Ok?
    ensures fs != [] && FieldsOk(fs)
    ensures ParseMembers(s, range, members).value.0 == Object(members + FieldMembers(fs))
    ensures s == FlatFields(Fields(fs), 0) + ParseMembers(s, range, members).value.1
    decreases |s|, 3
  {
    hide ParseMember, Flat, FlatFields, WellFormed, Meaning, FieldText, GoodBody, TextOfBody, Blanks;
    var member := ParseMember(s, range, members).value;
    var open := MemberDerives(s, range, members);
    var t := SkipBlanks(member.1);
    var mark := if StartsWith(t, COMMA) then COMMA else CLOSE_OBJECT;
    var after := MarkAfter(member.1, mark);
    var f := open.(value := open.value.(after := after));
    var rest := ParseMembers(s, range, members).value.1;
    SameField(open, f, member.1);
    if mark == COMMA {
      var more := MembersDerive(t[1..], range, members + [member.0]);
      fs := [f] + more;
      assert members + [member.0] + FieldMembers(more) == members + FieldMembers(fs);
      FirstField(f, more, rest);
    } else {
      fs := [f];
      assert members + [member.0] == members + FieldMembers(fs);
      FirstField(f, [], rest);
      assert [f] + [] == [f];
    }
  }

  /** What follows a value is not part of a field's text. */
  lemma SameField(f: Field, g: Field, s: seq<byte>)
    requires FieldOk(f) && g == f.(value := f.value.(after := g.value.after)) && Blanks(g.value.after)
    ensures FieldOk(g) && FieldText(g, s) == FieldText(f, s)
  {
    hide Flat, Literal, GoodBody;
  }

  // ----- values

  lemma OpensWith(s: seq<byte>, mark: byte, inner: seq<byte>, rest: seq<byte>)
    requires StartsWith(s, mark) && s[1..] == inner + rest
    ensures s == ([mark] + inner) + rest
  {
    assert s == [mark] + s[1..];
  }

  lemma ItemsTree(ps: seq<Padded>)
    requires ps != [] && ItemsOk(ps)
    ensures WellFormed(Items(ps)) && Meaning(Items(ps)) == Array(ItemValues(ps))
    ensures Flat(Items(ps)) == [OPEN_ARRAY] + FlatItems(Items(ps), 0)
  {
    hide FlatItems;
  }

  lemma FieldsTree(fs: seq<Field>)
    requires fs != [] && FieldsOk(fs)
    ensures WellFormed(Fields(fs)) && Meaning(Fields(fs)) == Object(FieldMembers(fs))
    ensures Flat(Fields(fs)) == [OPEN_OBJECT] + FlatFields(Fields(fs), 0)
  {
    hide FlatFields, GoodBody, TextOfBody;
  }

  lemma EmptyObject(s: seq<byte>, range: Range) returns (tree: Tree)
    requires StartsWith(s, OPEN_OBJECT) && StartsWith(SkipBlanks(s[1..]), CLOSE_OBJECT)
    ensures ParseValue(s, range).Ok?
    ensures WellFormed(tree) && Meaning(tree) == ParseValue(s, range).value.0
    ensures s == Flat(tree) + ParseValue(s, range).value.1
  {
    hide ParseMembers, ParseItems;
    NoBlank(s);
    var gap := SkippedBlanks(s[1..]);
    var rest := ParseValue(s, range).value.1;
    tree := Brace([], gap);
    assert SkipBlanks(s[1..]) == [CLOSE_OBJECT] + rest && s[1..] == (gap + [CLOSE_OBJECT]) + rest;
    OpensWith(s, OPEN_OBJECT, gap + [CLOSE_OBJECT], rest);
  }

  lemma ObjectIsMembers(s: seq<byte>, range: Range)
    requires StartsWith(s, OPEN_OBJECT) && !StartsWith(SkipBlanks(s[1..]), CLOSE_OBJECT)
    ensures ParseValue(s, range) == ParseMembers(SkipBlanks(s[1..]), range, [])
  {
    hide ParseMembers, ParseItems;
    NoBlank(s);
  }

  lemma {:induction false} ObjectDerives(s: seq<byte>, range: Range) returns (tree: Tree)
    requires StartsWith(s, OPEN_OBJECT) && ParseValue(s, range).Ok?
    ensures WellFormed(tree) && Meaning(tree) == ParseValue(s, range).value.0
    ensures s == Flat(tree) + ParseValue(s, range).value.1
    decreases |s|, 0
  {
    hide ParseMembers, ParseValue, Flat, FlatFields, Meaning, WellFormed, FieldsOk, Blanks, TextOfBody;
    var u := SkipBlanks(s[1..]);
    if StartsWith(u, CLOSE_OBJECT) {
      tree := EmptyObject(s, range);
    } else {
      ObjectIsMembers(s, range);
      var gap := SkippedBlanks(s[1..]);
      var rest := ParseValue(s, range).value.1;
      var fs := MembersDerive(u, range, []);
      var more := [fs[0].(before := gap + fs[0].before)] + fs[1..];
      WiderField(gap, fs, rest);
      FieldsTree(more);
      tree := Fields(more);
      OpensWith(s, OPEN_OBJECT, FlatFields(tree, 0), rest);
      assert [] + FieldMembers(fs) == FieldMembers(more);
    }
  }

  /** Blanks before the first field belong to it. */
  lemma WiderField(gap: seq<byte>, fs: seq<Field>, rest: seq<byte>)
    requires Blanks(gap) && fs != [] && FieldsOk(fs)
    ensures var more := [fs[0].(before := gap + fs[0].before)] + fs[1..];
      && FieldsOk(more) && gap + (FlatFields(Fields(fs), 0) + rest) == FlatFields(Fields(more), 0) + rest
  {
    hide Flat, Literal, WellFormed, GoodBody;
    var f, tail := fs[0], fs[1..];
    var g := f.(before := gap + f.before);
    assert fs == [f] + tail;
    FirstField(f, tail, rest);
    FirstField(g, tail, rest);
    var after := f.value.after + if tail == [] then [CLOSE_OBJECT] + rest else [COMMA] + (FlatFields(Fields(tail), 0) + rest);
    hide FlatFields;
    assert gap + FieldText(f, after) == FieldText(g, after);
  }

  lemma WiderItem(gap: seq<byte>, ps: seq<Padded>, rest: seq<byte>)
    requires Blanks(gap) && ps != [] && ItemsOk(ps)
    ensures var more := [ps[0].(before := gap + ps[0].before)] + ps[1..];
      && ItemsOk(more) && gap + (FlatItems(Items(ps), 0) + rest) == FlatItems(Items(more), 0) + rest
  {
    hide Flat, WellFormed;
    var p, tail := ps[0], ps[1..];
    var q := p.(before := gap + p.before);
    assert ps == [p] + tail;
    FirstItem(p, tail, rest);
    FirstItem(q, tail, rest);
    var after := Flat(p.tree) + (p.after + if tail == [] then [CLOSE_ARRAY] + rest else [COMMA] + (FlatItems(Items(tail), 0) + rest));
    hide FlatItems;
    assert gap + (p.before + after) == q.before + after;
  }

  lemma {:induction false} ArrayDerives(s: seq<byte>, range: Range) returns (tree: Tree)
    requires StartsWith(s, OPEN_ARRAY) && ParseValue(s, range).Ok?
    ensures WellFormed(tree) && Meaning(tree) == ParseValue(s, range).value.0
    ensures s == Flat(tree) + ParseValue(s, range).value.1
    decreases |s|, 0
  {
    NoBlank(s);
    var u := SkipBlanks(s[1..]);
    var gap := SkippedBlanks(s[1..]);
    var rest := ParseValue(s, range).value.1;
    if StartsWith(u, CLOSE_ARRAY) {
      hide ParseMembers, ParseItems;
      tree := Bracket([], gap);
      assert u == [CLOSE_ARRAY] + rest && s[1..] == (gap + [CLOSE_ARRAY]) + rest;
      OpensWith(s, OPEN_ARRAY, gap + [CLOSE_ARRAY], rest);
    } else {
      hide ParseMembers;
      assert ParseValue(s, range) == ParseItems(u, range, []);
      hide ParseItems, ParseValue, Flat, Meaning, WellFormed, ItemsOk;
      var ps := ItemsDerive(u, range, []);
      var first := ps[0].(before := gap + ps[0].before);
      var more := [first] + ps[1..];
      tree := Items(more);
      WiderItem(gap, ps, rest);
      ItemsTree(more);
      OpensWith(s, OPEN_ARRAY, FlatItems(tree, 0), rest);
      assert [] + ItemValues(ps) == ItemValues(more);
    }
  }

  lemma {:induction false} ValueDerives(input: seq<byte>, range: Range) returns (before: seq<byte>, tree: Tree)
    requires ParseValue(input, range).Ok?
    ensures Blanks(before) && WellFormed(tree) && Meaning(tree) == ParseValue(input, range).value.0
    ensures input == before + (Flat(tree) + ParseValue(input, range).value.1)
    decreases |input|, 1
  {
    before := SkippedBlanks(input);
    var s := SkipBlanks(input);
    ValueSkips(before, s, range);
    NoBlank(s);
    hide ParseItems, ParseMembers, ParseNumber, ParseString, ParseLiteral, IsNumber, GoodBody, TextOfBody, Literal;
    if s[0] == OPEN_OBJECT {
      hide ParseValue;
      tree := ObjectDerives(s, range);
    } else if s[0] == OPEN_ARRAY {
      hide ParseValue;
      tree := ArrayDerives(s, range);
    } else if s[0] == QUOTE {
      var body := StringDerives(s);
      tree := Quotation(body);
    } else if s[0] == TRUE[0] {
      WordDerives(s, TRUE, Bool(true));
      tree := BoolWord(true);
    } else if s[0] == FALSE[0] {
      WordDerives(s, FALSE, Bool(false));
      tree := BoolWord(false);
    } else if s[0] == NULL[0] {
      WordDerives(s, NULL, Null);
      tree := NullWord;
    } else {
      var lexeme := NumberDerives(s, range);
      tree := Numeral(lexeme);
    }
  }

  /** The strict parser accepts a text as a value exactly when the grammar derives it and the value is strict. */
  lemma AcceptedIffDerived(input: seq<byte>, v: Value, range: Range)
    ensures Parse(input, range) == Ok(v) <==> Derives(input, v) && Strict(v, range)
  {
    hide ParseValue, Strict, Flat, Meaning, WellFormed;
    if Parse(input, range) == Ok(v) {
      AcceptedIsStrict(input, range);
      var before, tree := ValueDerives(input, range);
      var after := SkippedBlanks(ParseValue(input, range).value.1);
      var p := Padded(before, tree, after);
      assert after == ParseValue(input, range).value.1;
      assert PaddingOk(p) && PaddedText(p) == input;
    }
    if Derives(input, v) && Strict(v, range) {
      DerivedParses(input, v, range);
    }
  }
}
