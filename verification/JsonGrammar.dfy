/**
 JSON texts as trees (sections 2 to 7 of RFC 8259, with form feed as one blank more): what a
 tree looks like, what it means, and that the strict parser accepts exactly these texts.
 */
module JsonGrammar {
  import opened Lines
  import opened Utf8
  import opened JsonText
  import opened JsonNumbers
  import opened StrictJson

  datatype Tree =
    | NullWord
    | BoolWord(on: bool)
    | Numeral(lexeme: seq<byte>)
    | Quotation(body: seq<byte>)
    /** `gap` is what an empty pair of brackets holds. */
    | Bracket(items: seq<Padded>, gap: seq<byte>)
    | Brace(fields: seq<Field>, gap: seq<byte>)

  /** A value and the blanks around it. */
  datatype Padded = Padded(before: seq<byte>, tree: Tree, after: seq<byte>)

  datatype Field = Field(before: seq<byte>, key: seq<byte>, between: seq<byte>, value: Padded)

  predicate Blanks(s: seq<byte>) {
    forall i :: 0 <= i < |s| ==> s[i] in {0x20, 0x09, 0x0a, 0x0c, 0x0d}
  }

  predicate GoodBody(body: seq<byte>) {
    Valid(body) && Decode(body).Some?
  }

  ghost predicate WellFormed(t: Tree)
    decreases t
  {
    match t
    case NullWord => true
    case BoolWord(_) => true
    case Numeral(lexeme) => IsNumber(lexeme)
    case Quotation(body) => GoodBody(body)
    case Bracket(items, gap) =>
      Blanks(gap) && forall i :: 0 <= i < |items| ==> PaddingOk(items[i]) && WellFormed(items[i].tree)
    case Brace(fields, gap) =>
      Blanks(gap) && forall i :: 0 <= i < |fields| ==> FieldOk(fields[i]) && WellFormed(fields[i].value.tree)
  }

  predicate PaddingOk(p: Padded) {
    Blanks(p.before) && Blanks(p.after)
  }

  predicate FieldOk(f: Field) {
    Blanks(f.before) && GoodBody(f.key) && Blanks(f.between) && PaddingOk(f.value)
  }

  // ----- the text and the value of a tree

  function Literal(body: seq<byte>): seq<byte> {
    [0x22] + (body + [0x22])
  }

  function Arity(t: Tree): nat {
    if t.Bracket? then |t.items| else if t.Brace? then |t.fields| else 0
  }

  function Flat(t: Tree): seq<byte>
    decreases t, Arity(t) + 1
  {
    match t
    case NullWord => [0x6e, 0x75, 0x6c, 0x6c]
    case BoolWord(on) => if on then [0x74, 0x72, 0x75, 0x65] else [0x66, 0x61, 0x6c, 0x73, 0x65]
    case Numeral(lexeme) => lexeme
    case Quotation(body) => Literal(body)
    case Bracket(items, gap) => [0x5b] + (if items == [] then gap + [0x5d] else FlatItems(t, 0))
    case Brace(fields, gap) => [0x7b] + (if fields == [] then gap + [0x7d] else FlatFields(t, 0))
  }

  /** The items from the i-th on, and the closing bracket. */
  function FlatItems(t: Tree, i: nat): seq<byte>
    requires t.Bracket? && i < |t.items|
    decreases t, |t.items| - i
  {
    var p := t.items[i];
    p.before + (Flat(p.tree) + (p.after
      + if i + 1 < |t.items| then [0x2c] + FlatItems(t, i + 1) else [0x5d]))
  }

  function FlatFields(t: Tree, i: nat): seq<byte>
    requires t.Brace? && i < |t.fields|
    decreases t, |t.fields| - i
  {
    var f := t.fields[i];
    f.before + (Literal(f.key) + (f.between + ([0x3a] + (f.value.before + (Flat(f.value.tree) + (f.value.after
      + if i + 1 < |t.fields| then [0x2c] + FlatFields(t, i + 1) else [0x7d]))))))
  }

  function TextOfBody(body: seq<byte>): seq<byte> {
    if Decode(body).Some? then Decode(body).value else []
  }

  function Meaning(t: Tree): Value
    decreases t
  {
    match t
    case NullWord => Null
    case BoolWord(on) => Bool(on)
    case Numeral(lexeme) => Number(lexeme)
    case Quotation(body) => Str(TextOfBody(body))
    case Bracket(items, _) => Array(seq(|items|, i requires 0 <= i < |items| => Meaning(items[i].tree)))
    case Brace(fields, _) =>
      Object(seq(|fields|, i requires 0 <= i < |fields| =>
        Member(TextOfBody(fields[i].key), Meaning(fields[i].value.tree))))
  }

  function PaddedText(p: Padded): seq<byte> {
    p.before + (Flat(p.tree) + p.after)
  }

  /** The grammar derives this value from this text. */
  ghost predicate Derives(input: seq<byte>, v: Value) {
    exists p :: PaddingOk(p) && WellFormed(p.tree) && PaddedText(p) == input && Meaning(p.tree) == v
  }

  // ----- blanks

  lemma {:induction false} SkipAll(blanks: seq<byte>, s: seq<byte>)
    requires Blanks(blanks)
    ensures SkipBlanks(blanks + s) == SkipBlanks(s)
    decreases |blanks|
  {
    if blanks == [] {
      assert blanks + s == s;
    } else {
      assert (blanks + s)[1..] == blanks[1..] + s;
      SkipAll(blanks[1..], s);
    }
  }

  lemma NoBlank(s: seq<byte>)
    requires s != [] && !Blank(s[0])
    ensures SkipBlanks(s) == s
  {
  }

  lemma SkipTo(blanks: seq<byte>, mark: byte, s: seq<byte>)
    requires Blanks(blanks) && !Blank(mark)
    ensures SkipBlanks(blanks + ([mark] + s)) == [mark] + s
  {
    SkipAll(blanks, [mark] + s);
    NoBlank([mark] + s);
  }

  lemma {:induction false} SkippedBlanks(s: seq<byte>) returns (blanks: seq<byte>)
    ensures Blanks(blanks) && s == blanks + SkipBlanks(s)
    decreases |s|
  {
    if s != [] && Blank(s[0]) {
      var more := SkippedBlanks(s[1..]);
      blanks := [s[0]] + more;
      assert s == [s[0]] + s[1..];
    } else {
      blanks := [];
    }
  }

  /** A value is parsed from where the blanks end. */
  lemma ValueSkips(blanks: seq<byte>, s: seq<byte>, range: Range)
    requires Blanks(blanks)
    ensures ParseValue(blanks + s, range) == ParseValue(s, range)
  {
    SkipAll(blanks, s);
    hide ParseItems, ParseMembers, ParseNumber, ParseString, ParseLiteral;
  }

  predicate StartsItem(s: seq<byte>) {
    s != [] && !Blank(s[0]) && s[0] != CLOSE_ARRAY
  }

  lemma BlanksStop(blanks: seq<byte>, mark: byte, s: seq<byte>)
    requires Blanks(blanks) && (mark == COMMA || mark == CLOSE_ARRAY || mark == CLOSE_OBJECT)
    ensures Stops(blanks + ([mark] + s))
  {
  }
}
