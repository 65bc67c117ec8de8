/** The compact rendering of a value, and what the strict parser makes of it. */
module JsonRoundTrip {
  import opened Wrappers
  import opened Lines
  import opened Utf8
  import opened JsonText
  import opened JsonStrings
  import opened JsonNumbers
  import opened StrictJson
  import opened JsonGrammar
  import opened JsonAccepts

  /** The tree of a value without a blank in it. */
  function Compact(v: Value): Tree
    decreases v
  {
    match v
    case Null => NullWord
    case Bool(on) => BoolWord(on)
    case Number(lexeme) => Numeral(lexeme)
    case Str(text) => Quotation(RenderText(text))
    case Array(items) => Bracket(seq(|items|, i requires 0 <= i < |items| => Padded([], Compact(items[i]), [])), [])
    case Object(members) =>
      Brace(seq(|members|, i requires 0 <= i < |members| =>
        Field([], RenderText(members[i].key), [], Padded([], Compact(members[i].value), []))), [])
  }

  function Render(v: Value): seq<byte> {
    Flat(Compact(v))
  }

  lemma RenderedBody(text: seq<byte>)
    requires Valid(text)
    ensures GoodBody(RenderText(text)) && TextOfBody(RenderText(text)) == text
  {
    DecodeRendered(text);
    RenderIsValid(text);
  }

  lemma {:induction false} CompactMeans(v: Value, range: Range)
    requires Lexical(v, range)
    ensures WellFormed(Compact(v)) && Meaning(Compact(v)) == v
    decreases v
  {
    hide GoodBody, TextOfBody, Valid, NumLen, RenderText;
    match v
    case Null =>
    case Bool(_) =>
    case Number(lexeme) => NumberIffScanned(lexeme);
    case Str(text) => RenderedBody(text);
    case Array(items) =>
      forall i | 0 <= i < |items| ensures WellFormed(Compact(items[i])) && Meaning(Compact(items[i])) == items[i] {
        CompactMeans(items[i], range);
      }
      assert Meaning(Compact(v)).items == items;
    case Object(members) =>
      forall i | 0 <= i < |members|
        ensures GoodBody(RenderText(members[i].key)) && TextOfBody(RenderText(members[i].key)) == members[i].key
        ensures WellFormed(Compact(members[i].value)) && Meaning(Compact(members[i].value)) == members[i].value
      {
        RenderedBody(members[i].key);
        CompactMeans(members[i].value, range);
      }
      assert Meaning(Compact(v)).members == members;
  }

  /** The compact rendering of a value parses back to it if its keys are distinct at every depth, and else as a duplicate. */
  lemma RenderedParses(v: Value, range: Range)
    requires Lexical(v, range)
    ensures if Strict(v, range) then Parse(Render(v), range) == Ok(v)
      else Parse(Render(v), range).Err? && Parse(Render(v), range).error.DuplicateKey?
  {
    CompactMeans(v, range);
    var p := Padded([], Compact(v), []);
    hide Flat, Compact, Meaning, WellFormed, Lexical, Parse;
    assert PaddedText(p) == Render(v);
    PaddedParses(p, range);
  }

  /** Parsing, rendering and parsing again gives the value the first parse gave. */
  lemma ParseRenderParse(input: seq<byte>, range: Range)
    requires Parse(input, range).Ok?
    ensures Parse(Render(Parse(input, range).value), range) == Parse(input, range)
  {
    AcceptedIsStrict(input, range);
    StrictIsLexical(Parse(input, range).value, range);
    hide Parse;
    RenderedParses(Parse(input, range).value, range);
  }
}
