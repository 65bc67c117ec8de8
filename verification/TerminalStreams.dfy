/**
 Terminal streams as a grammar: characters, control sequences, control strings, short
 escapes and stray bytes (the forms of sections 5.4 and 5.6 of ECMA-48, as terminals accept
 them). Every byte stream has such a reading, and the sanitizer keeps exactly its
 characters, but for direction marks and what the limits leave no room for.
 */
module TerminalStreams {
  import opened Lines
  import opened Utf8
  import opened Sanitizer

  datatype Segment =
    /** One character that may be shown. */
    | Char(w: seq<byte>)
    /** ESC [ or its one-byte form, parameters, and a final byte. */
    | Sequence(intro: seq<byte>, params: seq<byte>, final: byte)
    /** A command, device or privacy string and the like, to its terminator. */
    | Control(intro: seq<byte>, body: seq<byte>, close: seq<byte>)
    /** ESC and one other byte. */
    | Short(b: byte)
    /** A byte that means nothing to the observer. */
    | Stray(b: byte)
    /** As many bytes as a character has, which are none. */
    | Garbled(w: seq<byte>)
    /** The beginning of a character that something else cuts off. */
    | Torn(w: seq<byte>)

  // ----- the grammar

  predicate Ascii(b: byte) {
    b == 0x0a || 0x20 <= b <= 0x7e
  }

  /** A byte that begins a longer character, and some bytes that could go on with it. */
  predicate Opens(w: seq<byte>) {
    w != [] && 0xc2 <= w[0] <= 0xf4 && forall i :: 0 < i < |w| ==> 0x80 <= w[i] <= 0xbf
  }

  function Announced(b: byte): nat {
    if b < 0xe0 then 2 else if b < 0xf0 then 3 else 4
  }

  predicate IntroducesSequence(i: seq<byte>) {
    i in {[0x1b, 0x5b], [0x9b]}
  }

  predicate IntroducesString(i: seq<byte>) {
    i in {[0x1b, 0x50], [0x1b, 0x58], [0x1b, 0x5d], [0x1b, 0x5e], [0x1b, 0x5f], [0x90], [0x98], [0x9d], [0x9e], [0x9f]}
  }

  predicate Params(b: seq<byte>) {
    forall i :: 0 <= i < |b| ==> !(0x40 <= b[i] <= 0x7e)
  }

  /** What a control string holds: bytes but BEL, where ESC takes the byte after it along. */
  predicate Body(b: seq<byte>) {
    || b == []
    || (b[0] != 0x07 && b[0] != 0x1b && Body(b[1..]))
    || (|b| >= 2 && b[0] == 0x1b && b[1] != 0x5c && Body(b[2..]))
  }

  predicate WellFormed(g: Segment) {
    match g
    case Char(w) => (|w| == 1 && Ascii(w[0])) || (|w| >= 2 && Whole(w))
    case Sequence(intro, params, final) => IntroducesSequence(intro) && Params(params) && 0x40 <= final <= 0x7e
    case Control(intro, body, close) => IntroducesString(intro) && Body(body) && close in {[0x07], [0x1b, 0x5c]}
    case Short(b) => b !in {0x5b, 0x50, 0x58, 0x5d, 0x5e, 0x5f}
    case Stray(b) => !Ascii(b) && !(0xc2 <= b <= 0xf4) && b !in {0x1b, 0x9b, 0x90, 0x98, 0x9d, 0x9e, 0x9f}
    case Garbled(w) => Opens(w) && |w| == Announced(w[0]) && !Whole(w)
    case Torn(w) => Opens(w) && |w| < Announced(w[0])
  }

  function BytesOf(g: Segment): seq<byte> {
    match g
    case Char(w) => w
    case Sequence(intro, params, final) => intro + params + [final]
    case Control(intro, body, close) => intro + body + close
    case Short(b) => [0x1b, b]
    case Stray(b) => [b]
    case Garbled(w) => w
    case Torn(w) => w
  }

  function Bytes(gs: seq<Segment>, open: seq<byte>): seq<byte> {
    if gs == [] then open else BytesOf(gs[0]) + Bytes(gs[1..], open)
  }

  /** What may stand unfinished at the end of a stream. */
  ghost predicate Unclosed(open: seq<byte>) {
    || open == [] || open == [0x1b]
    || (Opens(open) && |open| < Announced(open[0]))
    || OpenSequence(open) || OpenString(open)
  }

  ghost predicate OpenSequence(open: seq<byte>) {
    exists i, b :: IntroducesSequence(i) && Params(b) && open == i + b
  }

  ghost predicate OpenString(open: seq<byte>) {
    exists i, b :: IntroducesString(i) && Body(b) && (open == i + b || open == i + b + [0x1b])
  }

  /** The segments and the rest are a reading of `Bytes(gs, open)`. */
  ghost predicate Reads(gs: seq<Segment>, open: seq<byte>) {
    if gs == [] then Unclosed(open)
    else
      && WellFormed(gs[0]) && Reads(gs[1..], open)
      && (gs[0].Torn? ==> var rest := Bytes(gs[1..], open); rest != [] && !(0x80 <= rest[0] <= 0xbf))
  }

  // ----- what is kept

  /** U+202A to U+202E and U+2066 to U+2069, in UTF-8. */
  predicate DirectionMark(w: seq<byte>) {
    |w| == 3 && w[0] == 0xe2
    && ((w[1] == 0x80 && 0xaa <= w[2] <= 0xae) || (w[1] == 0x81 && 0xa6 <= w[2] <= 0xa9))
  }

  function Chars(gs: seq<Segment>): seq<seq<byte>> {
    if gs == [] then [] else (if gs[0].Char? then [gs[0].w] else []) + Chars(gs[1..])
  }

  function LineBreaks(b: seq<byte>): nat {
    multiset(b)[0x0a]
  }

  /** The characters there is room for, each of which is kept whole or left out. */
  function Trimmed(out: seq<seq<byte>>, cs: seq<seq<byte>>, maxBytes: nat, maxLines: nat): seq<seq<byte>>
    decreases |cs|
  {
    if cs == [] then out
    else
      var room := |Joined(out)| + |cs[0]| <= maxBytes && (cs[0] == [0x0a] ==> LineBreaks(Joined(out)) + 1 < maxLines);
      Trimmed(if room then out + [cs[0]] else out, cs[1..], maxBytes, maxLines)
  }

  function Joined(cs: seq<seq<byte>>): seq<byte>
    decreases |cs|
  {
    if cs == [] then [] else Joined(cs[..|cs| - 1]) + cs[|cs| - 1]
  }

  function Unmarked(cs: seq<seq<byte>>): seq<seq<byte>>
    decreases |cs|
  {
    if cs == [] then []
    else Unmarked(cs[..|cs| - 1]) + (if DirectionMark(cs[|cs| - 1]) then [] else [cs[|cs| - 1]])
  }

  // ----- the machine, from the front

  lemma Front(s: State, b: byte, rest: seq<byte>)
    ensures End(s, [b] + rest) == End(Next(s, b), rest)
    ensures Emitted(s, [b] + rest) == Emit(s, b) + Emitted(Next(s, b), rest)
  {
    hide Next, Emit;
    EndConcat(s, [b], rest);
    assert [b][..0] == [];
    assert End(s, [b]) == Next(s, b) && Emitted(s, [b]) == [] + Emit(s, b);
  }

  /** Reading `b` moves the machine and emits nothing. */
  predicate Silent(s: State, b: seq<byte>, to: State) {
    End(s, b) == to && Emitted(s, b) == []
  }

  lemma SilentThen(s: State, a: seq<byte>, mid: State, b: seq<byte>, to: State)
    requires Silent(s, a, mid) && Silent(mid, b, to)
    ensures Silent(s, a + b, to)
  {
    EndConcat(s, a, b);
  }

  lemma SilentByte(s: State, b: byte)
    requires Emit(s, b) == []
    ensures Silent(s, [b], Next(s, b))
  {
    hide Next, Emit;
    assert [b] + [] == [b];
    Front(s, b, []);
  }

  lemma {:induction false} ParamsAreSilent(b: seq<byte>)
    requires Params(b)
    ensures Silent(State(Csi, []), b, State(Csi, []))
  {
    if b != [] {
      ParamsAreSilent(b[1..]);
      SilentByte(State(Csi, []), b[0]);
      SilentThen(State(Csi, []), [b[0]], State(Csi, []), b[1..], State(Csi, []));
      assert [b[0]] + b[1..] == b;
    }
  }

  lemma {:induction false} BodyIsSilent(b: seq<byte>)
    requires Body(b)
    ensures Silent(State(Str, []), b, State(Str, []))
    decreases |b|
  {
    var inside := State(Str, []);
    if b != [] {
      SilentByte(inside, b[0]);
      if b[0] != 0x1b {
        BodyIsSilent(b[1..]);
        SilentThen(inside, [b[0]], inside, b[1..], inside);
        assert [b[0]] + b[1..] == b;
      } else {
        BodyIsSilent(b[2..]);
        SilentByte(State(StrEnd, []), b[1]);
        SilentThen(inside, [b[0]], State(StrEnd, []), [b[1]], inside);
        SilentThen(inside, [b[0]] + [b[1]], inside, b[2..], inside);
        assert [b[0]] + [b[1]] + b[2..] == b;
      }
    }
  }

  lemma TwoBytes(s: State, a: byte, b: byte)
    requires Emit(s, a) == [] && Emit(Next(s, a), b) == []
    ensures Silent(s, [a, b], Next(Next(s, a), b))
  {
    hide Next, Emit;
    SilentByte(s, a);
    SilentByte(Next(s, a), b);
    SilentThen(s, [a], Next(s, a), [b], Next(Next(s, a), b));
    assert [a] + [b] == [a, b];
  }

  lemma SequenceOpens(i: seq<byte>)
    requires IntroducesSequence(i)
    ensures Silent(START, i, State(Csi, []))
  {
    if i == [0x9b] {
      SilentByte(START, 0x9b);
    } else {
      TwoBytes(START, 0x1b, 0x5b);
    }
  }

  lemma StringOpens(i: seq<byte>)
    requires IntroducesString(i)
    ensures Silent(START, i, State(Str, []))
  {
    if |i| == 1 {
      SilentByte(START, i[0]);
      assert i == [i[0]];
    } else {
      TwoBytes(START, i[0], i[1]);
      assert i == [i[0], i[1]];
    }
  }

  lemma {:induction false} OpenIsPending(w: seq<byte>)
    requires Opens(w) && |w| < Announced(w[0])
    ensures Silent(START, w, State(Text, w))
    decreases |w|
  {
    if |w| == 1 {
      SilentByte(START, w[0]);
      assert w == [w[0]];
    } else {
      var n := |w| - 1;
      OpenIsPending(w[..n]);
      assert w[..n] + [w[n]] == w;
      SilentByte(State(Text, w[..n]), w[n]);
      SilentThen(START, w[..n], State(Text, w[..n]), [w[n]], State(Text, w));
    }
  }

  lemma GarbledIsSilent(w: seq<byte>)
    requires WellFormed(Garbled(w))
    ensures Silent(START, w, START)
  {
    var n := |w| - 1;
    OpenIsPending(w[..n]);
    assert w[..n] + [w[n]] == w;
    assert SeqLen(w) == 0 by { assert w[..|w|] == w; }
    assert !Valid(w);
    hide Valid, Whole;
    SilentByte(State(Text, w[..n]), w[n]);
    SilentThen(START, w[..n], State(Text, w[..n]), [w[n]], START);
  }

  /** A closed segment that is no character leaves the machine where it started, and emits nothing. */
  lemma ClosedIsSilent(g: Segment)
    requires WellFormed(g) && !g.Char? && !g.Torn?
    ensures Silent(START, BytesOf(g), START)
  {
    match g
    case Sequence(intro, params, final) =>
      SequenceOpens(intro);
      ParamsAreSilent(params);
      SilentThen(START, intro, State(Csi, []), params, State(Csi, []));
      SilentByte(State(Csi, []), final);
      SilentThen(START, intro + params, State(Csi, []), [final], START);
    case Control(intro, body, close) =>
      StringOpens(intro);
      BodyIsSilent(body);
      SilentThen(START, intro, State(Str, []), body, State(Str, []));
      if close == [0x07] {
        SilentByte(State(Str, []), 0x07);
      } else {
        TwoBytes(State(Str, []), 0x1b, 0x5c);
      }
      SilentThen(START, intro + body, State(Str, []), close, START);
    case Short(b) => TwoBytes(START, 0x1b, b);
    case Stray(b) => SilentByte(START, b);
    case Garbled(w) => GarbledIsSilent(w);
  }

  lemma OpenSequenceIsSilent(open: seq<byte>)
    requires OpenSequence(open)
    ensures Emitted(START, open) == []
  {
    hide Next, Emit, IntroducesSequence, Params;
    var i, b :| IntroducesSequence(i) && Params(b) && open == i + b;
    SequenceOpens(i);
    ParamsAreSilent(b);
    SilentThen(START, i, State(Csi, []), b, State(Csi, []));
  }

  lemma EscapeInString()
    ensures Silent(State(Str, []), [0x1b], State(StrEnd, []))
  {
    SilentByte(State(Str, []), 0x1b);
  }

  lemma OpenStringIsSilent(open: seq<byte>)
    requires OpenString(open)
    ensures Emitted(START, open) == []
  {
    hide Next, Emit, IntroducesString, Body;
    var i, b :| IntroducesString(i) && Body(b) && (open == i + b || open == i + b + [0x1b]);
    StringOpens(i);
    BodyIsSilent(b);
    SilentThen(START, i, State(Str, []), b, State(Str, []));
    EscapeInString();
    SilentThen(START, i + b, State(Str, []), [0x1b], State(StrEnd, []));
  }

  lemma UnclosedIsSilent(open: seq<byte>)
    requires Unclosed(open)
    ensures Emitted(START, open) == []
  {
    hide OpenSequence, OpenString;
    if open == [0x1b] {
      SilentByte(START, 0x1b);
    } else if open != [] && Opens(open) && |open| < Announced(open[0]) {
      OpenIsPending(open);
    } else if OpenSequence(open) {
      OpenSequenceIsSilent(open);
    } else if OpenString(open) {
      OpenStringIsSilent(open);
    }
  }

  // ----- room

  /** What is kept of an input when `out` was kept before it. */
  function LimitedFrom(out: seq<byte>, s: State, input: seq<byte>, maxBytes: nat, maxLines: nat): seq<byte> {
    if input == [] then out
    else
      var n := |input| - 1;
      var kept := LimitedFrom(out, s, input[..n], maxBytes, maxLines);
      var e := Emit(Sanitizer.End(s, input[..n]), input[n]);
      if Fits(kept, e, maxBytes, maxLines) then kept + e else kept
  }

  lemma {:induction false} LimitedFromNothing(s: State, input: seq<byte>, maxBytes: nat, maxLines: nat)
    ensures Limited(s, input, maxBytes, maxLines) == LimitedFrom([], s, input, maxBytes, maxLines)
    decreases |input|
  {
    hide Emit, End;
    if input != [] {
      LimitedFromNothing(s, input[..|input| - 1], maxBytes, maxLines);
    }
  }

  lemma {:induction false} LimitedConcat(out: seq<byte>, s: State, a: seq<byte>, b: seq<byte>, maxBytes: nat, maxLines: nat)
    ensures LimitedFrom(out, s, a + b, maxBytes, maxLines)
      == LimitedFrom(LimitedFrom(out, s, a, maxBytes, maxLines), End(s, a), b, maxBytes, maxLines)
    decreases |b|
  {
    hide Emit, End, Fits;
    if b == [] {
      assert a + b == a;
    } else {
      var n := |b| - 1;
      assert (a + b)[..|a + b| - 1] == a + b[..n] && (a + b)[|a + b| - 1] == b[n];
      LimitedConcat(out, s, a, b[..n], maxBytes, maxLines);
      EndConcat(s, a, b[..n]);
    }
  }

  lemma {:induction false} SilentKeepsOut(out: seq<byte>, s: State, b: seq<byte>, maxBytes: nat, maxLines: nat)
    requires Emitted(s, b) == []
    ensures LimitedFrom(out, s, b, maxBytes, maxLines) == out
    decreases |b|
  {
    hide Emit, End;
    if b != [] {
      var n := |b| - 1;
      SilentKeepsOut(out, s, b[..n], maxBytes, maxLines);
      assert Emit(End(s, b[..n]), b[n]) == [];
      assert out + [] == out;
    }
  }

  lemma CharIsWhole(w: seq<byte>)
    requires WellFormed(Char(w))
    ensures Whole(w) && Clean(w)
  {
  }

  /** A character is emitted with its last byte, and then fits or not. */
  lemma CharIsKeptOrNot(out: seq<byte>, w: seq<byte>, maxBytes: nat, maxLines: nat)
    requires WellFormed(Char(w))
    ensures End(START, w) == START
    ensures LimitedFrom(out, START, w, maxBytes, maxLines) == if Fits(out, w, maxBytes, maxLines) then out + w else out
  {
    var n := |w| - 1;
    CharIsWhole(w);
    CharacterPasses(w);
    PassesUpTo(w, n);
    hide Emit, Next, Whole, Clean, Fits;
    SilentKeepsOut(out, START, w[..n], maxBytes, maxLines);
    assert Emitted(START, w) == [] + Emit(End(START, w[..n]), w[n]);
  }

  lemma {:induction false} BreaksAreNewLines(b: seq<byte>)
    ensures NewLines(b) == LineBreaks(b)
    decreases |b|
  {
    if b != [] {
      BreaksAreNewLines(b[..|b| - 1]);
      assert b == b[..|b| - 1] + [b[|b| - 1]];
    }
  }

  // ----- a reading tells what is kept

  lemma TornKeepsOut(out: seq<byte>, w: seq<byte>, rest: seq<byte>, maxBytes: nat, maxLines: nat)
    requires WellFormed(Torn(w)) && rest != [] && !(0x80 <= rest[0] <= 0xbf)
    ensures LimitedFrom(out, State(Text, w), rest, maxBytes, maxLines) == LimitedFrom(out, START, rest, maxBytes, maxLines)
  {
    var s := State(Text, w);
    LimitedConcat(out, s, [rest[0]], rest[1..], maxBytes, maxLines);
    LimitedConcat(out, START, [rest[0]], rest[1..], maxBytes, maxLines);
    assert [rest[0]] + rest[1..] == rest;
    OneByte(out, s, rest[0], maxBytes, maxLines);
    OneByte(out, START, rest[0], maxBytes, maxLines);
  }

  lemma OneByte(out: seq<byte>, s: State, b: byte, maxBytes: nat, maxLines: nat)
    ensures End(s, [b]) == Next(s, b)
    ensures LimitedFrom(out, s, [b], maxBytes, maxLines)
      == if Fits(out, Emit(s, b), maxBytes, maxLines) then out + Emit(s, b) else out
  {
    hide Emit, Next;
    assert [b][..0] == [];
  }

  lemma JoinedOne(cs: seq<seq<byte>>, c: seq<byte>)
    ensures Joined(cs + [c]) == Joined(cs) + c
  {
    assert (cs + [c])[..|cs|] == cs;
  }

  /** The first segment of a reading, whatever it is: the machine comes back, and keeps it or not. */
  lemma SegmentIsRead(out: seq<byte>, g: Segment, rest: seq<byte>, maxBytes: nat, maxLines: nat)
    requires WellFormed(g)
    requires g.Torn? ==> rest != [] && !(0x80 <= rest[0] <= 0xbf)
    ensures LimitedFrom(out, START, BytesOf(g) + rest, maxBytes, maxLines)
      == LimitedFrom(if g.Char? && Fits(out, g.w, maxBytes, maxLines) then out + g.w else out, START, rest, maxBytes, maxLines)
  {
    hide Emit, Next, Whole, Fits, LimitedFrom;
    LimitedConcat(out, START, BytesOf(g), rest, maxBytes, maxLines);
    if g.Char? {
      CharIsKeptOrNot(out, g.w, maxBytes, maxLines);
    } else if g.Torn? {
      OpenIsPending(g.w);
      SilentKeepsOut(out, START, g.w, maxBytes, maxLines);
      TornKeepsOut(out, g.w, rest, maxBytes, maxLines);
    } else {
      ClosedIsSilent(g);
      SilentKeepsOut(out, START, BytesOf(g), maxBytes, maxLines);
    }
  }

  lemma {:induction false} ReadingIsTrimmed(
    out: seq<seq<byte>>, gs: seq<Segment>, open: seq<byte>, maxBytes: nat, maxLines: nat)
    requires Reads(gs, open)
    ensures LimitedFrom(Joined(out), START, Bytes(gs, open), maxBytes, maxLines)
      == Joined(Trimmed(out, Chars(gs), maxBytes, maxLines))
    decreases |gs|
  {
    hide LimitedFrom, WellFormed, Joined, Unclosed;
    if gs == [] {
      UnclosedIsSilent(open);
      SilentKeepsOut(Joined(out), START, open, maxBytes, maxLines);
    } else {
      var g, cs := gs[0], Chars(gs[1..]);
      SegmentIsRead(Joined(out), g, Bytes(gs[1..], open), maxBytes, maxLines);
      if g.Char? {
        assert ([g.w] + cs)[1..] == cs && ([g.w] + cs)[0] == g.w;
        JoinedOne(out, g.w);
        BreaksAreNewLines(Joined(out));
        ReadingIsTrimmed(if Fits(Joined(out), g.w, maxBytes, maxLines) then out + [g.w] else out, gs[1..], open, maxBytes, maxLines);
      } else {
        assert [] + cs == cs;
        ReadingIsTrimmed(out, gs[1..], open, maxBytes, maxLines);
      }
    }
  }

  // ----- direction marks

  lemma MarksAreBidi(w: seq<byte>)
    requires Whole(w)
    ensures Bidi(ScalarOf(w)) <==> DirectionMark(w)
  {
  }

  predicate AllChars(cs: seq<seq<byte>>) {
    forall i :: 0 <= i < |cs| ==> WellFormed(Char(cs[i]))
  }

  lemma {:induction false} ReadingHasChars(gs: seq<Segment>, open: seq<byte>)
    requires Reads(gs, open)
    ensures AllChars(Chars(gs))
  {
    hide WellFormed, Unclosed;
    if gs != [] {
      ReadingHasChars(gs[1..], open);
    }
  }

  lemma {:induction false} TrimmedHasChars(out: seq<seq<byte>>, cs: seq<seq<byte>>, maxBytes: nat, maxLines: nat)
    requires AllChars(out) && AllChars(cs)
    ensures AllChars(Trimmed(out, cs, maxBytes, maxLines))
    decreases |cs|
  {
    hide WellFormed, Joined, LineBreaks;
    if cs != [] {
      var room := |Joined(out)| + |cs[0]| <= maxBytes && (cs[0] == [0x0a] ==> LineBreaks(Joined(out)) + 1 < maxLines);
      TrimmedHasChars(if room then out + [cs[0]] else out, cs[1..], maxBytes, maxLines);
    }
  }

  lemma CharStrips(w: seq<byte>)
    requires WellFormed(Char(w))
    ensures Valid(w) && StripBidi(w) == if DirectionMark(w) then [] else w
  {
    CharIsWhole(w);
    WholeIsValid(w);
    MarksAreBidi(w);
    hide Whole, Valid, DirectionMark;
    StripCons(w, []);
    assert w + [] == w;
  }

  lemma {:induction false} JoinedStrips(cs: seq<seq<byte>>)
    requires AllChars(cs)
    ensures Valid(Joined(cs)) && StripBidi(Joined(cs)) == Joined(Unmarked(cs))
    decreases |cs|
  {
    hide WellFormed, Valid, StripBidi, DirectionMark;
    if cs == [] {
      NothingStrips();
    } else {
      var before, w := cs[..|cs| - 1], cs[|cs| - 1];
      JoinedStrips(before);
      CharStrips(w);
      StripConcat(Joined(before), w);
      if DirectionMark(w) {
        assert Unmarked(before) + [] == Unmarked(before);
        assert Joined(Unmarked(before)) + [] == Joined(Unmarked(before));
      } else {
        JoinedOne(Unmarked(before), w);
      }
    }
  }

  lemma NothingStrips()
    ensures Valid([]) && StripBidi([]) == []
  {
  }

  // ----- every stream has a reading

  lemma {:induction false} ScanParams(b: seq<byte>) returns (params: seq<byte>, rest: seq<byte>)
    ensures b == params + rest && Params(params)
    ensures rest != [] ==> 0x40 <= rest[0] <= 0x7e
  {
    if b == [] || 0x40 <= b[0] <= 0x7e {
      params, rest := [], b;
    } else {
      params, rest := ScanParams(b[1..]);
      params := [b[0]] + params;
    }
  }

  lemma {:induction false} ScanBody(b: seq<byte>) returns (body: seq<byte>, rest: seq<byte>)
    ensures b == body + rest && Body(body)
    ensures rest == [] || rest == [0x1b] || rest[0] == 0x07 || (|rest| >= 2 && rest[0] == 0x1b && rest[1] == 0x5c)
    decreases |b|
  {
    if b == [] || b[0] == 0x07 || b == [0x1b] || (b[0] == 0x1b && b[1] == 0x5c) {
      body, rest := [], b;
    } else if b[0] == 0x1b {
      var more;
      more, rest := ScanBody(b[2..]);
      body := b[..2] + more;
      assert body[2..] == more;
    } else {
      var more;
      more, rest := ScanBody(b[1..]);
      body := [b[0]] + more;
      assert body[1..] == more;
    }
  }

  /** A lead byte and what can go on with it, up to the length it announces. */
  lemma {:induction false} ScanChar(b: seq<byte>, n: nat) returns (w: seq<byte>, rest: seq<byte>)
    requires b != [] && 0xc2 <= b[0] <= 0xf4 && 1 <= n <= Announced(b[0])
    ensures b == w + rest && Opens(w) && w[0] == b[0] && |w| <= n
    ensures |w| < n && rest != [] ==> !(0x80 <= rest[0] <= 0xbf)
    decreases n
  {
    if n == 1 {
      w, rest := [b[0]], b[1..];
    } else {
      w, rest := ScanChar(b, n - 1);
      if |w| == n - 1 && rest != [] && 0x80 <= rest[0] <= 0xbf {
        w, rest := w + [rest[0]], rest[1..];
      }
    }
  }

  /** The first segment of a stream, unless all of it is unfinished. */
  lemma FirstSegment(b: seq<byte>) returns (g: Segment, rest: seq<byte>, closed: bool)
    requires b != []
    ensures if closed then WellFormed(g) && b == BytesOf(g) + rest && |rest| < |b| else Unclosed(b)
    ensures closed && g.Torn? ==> rest != [] && !(0x80 <= rest[0] <= 0xbf)
  {
    closed, g, rest := true, Stray(b[0]), b[1..];
    if Ascii(b[0]) {
      g := Char([b[0]]);
    } else if 0xc2 <= b[0] <= 0xf4 {
      g, rest, closed := FirstCharacter(b);
    } else if b == [0x1b] {
      closed := false;
    } else if b[0] == 0x1b && b[1] !in {0x5b, 0x50, 0x58, 0x5d, 0x5e, 0x5f} {
      g, rest := Short(b[1]), b[2..];
    } else if b[0] == 0x1b || b[0] in {0x9b, 0x90, 0x98, 0x9d, 0x9e, 0x9f} {
      g, rest, closed := FirstFunction(b, if b[0] == 0x1b then 2 else 1);
    }
  }

  lemma FirstCharacter(b: seq<byte>) returns (g: Segment, rest: seq<byte>, closed: bool)
    requires b != [] && 0xc2 <= b[0] <= 0xf4
    ensures if closed then WellFormed(g) && b == BytesOf(g) + rest && |rest| < |b| else Unclosed(b)
    ensures closed && g.Torn? ==> rest != [] && !(0x80 <= rest[0] <= 0xbf)
  {
    var w;
    w, rest := ScanChar(b, Announced(b[0]));
    hide Whole;
    g := if |w| < Announced(w[0]) then Torn(w) else if Whole(w) then Char(w) else Garbled(w);
    closed := !(g.Torn? && rest == []);
    assert !closed ==> w == b;
  }

  lemma FirstFunction(b: seq<byte>, n: nat) returns (g: Segment, rest: seq<byte>, closed: bool)
    requires |b| >= n && b != []
    requires if b[0] == 0x1b then n == 2 && b[1] in {0x5b, 0x50, 0x58, 0x5d, 0x5e, 0x5f}
      else n == 1 && b[0] in {0x9b, 0x90, 0x98, 0x9d, 0x9e, 0x9f}
    ensures if closed then WellFormed(g) && b == BytesOf(g) + rest && |rest| < |b| && !g.Torn? else Unclosed(b)
  {
    hide WellFormed, Unclosed, BytesOf;
    var i := b[..n];
    assert i + b[n..] == b;
    assert i == if n == 1 then [b[0]] else [0x1b, b[1]];
    if i in {[0x1b, 0x5b], [0x9b]} {
      g, rest, closed := FirstSequence(i, b[n..]);
    } else {
      g, rest, closed := FirstString(i, b[n..]);
    }
  }

  lemma FirstSequence(i: seq<byte>, b: seq<byte>) returns (g: Segment, rest: seq<byte>, closed: bool)
    requires IntroducesSequence(i)
    ensures if closed then WellFormed(g) && i + b == BytesOf(g) + rest && |rest| < |i + b| && !g.Torn? else Unclosed(i + b)
  {
    hide IntroducesSequence;
    var params;
    params, rest := ScanParams(b);
    closed := rest != [];
    g := Sequence(i, params, if closed then rest[0] else 0x40);
    if closed {
      assert rest == [rest[0]] + rest[1..];
      rest := rest[1..];
    } else {
      assert params == b && OpenSequence(i + b);
    }
  }

  lemma FirstString(i: seq<byte>, b: seq<byte>) returns (g: Segment, rest: seq<byte>, closed: bool)
    requires IntroducesString(i)
    ensures if closed then WellFormed(g) && i + b == BytesOf(g) + rest && |rest| < |i + b| && !g.Torn? else Unclosed(i + b)
  {
    hide IntroducesString, Body;
    var body;
    body, rest := ScanBody(b);
    closed := rest != [] && rest != [0x1b];
    var n := if rest != [] && rest[0] == 0x07 then 1 else 2;
    g := Control(i, body, if n == 1 then [0x07] else [0x1b, 0x5c]);
    if closed {
      assert rest == g.close + rest[n..];
      rest := rest[n..];
      assert i + b == i + body + g.close + rest;
    } else {
      assert if rest == [] then i + b == i + body else i + b == i + body + [0x1b];
      assert OpenString(i + b);
    }
  }

  lemma {:induction false} EveryStreamReads(b: seq<byte>) returns (gs: seq<Segment>, open: seq<byte>)
    ensures Reads(gs, open) && Bytes(gs, open) == b
    decreases |b|
  {
    hide WellFormed, Unclosed, BytesOf;
    if b == [] {
      gs, open := [], [];
      assert Unclosed([]) by { NothingIsUnclosed(); }
    } else {
      var g, rest, closed := FirstSegment(b);
      if closed {
        gs, open := EveryStreamReads(rest);
        assert ([g] + gs)[1..] == gs;
        gs := [g] + gs;
      } else {
        gs, open := [], b;
      }
    }
  }

  lemma NothingIsUnclosed()
    ensures Unclosed([])
  {
  }

  // ----- main results

  /** A closed segment brings the machine back to where it started, and only a character is emitted. */
  lemma SegmentCloses(g: Segment)
    requires WellFormed(g) && !g.Torn?
    ensures End(START, BytesOf(g)) == START && Emitted(START, BytesOf(g)) == if g.Char? then g.w else []
  {
    if g.Char? {
      CharIsWhole(g.w);
      CharacterPasses(g.w);
    } else {
      ClosedIsSilent(g);
    }
  }

  /** Of any reading of a stream the sanitizer keeps the characters there is room for, without direction marks. */
  lemma KeepsTheCharacters(gs: seq<Segment>, open: seq<byte>, maxBytes: nat, maxLines: nat)
    requires Reads(gs, open)
    ensures Sanitized(START, Bytes(gs, open), maxBytes, maxLines)
      == Joined(Unmarked(Trimmed([], Chars(gs), maxBytes, maxLines)))
  {
    hide Limited, LimitedFrom, Reads, WellFormed, Joined, Unmarked, Trimmed;
    var kept := Trimmed([], Chars(gs), maxBytes, maxLines);
    assert Joined([]) == [] by { JoinedNothing(); }
    LimitedFromNothing(START, Bytes(gs, open), maxBytes, maxLines);
    ReadingIsTrimmed([], gs, open, maxBytes, maxLines);
    ReadingHasChars(gs, open);
    TrimmedHasChars([], Chars(gs), maxBytes, maxLines);
    JoinedStrips(kept);
  }

  lemma JoinedNothing()
    ensures Joined([]) == []
  {
  }

  /** Every stream has a reading, and its first feed gives the characters of that reading. */
  lemma EveryStreamIsSanitized(input: seq<byte>, maxBytes: nat, maxLines: nat)
    returns (gs: seq<Segment>, open: seq<byte>)
    ensures Reads(gs, open) && Bytes(gs, open) == input
    ensures Sanitized(START, input, maxBytes, maxLines) == Joined(Unmarked(Trimmed([], Chars(gs), maxBytes, maxLines)))
  {
    hide Reads, Sanitized;
    gs, open := EveryStreamReads(input);
    KeepsTheCharacters(gs, open, maxBytes, maxLines);
  }
}
