/**
 The terminal sanitizer: a byte machine that drops control and escape sequences (in the
 forms of sections 5.4 and 5.6 of ECMA-48), keeps whole UTF-8 characters, and carries its
 state from one chunk to the next.
 */
module Sanitizer {
  import opened Wrappers
  import opened Lines
  import opened Utf8

  datatype Escape = Text | Esc | Csi | Str | StrEnd

  datatype State = State(escape: Escape, pending: seq<byte>)

  const START := State(Text, [])

  /** Inside a character: its lead byte and some of its trailing bytes have arrived. */
  predicate Holds(s: State) {
    s.pending != [] ==>
      && s.escape.Text? && |s.pending| < LeadLen(s.pending[0])
      && forall i :: 0 < i < |s.pending| ==> Trail(s.pending[i])
  }

  predicate Printable(b: byte) {
    0x20 <= b <= 0x7e
  }

  predicate Leads(b: byte) {
    0xc2 <= b <= 0xf4
  }

  /** Does the byte continue a character that has begun? */
  predicate Continues(s: State, b: byte) {
    s.escape.Text? && s.pending != [] && Trail(b)
  }

  function NextEscape(e: Escape, b: byte): Escape {
    match e
    case Text =>
      if b == 0x1b then Esc
      else if b == 0x9b then Csi
      else if b == 0x90 || b == 0x9d || b == 0x98 || b == 0x9e || b == 0x9f then Str
      else Text
    case Esc =>
      if b == 0x5b then Csi
      else if b == 0x5d || b == 0x50 || b == 0x58 || b == 0x5e || b == 0x5f then Str
      else Text
    case Csi => if 0x40 <= b <= 0x7e then Text else Csi
    case Str => if b == 0x07 then Text else if b == 0x1b then StrEnd else Str
    case StrEnd => if b == 0x5c then Text else Str
  }

  function Next(s: State, b: byte): State {
    if Continues(s, b) then
      var more := s.pending + [b];
      if |more| == LeadLen(more[0]) then State(Text, []) else State(Text, more)
    else State(NextEscape(s.escape, b), if s.escape.Text? && Leads(b) then [b] else [])
  }

  /** The bytes this byte completes, if it completes any. */
  function Emit(s: State, b: byte): seq<byte> {
    if Continues(s, b) then
      var more := s.pending + [b];
      if |more| == LeadLen(more[0]) && Valid(more) then more else []
    else if s.escape.Text? && (b == NEWLINE || Printable(b)) then [b]
    else []
  }

  function End(s: State, input: seq<byte>): State {
    if input == [] then s else Next(End(s, input[..|input| - 1]), input[|input| - 1])
  }

  /** Everything the machine emits when nothing limits it. */
  function Emitted(s: State, input: seq<byte>): seq<byte> {
    if input == [] then []
    else
      var n := |input| - 1;
      Emitted(s, input[..n]) + Emit(End(s, input[..n]), input[n])
  }

  function NewLines(b: seq<byte>): nat {
    if b == [] then 0 else NewLines(b[..|b| - 1]) + (if b[|b| - 1] == NEWLINE then 1 else 0)
  }

  predicate Fits(out: seq<byte>, e: seq<byte>, maxBytes: nat, maxLines: nat) {
    |out| + |e| <= maxBytes && (e == [NEWLINE] ==> NewLines(out) + 1 < maxLines)
  }

  /** What is kept of it within the limits: each emission fits or is dropped. */
  function Limited(s: State, input: seq<byte>, maxBytes: nat, maxLines: nat): seq<byte> {
    if input == [] then []
    else
      var n := |input| - 1;
      var out := Limited(s, input[..n], maxBytes, maxLines);
      var e := Emit(End(s, input[..n]), input[n]);
      if Fits(out, e, maxBytes, maxLines) then out + e else out
  }

  /** The bidirectional controls U+202A to U+202E and U+2066 to U+2069. */
  predicate Bidi(scalar: nat) {
    0x202a <= scalar <= 0x202e || 0x2066 <= scalar <= 0x2069
  }

  /** A character, or nothing when it is a bidirectional control. */
  function Visible(w: seq<byte>): seq<byte>
    requires Whole(w)
  {
    if Bidi(ScalarOf(w)) then [] else w
  }

  function StripBidi(b: seq<byte>): (r: seq<byte>)
    requires Valid(b)
    ensures |r| <= |b|
    decreases |b|
  {
    if b == [] then []
    else
      var n := SeqLen(b);
      Visible(b[..n]) + StripBidi(b[n..])
  }

  // ----- what is emitted is clean text

  predicate CleanByte(b: byte) {
    b == NEWLINE || (b >= 0x20 && b != 0x7f)
  }

  predicate Clean(b: seq<byte>) {
    forall i :: 0 <= i < |b| ==> CleanByte(b[i])
  }

  lemma {:induction false} EndHolds(s: State, input: seq<byte>)
    requires Holds(s)
    ensures Holds(End(s, input))
    decreases |input|
  {
    if input != [] {
      EndHolds(s, input[..|input| - 1]);
    }
  }

  lemma EmitIsWhole(s: State, b: byte)
    requires Holds(s)
    ensures Emit(s, b) == [] || (Whole(Emit(s, b)) && Clean(Emit(s, b)))
  {
    if Continues(s, b) {
      var more := s.pending + [b];
      if |more| == LeadLen(more[0]) && Valid(more) {
        assert more[..|more|] == more;
      }
    }
  }

  lemma {:induction false} NewLinesBound(b: seq<byte>)
    ensures NewLines(b) <= |b|
    decreases |b|
  {
    if b != [] {
      NewLinesBound(b[..|b| - 1]);
    }
  }

  lemma {:induction false} NewLinesConcat(a: seq<byte>, b: seq<byte>)
    ensures NewLines(a + b) == NewLines(a) + NewLines(b)
    decreases |b|
  {
    if b == [] {
      assert a + b == a;
    } else {
      assert (a + b)[..|a + b| - 1] == a + b[..|b| - 1];
      NewLinesConcat(a, b[..|b| - 1]);
    }
  }

  lemma {:induction false} NoNewLines(b: seq<byte>)
    requires Plain(b)
    ensures NewLines(b) == 0
    decreases |b|
  {
    if b != [] {
      NoNewLines(b[..|b| - 1]);
    }
  }

  lemma WholeNewLines(e: seq<byte>)
    requires Whole(e)
    ensures NewLines(e) == if e == [NEWLINE] then 1 else 0
  {
    if e == [NEWLINE] {
      assert e[..0] == [];
    } else {
      NoNewLines(e);
    }
  }

  /** The kept bytes are valid, clean, and within both limits. */
  predicate Proper(out: seq<byte>, maxBytes: nat, maxLines: nat) {
    Valid(out) && Clean(out) && |out| <= maxBytes && NewLines(out) <= SaturatingSub(maxLines, 1)
  }

  lemma ProperGrows(out: seq<byte>, e: seq<byte>, maxBytes: nat, maxLines: nat)
    requires Proper(out, maxBytes, maxLines) && Fits(out, e, maxBytes, maxLines)
    requires Whole(e) && Clean(e)
    ensures Proper(out + e, maxBytes, maxLines)
  {
    WholeIsValid(e);
    hide Valid, NewLines, Whole;
    ValidConcat(out, e);
    NewLinesConcat(out, e);
    WholeNewLines(e);
  }

  lemma {:induction false} LimitedIsProper(s: State, input: seq<byte>, maxBytes: nat, maxLines: nat)
    requires Holds(s)
    ensures Proper(Limited(s, input, maxBytes, maxLines), maxBytes, maxLines)
    decreases |input|
  {
    if input != [] {
      var n := |input| - 1;
      var out := Limited(s, input[..n], maxBytes, maxLines);
      var e := Emit(End(s, input[..n]), input[n]);
      LimitedIsProper(s, input[..n], maxBytes, maxLines);
      EndHolds(s, input[..n]);
      EmitIsWhole(End(s, input[..n]), input[n]);
      hide Proper, Emit, End, Whole, Clean, Fits;
      if Fits(out, e, maxBytes, maxLines) {
        if e == [] {
          assert out + e == out;
        } else {
          ProperGrows(out, e, maxBytes, maxLines);
        }
      }
    }
  }

  lemma CleanConcat(a: seq<byte>, b: seq<byte>)
    requires Clean(a + b)
    ensures Clean(a) && Clean(b)
  {
    assert forall i :: 0 <= i < |a| ==> a[i] == (a + b)[i];
    assert forall i :: 0 <= i < |b| ==> b[i] == (a + b)[|a| + i];
  }

  lemma StripCons(w: seq<byte>, rest: seq<byte>)
    requires Whole(w) && Valid(rest)
    ensures Valid(w + rest)
    ensures StripBidi(w + rest) == Visible(w) + StripBidi(rest)
  {
    WholeIsValid(w);
    SeqLenExtends(w, rest);
    hide Whole, Visible, SeqLen;
    assert (w + rest)[|w|..] == rest && (w + rest)[..|w|] == w;
  }

  lemma {:induction false} StripIsValid(b: seq<byte>)
    requires Valid(b)
    ensures Valid(StripBidi(b))
    decreases |b|
  {
    if b == [] {
    } else {
      hide StripBidi, Valid, Whole, Bidi, ScalarOf;
      var w, rest := Uncons(b);
      StripIsValid(rest);
      StripCons(w, rest);
      StripCons(w, StripBidi(rest));
      assert [] + StripBidi(rest) == StripBidi(rest);
    }
  }

  lemma {:induction false} StripIsClean(b: seq<byte>)
    requires Valid(b) && Clean(b)
    ensures Clean(StripBidi(b))
    decreases |b|
  {
    if b == [] {
    } else {
      hide StripBidi, Valid, Whole, Bidi, ScalarOf;
      var w, rest := Uncons(b);
      CleanConcat(w, rest);
      StripIsClean(rest);
      StripCons(w, rest);
    }
  }

  lemma {:induction false} StripDropsLines(b: seq<byte>)
    requires Valid(b)
    ensures NewLines(StripBidi(b)) <= NewLines(b)
    decreases |b|
  {
    if b == [] {
    } else {
      hide StripBidi, NewLines, Valid, Whole, Bidi, ScalarOf;
      var w, rest := Uncons(b);
      StripDropsLines(rest);
      StripCons(w, rest);
      NewLinesConcat(w, rest);
      NewLinesConcat(Visible(w), StripBidi(rest));
      NoNewLines([]);
    }
  }

  // ----- the sanitizer as the observers hold it

  /** The text one feed returns. */
  function Sanitized(s: State, input: seq<byte>, maxBytes: nat, maxLines: nat): seq<byte>
    requires Holds(s)
  {
    LimitedIsProper(s, input, maxBytes, maxLines);
    StripBidi(Limited(s, input, maxBytes, maxLines))
  }

  /** With any limits the text is valid, clean and within both of them. */
  lemma SanitizedIsProper(s: State, input: seq<byte>, maxBytes: nat, maxLines: nat)
    requires Holds(s)
    ensures Proper(Sanitized(s, input, maxBytes, maxLines), maxBytes, maxLines)
  {
    hide Limited;
    LimitedIsProper(s, input, maxBytes, maxLines);
    var out := Limited(s, input, maxBytes, maxLines);
    StripIsValid(out);
    StripIsClean(out);
    StripDropsLines(out);
  }

  class TerminalSanitizer {
    var escape: Escape
    var pending: seq<byte>

    function View(): State
      reads this
    {
      State(escape, pending)
    }

    constructor ()
      ensures View() == START
    {
      escape, pending := Text, [];
    }

    method Feed(input: seq<byte>, maxBytes: nat, maxLines: nat) returns (text: seq<byte>)
      requires Holds(View())
      modifies this
      ensures View() == End(old(View()), input) && Holds(View())
      ensures text == Sanitized(old(View()), input, maxBytes, maxLines)
      ensures Proper(text, maxBytes, maxLines)
    {
      var out: seq<byte>, lines := [], 1;
      ghost var s := View();
      var i := 0;
      while i < |input|
        invariant 0 <= i <= |input|
        invariant View() == End(s, input[..i])
        invariant out == Limited(s, input[..i], maxBytes, maxLines)
        invariant lines == 1 + NewLines(out)
      {
        assert input[..i + 1][..i] == input[..i];
        EndHolds(s, input[..i]);
        EmitIsWhole(View(), input[i]);
        out, lines := Take(input[i], out, lines, maxBytes, maxLines);
        i := i + 1;
      }
      assert input[..i] == input;
      EndHolds(s, input);
      LimitedIsProper(s, input, maxBytes, maxLines);
      SanitizedIsProper(s, input, maxBytes, maxLines);
      text := StripBidi(out);
      if |text| > maxBytes {
        assert false;
      }
    }

    /** One byte of the loop. */
    method Take(b: byte, before: seq<byte>, count: nat, maxBytes: nat, maxLines: nat)
      returns (out: seq<byte>, lines: nat)
      requires Holds(View()) && count == 1 + NewLines(before)
      requires Emit(View(), b) == [] || Whole(Emit(View(), b))
      modifies this
      ensures View() == Next(old(View()), b)
      ensures out == if Fits(before, Emit(old(View()), b), maxBytes, maxLines) then before + Emit(old(View()), b) else before
      ensures lines == 1 + NewLines(out)
    {
      out, lines := before, count;
      ghost var e := Emit(View(), b);
      assert before + [] == before;
      if escape.Text? && pending != [] {
        if Trail(b) {
          pending := pending + [b];
          var expected := LeadLen(pending[0]);
          if |pending| == expected {
            if Valid(pending) && |out| + expected <= maxBytes {
              out := out + pending;
              NewLinesConcat(before, pending);
              WholeNewLines(pending);
            }
            pending := [];
          }
          return;
        }
        pending := [];
      }
      if escape.Text? && b == NEWLINE {
        if lines < maxLines && |out| < maxBytes {
          out, lines := out + [b], lines + 1;
          assert out[..|before|] == before;
        }
      } else if escape.Text? && Printable(b) {
        if |out| < maxBytes {
          out := out + [b];
          assert out[..|before|] == before;
        }
      } else if escape.Text? && Leads(b) {
        pending := [b];
      }
      escape := NextEscape(escape, b);
    }
  }

  // ----- chunks

  lemma {:induction false} EndConcat(s: State, a: seq<byte>, b: seq<byte>)
    ensures End(s, a + b) == End(End(s, a), b)
    ensures Emitted(s, a + b) == Emitted(s, a) + Emitted(End(s, a), b)
    decreases |b|
  {
    hide Next, Emit;
    if b == [] {
      assert a + b == a;
    } else {
      var n := |b| - 1;
      assert (a + b)[..|a + b| - 1] == a + b[..n];
      EndConcat(s, a, b[..n]);
    }
  }

  /** Limits large enough for everything an input emits. */
  predicate Roomy(s: State, input: seq<byte>, maxBytes: nat, maxLines: nat) {
    |Emitted(s, input)| <= maxBytes && NewLines(Emitted(s, input)) <= SaturatingSub(maxLines, 1)
  }

  lemma {:induction false} RoomyKeepsAll(s: State, input: seq<byte>, maxBytes: nat, maxLines: nat)
    requires Holds(s) && Roomy(s, input, maxBytes, maxLines)
    ensures Limited(s, input, maxBytes, maxLines) == Emitted(s, input)
    decreases |input|
  {
    if input != [] {
      var n := |input| - 1;
      var e := Emit(End(s, input[..n]), input[n]);
      NewLinesConcat(Emitted(s, input[..n]), e);
      EndHolds(s, input[..n]);
      EmitIsWhole(End(s, input[..n]), input[n]);
      hide Emit, End, NewLines;
      if e == [NEWLINE] {
        WholeNewLines(e);
      }
      RoomyKeepsAll(s, input[..n], maxBytes, maxLines);
    }
  }

  lemma Regroup(a: seq<byte>, b: seq<byte>, c: seq<byte>)
    ensures (a + b) + c == a + (b + c)
  {
  }

  lemma {:induction false} StripConcat(a: seq<byte>, b: seq<byte>)
    requires Valid(a) && Valid(b)
    ensures Valid(a + b) && StripBidi(a + b) == StripBidi(a) + StripBidi(b)
    decreases |a|
  {
    ValidConcat(a, b);
    if a == [] {
      assert a + b == b;
    } else {
      hide Valid, StripBidi, Whole, Visible;
      var w, rest := Uncons(a);
      StripConcat(rest, b);
      StripCons(w, rest);
      StripCons(w, rest + b);
      Regroup(w, rest, b);
      Regroup(Visible(w), StripBidi(rest), StripBidi(b));
    }
  }

  function Flatten(chunks: seq<seq<byte>>): seq<byte> {
    if chunks == [] then [] else chunks[0] + Flatten(chunks[1..])
  }

  /** The texts of one feed per chunk, one after the other. */
  function FedAll(s: State, chunks: seq<seq<byte>>, maxBytes: nat, maxLines: nat): seq<byte>
    requires Holds(s)
    decreases |chunks|
  {
    if chunks == [] then []
    else
      EndHolds(s, chunks[0]);
      Sanitized(s, chunks[0], maxBytes, maxLines) + FedAll(End(s, chunks[0]), chunks[1..], maxBytes, maxLines)
  }

  lemma RoomySplits(s: State, a: seq<byte>, b: seq<byte>, maxBytes: nat, maxLines: nat)
    requires Roomy(s, a + b, maxBytes, maxLines)
    ensures Roomy(s, a, maxBytes, maxLines) && Roomy(End(s, a), b, maxBytes, maxLines)
  {
    EndConcat(s, a, b);
    NewLinesConcat(Emitted(s, a), Emitted(End(s, a), b));
  }

  /** Two feeds give the text of one, when the limits do not bind. */
  lemma TwoFeeds(s: State, a: seq<byte>, b: seq<byte>, maxBytes: nat, maxLines: nat)
    requires Holds(s) && Holds(End(s, a)) && Roomy(s, a + b, maxBytes, maxLines)
    ensures Sanitized(s, a + b, maxBytes, maxLines)
      == Sanitized(s, a, maxBytes, maxLines) + Sanitized(End(s, a), b, maxBytes, maxLines)
  {
    RoomySplits(s, a, b, maxBytes, maxLines);
    EndConcat(s, a, b);
    hide Limited, End, Emitted, Roomy, Holds;
    RoomyKeepsAll(s, a + b, maxBytes, maxLines);
    RoomyKeepsAll(s, a, maxBytes, maxLines);
    RoomyKeepsAll(End(s, a), b, maxBytes, maxLines);
    LimitedIsProper(s, a, maxBytes, maxLines);
    LimitedIsProper(End(s, a), b, maxBytes, maxLines);
    StripConcat(Emitted(s, a), Emitted(End(s, a), b));
  }

  /** However a byte stream is cut into chunks, the same text comes out. */
  lemma {:induction false} ChunkingIsInvisible(s: State, chunks: seq<seq<byte>>, maxBytes: nat, maxLines: nat)
    requires Holds(s) && Roomy(s, Flatten(chunks), maxBytes, maxLines)
    ensures FedAll(s, chunks, maxBytes, maxLines) == Sanitized(s, Flatten(chunks), maxBytes, maxLines)
    decreases |chunks|
  {
    if chunks != [] {
      var a, b := chunks[0], Flatten(chunks[1..]);
      EndHolds(s, a);
      RoomySplits(s, a, b, maxBytes, maxLines);
      hide End, Limited, Emitted, Roomy, Holds, Sanitized;
      ChunkingIsInvisible(End(s, a), chunks[1..], maxBytes, maxLines);
      TwoFeeds(s, a, b, maxBytes, maxLines);
    }
  }

  // ----- clean text passes unchanged

  /** A character of several bytes is held back until its last byte, then emitted whole. */
  lemma CharacterPasses(w: seq<byte>)
    requires Whole(w) && Clean(w)
    ensures End(START, w) == START && Emitted(START, w) == w
  {
    hide Emit, Next, Whole;
    var n := |w| - 1;
    LastByte(w);
    PassesUpTo(w, n);
    assert Emitted(START, w) == [] + Emit(End(START, w[..n]), w[n]);
  }

  lemma LastByte(w: seq<byte>)
    requires Whole(w) && Clean(w)
    ensures w != [] && Next(State(Text, w[..|w| - 1]), w[|w| - 1]) == START
    ensures Emit(State(Text, w[..|w| - 1]), w[|w| - 1]) == w
  {
    WholeIsValid(w);
    hide Valid;
    var n := |w| - 1;
    assert w[..n] + [w[n]] == w;
  }

  /** After some but not all of its bytes, nothing is emitted and the bytes are pending. */
  lemma {:induction false} PassesUpTo(w: seq<byte>, k: nat)
    requires Whole(w) && k < |w|
    ensures End(START, w[..k]) == State(Text, w[..k]) && Emitted(START, w[..k]) == []
    decreases k
  {
    if k > 0 {
      PassesUpTo(w, k - 1);
      assert w[..k][..k - 1] == w[..k - 1];
      assert w[..k - 1] + [w[k - 1]] == w[..k];
      hide Valid;
    }
  }

  lemma {:induction false} CleanTextPasses(b: seq<byte>)
    requires Valid(b) && Clean(b)
    ensures End(START, b) == START && Emitted(START, b) == b
    decreases |b|
  {
    if b == [] {
    } else {
      hide End, Emitted, Whole, Valid, Clean;
      var w, rest := Uncons(b);
      CleanConcat(w, rest);
      CharacterPasses(w);
      CleanTextPasses(rest);
      EndConcat(START, w, rest);
    }
  }

  lemma {:induction false} StripTwice(b: seq<byte>)
    requires Valid(b)
    ensures Valid(StripBidi(b)) && StripBidi(StripBidi(b)) == StripBidi(b)
    decreases |b|
  {
    StripIsValid(b);
    if b == [] {
    } else {
      hide StripBidi, Valid, Whole, Bidi, ScalarOf;
      var w, rest := Uncons(b);
      StripTwice(rest);
      StripCons(w, rest);
      if Bidi(ScalarOf(w)) {
        assert [] + StripBidi(rest) == StripBidi(rest);
      } else {
        StripIsValid(rest);
        StripCons(w, StripBidi(rest));
      }
    }
  }

  /** Sanitizing what was sanitized changes nothing. */
  lemma SanitizeTwice(s: State, input: seq<byte>, maxBytes: nat, maxLines: nat)
    requires Holds(s)
    ensures var text := Sanitized(s, input, maxBytes, maxLines);
      Sanitized(START, text, maxBytes, maxLines) == text
  {
    var text := Sanitized(s, input, maxBytes, maxLines);
    SanitizedIsProper(s, input, maxBytes, maxLines);
    LimitedIsProper(s, input, maxBytes, maxLines);
    StripTwice(Limited(s, input, maxBytes, maxLines));
    hide Limited, StripBidi, Valid, NewLines, Clean;
    CleanTextPasses(text);
    RoomyKeepsAll(START, text, maxBytes, maxLines);
  }
}
