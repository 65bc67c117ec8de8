/**
 Following a growing file of JSON lines: each read takes a bounded piece, keeps the
 unfinished line for the next one, and hands out parsed records in bounded batches.
 */
module Jsonl {
  import opened Wrappers
  import opened Lines

  datatype Limits = Limits(maxRead: nat, maxRecord: nat, maxRecords: nat)

  datatype Batch<V> = Batch(records: seq<V>, malformed: nat, oversized: nat, bytesRead: nat)

  datatype Cursor<V> = Cursor(offset: nat, partial: seq<byte>, pending: seq<V>, discarding: bool)

  type Parser<V> = seq<byte> -> Option<V>

  // ----- one read

  /** What a group of lines comes to. */
  datatype Tally<V> = Tally(values: seq<V>, malformed: nat, oversized: nat, discarding: bool)

  function Count<V>(t: Tally<V>, line: seq<byte>, maxRecord: nat, parse: Parser<V>): Tally<V> {
    if t.discarding then t.(discarding := false, oversized := t.oversized + 1)
    else if |line| > maxRecord then t.(oversized := t.oversized + 1)
    else
      var v := parse(line);
      if v.Some? then t.(values := t.values + [v.value]) else t.(malformed := t.malformed + 1)
  }

  function Sift<V>(lines: seq<seq<byte>>, discarding: bool, maxRecord: nat, parse: Parser<V>): Tally<V> {
    if lines == [] then Tally([], 0, 0, discarding)
    else
      var n := |lines| - 1;
      Count(Sift(lines[..n], discarding, maxRecord, parse), lines[n], maxRecord, parse)
  }

  function Start<V>(c: Cursor<V>, file: seq<byte>, changed: bool): Cursor<V> {
    if changed || |file| < c.offset then Cursor(0, [], [], false) else c
  }

  /** The bytes the next read takes. */
  function Piece<V>(c: Cursor<V>, file: seq<byte>, limits: Limits): seq<byte>
    requires c.offset <= |file|
  {
    file[c.offset..c.offset + Min(limits.maxRead, |file| - c.offset)]
  }

  /** The cursor after taking a piece, before any record is handed out. */
  function Taken<V>(c: Cursor<V>, piece: seq<byte>, limits: Limits, parse: Parser<V>): Cursor<V> {
    var joined := c.partial + piece;
    var t := Sift(Complete([], joined), c.discarding, limits.maxRecord, parse);
    var rest := Rest([], joined);
    if |rest| > limits.maxRecord then Cursor(c.offset + |piece|, [], c.pending + t.values, true)
    else Cursor(c.offset + |piece|, rest, c.pending + t.values, t.discarding)
  }

  function Loaded<V>(c: Cursor<V>, file: seq<byte>, limits: Limits, parse: Parser<V>): Cursor<V>
    requires c.offset <= |file|
  {
    if c.pending != [] then c else Taken(c, Piece(c, file, limits), limits, parse)
  }

  function HandedOut<V>(c: Cursor<V>, limits: Limits): seq<V> {
    c.pending[..Min(limits.maxRecords, |c.pending|)]
  }

  function Drained<V>(c: Cursor<V>, limits: Limits): Cursor<V> {
    c.(pending := c.pending[Min(limits.maxRecords, |c.pending|)..])
  }

  /** The batch a read returns: records first in, first out, and how the new lines were counted. */
  function Reported<V>(c: Cursor<V>, file: seq<byte>, limits: Limits, parse: Parser<V>): Batch<V>
    requires c.offset <= |file|
  {
    var records := HandedOut(Loaded(c, file, limits, parse), limits);
    if c.pending != [] then Batch(records, 0, 0, 0)
    else
      var piece := Piece(c, file, limits);
      var t := Sift(Complete([], c.partial + piece), c.discarding, limits.maxRecord, parse);
      Batch(records, t.malformed, t.oversized, |piece|)
  }

  /** Every line is a record, malformed or oversized, and only one of these. */
  lemma {:induction false} EveryLineCounted<V>(lines: seq<seq<byte>>, discarding: bool, maxRecord: nat, parse: Parser<V>)
    ensures var t := Sift(lines, discarding, maxRecord, parse);
      |t.values| + t.malformed + t.oversized == |lines|
    decreases |lines|
  {
    if lines != [] {
      EveryLineCounted(lines[..|lines| - 1], discarding, maxRecord, parse);
    }
  }

  // ----- the cursor as the observers hold it

  /** On any file the carried fragment fits a record and holds no newline. */
  predicate Sound<V>(c: Cursor<V>, limits: Limits) {
    |c.partial| <= limits.maxRecord && Plain(c.partial)
  }

  class JsonlCursor<V> {
    const limits: Limits
    const parse: Parser<V>
    var offset: nat
    var partial: seq<byte>
    var pending: seq<V>
    var discarding: bool

    function View(): Cursor<V>
      reads this
    {
      Cursor(offset, partial, pending, discarding)
    }

    constructor (limits: Limits, parse: Parser<V>)
      ensures this.limits == limits && this.parse == parse
      ensures View() == Cursor(0, [], [], false)
    {
      this.limits, this.parse := limits, parse;
      offset, partial, pending, discarding := 0, [], [], false;
    }

    /** `changed` says that the file is another one or was rewritten under the cursor. */
    method ReadNew(file: seq<byte>, changed: bool) returns (batch: Batch<V>)
      requires Sound(View(), limits)
      modifies this
      ensures Sound(View(), limits) && |batch.records| <= limits.maxRecords
      ensures var loaded := Loaded(Start(old(View()), file, changed), file, limits, parse);
        View() == Drained(loaded, limits)
      ensures batch == Reported(Start(old(View()), file, changed), file, limits, parse)
    {
      hide Taken, Sift, Complete;
      if changed || |file| < offset {
        offset, partial, pending, discarding := 0, [], [], false;
      }
      if pending != [] {
        var records := PopFront();
        return Batch(records, 0, 0, 0);
      }
      var bytes := file[offset..offset + Min(limits.maxRead, |file| - offset)];
      var malformed, oversized := Absorb(bytes);
      var records := PopFront();
      batch := Batch(records, malformed, oversized, |bytes|);
    }

    method Absorb(bytes: seq<byte>) returns (malformed: nat, oversized: nat)
      requires Sound(View(), limits)
      modifies this
      ensures View() == Taken(old(View()), bytes, limits, parse) && Sound(View(), limits)
      ensures var t := Sift(Complete([], old(partial) + bytes), old(discarding), limits.maxRecord, parse);
        malformed == t.malformed && oversized == t.oversized
    {
      hide Complete, Rest, Sift;
      offset := offset + |bytes|;
      partial := partial + bytes;
      var end := LastNewline(partial);
      var lines, tail := partial[..end], partial[end..];
      assert partial == lines + tail;
      LinesBeforeRest(lines, tail);
      partial := tail;
      malformed, oversized := SiftLines(Complete([], lines));
      if |partial| > limits.maxRecord {
        partial := [];
        discarding := true;
      }
    }

    method PopFront() returns (records: seq<V>)
      modifies this`pending
      ensures records == HandedOut(old(View()), limits) && View() == Drained(old(View()), limits)
    {
      var n := Min(limits.maxRecords, |pending|);
      records, pending := pending[..n], pending[n..];
    }

    method SiftLines(lines: seq<seq<byte>>) returns (malformed: nat, oversized: nat)
      modifies this`pending, this`discarding
      ensures var t := Sift(lines, old(discarding), limits.maxRecord, parse);
        pending == old(pending) + t.values && t == t.(malformed := malformed, oversized := oversized, discarding := discarding)
    {
      malformed, oversized := 0, 0;
      ghost var t: Tally<V> := Tally([], 0, 0, discarding);
      var i := 0;
      while i < |lines|
        invariant 0 <= i <= |lines| && t == Sift(lines[..i], old(discarding), limits.maxRecord, parse)
        invariant pending == old(pending) + t.values
        invariant malformed == t.malformed && oversized == t.oversized && discarding == t.discarding
      {
        var line := lines[i];
        assert lines[..i + 1][..i] == lines[..i];
        t := Count(t, line, limits.maxRecord, parse);
        if discarding {
          discarding := false;
          oversized := oversized + 1;
        } else if |line| > limits.maxRecord {
          oversized := oversized + 1;
        } else {
          var value := parse(line);
          if value.Some? {
            pending := pending + [value.value];
          } else {
            malformed := malformed + 1;
          }
        }
        i := i + 1;
      }
      assert lines[..i] == lines;
    }
  }

  /** Just past the last newline; 0 when there is none. */
  method LastNewline(b: seq<byte>) returns (end: nat)
    ensures end <= |b| && Plain(b[end..]) && (end > 0 ==> b[end - 1] == NEWLINE)
  {
    end := |b|;
    while end > 0 && b[end - 1] != NEWLINE
      invariant end <= |b| && Plain(b[end..])
    {
      end := end - 1;
    }
  }

  lemma {:induction false} PlainHasNoLines(open: seq<byte>, b: seq<byte>)
    requires Plain(b)
    ensures Complete(open, b) == [] && Rest(open, b) == open + b
    decreases |b|
  {
    if b != [] {
      PlainHasNoLines(open + [b[0]], b[1..]);
    }
  }

  lemma LinesBeforeRest(lines: seq<byte>, tail: seq<byte>)
    requires Plain(tail) && (lines != [] ==> lines[|lines| - 1] == NEWLINE)
    ensures Complete([], lines + tail) == Complete([], lines) && Rest([], lines + tail) == tail
  {
    CompleteConcat([], lines, tail);
    if lines != [] {
      RestAfterNewline([], lines);
    }
    PlainHasNoLines([], tail);
  }

  // ----- what a run of reads should deliver

  predicate Record<V>(line: seq<byte>, maxRecord: nat, parse: Parser<V>) {
    |line| <= maxRecord && parse(line).Some?
  }

  /** The records of some lines: what fits and parses, in order. */
  function Values<V>(lines: seq<seq<byte>>, maxRecord: nat, parse: Parser<V>): seq<V> {
    if lines == [] then []
    else
      var n := |lines| - 1;
      Values(lines[..n], maxRecord, parse) + (if Record(lines[n], maxRecord, parse) then [parse(lines[n]).value] else [])
  }

  lemma {:induction false} ValuesConcat<V>(a: seq<seq<byte>>, b: seq<seq<byte>>, maxRecord: nat, parse: Parser<V>)
    ensures Values(a + b, maxRecord, parse) == Values(a, maxRecord, parse) + Values(b, maxRecord, parse)
    decreases |b|
  {
    if b == [] {
      assert a + b == a;
    } else {
      assert (a + b)[..|a + b| - 1] == a + b[..|b| - 1];
      ValuesConcat(a, b[..|b| - 1], maxRecord, parse);
    }
  }

  lemma ValuesOne<V>(line: seq<byte>, maxRecord: nat, parse: Parser<V>)
    ensures Values([line], maxRecord, parse) == if Record(line, maxRecord, parse) then [parse(line).value] else []
  {
    assert [line][..0] == [];
  }

  /** A cursor that is not discarding keeps every record; one that is drops the first line. */
  lemma {:induction false} SiftKeeps<V>(lines: seq<seq<byte>>, discarding: bool, maxRecord: nat, parse: Parser<V>)
    ensures var t := Sift(lines, discarding, maxRecord, parse);
      if discarding && lines != [] then t.values == Values(lines[1..], maxRecord, parse) && !t.discarding
      else t.values == Values(lines, maxRecord, parse) && t.discarding == discarding
    decreases |lines|
  {
    if lines != [] {
      var n := |lines| - 1;
      SiftKeeps(lines[..n], discarding, maxRecord, parse);
      if n > 0 {
        assert lines[1..][..n - 1] == lines[..n][1..] && lines[1..][n - 1] == lines[n];
      }
    }
  }

  lemma DropFirst<V>(lines: seq<seq<byte>>, maxRecord: nat, parse: Parser<V>)
    requires lines != []
    ensures Values(lines, maxRecord, parse) == (if Record(lines[0], maxRecord, parse) then [parse(lines[0]).value] else [])
      + Values(lines[1..], maxRecord, parse)
  {
    assert lines == [lines[0]] + lines[1..];
    ValuesConcat([lines[0]], lines[1..], maxRecord, parse);
    ValuesOne(lines[0], maxRecord, parse);
  }

  // ----- one piece, read with the fragment a cursor carries

  /** The first newline of a piece ends the open line; the rest starts afresh. */
  lemma {:induction false} FirstCut(open: seq<byte>, b: seq<byte>)
    requires NEWLINE in b
    ensures var k := FirstNewline(b).value; var line, after := open + b[..k], b[k + 1..];
      && Complete(open, b) == (if line == [] then [] else [line]) + Complete([], after)
      && Rest(open, b) == Rest([], after)
    decreases |b|
  {
    if b[0] == NEWLINE {
      assert open + b[..0] == open;
    } else {
      FirstCut(open + [b[0]], b[1..]);
      var j := FirstNewline(b[1..]).value;
      assert b[..j + 1] == [b[0]] + b[1..][..j];
      assert open + [b[0]] + b[1..][..j] == open + b[..j + 1];
      assert b[1..][j + 1..] == b[j + 2..];
    }
  }

  lemma CarriedLines(partial: seq<byte>, piece: seq<byte>)
    requires Plain(partial)
    ensures Complete([], partial + piece) == Complete(partial, piece) && Rest([], partial + piece) == Rest(partial, piece)
  {
    hide Complete, Rest;
    CompleteConcat([], partial, piece);
    PlainHasNoLines([], partial);
    assert [] + Complete(partial, piece) == Complete(partial, piece) && [] + partial == partial;
  }

  /**
   How a cursor stands to the text it consumed, whose unfinished line is `open`: it carries
   that line, or it is discarding a line that is already too long.
   */
  predicate Tracks<V>(c: Cursor<V>, open: seq<byte>, maxRecord: nat) {
    if c.discarding then c.partial == open || |open| > maxRecord else c.partial == open
  }

  /** The oversized line is over, or ends with the first byte of the piece. */
  predicate Over<V>(c: Cursor<V>, open: seq<byte>, piece: seq<byte>) {
    c.partial == open || (c.partial == [] && piece != [] && piece[0] == NEWLINE)
  }

  /** This piece completes a record that the cursor drops in place of the oversized line. */
  predicate Loses<V>(c: Cursor<V>, open: seq<byte>, piece: seq<byte>, maxRecord: nat, parse: Parser<V>) {
    c.discarding && Over(c, open, piece)
    && var lines := Complete(c.partial, piece); lines != [] && Record(lines[0], maxRecord, parse)
  }

  /** What a piece adds to a cursor, against what it should add. */
  ghost predicate Adds<V>(c: Cursor<V>, open: seq<byte>, piece: seq<byte>, maxRecord: nat, parse: Parser<V>) {
    var added := Sift(Complete(c.partial, piece), c.discarding, maxRecord, parse).values;
    var due := Values(Complete(open, piece), maxRecord, parse);
    if Loses(c, open, piece, maxRecord, parse) then |added| + 1 == |due| else added == due
  }

  lemma CarriedAdds<V>(c: Cursor<V>, open: seq<byte>, piece: seq<byte>, maxRecord: nat, parse: Parser<V>)
    requires c.partial == open
    ensures Adds(c, open, piece, maxRecord, parse)
  {
    hide Complete, Rest, Values, Sift;
    var lines := Complete(open, piece);
    SiftKeeps(lines, c.discarding, maxRecord, parse);
    if c.discarding && lines != [] {
      DropFirst(lines, maxRecord, parse);
    }
  }

  /** Of a piece that ends an oversized line, only what follows the newline is due. */
  lemma EndedAdds<V>(c: Cursor<V>, open: seq<byte>, piece: seq<byte>, maxRecord: nat, parse: Parser<V>)
    requires c.discarding && c.partial != open && |open| > maxRecord && NEWLINE in piece
    ensures Adds(c, open, piece, maxRecord, parse)
    ensures Rest(c.partial, piece) == Rest(open, piece)
    ensures Complete(c.partial, piece) == [] ==> c.partial == [] && piece[0] == NEWLINE
  {
    hide Complete, Rest, Values, Sift;
    FirstCut(open, piece);
    FirstCut(c.partial, piece);
    var k := FirstNewline(piece).value;
    var tail, line, due := Complete([], piece[k + 1..]), c.partial + piece[..k], open + piece[..k];
    ValuesConcat([due], tail, maxRecord, parse);
    ValuesOne(due, maxRecord, parse);
    assert [] + Values(tail, maxRecord, parse) == Values(tail, maxRecord, parse);
    if line == [] {
      assert c.partial == [] && k == 0 && [] + tail == tail;
      SiftKeeps(tail, true, maxRecord, parse);
      if tail != [] {
        DropFirst(tail, maxRecord, parse);
      }
    } else {
      assert ([line] + tail)[1..] == tail;
      SiftKeeps([line] + tail, true, maxRecord, parse);
    }
  }

  lemma InsideAdds<V>(c: Cursor<V>, open: seq<byte>, piece: seq<byte>, maxRecord: nat, parse: Parser<V>)
    requires c.discarding && c.partial != open && NEWLINE !in piece
    ensures Adds(c, open, piece, maxRecord, parse)
    ensures Complete(c.partial, piece) == [] && Rest(c.partial, piece) == c.partial + piece
    ensures Rest(open, piece) == open + piece
  {
    PlainHasNoLines(c.partial, piece);
    PlainHasNoLines(open, piece);
    hide Complete, Rest;
    SiftKeeps([], true, maxRecord, parse);
  }

  lemma PieceAdds<V>(c: Cursor<V>, open: seq<byte>, piece: seq<byte>, maxRecord: nat, parse: Parser<V>)
    requires Tracks(c, open, maxRecord)
    ensures Adds(c, open, piece, maxRecord, parse)
  {
    hide Adds;
    if c.partial == open {
      CarriedAdds(c, open, piece, maxRecord, parse);
    } else if NEWLINE in piece {
      EndedAdds(c, open, piece, maxRecord, parse);
    } else {
      InsideAdds(c, open, piece, maxRecord, parse);
    }
  }

  /** Still waiting, with nothing of the next line dropped, for the line that will be lost. */
  predicate Armed<V>(c: Cursor<V>, open: seq<byte>) {
    c.discarding && c.partial == open
  }

  /** The cursor after a piece tracks the longer text, and is armed exactly as its guard says. */
  lemma PieceTracks<V>(c: Cursor<V>, open: seq<byte>, piece: seq<byte>, limits: Limits, parse: Parser<V>)
    requires Tracks(c, open, limits.maxRecord) && Sound(c, limits)
    ensures var c', open' := Taken(c, piece, limits, parse), Rest(open, piece);
      && Tracks(c', open', limits.maxRecord)
      && Armed(c', open') ==
        (c.discarding && Complete(c.partial, piece) == [] && Over(c, open, piece) && |open'| <= limits.maxRecord)
  {
    hide Complete, Rest, Sift, Values;
    CarriedLines(c.partial, piece);
    SiftKeeps(Complete(c.partial, piece), c.discarding, limits.maxRecord, parse);
    if c.partial != open {
      if NEWLINE in piece {
        EndedAdds(c, open, piece, limits.maxRecord, parse);
      } else {
        InsideAdds(c, open, piece, limits.maxRecord, parse);
      }
    }
  }
}
