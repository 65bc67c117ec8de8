/** Runs of reads over a growing file: exactly when every record that fits is delivered, once and in order. */
module JsonlRuns {
  import opened Wrappers
  import opened Lines
  import opened Jsonl

  datatype Progress<V> = Progress(cursor: Cursor<V>, delivered: seq<V>)

  function Total<V>(p: Progress<V>): seq<V> {
    p.delivered + p.cursor.pending
  }

  function Next<V>(p: Progress<V>, file: seq<byte>, limits: Limits, parse: Parser<V>): Progress<V> {
    var loaded := Loaded(Start(p.cursor, file, false), file, limits, parse);
    Progress(Drained(loaded, limits), p.delivered + HandedOut(loaded, limits))
  }

  function ReadAll<V>(p: Progress<V>, files: seq<seq<byte>>, limits: Limits, parse: Parser<V>): Progress<V>
    decreases |files|
  {
    if files == [] then p else ReadAll(Next(p, files[0], limits, parse), files[1..], limits, parse)
  }

  function Fresh<V>(): Progress<V> {
    Progress(Cursor(0, [], [], false), [])
  }

  /** Each file continues the one before it, up to `last`. */
  predicate Grows(files: seq<seq<byte>>, last: seq<byte>)
    decreases |files|
  {
    files == [] || (files[0] <= last && (|files| > 1 ==> files[0] <= files[1]) && Grows(files[1..], last))
  }

  /** The first line to be completed is a record. */
  predicate NextIsRecord<V>(open: seq<byte>, b: seq<byte>, maxRecord: nat, parse: Parser<V>) {
    var lines := Complete(open, b);
    lines != [] && Record(lines[0], maxRecord, parse)
  }

  /** The failing guard: discarding, nothing carried, and the byte to be read ends the oversized line. */
  predicate AtItsEnd<V>(c: Cursor<V>, ahead: seq<byte>) {
    c.pending == [] && c.discarding && c.partial == [] && ahead != [] && ahead[0] == NEWLINE
  }

  predicate Hides<V>(c: Cursor<V>, ahead: seq<byte>, maxRecord: nat, parse: Parser<V>) {
    AtItsEnd(c, ahead) && NextIsRecord([], ahead, maxRecord, parse)
  }

  /** Some read of the run starts at the end of an oversized line, with a record as the next line it consumes. */
  predicate SomeHides<V>(p: Progress<V>, files: seq<seq<byte>>, text: seq<byte>, limits: Limits, parse: Parser<V>)
    decreases |files|
  {
    files != []
    && ((p.cursor.offset <= |text| && Hides(p.cursor, text[p.cursor.offset..], limits.maxRecord, parse))
        || SomeHides(Next(p, files[0], limits, parse), files[1..], text, limits, parse))
  }

  predicate Doomed<V>(c: Cursor<V>, open: seq<byte>, ahead: seq<byte>, maxRecord: nat, parse: Parser<V>) {
    Armed(c, open) && NextIsRecord(open, ahead, maxRecord, parse)
  }

  // ----- one read

  /** An open fragment ends up inside the next line or inside the rest. */
  lemma {:induction false} OpenGrows(open: seq<byte>, b: seq<byte>)
    ensures if Complete(open, b) == [] then open == [] || |open| <= |Rest(open, b)|
      else open == [] || |open| <= |Complete(open, b)[0]|
    decreases |b|
  {
    if b != [] && b[0] != NEWLINE {
      OpenGrows(open + [b[0]], b[1..]);
    }
  }

  lemma NewlineFirst(open: seq<byte>, piece: seq<byte>)
    requires piece != [] && piece[0] == NEWLINE
    ensures Rest(open, piece) == Rest([], piece)
  {
  }

  /** A loss was announced before the piece, and what is announced and not yet lost is announced after it. */
  lemma Announced<V>(c: Cursor<V>, open: seq<byte>, piece: seq<byte>, ahead: seq<byte>, limits: Limits, parse: Parser<V>)
    requires Tracks(c, open, limits.maxRecord) && Sound(c, limits) && c.pending == [] && piece != []
    ensures var before := Doomed(c, open, piece + ahead, limits.maxRecord, parse)
                          || Hides(c, piece + ahead, limits.maxRecord, parse);
      var after := Doomed(Taken(c, piece, limits, parse), Rest(open, piece), ahead, limits.maxRecord, parse);
      if Loses(c, open, piece, limits.maxRecord, parse) then before else before == after
  {
    hide Complete, Rest, Taken;
    PieceTracks(c, open, piece, limits, parse);
    var open' := Rest(open, piece);
    CompleteConcat(c.partial, piece, ahead);
    CompleteConcat(open, piece, ahead);
    OpenGrows(open', ahead);
    if c.partial == [] && piece[0] == NEWLINE {
      NewlineFirst(open, piece);
    }
    assert forall lines: seq<seq<byte>> :: [] + lines == lines;
    assert |open'| > limits.maxRecord ==> !NextIsRecord(open', ahead, limits.maxRecord, parse);
  }

  lemma EmptyPiece<V>(c: Cursor<V>, limits: Limits, parse: Parser<V>)
    requires Sound(c, limits) && c.pending == []
    ensures Taken(c, [], limits, parse) == c
  {
    assert c.partial + [] == c.partial;
    PlainHasNoLines([], c.partial);
    hide Complete, Rest;
    assert [] + c.partial == c.partial;
    assert Sift([], c.discarding, limits.maxRecord, parse) == Tally([], 0, 0, c.discarding);
  }

  /** A read hands records out and queues new ones; together they are the old ones and what was added. */
  lemma TotalGrows<V>(p: Progress<V>, file: seq<byte>, limits: Limits, parse: Parser<V>)
    requires p.cursor.offset <= |file|
    ensures var loaded := Loaded(p.cursor, file, limits, parse);
      && Next(p, file, limits, parse).cursor == Drained(loaded, limits)
      && Total(Next(p, file, limits, parse)) == p.delivered + loaded.pending
  {
    hide Taken;
    var loaded := Loaded(p.cursor, file, limits, parse);
    var n := Min(limits.maxRecords, |loaded.pending|);
    assert loaded.pending == loaded.pending[..n] + loaded.pending[n..];
    assert p.delivered + loaded.pending[..n] + loaded.pending[n..] == p.delivered + loaded.pending;
  }

  // ----- the run

  /** A cursor in the middle of reading `last`. */
  predicate Reading<V>(c: Cursor<V>, last: seq<byte>, limits: Limits) {
    c.offset <= |last| && Sound(c, limits) && Tracks(c, Rest([], last[..c.offset]), limits.maxRecord)
  }

  lemma NextReads<V>(p: Progress<V>, file: seq<byte>, last: seq<byte>, limits: Limits, parse: Parser<V>)
    requires Reading(p.cursor, last, limits) && p.cursor.offset <= |file| && file <= last
    ensures var q := Next(p, file, limits, parse);
      && Reading(q.cursor, last, limits) && p.cursor.offset <= q.cursor.offset <= |file|
  {
    TotalGrows(p, file, limits, parse);
    var c := p.cursor;
    if c.pending == [] {
      var piece := Piece(c, file, limits);
      Advance(c, file, last, limits);
      PieceTracks(c, Rest([], last[..c.offset]), piece, limits, parse);
      TakenIsSound(c, piece, limits, parse);
      hide Taken, Complete, Rest;
    }
  }

  /** The piece a read takes is the next stretch of the last file. */
  lemma Advance<V>(c: Cursor<V>, file: seq<byte>, last: seq<byte>, limits: Limits)
    requires c.offset <= |file| && file <= last
    ensures var piece := Piece(c, file, limits); var o := c.offset + |piece|;
      && o <= |file| && last[..o] == last[..c.offset] + piece && last[c.offset..o] == piece
      && Rest([], last[..o]) == Rest(Rest([], last[..c.offset]), piece)
  {
    var piece := Piece(c, file, limits);
    assert last[..c.offset + |piece|] == last[..c.offset] + piece;
    CompleteConcat([], last[..c.offset], piece);
  }

  lemma TakenIsSound<V>(c: Cursor<V>, piece: seq<byte>, limits: Limits, parse: Parser<V>)
    ensures Sound(Taken(c, piece, limits, parse), limits)
  {
    LinesArePlain([], c.partial + piece);
  }

  lemma {:induction false} OffsetGrows<V>(
    p: Progress<V>, files: seq<seq<byte>>, last: seq<byte>, limits: Limits, parse: Parser<V>)
    requires Grows(files, last) && Reading(p.cursor, last, limits)
    requires files != [] ==> p.cursor.offset <= |files[0]|
    ensures p.cursor.offset <= ReadAll(p, files, limits, parse).cursor.offset <= |last|
    decreases |files|
  {
    hide Reading, Next;
    if files == [] {
      assert p.cursor.offset <= |last| by { ReadingBound(p.cursor, last, limits); }
    } else {
      NextReads(p, files[0], last, limits, parse);
      OffsetGrows(Next(p, files[0], limits, parse), files[1..], last, limits, parse);
    }
  }

  lemma ReadingBound<V>(c: Cursor<V>, last: seq<byte>, limits: Limits)
    requires Reading(c, last, limits)
    ensures c.offset <= |last|
  {
  }

  /** What the rest of the run adds, against the records of the lines it completes. */
  ghost predicate Accounts<V>(
    p: Progress<V>, files: seq<seq<byte>>, last: seq<byte>, limits: Limits, parse: Parser<V>)
    requires p.cursor.offset <= ReadAll(p, files, limits, parse).cursor.offset <= |last|
  {
    var end := ReadAll(p, files, limits, parse);
    var text := last[..end.cursor.offset];
    var open, ahead := Rest([], last[..p.cursor.offset]), last[p.cursor.offset..end.cursor.offset];
    var due := Values(Complete(open, ahead), limits.maxRecord, parse);
    Balances(SomeHides(p, files, text, limits, parse) || Doomed(p.cursor, open, ahead, limits.maxRecord, parse),
             Total(end), Total(p), due)
  }

  /** A total grew by what was due, or by less if something was lost. */
  ghost predicate Balances<V>(lost: bool, end: seq<V>, start: seq<V>, due: seq<V>) {
    if lost then |end| < |start| + |due| else end == start + due
  }

  lemma BalanceAdds<V>(
    loses: bool, lost: bool, later: bool, end: seq<V>, start: seq<V>, added: seq<V>, due: seq<V>, rest: seq<V>)
    requires Balances(later, end, start + added, rest)
    requires if loses then lost && |added| + 1 == |due| else lost == later && added == due
    ensures Balances(lost, end, start, due + rest)
  {
    assert start + due + rest == start + (due + rest);
  }

  lemma NothingRead<V>(p: Progress<V>, last: seq<byte>, limits: Limits, parse: Parser<V>)
    requires p.cursor.offset <= |last|
    ensures Accounts(p, [], last, limits, parse)
  {
    var none: seq<byte> := last[p.cursor.offset..p.cursor.offset];
    assert none == [];
    assert Total(p) + [] == Total(p);
  }

  /** A read that only hands out records changes no account. */
  lemma DrainAccounts<V>(p: Progress<V>, files: seq<seq<byte>>, last: seq<byte>, limits: Limits, parse: Parser<V>)
    requires files != [] && p.cursor.pending != [] && p.cursor.offset <= |files[0]|
    requires p.cursor.offset <= ReadAll(p, files, limits, parse).cursor.offset <= |last|
    requires Accounts(Next(p, files[0], limits, parse), files[1..], last, limits, parse)
    ensures Accounts(p, files, last, limits, parse)
  {
    hide Complete, Rest, Values, Record;
    TotalGrows(p, files[0], limits, parse);
  }

  /** What lies ahead of a cursor is the piece it takes and what lies ahead of the next one. */
  lemma Ahead<V>(c: Cursor<V>, file: seq<byte>, last: seq<byte>, o: nat, limits: Limits)
    requires c.offset <= |file| && file <= last
    requires c.offset + |Piece(c, file, limits)| <= o <= |last|
    ensures var piece := Piece(c, file, limits); var ahead := last[c.offset + |piece|..o];
      && last[c.offset..o] == piece + ahead
      && last[..o][c.offset..] == piece + ahead && last[..o][c.offset + |piece|..] == ahead
  {
  }

  lemma EmptyAccounts<V>(p: Progress<V>, files: seq<seq<byte>>, last: seq<byte>, limits: Limits, parse: Parser<V>)
    requires files != [] && p.cursor.pending == [] && p.cursor.offset <= |files[0]| && files[0] <= last
    requires Reading(p.cursor, last, limits) && Piece(p.cursor, files[0], limits) == []
    requires p.cursor.offset <= Next(p, files[0], limits, parse).cursor.offset
      <= ReadAll(p, files, limits, parse).cursor.offset <= |last|
    requires Accounts(Next(p, files[0], limits, parse), files[1..], last, limits, parse)
    ensures Accounts(p, files, last, limits, parse)
  {
    hide Complete, Rest, Values, Record, Taken, Balances, Doomed, SomeHides;
    EmptyReadIsIdle(p, files[0], limits, parse);
    var end := ReadAll(p, files, limits, parse);
    hide Next, ReadAll;
    IdleHides(p, files, last[..end.cursor.offset], limits, parse);
  }

  lemma EmptyReadIsIdle<V>(p: Progress<V>, file: seq<byte>, limits: Limits, parse: Parser<V>)
    requires p.cursor.pending == [] && p.cursor.offset <= |file| && Sound(p.cursor, limits)
    requires Piece(p.cursor, file, limits) == []
    ensures Next(p, file, limits, parse) == p
  {
    hide Taken;
    EmptyPiece(p.cursor, limits, parse);
    assert p.delivered + [] == p.delivered;
  }

  lemma IdleHides<V>(p: Progress<V>, files: seq<seq<byte>>, text: seq<byte>, limits: Limits, parse: Parser<V>)
    requires files != [] && Next(p, files[0], limits, parse) == p && p.cursor.offset <= |text|
    requires |files| == 1 ==> p.cursor.offset == |text|
    ensures SomeHides(p, files, text, limits, parse) == SomeHides(p, files[1..], text, limits, parse)
  {
    hide Next, Hides;
    if |files| == 1 {
      assert text[p.cursor.offset..] == [];
      NothingAhead(p.cursor, limits.maxRecord, parse);
    }
  }

  lemma NothingAhead<V>(c: Cursor<V>, maxRecord: nat, parse: Parser<V>)
    ensures !Hides(c, [], maxRecord, parse)
  {
  }

  lemma PieceAccounts<V>(p: Progress<V>, files: seq<seq<byte>>, last: seq<byte>, limits: Limits, parse: Parser<V>)
    requires files != [] && p.cursor.pending == [] && p.cursor.offset <= |files[0]| && files[0] <= last
    requires Reading(p.cursor, last, limits) && Piece(p.cursor, files[0], limits) != []
    requires p.cursor.offset <= Next(p, files[0], limits, parse).cursor.offset
      <= ReadAll(p, files, limits, parse).cursor.offset <= |last|
    requires Accounts(Next(p, files[0], limits, parse), files[1..], last, limits, parse)
    ensures Accounts(p, files, last, limits, parse)
  {
    hide Complete, Rest, Values, Record, Balances, Hides, Doomed, Loses, Sift;
    var c, q, end := p.cursor, Next(p, files[0], limits, parse), ReadAll(p, files, limits, parse);
    var piece, open := Piece(c, files[0], limits), Rest([], last[..c.offset]);
    TotalGrows(p, files[0], limits, parse);
    Advance(c, files[0], last, limits);
    Ahead(c, files[0], last, end.cursor.offset, limits);
    var ahead := last[q.cursor.offset..end.cursor.offset];
    CarriedLines(c.partial, piece);
    PieceAdds(c, open, piece, limits.maxRecord, parse);
    Announced(c, open, piece, ahead, limits, parse);
    CompleteConcat(open, piece, ahead);
    var due, rest := Complete(open, piece), Complete(Rest(open, piece), ahead);
    ValuesConcat(due, rest, limits.maxRecord, parse);
    var added := Sift(Complete(c.partial, piece), c.discarding, limits.maxRecord, parse).values;
    assert Total(q) == Total(p) + added;
    DoomedIgnoresPending(Taken(c, piece, limits, parse), q.cursor, Rest(open, piece), ahead, limits.maxRecord, parse);
    hide Taken, Next, ReadAll;
    var text := last[..end.cursor.offset];
    BalanceAdds(
      Loses(c, open, piece, limits.maxRecord, parse),
      SomeHides(p, files, text, limits, parse) || Doomed(c, open, piece + ahead, limits.maxRecord, parse),
      SomeHides(q, files[1..], text, limits, parse) || Doomed(q.cursor, Rest(open, piece), ahead, limits.maxRecord, parse),
      Total(end), Total(p), added, Values(due, limits.maxRecord, parse), Values(rest, limits.maxRecord, parse));
  }

  lemma DoomedIgnoresPending<V>(c: Cursor<V>, d: Cursor<V>, open: seq<byte>, ahead: seq<byte>, maxRecord: nat, parse: Parser<V>)
    requires c.discarding == d.discarding && c.partial == d.partial
    ensures Doomed(c, open, ahead, maxRecord, parse) == Doomed(d, open, ahead, maxRecord, parse)
  {
  }

  lemma {:induction false} RunAccounts<V>(
    p: Progress<V>, files: seq<seq<byte>>, last: seq<byte>, limits: Limits, parse: Parser<V>)
    requires Grows(files, last) && Reading(p.cursor, last, limits)
    requires files != [] ==> p.cursor.offset <= |files[0]|
    ensures p.cursor.offset <= ReadAll(p, files, limits, parse).cursor.offset <= |last|
    ensures Accounts(p, files, last, limits, parse)
    decreases |files|
  {
    OffsetGrows(p, files, last, limits, parse);
    hide Reading, Accounts, Next;
    if files == [] {
      NothingRead(p, last, limits, parse);
    } else {
      var q := Next(p, files[0], limits, parse);
      NextReads(p, files[0], last, limits, parse);
      OffsetGrows(q, files[1..], last, limits, parse);
      RunAccounts(q, files[1..], last, limits, parse);
      if p.cursor.pending == [] {
        if Piece(p.cursor, files[0], limits) == [] {
          EmptyAccounts(p, files, last, limits, parse);
        } else {
          PieceAccounts(p, files, last, limits, parse);
        }
      } else {
        DrainAccounts(p, files, last, limits, parse);
      }
    }
  }

  /**
   For every growing file, all limits and every sequence of reads: the records delivered and
   pending are exactly those of the complete lines consumed, in order, if and only if no
   read starts at the end of an oversized line with a record as the next line.
   */
  lemma ExactlyWhenNothingIsLost<V>(files: seq<seq<byte>>, last: seq<byte>, limits: Limits, parse: Parser<V>)
    requires Grows(files, last)
    ensures var end := ReadAll(Fresh(), files, limits, parse);
      end.cursor.offset <= |last| && var text := last[..end.cursor.offset];
      (Total(end) == Values(Complete([], text), limits.maxRecord, parse))
        <==> !SomeHides(Fresh(), files, text, limits, parse)
  {
    var p: Progress<V> := Fresh();
    assert last[..0] == [];
    assert Reading(p.cursor, last, limits);
    RunAccounts(p, files, last, limits, parse);
    var end := ReadAll(p, files, limits, parse);
    assert last[0..end.cursor.offset] == last[..end.cursor.offset];
    assert Total(p) == [];
  }

  // ----- a file whose lines fit loses nothing

  /** Every line and the fragment after the last one fit a record. */
  predicate Fits(b: seq<byte>, maxRecord: nat) {
    && (forall i :: 0 <= i < |Complete([], b)| ==> |Complete([], b)[i]| <= maxRecord)
    && |Rest([], b)| <= maxRecord
  }

  lemma FitsPrefix(b: seq<byte>, k: nat, maxRecord: nat)
    requires k <= |b| && Fits(b, maxRecord)
    ensures |Rest([], b[..k])| <= maxRecord
  {
    var open, ahead := Rest([], b[..k]), b[k..];
    assert b[..k] + ahead == b;
    CompleteConcat([], b[..k], ahead);
    OpenGrows(open, ahead);
    if Complete(open, ahead) != [] {
      assert Complete(open, ahead)[0] == Complete([], b)[|Complete([], b[..k])|];
    }
  }

  lemma {:induction false} NeverDiscards<V>(
    p: Progress<V>, files: seq<seq<byte>>, last: seq<byte>, text: seq<byte>, limits: Limits, parse: Parser<V>)
    requires Grows(files, last) && Reading(p.cursor, last, limits) && Fits(last, limits.maxRecord)
    requires files != [] ==> p.cursor.offset <= |files[0]|
    requires !p.cursor.discarding
    ensures !SomeHides(p, files, text, limits, parse)
    decreases |files|
  {
    if files != [] {
      var c, q := p.cursor, Next(p, files[0], limits, parse);
      NextReads(p, files[0], last, limits, parse);
      FitsPrefix(last, q.cursor.offset, limits.maxRecord);
      assert !q.cursor.discarding by { StaysCalm(p, files[0], last, limits, parse); }
      hide Fits, Next, Reading;
      NeverDiscards(q, files[1..], last, text, limits, parse);
    }
  }

  lemma StaysCalm<V>(p: Progress<V>, file: seq<byte>, last: seq<byte>, limits: Limits, parse: Parser<V>)
    requires Reading(p.cursor, last, limits) && !p.cursor.discarding && p.cursor.offset <= |file| && file <= last
    requires Next(p, file, limits, parse).cursor.offset <= |last|
    requires |Rest([], last[..Next(p, file, limits, parse).cursor.offset])| <= limits.maxRecord
    ensures !Next(p, file, limits, parse).cursor.discarding
  {
    hide Complete, Rest, Sift;
    var c := p.cursor;
    TotalGrows(p, file, limits, parse);
    if c.pending == [] {
      var piece := Piece(c, file, limits);
      Advance(c, file, last, limits);
      CarriedLines(c.partial, piece);
      SiftKeeps(Complete(c.partial, piece), false, limits.maxRecord, parse);
    }
  }

  /** If every line fits, whatever the read sizes, nothing is skipped and nothing comes twice. */
  lemma NothingSkippedNothingTwice<V>(files: seq<seq<byte>>, last: seq<byte>, limits: Limits, parse: Parser<V>)
    requires Grows(files, last) && Fits(last, limits.maxRecord)
    ensures var end := ReadAll(Fresh(), files, limits, parse);
      end.cursor.offset <= |last|
      && Total(end) == Values(Complete([], last[..end.cursor.offset]), limits.maxRecord, parse)
  {
    ExactlyWhenNothingIsLost(files, last, limits, parse);
    var p: Progress<V> := Fresh();
    var end := ReadAll(p, files, limits, parse);
    assert last[..0] == [];
    NeverDiscards(p, files, last, last[..end.cursor.offset], limits, parse);
  }

  // ----- which limits can lose a record

  predicate Good<V>(line: seq<byte>, limits: Limits, parse: Parser<V>) {
    line != [] && Plain(line) && Record(line, limits.maxRecord, parse)
  }

  /** One byte more than fits, its newline, and a record. */
  function Trap(good: seq<byte>, maxRecord: nat): seq<byte> {
    seq(maxRecord + 1, _ => 97) + [NEWLINE] + good + [NEWLINE]
  }

  /** The file after each byte that is written to it. */
  function Growth(file: seq<byte>, k: nat): seq<seq<byte>>
    requires k <= |file|
    decreases |file| - k
  {
    if k == |file| then [] else [file[..k + 1]] + Growth(file, k + 1)
  }

  lemma {:induction false} GrowthGrows(file: seq<byte>, k: nat)
    requires k <= |file|
    ensures Grows(Growth(file, k), file)
    decreases |file| - k
  {
    if k < |file| {
      GrowthGrows(file, k + 1);
      assert Growth(file, k)[1..] == Growth(file, k + 1);
    }
  }

  lemma TakeByte<V>(c: Cursor<V>, b: byte, limits: Limits, parse: Parser<V>)
    requires Plain(c.partial)
    ensures var c' := Taken(c, [b], limits, parse);
      if b != NEWLINE then
        c' == if |c.partial| + 1 > limits.maxRecord then Cursor(c.offset + 1, [], c.pending, true)
              else c.(offset := c.offset + 1, partial := c.partial + [b])
      else if c.partial == [] then c' == c.(offset := c.offset + 1)
      else c.discarding ==> c' == Cursor(c.offset + 1, [], c.pending, false)
  {
    var lines, rest := Complete(c.partial, [b]), Rest(c.partial, [b]);
    CarriedLines(c.partial, [b]);
    SiftKeeps(lines, c.discarding, limits.maxRecord, parse);
    assert [b][1..] == [];
    assert lines == if b == NEWLINE && c.partial != [] then [c.partial] else [];
    assert c.pending + [] == c.pending;
  }

  /** The cursor after k bytes of the trap, read one by one. */
  function Stage<V>(good: seq<byte>, maxRecord: nat, k: nat): Progress<V>
    requires k <= maxRecord + 3 + |good|
  {
    var file := Trap(good, maxRecord);
    Progress(if k <= maxRecord then Cursor(k, file[..k], [], false)
             else if k == maxRecord + 1 then Cursor(k, [], [], true)
             else if k < |file| then Cursor(k, file[maxRecord + 2..k], [], true)
             else Cursor(k, [], [], false), [])
  }

  lemma TrapShape(good: seq<byte>, maxRecord: nat)
    ensures var file := Trap(good, maxRecord);
      && |file| == maxRecord + 3 + |good|
      && (forall i :: 0 <= i <= maxRecord ==> file[i] == 97) && file[maxRecord + 1] == NEWLINE
      && file[maxRecord + 2..|file| - 1] == good && file[|file| - 1] == NEWLINE
  {
  }

  lemma StagePlain<V>(good: seq<byte>, maxRecord: nat, k: nat)
    requires Plain(good) && k < maxRecord + 3 + |good|
    ensures Plain(Stage<V>(good, maxRecord, k).cursor.partial)
  {
    TrapShape(good, maxRecord);
    var file := Trap(good, maxRecord);
    hide Trap;
    if k >= maxRecord + 2 {
      assert file[maxRecord + 2..k] == good[..k - maxRecord - 2];
    }
  }

  lemma StageStep<V>(good: seq<byte>, limits: Limits, parse: Parser<V>, k: nat)
    requires Good(good, limits, parse) && limits.maxRead > 0 && k < limits.maxRecord + 3 + |good|
    ensures k < |Trap(good, limits.maxRecord)|
    ensures Next<V>(Stage(good, limits.maxRecord, k), Trap(good, limits.maxRecord)[..k + 1], limits, parse)
      == Stage(good, limits.maxRecord, k + 1)
  {
    var file, max := Trap(good, limits.maxRecord), limits.maxRecord;
    TrapShape(good, max);
    StagePlain<V>(good, max, k);
    hide Trap, Taken, Record;
    var c := Stage<V>(good, max, k).cursor;
    assert Piece(c, file[..k + 1], limits) == [file[k]];
    TakeByte(c, file[k], limits, parse);
    if k < max {
      assert file[..k] + [file[k]] == file[..k + 1];
    } else if max + 2 <= k < |file| - 1 {
      assert file[k] == good[k - max - 2];
      assert file[max + 2..k] + [file[k]] == file[max + 2..k + 1];
    }
    var c' := Taken(c, [file[k]], limits, parse);
    assert c' == Stage<V>(good, max, k + 1).cursor;
    var none: seq<V> := [];
    assert Drained(c', limits) == c' && HandedOut(c', limits) == none && none + none == none;
  }

  lemma {:induction false} TrapRun<V>(good: seq<byte>, limits: Limits, parse: Parser<V>, k: nat)
    requires Good(good, limits, parse) && limits.maxRead > 0 && k <= |Trap(good, limits.maxRecord)|
    ensures k <= limits.maxRecord + 3 + |good| == |Trap(good, limits.maxRecord)|
    ensures ReadAll<V>(Stage(good, limits.maxRecord, k), Growth(Trap(good, limits.maxRecord), k), limits, parse)
      == Stage(good, limits.maxRecord, |Trap(good, limits.maxRecord)|)
    decreases |Trap(good, limits.maxRecord)| - k
  {
    TrapShape(good, limits.maxRecord);
    var file := Trap(good, limits.maxRecord);
    hide Trap, Stage, Next;
    if k < |file| {
      StageStep(good, limits, parse, k);
      TrapRun(good, limits, parse, k + 1);
      assert Growth(file, k)[0] == file[..k + 1] && Growth(file, k)[1..] == Growth(file, k + 1);
    }
  }

  lemma TrapIsDue<V>(good: seq<byte>, limits: Limits, parse: Parser<V>)
    requires Good(good, limits, parse)
    ensures Values(Complete([], Trap(good, limits.maxRecord)), limits.maxRecord, parse) != []
  {
    TrapShape(good, limits.maxRecord);
    var file := Trap(good, limits.maxRecord);
    var front, back := file[..limits.maxRecord + 2], good + [NEWLINE];
    assert file == front + back;
    hide Trap;
    RestAfterNewline([], front);
    CompleteConcat([], front, back);
    CompleteConcat([], good, [NEWLINE]);
    PlainHasNoLines([], good);
    assert [] + good == good;
    assert Complete(good, [NEWLINE]) == [good] + Complete([], []);
    ValuesConcat(Complete([], front), [good], limits.maxRecord, parse);
    ValuesOne(good, limits.maxRecord, parse);
  }

  ghost predicate Loss<V>(files: seq<seq<byte>>, last: seq<byte>, limits: Limits, parse: Parser<V>) {
    var end := ReadAll(Fresh(), files, limits, parse);
    && Grows(files, last) && end.cursor.offset <= |last|
    && Total(end) != Values(Complete([], last[..end.cursor.offset]), limits.maxRecord, parse)
  }

  /** Whatever the limits, a file that grows byte by byte loses this record behind an oversized line. */
  lemma TrapLoses<V>(good: seq<byte>, limits: Limits, parse: Parser<V>)
    requires Good(good, limits, parse) && limits.maxRead > 0
    ensures var file := Trap(good, limits.maxRecord); Loss(Growth(file, 0), file, limits, parse)
  {
    var file := Trap(good, limits.maxRecord);
    TrapShape(good, limits.maxRecord);
    TrapIsDue(good, limits, parse);
    TrapRun(good, limits, parse, 0);
    GrowthGrows(file, 0);
    hide Trap;
    assert file[..0] == [] && file[..|file|] == file;
    assert Stage<V>(good, limits.maxRecord, 0) == Fresh();
  }

  lemma {:induction false} HiddenIsGood<V>(
    p: Progress<V>, files: seq<seq<byte>>, text: seq<byte>, limits: Limits, parse: Parser<V>)
    requires SomeHides(p, files, text, limits, parse)
    ensures exists line :: Good(line, limits, parse)
    decreases |files|
  {
    hide Next;
    if p.cursor.offset <= |text| && Hides(p.cursor, text[p.cursor.offset..], limits.maxRecord, parse) {
      LinesArePlain([], text[p.cursor.offset..]);
      assert Good(Complete([], text[p.cursor.offset..])[0], limits, parse);
    } else {
      HiddenIsGood(Next(p, files[0], limits, parse), files[1..], text, limits, parse);
    }
  }

  lemma {:induction false} NoReadNoProgress<V>(files: seq<seq<byte>>, limits: Limits, parse: Parser<V>)
    requires limits.maxRead == 0
    ensures ReadAll<V>(Fresh(), files, limits, parse) == Fresh()
    decreases |files|
  {
    if files != [] {
      EmptyReadIsIdle<V>(Fresh(), files[0], limits, parse);
      NoReadNoProgress<V>(files[1..], limits, parse);
    }
  }

  /** Some growing file loses a record if and only if the cursor reads at all and some line is a record. */
  lemma LimitsThatLose<V>(limits: Limits, parse: Parser<V>)
    ensures (exists files, last :: Loss(files, last, limits, parse))
      <==> limits.maxRead > 0 && exists line :: Good(line, limits, parse)
  {
    if files, last :| Loss(files, last, limits, parse) {
      ExactlyWhenNothingIsLost(files, last, limits, parse);
      var end := ReadAll(Fresh(), files, limits, parse);
      HiddenIsGood(Fresh(), files, last[..end.cursor.offset], limits, parse);
      if limits.maxRead == 0 {
        NoReadNoProgress<V>(files, limits, parse);
      }
    }
    if limits.maxRead > 0 && exists line :: Good(line, limits, parse) {
      var good :| Good(good, limits, parse);
      TrapLoses(good, limits, parse);
      assert Loss(Growth(Trap(good, limits.maxRecord), 0), Trap(good, limits.maxRecord), limits, parse);
    }
  }
}
