/** The lines of a text by their places: each is a stretch between newlines, and no other byte is lost. */
module LineSpans {
  import opened Wrappers
  import opened Lines
  import opened Codex

  /** A stretch of bytes without newline that begins where a line can begin. */
  predicate Stretch(b: seq<byte>, from: nat, to: nat) {
    && from <= to <= |b|
    && (from == 0 || b[from - 1] == 0x0a)
    && (forall x :: from <= x < to ==> b[x] != 0x0a)
  }

  /** Place `k` of the list is where the k-th line stands: a stretch that a newline ends. */
  predicate Placed(b: seq<byte>, lines: seq<seq<byte>>, spans: seq<(nat, nat)>) {
    && |spans| == |lines|
    && (forall k :: 0 <= k < |spans| ==>
          var (from, to) := spans[k];
          from < to < |b| && b[to] == 0x0a && Stretch(b, from, to) && lines[k] == b[from..to])
    && (forall k :: 0 < k < |spans| ==> spans[k - 1].1 < spans[k].0)
  }

  predicate Within(spans: seq<(nat, nat)>, x: nat) {
    exists k :: 0 <= k < |spans| && spans[k].0 <= x < spans[k].1
  }

  /** Every byte up to `end` that is no newline stands in a line. */
  predicate Covers(b: seq<byte>, spans: seq<(nat, nat)>, end: nat) {
    && end <= |b| && (forall x :: 0 <= x < end && b[x] != 0x0a ==> Within(spans, x))
    && (forall k :: 0 <= k < |spans| ==> spans[k].1 < end)
  }

  lemma PlacedGrows(b: seq<byte>, c: byte, lines: seq<seq<byte>>, spans: seq<(nat, nat)>)
    requires Placed(b, lines, spans)
    ensures Placed(b + [c], lines, spans)
  {
    var more := b + [c];
    forall k | 0 <= k < |spans|
      ensures var (from, to) := spans[k];
        from < to < |more| && more[to] == 0x0a && Stretch(more, from, to) && lines[k] == more[from..to]
    {
      var (from, to) := spans[k];
      assert Stretch(b, from, to);
      assert more[from..to] == b[from..to];
    }
  }

  lemma OneMore(b: seq<byte>, c: byte)
    ensures Complete([], b + [c])
      == Complete([], b) + (if c == NEWLINE && Rest([], b) != [] then [Rest([], b)] else [])
    ensures Rest([], b + [c]) == if c == NEWLINE then [] else Rest([], b) + [c]
  {
    CompleteConcat([], b, [c]);
    assert [c][1..] == [];
  }

  lemma CoversGrows(b: seq<byte>, spans: seq<(nat, nat)>, r: nat, line: bool)
    requires Covers(b, spans, r) && Stretch(b, r, |b|) && line == (r < |b|)
    ensures Covers(b + [NEWLINE], if line then spans + [(r, |b|)] else spans, |b| + 1)
  {
    var more, wider := b + [NEWLINE], if line then spans + [(r, |b|)] else spans;
    forall x | 0 <= x < |b| + 1 && more[x] != 0x0a ensures Within(wider, x) {
      if x < r {
        assert Within(spans, x);
        var k :| 0 <= k < |spans| && spans[k].0 <= x < spans[k].1;
        assert wider[k] == spans[k];
      } else {
        assert wider[|spans|] == (r, |b|);
      }
    }
  }

  lemma PlacedEnds(b: seq<byte>, lines: seq<seq<byte>>, spans: seq<(nat, nat)>, r: nat)
    requires Placed(b, lines, spans) && Covers(b, spans, r) && Stretch(b, r, |b|) && r < |b|
    ensures Placed(b + [NEWLINE], lines + [b[r..]], spans + [(r, |b|)])
  {
    PlacedGrows(b, NEWLINE, lines, spans);
    var more := b + [NEWLINE];
    assert more[r..|b|] == b[r..];
    assert Stretch(more, r, |b|);
  }

  /** The finished lines of a text stand in these places, and the unfinished rest begins at `r`. */
  predicate Finished(b: seq<byte>, spans: seq<(nat, nat)>, r: nat) {
    Placed(b, Complete([], b), spans) && Covers(b, spans, r) && Stretch(b, r, |b|) && Rest([], b) == b[r..]
  }

  lemma AtNewline(a: seq<byte>, spans: seq<(nat, nat)>, r: nat)
    requires Finished(a, spans, r)
    ensures Finished(a + [NEWLINE], if r < |a| then spans + [(r, |a|)] else spans, |a| + 1)
  {
    hide Complete, Rest, Placed, Covers;
    OneMore(a, NEWLINE);
    CoversGrows(a, spans, r, r < |a|);
    if r < |a| {
      PlacedEnds(a, Complete([], a), spans, r);
    } else {
      PlacedGrows(a, NEWLINE, Complete([], a), spans);
      assert Complete([], a) + [] == Complete([], a);
    }
  }

  lemma AtOther(a: seq<byte>, c: byte, spans: seq<(nat, nat)>, r: nat)
    requires Finished(a, spans, r) && c != NEWLINE
    ensures Finished(a + [c], spans, r)
  {
    hide Complete, Rest, Placed, Within;
    OneMore(a, c);
    PlacedGrows(a, c, Complete([], a), spans);
    assert Complete([], a) + [] == Complete([], a);
    assert a[r..] + [c] == (a + [c])[r..];
  }

  lemma NothingFinished()
    ensures Finished([], [], 0)
  {
  }

  lemma {:induction false} FinishedLines(b: seq<byte>) returns (spans: seq<(nat, nat)>, r: nat)
    ensures Finished(b, spans, r)
    decreases |b|
  {
    hide Finished;
    if b == [] {
      spans, r := [], 0;
      NothingFinished();
    } else {
      var n := |b| - 1;
      spans, r := FinishedLines(b[..n]);
      assert b[..n] + [b[n]] == b;
      if b[n] == NEWLINE {
        AtNewline(b[..n], spans, r);
        spans, r := if r < n then spans + [(r, n)] else spans, |b|;
      } else {
        AtOther(b[..n], b[n], spans, r);
      }
    }
  }

  /** The records of a log are its lines: the finished ones in order, then the rest if it is not empty. */
  lemma RecordsExactly(b: seq<byte>) returns (lines: seq<seq<byte>>, spans: seq<(nat, nat)>, r: nat)
    ensures Placed(b, lines, spans) && Covers(b, spans, r) && Stretch(b, r, |b|)
    ensures Records(b) == if r == |b| then lines else lines + [b[r..]]
  {
    hide Complete, Rest;
    spans, r := FinishedLines(b);
    lines := Complete([], b);
    assert lines + [] == lines;
  }

  /** The tail is missing exactly when the last line is unfinished; it is the file, or what follows the first newline of its last 1 MiB. */
  lemma TailExactly(file: seq<byte>)
    ensures Tail(file).None? <==> file != [] && file[|file| - 1] != 0x0a
    ensures Tail(file).Some? ==>
      if |file| <= 1_048_576 then Tail(file).value == file
      else exists at :: |file| - 1_048_576 <= at < |file| && file[at] == 0x0a && Tail(file).value == file[at + 1..]
             && forall x :: |file| - 1_048_576 <= x < at ==> file[x] != 0x0a
  {
    var offset := SaturatingSub(|file|, MAX_TAIL);
    var bytes := file[offset..];
    assert file != [] ==> bytes[|bytes| - 1] == file[|file| - 1];
    if offset > 0 && file[|file| - 1] == 0x0a {
      assert NEWLINE in bytes;
      var at := FirstNewline(bytes).value;
      assert bytes[at] == file[offset + at];
      assert bytes[at + 1..] == file[offset + at + 1..];
      forall x | offset <= x < offset + at ensures file[x] != 0x0a {
        assert bytes[..at][x - offset] == file[x];
      }
    }
  }
}
