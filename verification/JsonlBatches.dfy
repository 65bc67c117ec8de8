/** One read of a growing file: what its batch reports, and that no record is lost between batch and queue. */
module JsonlBatches {
  import opened Wrappers
  import opened Lines
  import opened Jsonl

  /** The places of lines that are too long, from `from` on. */
  function Long(lines: seq<seq<byte>>, from: nat, maxRecord: nat): set<nat> {
    set i: nat | from <= i < |lines| && |lines[i]| > maxRecord
  }

  /** The places of lines that fit and do not parse, from `from` on. */
  function Broken<V>(lines: seq<seq<byte>>, from: nat, maxRecord: nat, parse: Parser<V>): set<nat> {
    set i: nat | from <= i < |lines| && |lines[i]| <= maxRecord && parse(lines[i]).None?
  }

  /** The values of the lines that fit and parse, from `from` on, in order. */
  function Parsed<V>(lines: seq<seq<byte>>, from: nat, maxRecord: nat, parse: Parser<V>): seq<V>
    decreases |lines|
  {
    if |lines| <= from then []
    else
      var n := |lines| - 1;
      Parsed(lines[..n], from, maxRecord, parse)
      + if |lines[n]| <= maxRecord && parse(lines[n]).Some? then [parse(lines[n]).value] else []
  }

  /** While discarding, the first line is the end of one too long; it is counted as such, and not looked at. */
  function Skipped(lines: seq<seq<byte>>, discarding: bool): nat {
    if discarding && lines != [] then 1 else 0
  }

  lemma {:induction false} TallyExactly<V>(lines: seq<seq<byte>>, discarding: bool, maxRecord: nat, parse: Parser<V>)
    ensures var t, from := Sift(lines, discarding, maxRecord, parse), Skipped(lines, discarding);
      && t.oversized == from + |Long(lines, from, maxRecord)|
      && t.malformed == |Broken(lines, from, maxRecord, parse)|
      && t.values == Parsed(lines, from, maxRecord, parse)
      && t.discarding == (discarding && lines == [])
    decreases |lines|
  {
    if lines == [] {
      assert Long(lines, 0, maxRecord) == {} && Broken(lines, 0, maxRecord, parse) == {};
    } else {
      var n := |lines| - 1;
      var init := lines[..n];
      TallyExactly(init, discarding, maxRecord, parse);
      if discarding && n == 0 {
        assert Long(lines, 1, maxRecord) == {} && Broken(lines, 1, maxRecord, parse) == {};
      } else {
        LastLine(lines, Skipped(lines, discarding), maxRecord, parse);
      }
    }
  }

  lemma LastLine<V>(lines: seq<seq<byte>>, from: nat, maxRecord: nat, parse: Parser<V>)
    requires lines != [] && from < |lines|
    ensures var n := |lines| - 1;
      && |Long(lines, from, maxRecord)| == |Long(lines[..n], from, maxRecord)| + (if |lines[n]| > maxRecord then 1 else 0)
      && |Broken(lines, from, maxRecord, parse)|
         == |Broken(lines[..n], from, maxRecord, parse)|
            + (if |lines[n]| <= maxRecord && parse(lines[n]).None? then 1 else 0)
  {
    var n := |lines| - 1;
    assert Long(lines, from, maxRecord)
      == Long(lines[..n], from, maxRecord) + (if |lines[n]| > maxRecord then {n} else {});
    assert Broken(lines, from, maxRecord, parse)
      == Broken(lines[..n], from, maxRecord, parse)
         + (if |lines[n]| <= maxRecord && parse(lines[n]).None? then {n} else {});
  }

  /** A rewritten or shortened file is read from its beginning, with nothing carried over; any other from where it was. */
  lemma StartsExactly<V>(c: Cursor<V>, file: seq<byte>, changed: bool)
    ensures var s := Start(c, file, changed);
      if changed || |file| < c.offset then s.offset == 0 && s.partial == [] && s.pending == [] && !s.discarding
      else s == c
  {
  }

  /** Queued records go out first, as many as fit and in order, and what does not fit stays queued. */
  lemma BatchExactly<V>(c: Cursor<V>, file: seq<byte>, limits: Limits, parse: Parser<V>)
    requires c.offset <= |file|
    ensures var loaded, batch := Loaded(c, file, limits, parse), Reported(c, file, limits, parse);
      var after := Drained(loaded, limits);
      && batch.records + after.pending == loaded.pending
      && |batch.records| == Min(limits.maxRecords, |loaded.pending|)
      && after == loaded.(pending := after.pending)
      && if c.pending != [] then
           loaded == c && batch.malformed == 0 && batch.oversized == 0 && batch.bytesRead == 0
         else
           && batch.bytesRead == Min(limits.maxRead, |file| - c.offset)
           && loaded.offset == c.offset + batch.bytesRead
           && var lines := Complete([], c.partial + file[c.offset..loaded.offset]);
              var from := Skipped(lines, c.discarding);
              && batch.oversized == from + |Long(lines, from, limits.maxRecord)|
              && batch.malformed == |Broken(lines, from, limits.maxRecord, parse)|
              && loaded.pending == Parsed(lines, from, limits.maxRecord, parse)
  {
    hide Sift, Complete, Rest, Long, Broken, Parsed;
    if c.pending == [] {
      var piece := Piece(c, file, limits);
      TallyExactly(Complete([], c.partial + piece), c.discarding, limits.maxRecord, parse);
    }
  }
}
