/**
 Whether the latest Codex turn ended on a capacity message: a fold over the rollout log,
 its declarative meaning, and why reading only the end of the log never invents a verdict.
 */
module Codex {
  import opened Wrappers
  import opened Lines

  /** What a log record means to the fold. */
  datatype Item = Started(turn: Option<string>) | Completed(turn: Option<string>) | User | Capacity | Other

  datatype Fold = Fold(current: Option<string>, capacity: Option<string>, terminal: bool)

  const START := Fold(None, None, false)

  function Step(f: Fold, item: Item): Fold {
    match item
    case Started(turn) => Fold(turn, None, false)
    case Completed(turn) => f.(terminal := turn.Some? && turn == f.capacity, current := None)
    case User => f.(terminal := false, capacity := None)
    case Capacity => f.(capacity := f.current)
    case Other => f
  }

  function After(f: Fold, items: seq<Item>): Fold {
    if items == [] then f else Step(After(f, items[..|items| - 1]), items[|items| - 1])
  }

  // ----- the declarative rule

  /** Turn `t` was started and nothing has started or completed since. */
  predicate Current(items: seq<Item>, t: string) {
    exists s :: 0 <= s < |items| && items[s] == Started(Some(t))
      && forall k :: s < k < |items| ==> !items[k].Started? && !items[k].Completed?
  }

  /** The last capacity message since the last reset came while `t` was current. */
  predicate Blocked(items: seq<Item>, t: string) {
    exists c :: 0 <= c < |items| && items[c].Capacity? && Current(items[..c], t)
      && forall k :: c < k < |items| ==> !items[k].Started? && !items[k].User? && !items[k].Capacity?
  }

  /** The last start, completion or user message completes a turn that was blocked. */
  predicate EndsBlocked(items: seq<Item>) {
    exists j :: 0 <= j < |items| && items[j].Completed? && items[j].turn.Some?
      && Blocked(items[..j], items[j].turn.value)
      && forall k :: j < k < |items| ==> !items[k].Started? && !items[k].Completed? && !items[k].User?
  }

  lemma {:induction false} CurrentIsCurrent(items: seq<Item>, t: string)
    ensures After(START, items).current == Some(t) <==> Current(items, t)
    decreases |items|
  {
    if items != [] {
      var n := |items| - 1;
      var init := items[..n];
      CurrentIsCurrent(init, t);
      if Current(init, t) && !items[n].Started? && !items[n].Completed? {
        var s :| 0 <= s < |init| && init[s] == Started(Some(t))
          && forall k :: s < k < |init| ==> !init[k].Started? && !init[k].Completed?;
        assert items[s] == Started(Some(t));
        assert Current(items, t);
      }
      if Current(items, t) && !items[n].Started? {
        var s :| 0 <= s < |items| && items[s] == Started(Some(t))
          && forall k :: s < k < |items| ==> !items[k].Started? && !items[k].Completed?;
        assert init[s] == Started(Some(t));
      }
      if items[n] == Started(Some(t)) {
        assert Current(items, t);
      }
    }
  }

  lemma {:induction false} BlockedIsCapacity(items: seq<Item>, t: string)
    ensures After(START, items).capacity == Some(t) <==> Blocked(items, t)
    decreases |items|
  {
    hide Current;
    if items != [] {
      var n := |items| - 1;
      var init := items[..n];
      BlockedIsCapacity(init, t);
      CurrentIsCurrent(init, t);
      if Blocked(init, t) && !items[n].Started? && !items[n].User? && !items[n].Capacity? {
        var c :| 0 <= c < |init| && init[c].Capacity? && Current(init[..c], t)
          && forall k :: c < k < |init| ==> !init[k].Started? && !init[k].User? && !init[k].Capacity?;
        assert items[..c] == init[..c] && items[c].Capacity?;
      }
      if Blocked(items, t) {
        var c :| 0 <= c < |items| && items[c].Capacity? && Current(items[..c], t)
          && forall k :: c < k < |items| ==> !items[k].Started? && !items[k].User? && !items[k].Capacity?;
        if c < n {
          assert init[..c] == items[..c] && init[c].Capacity?;
          assert Blocked(init, t);
        }
      }
      if items[n].Capacity? && Current(init, t) {
        assert items[..n] == init;
        assert Blocked(items, t);
      }
    }
  }

  /** The three-variable fold computes the rule. */
  lemma {:induction false} FoldIsRule(items: seq<Item>)
    ensures After(START, items).terminal <==> EndsBlocked(items)
    decreases |items|
  {
    hide Blocked;
    if items != [] {
      var n := |items| - 1;
      var init := items[..n];
      FoldIsRule(init);
      var last := items[n];
      if last.Completed? && last.turn.Some? {
        BlockedIsCapacity(init, last.turn.value);
      }
      if EndsBlocked(init) && !last.Started? && !last.Completed? && !last.User? {
        var j :| 0 <= j < |init| && init[j].Completed? && init[j].turn.Some?
          && Blocked(init[..j], init[j].turn.value)
          && forall k :: j < k < |init| ==> !init[k].Started? && !init[k].Completed? && !init[k].User?;
        assert items[..j] == init[..j] && items[j].Completed?;
      }
      if EndsBlocked(items) {
        var j :| 0 <= j < |items| && items[j].Completed? && items[j].turn.Some?
          && Blocked(items[..j], items[j].turn.value)
          && forall k :: j < k < |items| ==> !items[k].Started? && !items[k].Completed? && !items[k].User?;
        if j < n {
          assert init[..j] == items[..j] && init[j].Completed?;
          assert EndsBlocked(init);
        }
      }
      if last.Completed? && last.turn.Some? && Blocked(init, last.turn.value) {
        assert items[..n] == init;
        assert EndsBlocked(items);
      }
    }
  }

  // ----- reading only a suffix

  /** What a fold that missed the beginning knows, compared with one that did not. */
  predicate Knows(late: Fold, full: Fold) {
    && (late.current.Some? ==> late.current == full.current)
    && (late.capacity.Some? ==> late.capacity == full.capacity)
    && (late.terminal ==> full.terminal)
  }

  lemma {:induction false} SuffixKnows(late: Fold, full: Fold, items: seq<Item>)
    requires Knows(late, full)
    ensures Knows(After(late, items), After(full, items))
    ensures (exists i :: 0 <= i < |items| && items[i].Started?) ==> After(late, items) == After(full, items)
    decreases |items|
  {
    if items != [] {
      SuffixKnows(late, full, items[..|items| - 1]);
    }
  }

  lemma {:induction false} AfterConcat(f: Fold, a: seq<Item>, b: seq<Item>)
    ensures After(f, a + b) == After(After(f, a), b)
    decreases |b|
  {
    if b == [] {
      assert a + b == a;
    } else {
      assert (a + b)[..|a + b| - 1] == a + b[..|b| - 1];
      AfterConcat(f, a, b[..|b| - 1]);
    }
  }

  /** A suffix never claims a capacity block the whole log denies; with a turn start in it, it is exact. */
  lemma SuffixNeverInvents(prefix: seq<Item>, suffix: seq<Item>)
    ensures EndsBlocked(suffix) ==> EndsBlocked(prefix + suffix)
    ensures (exists i :: 0 <= i < |suffix| && suffix[i].Started?) ==>
      (EndsBlocked(suffix) <==> EndsBlocked(prefix + suffix))
  {
    hide EndsBlocked;
    FoldIsRule(suffix);
    FoldIsRule(prefix + suffix);
    AfterConcat(START, prefix, suffix);
    SuffixKnows(START, After(START, prefix), suffix);
  }

  // ----- the log as bytes

  const MAX_TAIL := 1024 * 1024
  const MAX_RECORD := 256 * 1024

  /** What one line means, or nothing when it is not JSON. */
  type Parser = seq<byte> -> Option<Item>

  predicate Readable(parse: Parser, lines: seq<seq<byte>>) {
    forall i :: 0 <= i < |lines| ==> |lines[i]| <= MAX_RECORD && parse(lines[i]).Some?
  }

  function Items(parse: Parser, lines: seq<seq<byte>>): (r: seq<Item>)
    requires Readable(parse, lines)
    ensures |r| == |lines|
  {
    seq(|lines|, i requires 0 <= i < |lines| => parse(lines[i]).value)
  }

  /** All non-empty lines, the unfinished one at the end included. */
  function Records(bytes: seq<byte>): seq<seq<byte>> {
    Complete([], bytes) + (if Rest([], bytes) == [] then [] else [Rest([], bytes)])
  }

  /** Fold the records of a log. */
  method Verdict(parse: Parser, bytes: seq<byte>) returns (r: Option<bool>)
    ensures r.Some? <==> Readable(parse, Records(bytes))
    ensures r.Some? ==> r.value == EndsBlocked(Items(parse, Records(bytes)))
  {
    hide EndsBlocked, Records;
    var lines := Records(bytes);
    var current: Option<string>, capacity: Option<string>, terminal := None, None, false;
    var i := 0;
    while i < |lines|
      invariant 0 <= i <= |lines| && Readable(parse, lines[..i])
      invariant Fold(current, capacity, terminal) == After(START, Items(parse, lines[..i]))
    {
      var line := lines[i];
      if |line| > MAX_RECORD {
        assert !Readable(parse, lines);
        return None;
      }
      var item := parse(line);
      if item.None? {
        assert !Readable(parse, lines);
        return None;
      }
      match item.value {
        case Started(turn) => current, capacity, terminal := turn, None, false;
        case Completed(turn) => terminal, current := turn.Some? && turn == capacity, None;
        case User => terminal, capacity := false, None;
        case Capacity => capacity := current;
        case Other =>
      }
      assert Readable(parse, lines[..i + 1]);
      assert Items(parse, lines[..i + 1])[..i] == Items(parse, lines[..i]);
      i := i + 1;
    }
    assert lines[..i] == lines;
    FoldIsRule(Items(parse, lines));
    r := Some(terminal);
  }

  /** The end of the log, from a line boundary on; nothing when its last line is unfinished. */
  function Tail(file: seq<byte>): Option<seq<byte>> {
    var offset := SaturatingSub(|file|, MAX_TAIL);
    var bytes := file[offset..];
    if bytes != [] && bytes[|bytes| - 1] != NEWLINE then None
    else if offset == 0 then Some(bytes)
    else
      var at := FirstNewline(bytes);
      if at.None? then None else Some(bytes[at.value + 1..])
  }

  /** Fill a buffer by positioned reads of any sizes, then cut it at a line; a read of nothing is a truncated file. */
  method ReadTail(file: seq<byte>, counts: nat -> nat) returns (r: Option<seq<byte>>)
    ensures r.Some? ==> r == Tail(file)
    ensures (forall i :: counts(i) > 0) ==> r == Tail(file)
  {
    var offset := SaturatingSub(|file|, MAX_TAIL);
    var size := |file| - offset;
    var buffer := new byte[size];
    var read, calls := 0, 0;
    while read < size
      invariant 0 <= read <= size
      invariant forall k :: 0 <= k < read ==> buffer[k] == file[offset + k]
    {
      var count := Min(counts(calls), size - read);
      calls := calls + 1;
      if count == 0 {
        return None;
      }
      forall k | read <= k < read + count {
        buffer[k] := file[offset + k];
      }
      read := read + count;
    }
    var bytes := buffer[..];
    assert bytes == file[offset..];
    if bytes != [] && bytes[|bytes| - 1] != NEWLINE {
      return None;
    }
    if offset > 0 {
      var at := FirstNewline(bytes);
      if at.None? {
        return None;
      }
      bytes := bytes[at.value + 1..];
    }
    r := Some(bytes);
  }

  /** `cut` is where a line of the file starts. */
  predicate LineStart(file: seq<byte>, cut: nat) {
    cut <= |file| && (cut == 0 || file[cut - 1] == NEWLINE)
  }

  lemma SplitAtLine(file: seq<byte>, cut: nat)
    requires LineStart(file, cut)
    ensures Complete([], file) == Complete([], file[..cut]) + Complete([], file[cut..])
  {
    hide Complete, Rest;
    CompleteConcat([], file[..cut], file[cut..]);
    assert file[..cut] + file[cut..] == file;
    if cut == 0 {
      assert Rest([], file[..cut]) == [] by { NoRest(file[..cut]); }
    } else {
      assert file[..cut][|file[..cut]| - 1] == NEWLINE;
      RestAfterNewline([], file[..cut]);
    }
  }

  lemma NoRest(b: seq<byte>)
    requires b == []
    ensures Rest([], b) == []
  {
  }

  /** The tail is a suffix of the file that starts where a line starts. */
  lemma TailIsAligned(file: seq<byte>) returns (cut: nat)
    requires Tail(file).Some?
    ensures LineStart(file, cut) && Tail(file).value == file[cut..]
  {
    var offset := SaturatingSub(|file|, MAX_TAIL);
    cut := if offset == 0 then 0 else offset + FirstNewline(file[offset..]).value + 1;
  }

  lemma ItemsConcat(parse: Parser, a: seq<seq<byte>>, b: seq<seq<byte>>)
    requires Readable(parse, a + b)
    ensures Readable(parse, a) && Readable(parse, b)
    ensures Items(parse, a + b) == Items(parse, a) + Items(parse, b)
  {
    assert forall i :: 0 <= i < |a| ==> a[i] == (a + b)[i];
    assert forall i :: 0 <= i < |b| ==> b[i] == (a + b)[|a| + i];
  }

  /** A tail holds no unfinished line, and its lines are the last lines of the file. */
  lemma TailRecords(file: seq<byte>) returns (dropped: seq<seq<byte>>)
    requires Tail(file).Some?
    ensures Records(file) == dropped + Records(Tail(file).value)
  {
    var cut := TailIsAligned(file);
    TailEnds(file);
    hide Complete, Rest, Tail;
    SplitAtLine(file, cut);
    dropped := Complete([], file[..cut]);
    var none: seq<seq<byte>> := [];
    assert Complete([], file) + none == Complete([], file);
    assert Complete([], file[cut..]) + none == Complete([], file[cut..]);
  }

  /** Neither the file nor its tail stops inside a line. */
  lemma TailEnds(file: seq<byte>)
    requires Tail(file).Some?
    ensures Rest([], file) == [] && Rest([], Tail(file).value) == []
  {
    var offset := SaturatingSub(|file|, MAX_TAIL);
    var bytes, tail := file[offset..], Tail(file).value;
    assert bytes != [] ==> file[|file| - 1] == NEWLINE;
    assert file != [] ==> bytes != [];
    assert tail != [] ==> tail[|tail| - 1] == bytes[|bytes| - 1];
    EndsClean(file);
    EndsClean(tail);
  }

  lemma EndsClean(b: seq<byte>)
    requires b != [] ==> b[|b| - 1] == NEWLINE
    ensures Rest([], b) == []
  {
    if b != [] {
      RestAfterNewline([], b);
    }
  }

  /**
   A block read from the tail stands whatever the lines before it say, readable or not; and
   where they can be read, it is the verdict on the whole file.
   */
  lemma TailNeverInvents(parse: Parser, file: seq<byte>)
    requires Tail(file).Some? && Readable(parse, Records(Tail(file).value))
    ensures var items := Items(parse, Records(Tail(file).value));
      EndsBlocked(items) ==>
        && (forall before: seq<Item> :: EndsBlocked(before + items))
        && (Readable(parse, Records(file)) ==> EndsBlocked(Items(parse, Records(file))))
  {
    hide EndsBlocked, Records, Tail, Readable;
    var dropped := TailRecords(file);
    var tail := Records(Tail(file).value);
    var items := Items(parse, tail);
    forall before: seq<Item> ensures EndsBlocked(items) ==> EndsBlocked(before + items) {
      SuffixNeverInvents(before, items);
    }
    if Readable(parse, Records(file)) {
      ItemsConcat(parse, dropped, tail);
    }
  }
}
