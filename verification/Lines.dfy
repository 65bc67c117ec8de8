/** Bytes cut into lines at newlines, in one piece or in many. */
module Lines {
  import opened Wrappers

  type byte = b: int | 0 <= b < 256

  const NEWLINE: byte := 10

  /** The non-empty lines that newlines in `b` end, when `open` precedes it. */
  function Complete(open: seq<byte>, b: seq<byte>): seq<seq<byte>>
    decreases |b|
  {
    if b == [] then []
    else if b[0] == NEWLINE then (if open == [] then [] else [open]) + Complete([], b[1..])
    else Complete(open + [b[0]], b[1..])
  }

  /** What follows the last newline. */
  function Rest(open: seq<byte>, b: seq<byte>): seq<byte>
    decreases |b|
  {
    if b == [] then open
    else if b[0] == NEWLINE then Rest([], b[1..])
    else Rest(open + [b[0]], b[1..])
  }

  /** Cutting a stream in two anywhere finds the same lines. */
  lemma {:induction false} CompleteConcat(open: seq<byte>, a: seq<byte>, b: seq<byte>)
    ensures Complete(open, a + b) == Complete(open, a) + Complete(Rest(open, a), b)
    ensures Rest(open, a + b) == Rest(Rest(open, a), b)
    decreases |a|
  {
    if a == [] {
      assert a + b == b;
    } else {
      assert (a + b)[0] == a[0] && (a + b)[1..] == a[1..] + b;
      CompleteConcat(if a[0] == NEWLINE then [] else open + [a[0]], a[1..], b);
    }
  }

  lemma {:induction false} RestAfterNewline(open: seq<byte>, b: seq<byte>)
    requires b != [] && b[|b| - 1] == NEWLINE
    ensures Rest(open, b) == []
    decreases |b|
  {
    if |b| > 1 {
      assert b[1..][|b[1..]| - 1] == NEWLINE;
      RestAfterNewline(if b[0] == NEWLINE then [] else open + [b[0]], b[1..]);
    }
  }

  /** A line is at most as long as the text it comes from, and holds no newline. */
  predicate Plain(line: seq<byte>) {
    NEWLINE !in line
  }

  lemma {:induction false} LinesArePlain(open: seq<byte>, b: seq<byte>)
    requires Plain(open)
    ensures Plain(Rest(open, b))
    ensures forall i :: 0 <= i < |Complete(open, b)| ==> Complete(open, b)[i] != [] && Plain(Complete(open, b)[i])
    decreases |b|
  {
    if b != [] {
      LinesArePlain(if b[0] == NEWLINE then [] else open + [b[0]], b[1..]);
    }
  }

  function FirstNewline(b: seq<byte>): (r: Option<nat>)
    ensures r.None? <==> NEWLINE !in b
    ensures r.Some? ==> r.value < |b| && b[r.value] == NEWLINE && NEWLINE !in b[..r.value]
  {
    if b == [] then None
    else if b[0] == NEWLINE then Some(0)
    else
      var r := FirstNewline(b[1..]);
      if r.None? then None else assert b[..r.value + 1] == [b[0]] + b[1..][..r.value]; Some(r.value + 1)
  }
}
