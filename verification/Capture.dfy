/** Capturing the end of a pane: a bounded reader with a little lookahead, cut back to whole characters. */
module Capture {
  import opened Wrappers
  import opened Lines
  import opened Utf8

  const LOOKAHEAD := 3
  const SENTINEL := 1
  const BUFFER := 8192

  /** The longest prefix of `s` within `max` bytes that is whole characters. */
  ghost predicate Longest(s: seq<byte>, max: nat, p: nat) {
    && p <= |s| && p <= max && Valid(s[..p])
    && forall q :: p < q <= |s| && q <= max ==> !Valid(s[..q])
  }

  /** The text stops in the middle of a character, and is otherwise valid. */
  predicate Unfinished(b: seq<byte>) {
    var v := ValidUpTo(b);
    v < |b| && Begins(b[v..]) && !Whole(b[v..])
  }

  /** Drain a stream that arrives in reads of any size, keeping one byte more than the limit. */
  method ReadBounded(stream: seq<byte>, limit: nat, sizes: nat -> nat) returns (result: seq<byte>)
    ensures result == stream[..Min(|stream|, limit + SENTINEL)]
  {
    result := [];
    var at, calls := 0, 0;
    while at < |stream|
      invariant 0 <= at <= |stream|
      invariant result == stream[..Min(at, limit + SENTINEL)]
    {
      var read := Min(Min(sizes(calls), BUFFER - 1) + 1, |stream| - at);
      var buffer := stream[at..at + read];
      calls := calls + 1;
      if |result| <= limit {
        var remaining := SaturatingSub(limit + SENTINEL, |result|);
        result := result + buffer[..Min(read, remaining)];
      }
      at := at + read;
    }
  }

  method Truncate(output: seq<byte>, max: nat) returns (r: Result<(seq<byte>, nat, bool), ()>)
    ensures r.Err? <==> !Valid(output) && !(Unfinished(output) && ValidUpTo(output) >= max && |output| > max)
    ensures r.Ok? ==>
      && r.value.1 <= |output| && r.value.0 == output[..r.value.1]
      && r.value.2 == (|output| > max)
      && Longest(output, max, r.value.1)
  {
    var valid := output;
    if !Valid(output) {
      var upTo := ValidUpTo(output);
      if Unfinished(output) && upTo >= max && |output| > max {
        valid := output[..upTo];
        ValidUpToIsValid(output);
      } else {
        return Err(());
      }
    }
    hide Valid, ValidUpTo;
    var boundary := Min(|valid|, max);
    while !Boundary(valid, boundary)
      invariant 0 <= boundary <= Min(|valid|, max)
      invariant forall q :: boundary < q <= Min(|valid|, max) ==> !Boundary(valid, q)
      decreases boundary
    {
      assert boundary > 0 by { StartsWhole(valid); }
      boundary := boundary - 1;
    }
    forall q | 0 <= q <= Min(|valid|, max) ensures Valid(output[..q]) <==> Boundary(valid, q) {
      BoundaryIffValid(valid, q);
      assert output[..q] == valid[..q];
    }
    r := Ok((valid[..boundary], boundary, |output| > max));
  }

  lemma StartsWhole(b: seq<byte>)
    requires Valid(b)
    ensures Boundary(b, 0)
  {
  }

  /** What the reader lets through of a stream: the bound, three bytes to finish a character, and one to tell more came. */
  function Window(stream: seq<byte>, max: nat): seq<byte> {
    stream[..Min(|stream|, max + 4)]
  }

  /** The bytes are not UTF-8, and that is not only because they were cut behind the bound. */
  predicate Broken(b: seq<byte>, max: nat) {
    !Valid(b) && !(Unfinished(b) && ValidUpTo(b) >= max && |b| > max)
  }

  /**
   For every valid output stream the capture is its longest whole-character prefix within
   the bound, never an error, and says it was cut exactly when the stream is longer. A
   bound of nothing is answered without running the command.
   */
  method CaptureTail(stream: seq<byte>, lines: nat, max: nat, sizes: nat -> nat)
    returns (r: Result<(seq<byte>, nat, bool), ()>)
    ensures Valid(stream) ==> r.Ok?
    ensures r.Err? <==> lines > 0 && max > 0 && Broken(Window(stream, max), max)
    ensures r.Ok? && lines > 0 && max > 0 ==>
      && r.value.1 <= |stream| && r.value.0 == stream[..r.value.1]
      && Longest(stream, max, r.value.1)
      && r.value.2 == (|stream| > max)
    ensures lines == 0 || max == 0 ==> r == Ok(([], 0, false))
  {
    if lines == 0 || max == 0 {
      return Ok(([], 0, false));
    }
    var output := ReadBounded(stream, max + LOOKAHEAD, sizes);
    assert output == Window(stream, max);
    r := Truncate(output, max);
    if Valid(stream) {
      PrefixOfValid(stream, |output|);
      assert output == stream[..|output|];
      if !Valid(output) {
        AllValid(output);
        assert |output| < |stream| by { assert stream[..|stream|] == stream; }
        assert Unfinished(output) && ValidUpTo(output) >= max;
      }
    }
    hide Valid, ValidUpTo, Broken;
    forall q | 0 <= q <= |stream| && q <= max ensures q <= |output| && output[..q] == stream[..q] {
    }
  }

  lemma AllValid(b: seq<byte>)
    requires !Valid(b)
    ensures ValidUpTo(b) < |b|
  {
    ValidUpToIsValid(b);
    assert b[..|b|] == b;
  }
}
