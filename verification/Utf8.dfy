/** UTF-8 as section 4 of RFC 3629 defines it: well-formed sequences, valid texts and their boundaries. */
module Utf8 {
  import opened Lines

  predicate Trail(b: byte) {
    0x80 <= b <= 0xbf
  }

  /** The length a lead byte announces; 0 for a byte that cannot lead. */
  function LeadLen(b: byte): nat {
    if b <= 0x7f then 1
    else if 0xc2 <= b <= 0xdf then 2
    else if 0xe0 <= b <= 0xef then 3
    else if 0xf0 <= b <= 0xf4 then 4
    else 0
  }

  /** The second bytes a lead byte allows: no overlong forms, no surrogates, nothing past U+10FFFF. */
  predicate SecondOk(lead: byte, b: byte) {
    && Trail(b)
    && (lead == 0xe0 ==> b >= 0xa0) && (lead == 0xed ==> b <= 0x9f)
    && (lead == 0xf0 ==> b >= 0x90) && (lead == 0xf4 ==> b <= 0x8f)
  }

  /** `b` is the beginning of some well-formed sequence, or all of it. */
  predicate Begins(b: seq<byte>) {
    && b != [] && |b| <= LeadLen(b[0])
    && (|b| > 1 ==> SecondOk(b[0], b[1]))
    && (|b| > 2 ==> Trail(b[2]))
    && (|b| > 3 ==> Trail(b[3]))
  }

  predicate Whole(b: seq<byte>) {
    Begins(b) && |b| == LeadLen(b[0])
  }

  /** The length of the well-formed sequence at the start of `b`; 0 when there is none. */
  function SeqLen(b: seq<byte>): (n: nat)
    ensures n <= |b| && n <= 4 && (n > 0 ==> Whole(b[..n]) && n == LeadLen(b[0]))
    ensures n == 0 ==> b == [] || LeadLen(b[0]) > |b| || !Whole(b[..LeadLen(b[0])])
  {
    if b == [] then 0
    else
      var n := LeadLen(b[0]);
      if n <= |b| && Whole(b[..n]) then n else 0
  }

  /** The scalar value a well-formed sequence encodes. */
  function ScalarOf(b: seq<byte>): nat
    requires Whole(b)
  {
    var lead: int, n := b[0], |b|;
    if n == 1 then lead
    else if n == 2 then (lead - 0xc0) * 64 + Low(b[1])
    else if n == 3 then (lead - 0xe0) * 4096 + Low(b[1]) * 64 + Low(b[2])
    else (lead - 0xf0) * 262144 + Low(b[1]) * 4096 + Low(b[2]) * 64 + Low(b[3])
  }

  /** The six bits a trailing byte carries. */
  function Low(b: byte): nat
    requires Trail(b)
  {
    b - 0x80
  }

  predicate Valid(b: seq<byte>)
    decreases |b|
  {
    b == [] || (SeqLen(b) > 0 && Valid(b[SeqLen(b)..]))
  }

  /** How far a text is valid: the length of its longest valid prefix. */
  function ValidUpTo(b: seq<byte>): (n: nat)
    ensures n <= |b|
    decreases |b|
  {
    if SeqLen(b) == 0 then 0 else SeqLen(b) + ValidUpTo(b[SeqLen(b)..])
  }

  lemma PrefixSplits(b: seq<byte>, n: nat, p: nat)
    requires n <= p <= |b|
    ensures b[..p] == b[..n] + b[n..][..p - n]
  {
  }

  lemma SeqLenExtends(a: seq<byte>, b: seq<byte>)
    requires SeqLen(a) > 0
    ensures SeqLen(a + b) == SeqLen(a)
  {
    assert (a + b)[..SeqLen(a)] == a[..SeqLen(a)];
  }

  lemma WholeIsValid(b: seq<byte>)
    requires Whole(b)
    ensures SeqLen(b) == |b| && Valid(b)
  {
    assert b[..|b|] == b;
    assert b[|b|..] == [];
  }

  lemma {:induction false} ValidConcat(a: seq<byte>, b: seq<byte>)
    requires Valid(a)
    ensures Valid(a + b) <==> Valid(b)
    decreases |a|
  {
    if a == [] {
      assert a + b == b;
    } else {
      var n := SeqLen(a);
      SeqLenExtends(a, b);
      assert (a + b)[n..] == a[n..] + b;
      ValidConcat(a[n..], b);
    }
  }

  lemma {:induction false} ValidUpToIsValid(b: seq<byte>)
    ensures Valid(b[..ValidUpTo(b)])
    decreases |b|
  {
    var n := SeqLen(b);
    if n > 0 {
      var v := ValidUpTo(b[n..]);
      ValidUpToIsValid(b[n..]);
      WholeIsValid(b[..n]);
      PrefixSplits(b, n, n + v);
      ValidConcat(b[..n], b[n..][..v]);
    }
  }

  lemma {:induction false} ValidUpToIsLongest(b: seq<byte>, k: nat)
    requires k <= |b| && Valid(b[..k])
    ensures k <= ValidUpTo(b)
    decreases |b|
  {
    if k > 0 {
      var n := SeqLen(b[..k]);
      assert b[..k] + b[k..] == b;
      SeqLenExtends(b[..k], b[k..]);
      assert b[..k][n..] == b[n..][..k - n];
      ValidUpToIsLongest(b[n..], k - n);
    }
  }

  /** In a valid text a prefix is valid exactly when it ends at a scalar boundary. */
  predicate Boundary(b: seq<byte>, p: nat) {
    p <= |b| && (p == |b| || !Trail(b[p]))
  }

  lemma {:induction false} BoundaryIffValid(b: seq<byte>, p: nat)
    requires Valid(b) && p <= |b|
    ensures Boundary(b, p) <==> Valid(b[..p])
    decreases |b|
  {
    if p == 0 {
    } else {
      var n := SeqLen(b);
      if p < n {
        CutInside(b, p);
      } else {
        BoundaryIffValid(b[n..], p - n);
        PrefixSplits(b, n, p);
        WholeIsValid(b[..n]);
        ValidConcat(b[..n], b[n..][..p - n]);
      }
    }
  }

  lemma CutInside(b: seq<byte>, p: nat)
    requires 0 < p < SeqLen(b)
    ensures Trail(b[p]) && !Valid(b[..p]) && Begins(b[..p])
  {
    var whole := b[..SeqLen(b)];
    assert whole[p] == b[p];
    assert b[..p][0] == b[0];
    assert SeqLen(b[..p]) == 0;
    assert forall i :: 0 <= i < p ==> b[..p][i] == whole[i];
  }

  lemma ValidUpToConcat(whole: seq<byte>, b: seq<byte>)
    requires Whole(whole)
    ensures ValidUpTo(whole + b) == |whole| + ValidUpTo(b)
  {
    WholeIsValid(whole);
    SeqLenExtends(whole, b);
    assert (whole + b)[|whole|..] == b;
  }

  /** A valid text followed by at most three bytes of an unfinished scalar. */
  predicate Cut(b: seq<byte>) {
    var v := ValidUpTo(b);
    |b| - v <= 3 && (v < |b| ==> Begins(b[v..]) && !Whole(b[v..]))
  }

  lemma CutConcat(whole: seq<byte>, b: seq<byte>)
    requires Whole(whole) && Cut(b)
    ensures Cut(whole + b)
  {
    hide ValidUpTo, Whole, Begins;
    ValidUpToConcat(whole, b);
    assert (whole + b)[|whole| + ValidUpTo(b)..] == b[ValidUpTo(b)..];
  }

  lemma {:induction false} PrefixOfValid(b: seq<byte>, p: nat)
    requires Valid(b) && p <= |b|
    ensures Cut(b[..p])
    decreases |b|
  {
    if p > 0 {
      var n := SeqLen(b);
      if p < n {
        CutInside(b, p);
        assert SeqLen(b[..p]) == 0;
        assert b[..p][0..] == b[..p];
      } else {
        PrefixOfValid(b[n..], p - n);
        PrefixSplits(b, n, p);
        hide Cut, SeqLen;
        CutConcat(b[..n], b[n..][..p - n]);
      }
    }
  }

  /** The first character of a text and what follows it. */
  lemma Uncons(b: seq<byte>) returns (w: seq<byte>, rest: seq<byte>)
    requires Valid(b) && b != []
    ensures b == w + rest && |rest| < |b| && Whole(w) && Valid(rest)
  {
    hide Whole;
    w, rest := b[..SeqLen(b)], b[SeqLen(b)..];
  }
}
