/** The shape of every reachable audit, read off the invariants of the ledger. */
module LedgerShape {
  import opened Ledger
  import opened Protocol
  import opened AtMostOnce
  import opened NoBlindRetry

  /** The ways one action can go. An audit may stop anywhere before the end of one. */
  const PROTOCOL: set<seq<Phase>> := {
    [Prepared, Failed],
    [Prepared, Begun, Failed],
    [Prepared, Begun, HumanRequired],
    [Prepared, Begun, Uncertain, HumanRequired],
    [Prepared, Begun, Sent, Succeeded],
    [Prepared, Begun, Sent, HumanRequired],
    [Prepared, Begun, Sent, Uncertain, HumanRequired],
    [Prepared, Begun, Sent, Verifying, Succeeded],
    [Prepared, Begun, Sent, Verifying, HumanRequired],
    [Prepared, Begun, Sent, Verifying, Uncertain, HumanRequired]}

  function Phases(h: seq<Record>): seq<Phase> {
    seq(|h|, i requires 0 <= i < |h| => h[i].phase)
  }

  /** `k` fills exactly the stretch `h[i..j]`, which only its last record may close. */
  predicate Fills(h: seq<Record>, k: string, i: int, j: int) {
    && 0 <= i < j <= |h|
    && (forall x :: 0 <= x < |h| ==> (h[x].key == k <==> i <= x < j))
    && (forall x :: i <= x < j - 1 ==> !Terminal(h[x].phase))
    && h[i].phase.Prepared?
  }

  ghost predicate OneStretch(h: seq<Record>, k: string) {
    exists i, j :: Fills(h, k, i, j)
  }

  ghost predicate StretchInProtocol(h: seq<Record>, k: string) {
    exists i, j, w :: Fills(h, k, i, j) && w in PROTOCOL && Phases(h[i..j]) <= w
  }

  /** The stretch of a key ends where the chain does, one record at a time. */
  lemma {:induction false} StretchOf(h: seq<Record>, k: string) returns (i: int, j: int)
    requires Chained(h) && HasKey(h, k)
    ensures Fills(h, k, i, j)
  {
    var n := |h| - 1;
    var g := h[..n];
    assert Chained(g) by {
      forall x | 0 <= x < n ensures Links(g, x) { assert Links(h, x) && g[..x] == h[..x]; }
    }
    assert Links(h, n);
    if HasKey(g, k) {
      i, j := StretchOf(g, k);
      if h[n].key == k {
        assert g[n - 1].key == k;
        j := j + 1;
      }
    } else {
      i, j := n, n + 1;
      assert forall y :: 0 <= y < n ==> g[y].key != k;
    }
  }

  lemma PathIsWord(w: seq<Phase>)
    requires w != [] && w[0].Prepared?
    requires forall x :: 0 < x < |w| ==> Follows(w[x - 1], w[x])
    ensures exists v :: v in PROTOCOL && w <= v
  {
    assert |w| > 1 ==> Follows(w[0], w[1]);
    assert |w| > 2 ==> Follows(w[1], w[2]);
    assert |w| > 3 ==> Follows(w[2], w[3]);
    assert |w| > 4 ==> Follows(w[3], w[4]);
    assert |w| > 5 ==> Follows(w[4], w[5]);
    assert |w| > 6 ==> Follows(w[5], w[6]);
    var v :=
      if |w| > 1 && w[1].Begun? then TailWord(w) else [Prepared, Failed];
    assert v in PROTOCOL && w <= v;
  }

  function TailWord(w: seq<Phase>): (v: seq<Phase>)
    requires |w| > 1
  {
    if |w| == 2 then [Prepared, Begun, Failed]
    else if w[2].Uncertain? then [Prepared, Begun, Uncertain, HumanRequired]
    else if !w[2].Sent? then [Prepared, Begun, w[2]]
    else if |w| == 3 then [Prepared, Begun, Sent, Succeeded]
    else if w[3].Uncertain? then [Prepared, Begun, Sent, Uncertain, HumanRequired]
    else if !w[3].Verifying? then [Prepared, Begun, Sent, w[3]]
    else if |w| == 4 then [Prepared, Begun, Sent, Verifying, Succeeded]
    else if w[4].Uncertain? then [Prepared, Begun, Sent, Verifying, Uncertain, HumanRequired]
    else [Prepared, Begun, Sent, Verifying, w[4]]
  }

  lemma OrderedStretch(h: seq<Record>, k: string)
    requires Chained(h) && Ordered(h) && HasKey(h, k)
    ensures StretchInProtocol(h, k)
  {
    var i, j := StretchOf(h, k);
    var w := Phases(h[i..j]);
    forall x | 0 < x < |w| ensures Follows(w[x - 1], w[x]) {
      assert w[x - 1] == h[i + x - 1].phase && w[x] == h[i + x].phase;
    }
    PathIsWord(w);
    var v :| v in PROTOCOL && w <= v;
    assert Fills(h, k, i, j) && v in PROTOCOL && Phases(h[i..j]) <= v;
  }

  // ----- main results

  /** In every reachable ledger each claimed key fills one stretch of one target's audit. */
  lemma {:induction false} EachKeyOneStretch(s: System, steps: seq<Step>, t: string, k: string)
    requires Initial(s) && Runs(s, steps)
    ensures var l := End(s, steps).memory;
            && (k in l.idempotency <==> exists u :: HasKey(History(l, u), k))
            && (HasKey(History(l, t), k) ==>
                  OneStretch(History(l, t), k) && forall u :: HasKey(History(l, u), k) ==> u == t)
  {
    ReachableLedgers(s, steps);
    var l := End(s, steps).memory;
    assert k in l.idempotency ==> Audited(l, k);
    if u :| HasKey(History(l, u), k) { assert Filed(History(l, u), u, l.idempotency); }
    if HasKey(History(l, t), k) { var i, j := StretchOf(History(l, t), k); }
  }

  /** A target is active exactly when its audit ends in an open record, which is the active one. */
  lemma {:induction false} ActiveIffOpen(s: System, steps: seq<Step>, t: string)
    requires Initial(s) && Runs(s, steps)
    ensures var l := End(s, steps).memory;
            && (t in l.active <==> Open(History(l, t)))
            && (t in l.active ==> l.active[t] == History(l, t)[|History(l, t)| - 1])
  {
    ReachableLedgers(s, steps);
    assert ActiveIsLast(End(s, steps).memory, t);
  }

  /** With a sound probe, the phases of every key are the beginning of a protocol word. */
  lemma {:induction false} PhasesFollowProtocol(s: System, steps: seq<Step>, t: string, k: string)
    requires Initial(s) && Runs(s, steps) && ProbeSound(s, steps)
    ensures HasKey(History(End(s, steps).memory, t), k) ==> StretchInProtocol(History(End(s, steps).memory, t), k)
    ensures HasKey(History(End(s, steps).disk, t), k) ==> StretchInProtocol(History(End(s, steps).disk, t), k)
  {
    InitialIsSound(s);
    RunIsSound(s, steps);
    var end := End(s, steps);
    if HasKey(History(end.memory, t), k) { OrderedStretch(History(end.memory, t), k); }
    if HasKey(History(end.disk, t), k) { OrderedStretch(History(end.disk, t), k); }
  }
}
