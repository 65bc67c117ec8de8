/**
 The durable action ledger: an append-only audit per target, the one active
 record per target, and the set of idempotency keys that were ever claimed.
 Each operation is a compare-and-swap on the whole ledger value; a refused
 operation yields no successor.
 */
module Ledger {
  import opened Wrappers
  import opened Evidence

  datatype Phase =
    | Prepared | Begun | Sent | Verifying
    | Succeeded | Failed | Uncertain | HumanRequired

  predicate Terminal(p: Phase) {
    p.Succeeded? || p.Failed? || p.HumanRequired?
  }

  /** Why a record was written. */
  datatype Reason =
    | Confirmed
    | CommitBoundary
    | ExecutorCompleted
    | PollingOutcomes
    | NonInputCompleted
    | OutcomeVerified
    | RestartBeforeSideEffect
    | RestartAfterCommit
    | LeaseExpired
    | Rejected(error: TransactionError)
    | Unsure(cause: Cause)
    | NeedsReview(cause: Cause)

  datatype Owner = Owner(pid: nat, startTime: nat, nonce: string)

  datatype Record = Record(
    actionId: string,
    key: string,
    target: string,
    identity: string,
    fingerprint: string,
    owner: Owner,
    preparedAt: nat,
    leaseDeadline: nat,
    phase: Phase,
    reason: Reason,
    snapshot: string,
    output: Option<string>)
  {
    function Next(p: Phase, why: Reason): Record {
      this.(phase := p, reason := why)
    }
  }

  datatype Ledger = Ledger(
    audit: map<string, seq<Record>>,
    active: map<string, Record>,
    idempotency: set<string>)

  const EMPTY := Ledger(map[], map[], {})

  function History(l: Ledger, t: string): seq<Record> {
    if t in l.audit then l.audit[t] else []
  }

  // ----- operations

  datatype Op =
    | Claim(target: string, record: Record)
    | Append(target: string, record: Record)
    | Escalate(target: string, record: Record, cause: Cause)

  predicate Claimable(l: Ledger, t: string, r: Record) {
    t !in l.active && r.key !in l.idempotency
  }

  predicate Holds(l: Ledger, t: string, r: Record) {
    t in l.active && l.active[t].key == r.key && l.active[t].actionId == r.actionId
  }

  function Claimed(l: Ledger, t: string, r: Record): Ledger {
    Ledger(l.audit[t := History(l, t) + [r]], l.active[t := r], l.idempotency + {r.key})
  }

  function Appended(l: Ledger, t: string, r: Record): Ledger {
    Ledger(
      l.audit[t := History(l, t) + [r]],
      if Terminal(r.phase) then l.active - {t} else l.active[t := r],
      l.idempotency)
  }

  function Escalation(r: Record, why: Cause): seq<Record> {
    var uncertain := r.Next(Uncertain, Unsure(why));
    [uncertain, uncertain.Next(HumanRequired, NeedsReview(why))]
  }

  function Escalated(l: Ledger, t: string, r: Record, why: Cause): Ledger {
    Ledger(l.audit[t := History(l, t) + Escalation(r, why)], l.active - {t}, l.idempotency)
  }

  predicate Accepts(l: Ledger, op: Op) {
    match op
    case Claim(t, r) => Claimable(l, t, r)
    case Append(t, r) => Holds(l, t, r)
    case Escalate(t, r, _) => Holds(l, t, r)
  }

  /** The ledger value an accepted operation asks the store to write. */
  function After(l: Ledger, op: Op): Ledger {
    match op
    case Claim(t, r) => Claimed(l, t, r)
    case Append(t, r) => Appended(l, t, r)
    case Escalate(t, r, why) => Escalated(l, t, r, why)
  }

  function Added(op: Op): seq<Record> {
    match op
    case Claim(_, r) => [r]
    case Append(_, r) => [r]
    case Escalate(_, r, why) => Escalation(r, why)
  }

  // ----- well-formed ledgers

  predicate HasKey(h: seq<Record>, k: string) {
    exists i :: 0 <= i < |h| && h[i].key == k
  }

  /** Entry `i` either opens a fresh key after a closed one, or continues the open key. */
  predicate Links(h: seq<Record>, i: int)
    requires 0 <= i < |h|
  {
    if i == 0 || Terminal(h[i - 1].phase) then
      h[i].phase.Prepared? && !HasKey(h[..i], h[i].key)
    else
      !h[i].phase.Prepared? && h[i].key == h[i - 1].key && h[i].actionId == h[i - 1].actionId
  }

  predicate Chained(h: seq<Record>) {
    forall i :: 0 <= i < |h| ==> Links(h, i)
  }

  predicate Open(h: seq<Record>) {
    h != [] && !Terminal(h[|h| - 1].phase)
  }

  /** A target is active exactly while its audit is open, and then holds its last record. */
  predicate ActiveIsLast(l: Ledger, t: string) {
    var h := History(l, t);
    if t in l.active then Open(h) && l.active[t] == h[|h| - 1] else !Open(h)
  }

  /** Every audited record names its own target and a claimed key. */
  predicate Filed(h: seq<Record>, t: string, keys: set<string>) {
    forall i :: 0 <= i < |h| ==> h[i].target == t && h[i].key in keys
  }

  ghost predicate Audited(l: Ledger, k: string) {
    exists t :: HasKey(History(l, t), k)
  }

  ghost predicate Covered(l: Ledger) {
    forall k {:trigger Audited(l, k)} :: k in l.idempotency ==> Audited(l, k)
  }

  /** A key lives in the audit of one target only. */
  ghost predicate OneHome(l: Ledger) {
    forall t, u, k :: HasKey(History(l, t), k) && HasKey(History(l, u), k) ==> t == u
  }

  ghost predicate WellFormed(l: Ledger) {
    && (forall t :: Chained(History(l, t)))
    && (forall t :: ActiveIsLast(l, t))
    && (forall t :: Filed(History(l, t), t, l.idempotency))
    && Covered(l)
    && OneHome(l)
  }

  /** What callers of the ledger hand it: records of the named target, opened with Prepared. */
  predicate Proper(op: Op) {
    && op.record.target == op.target
    && (op.Claim? ==> op.record.phase.Prepared?)
    && (op.Append? ==> !op.record.phase.Prepared?)
  }

  lemma HasKeyAppend(h: seq<Record>, r: Record)
    ensures forall k :: HasKey(h + [r], k) <==> HasKey(h, k) || r.key == k
  {
    var g := h + [r];
    forall k ensures HasKey(g, k) <==> HasKey(h, k) || r.key == k {
      if HasKey(h, k) {
        var i :| 0 <= i < |h| && h[i].key == k;
        assert g[i].key == k;
      }
      if r.key == k { assert g[|h|].key == k; }
    }
  }

  lemma ChainedAppend(h: seq<Record>, r: Record)
    requires Chained(h)
    requires Open(h) ==> !r.phase.Prepared? && r.key == h[|h| - 1].key && r.actionId == h[|h| - 1].actionId
    requires !Open(h) ==> r.phase.Prepared? && !HasKey(h, r.key)
    ensures Chained(h + [r])
  {
    var g := h + [r];
    forall i | 0 <= i < |g| ensures Links(g, i) {
      if i < |h| {
        assert Links(h, i);
        assert g[..i] == h[..i];
      } else {
        assert g[..i] == h;
      }
    }
  }

  /** `m` extends the audit of `t` by the one record `r`. */
  ghost predicate Grown(l: Ledger, m: Ledger, t: string, r: Record) {
    forall u :: History(m, u) == if u == t then History(l, t) + [r] else History(l, u)
  }

  lemma GrownKeys(l: Ledger, m: Ledger, t: string, r: Record)
    requires Grown(l, m, t, r)
    ensures forall u, k :: HasKey(History(m, u), k) <==> HasKey(History(l, u), k) || (u == t && k == r.key)
  {
    HasKeyAppend(History(l, t), r);
  }

  lemma GrownCovered(l: Ledger, m: Ledger, t: string, r: Record)
    requires Grown(l, m, t, r) && Covered(l)
    requires m.idempotency == l.idempotency + {r.key}
    ensures Covered(m)
  {
    GrownKeys(l, m, t, r);
    forall k | k in m.idempotency ensures Audited(m, k) {
      if k == r.key {
        assert HasKey(History(m, t), r.key);
      } else {
        assert Audited(l, k);
        var u :| HasKey(History(l, u), k);
        assert HasKey(History(m, u), k);
      }
    }
  }

  lemma GrownOneHome(l: Ledger, m: Ledger, t: string, r: Record)
    requires Grown(l, m, t, r) && OneHome(l)
    requires forall u :: HasKey(History(l, u), r.key) ==> u == t
    ensures OneHome(m)
  {
    GrownKeys(l, m, t, r);
  }

  lemma GrownFiled(l: Ledger, m: Ledger, t: string, r: Record, u: string)
    requires Grown(l, m, t, r) && Filed(History(l, u), u, l.idempotency)
    requires m.idempotency == l.idempotency + {r.key} && r.target == t
    ensures Filed(History(m, u), u, m.idempotency)
  {
  }

  lemma GrownActive(l: Ledger, m: Ledger, t: string, r: Record, u: string)
    requires Grown(l, m, t, r) && ActiveIsLast(l, u)
    requires m.active == if Terminal(r.phase) then l.active - {t} else l.active[t := r]
    ensures ActiveIsLast(m, u)
  {
  }

  lemma GrownWellFormed(l: Ledger, m: Ledger, t: string, r: Record)
    requires WellFormed(l) && Grown(l, m, t, r) && r.target == t
    requires m.active == if Terminal(r.phase) then l.active - {t} else l.active[t := r]
    requires m.idempotency == l.idempotency + {r.key}
    requires forall u :: HasKey(History(l, u), r.key) ==> u == t
    requires Chained(History(l, t) + [r])
    ensures WellFormed(m)
  {
    forall u ensures ActiveIsLast(m, u) { GrownActive(l, m, t, r, u); }
    GrownCovered(l, m, t, r);
    GrownOneHome(l, m, t, r);
    forall u ensures Filed(History(m, u), u, m.idempotency) { GrownFiled(l, m, t, r, u); }
  }

  lemma Unclaimed(l: Ledger, k: string, u: string)
    requires WellFormed(l) && k !in l.idempotency
    ensures !HasKey(History(l, u), k)
  {
    assert Filed(History(l, u), u, l.idempotency);
  }

  lemma ClaimKeepsWellFormed(l: Ledger, t: string, r: Record)
    requires WellFormed(l) && Claimable(l, t, r) && Proper(Claim(t, r))
    ensures WellFormed(Claimed(l, t, r))
  {
    var m := Claimed(l, t, r);
    forall u ensures !HasKey(History(l, u), r.key) { Unclaimed(l, r.key, u); }
    assert ActiveIsLast(l, t);
    ChainedAppend(History(l, t), r);
    assert Grown(l, m, t, r);
    GrownWellFormed(l, m, t, r);
  }

  lemma AppendKeepsWellFormed(l: Ledger, t: string, r: Record)
    requires WellFormed(l) && Holds(l, t, r) && Proper(Append(t, r))
    ensures WellFormed(Appended(l, t, r))
  {
    var m := Appended(l, t, r);
    var h := History(l, t);
    assert ActiveIsLast(l, t);
    assert HasKey(h, r.key);
    assert Filed(h, t, l.idempotency);
    assert m.idempotency == l.idempotency + {r.key};
    ChainedAppend(h, r);
    assert Grown(l, m, t, r);
    GrownWellFormed(l, m, t, r);
  }

  lemma EscalatedAsAppends(l: Ledger, t: string, r: Record, why: Cause)
    ensures var e := Escalation(r, why);
            Escalated(l, t, r, why) == Appended(Appended(l, t, e[0]), t, e[1])
  {
    var e := Escalation(r, why);
    var m := Appended(l, t, e[0]);
    assert History(m, t) == History(l, t) + [e[0]];
    assert History(l, t) + [e[0]] + [e[1]] == History(l, t) + e;
  }

  /** Every accepted operation takes a well-formed ledger to a well-formed ledger. */
  lemma AfterKeepsWellFormed(l: Ledger, op: Op)
    requires WellFormed(l) && Accepts(l, op) && Proper(op)
    ensures WellFormed(After(l, op))
  {
    match op
    case Claim(t, r) => ClaimKeepsWellFormed(l, t, r);
    case Append(t, r) => AppendKeepsWellFormed(l, t, r);
    case Escalate(t, r, why) =>
      var e := Escalation(r, why);
      AppendKeepsWellFormed(l, t, e[0]);
      AppendKeepsWellFormed(Appended(l, t, e[0]), t, e[1]);
      EscalatedAsAppends(l, t, r, why);
  }

  lemma AfterHistory(l: Ledger, op: Op, u: string)
    ensures History(After(l, op), u) ==
            if u == op.target then History(l, u) + Added(op) else History(l, u)
  {
  }

  // ----- consequences

  /** Between two records of one key every record is of that key, and open. */
  lemma {:induction false} KeyRun(h: seq<Record>, i: int, k: int)
    requires Chained(h) && 0 <= i <= k < |h| && h[i].key == h[k].key
    ensures forall j :: i <= j < k ==> h[j].key == h[i].key && h[j].actionId == h[k].actionId && !Terminal(h[j].phase)
    decreases k
  {
    if i < k {
      assert Links(h, k);
      assert h[..k][i].key == h[k].key;
      KeyRun(h, i, k - 1);
    }
  }

  lemma ActiveKeyOpen(l: Ledger, t: string, u: string, i: int)
    requires WellFormed(l) && t in l.active
    requires 0 <= i < |History(l, u)| && History(l, u)[i].key == l.active[t].key
    ensures u == t && !Terminal(History(l, u)[i].phase)
  {
    assert ActiveIsLast(l, t);
    var h := History(l, t);
    assert HasKey(h, l.active[t].key);
    assert HasKey(History(l, u), l.active[t].key);
    assert Chained(h);
    KeyRun(h, i, |h| - 1);
  }
}
