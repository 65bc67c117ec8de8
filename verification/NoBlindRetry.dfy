/**
 Once something may have been typed, the ledger never says it failed. Assuming the
 process probe recognises the live owner, the audit of every key follows the protocol's
 phase order, and after an attempted send only success or a human hand-off can close it.
 */
module NoBlindRetry {
  import opened Evidence
  import opened Ledger
  import opened Protocol
  import opened AtMostOnce

  // ----- phase order

  predicate Follows(p: Phase, q: Phase) {
    match p
    case Prepared => q.Failed? || q.Begun?
    case Begun => q.Failed? || q.Sent? || q.Uncertain? || q.HumanRequired?
    case Sent => q.Succeeded? || q.Verifying? || q.Uncertain? || q.HumanRequired?
    case Verifying => q.Succeeded? || q.Uncertain? || q.HumanRequired?
    case Uncertain => q.HumanRequired?
    case _ => false
  }

  predicate Ordered(h: seq<Record>) {
    forall i :: 0 < i < |h| && !Terminal(h[i - 1].phase) ==> Follows(h[i - 1].phase, h[i].phase)
  }

  predicate HasPhase(h: seq<Record>, k: string, p: Phase) {
    exists i :: 0 <= i < |h| && h[i].key == k && h[i].phase == p
  }

  // ----- what a send attempt commits the ledger to

  predicate SendLogged(log: seq<Entry>, k: string) {
    exists i :: 0 <= i < |log| && log[i].SendAttempted? && log[i].key == k
  }

  ghost predicate NeverFailed(l: Ledger, k: string) {
    forall t :: !HasPhase(History(l, t), k, Failed)
  }

  ghost predicate PastBoundary(l: Ledger, k: string) {
    exists t :: HasPhase(History(l, t), k, Begun)
  }

  ghost predicate LedgerSound(l: Ledger, log: seq<Entry>) {
    && (forall t :: Ordered(History(l, t)))
    && (forall k :: SendLogged(log, k) ==> NeverFailed(l, k) && PastBoundary(l, k))
  }

  /** The phases in which a transaction's active record can be while it stands at `pc`. */
  predicate Stands(pc: Pc, p: Phase) {
    match pc
    case Confirming => p.Prepared?
    case Beginning => p.Prepared?
    case Ready => p.Begun?
    case Executing(_) => p.Begun?
    case Recording(_) => p.Begun?
    case Receipting(_) => p.Sent?
    case StartingPoll => p.Sent?
    case Polling => p.Verifying?
    case Completing(_) => p.Sent? || p.Verifying?
    case Rejecting(_) => p.Prepared? || p.Begun?
    case Escalating(_) => p.Begun? || p.Sent? || p.Verifying?
    case _ => true
  }

  predicate MaySend(pc: Pc) {
    Unspent(pc) || pc.Executing?
  }

  ghost predicate ThreadSound(th: Thread, l: Ledger, disk: Ledger, owner: Owner, log: seq<Entry>) {
    && th.record.owner == owner
    && (Owns(th.pc) ==>
          && Holds(l, th.record.target, th.record)
          && l.active[th.record.target].owner == owner
          && l.active[th.record.target].phase == th.record.phase
          && Stands(th.pc, th.record.phase))
    && (MaySend(th.pc) ==> NeverFailed(disk, th.record.key))
    && (th.pc.Executing? ==>
          InvokedKey(log, th.record.key) && (th.pc.attempted <==> SendLogged(log, th.record.key)))
    && (th.pc.Rejecting? ==> !SendLogged(log, th.record.key))
  }

  ghost predicate ScanSound(scan: Scan, l: Ledger, owner: Owner) {
    && scan.record.owner != owner
    && scan.record.key in l.idempotency
    && (Holds(l, scan.target, scan.record) ==> l.active[scan.target] == scan.record)
  }

  predicate LogSound(log: seq<Entry>) {
    forall i :: 0 <= i < |log| && log[i].SendAttempted? ==> InvokedKey(log, log[i].key)
  }

  ghost predicate Sound(s: System) {
    && Safe(s)
    && LedgerSound(s.memory, s.log) && LedgerSound(s.disk, s.log)
    && (forall tid :: tid in s.threads ==> ThreadSound(s.threads[tid], s.memory, s.disk, s.owner, s.log))
    && (forall sid :: sid in s.scans ==> ScanSound(s.scans[sid], s.memory, s.owner))
    && LogSound(s.log)
  }

  // ----- operations on one history

  lemma HasPhaseConcat(h: seq<Record>, g: seq<Record>, k: string, p: Phase)
    ensures HasPhase(h + g, k, p) <==> HasPhase(h, k, p) || HasPhase(g, k, p)
  {
    var hg := h + g;
    if HasPhase(h, k, p) {
      var i :| 0 <= i < |h| && h[i].key == k && h[i].phase == p;
      assert hg[i].key == k && hg[i].phase == p;
    }
    if HasPhase(g, k, p) {
      var i :| 0 <= i < |g| && g[i].key == k && g[i].phase == p;
      assert hg[|h| + i].key == k && hg[|h| + i].phase == p;
    }
    if HasPhase(hg, k, p) {
      var i :| 0 <= i < |hg| && hg[i].key == k && hg[i].phase == p;
      if i < |h| { assert h[i].key == k; } else { assert g[i - |h|].key == k; }
    }
  }

  /** An operation adds nothing under a key other than its record's. */
  lemma AfterHasPhase(l: Ledger, op: Op, t: string, k: string, p: Phase)
    ensures HasPhase(History(After(l, op), t), k, p)
            ==> HasPhase(History(l, t), k, p) || HasPhase(Added(op), k, p)
    ensures HasPhase(History(l, t), k, p) ==> HasPhase(History(After(l, op), t), k, p)
  {
    AfterHistory(l, op, t);
    HasPhaseConcat(History(l, t), Added(op), k, p);
  }

  lemma AddedKey(op: Op, k: string, p: Phase)
    ensures HasPhase(Added(op), k, p) ==> op.record.key == k
    ensures !op.Escalate? && HasPhase(Added(op), k, p) ==> op.record.phase == p
    ensures op.Escalate? ==> !HasPhase(Added(op), k, Failed)
  {
  }

  lemma NeverFailedAfter(l: Ledger, op: Op, k: string)
    requires NeverFailed(l, k)
    requires op.record.key != k || op.Escalate? || !op.record.phase.Failed?
    ensures NeverFailed(After(l, op), k)
  {
    AddedKey(op, k, Failed);
    forall t ensures !HasPhase(History(After(l, op), t), k, Failed) {
      AfterHasPhase(l, op, t, k, Failed);
    }
  }

  lemma PastBoundaryAfter(l: Ledger, op: Op, k: string)
    requires PastBoundary(l, k)
    ensures PastBoundary(After(l, op), k)
  {
    var t :| HasPhase(History(l, t), k, Begun);
    AfterHasPhase(l, op, t, k, Begun);
  }

  lemma OrderedAfter(l: Ledger, op: Op, t: string)
    requires WellFormed(l) && Accepts(l, op) && Proper(op)
    requires Ordered(History(l, t))
    requires !op.Claim? ==> Follows(l.active[op.target].phase, Added(op)[0].phase)
    ensures Ordered(History(After(l, op), t))
  {
    AfterHistory(l, op, t);
    assert ActiveIsLast(l, op.target);
  }

  lemma LedgerSoundAfter(l: Ledger, op: Op, log: seq<Entry>)
    requires WellFormed(l) && LedgerSound(l, log) && Accepts(l, op) && Proper(op)
    requires !op.Claim? ==> Follows(l.active[op.target].phase, Added(op)[0].phase)
    requires SendLogged(log, op.record.key) ==> op.Escalate? || !op.record.phase.Failed?
    ensures LedgerSound(After(l, op), log)
  {
    forall t ensures Ordered(History(After(l, op), t)) { OrderedAfter(l, op, t); }
    forall k | SendLogged(log, k) ensures NeverFailed(After(l, op), k) && PastBoundary(After(l, op), k) {
      NeverFailedAfter(l, op, k);
      PastBoundaryAfter(l, op, k);
    }
  }

  lemma ActiveNeverFailed(l: Ledger, t: string)
    requires WellFormed(l) && t in l.active
    ensures NeverFailed(l, l.active[t].key)
  {
    var k := l.active[t].key;
    forall u ensures !HasPhase(History(l, u), k, Failed) {
      if HasPhase(History(l, u), k, Failed) {
        var i :| 0 <= i < |History(l, u)| && History(l, u)[i].key == k && History(l, u)[i].phase == Failed;
        ActiveKeyOpen(l, t, u, i);
      }
    }
  }

  lemma PreparedIsAlone(l: Ledger, t: string, u: string, i: int)
    requires WellFormed(l) && t in l.active && l.active[t].phase.Prepared?
    requires 0 <= i < |History(l, u)| && History(l, u)[i].key == l.active[t].key
    ensures History(l, u)[i].phase.Prepared?
  {
    ActiveKeyOpen(l, t, u, i);
    var h := History(l, t);
    assert ActiveIsLast(l, t);
    assert i < |h| - 1 ==> HasKey(h[..|h| - 1], h[|h| - 1].key) by {
      if i < |h| - 1 { assert h[..|h| - 1][i].key == h[|h| - 1].key; }
    }
    assert Chained(h) && Links(h, |h| - 1);
  }

  /** A key with a logged send is past the commit boundary, so it is not merely prepared. */
  lemma PreparedNotSent(l: Ledger, t: string, log: seq<Entry>)
    requires WellFormed(l) && LedgerSound(l, log) && t in l.active && l.active[t].phase.Prepared?
    ensures !SendLogged(log, l.active[t].key)
  {
    var k := l.active[t].key;
    if SendLogged(log, k) {
      var u :| HasPhase(History(l, u), k, Begun);
      var i :| 0 <= i < |History(l, u)| && History(l, u)[i].key == k && History(l, u)[i].phase == Begun;
      PreparedIsAlone(l, t, u, i);
    }
  }

  // ----- bystanders of a write

  lemma BystanderThread(th: Thread, l: Ledger, disk: Ledger, owner: Owner, log: seq<Entry>, op: Op, w: Write)
    requires WellFormed(l) && ThreadSound(th, l, disk, owner, log) && Proper(op)
    requires Owns(th.pc) ==> th.record.key != op.record.key
    ensures ThreadSound(th, MemoryAfter(l, op, w), DiskAfter(l, disk, op, w), owner, log)
  {
    if Owns(th.pc) && Accepts(l, op) {
      assert op.target != th.record.target;
      ActiveNeverFailed(l, th.record.target);
      NeverFailedAfter(l, op, th.record.key);
    }
  }

  lemma BystanderScan(scan: Scan, l: Ledger, owner: Owner, op: Op, w: Write)
    requires ScanSound(scan, l, owner) && Proper(op)
    requires op.Append? && !Terminal(op.record.phase) && Accepts(l, op) ==> l.active[op.target].owner == owner
    ensures ScanSound(scan, MemoryAfter(l, op, w), owner)
  {
  }

  // ----- a transaction's own write

  lemma OwnOpOrder(th: Thread, l: Ledger, disk: Ledger, owner: Owner, log: seq<Entry>)
    requires Writes(th.pc) && ThreadOk(th) && ThreadSound(th, l, disk, owner, log)
    requires Accepts(l, OpOf(th))
    ensures var op := OpOf(th);
            && (!op.Claim? ==> Follows(l.active[op.target].phase, Added(op)[0].phase))
            && (SendLogged(log, op.record.key) ==> op.Escalate? || !op.record.phase.Failed?)
            && op.record.key == th.record.key
            && (op.Append? ==> l.active[op.target].owner == owner)
  {
  }

  lemma OwnThread(th: Thread, l: Ledger, disk: Ledger, owner: Owner, log: seq<Entry>, w: Write)
    requires WellFormed(l) && Writes(th.pc) && ThreadOk(th) && ThreadSound(th, l, disk, owner, log)
    ensures ThreadSound(AfterWrite(th, l, w), MemoryAfter(l, OpOf(th), w), DiskAfter(l, disk, OpOf(th), w), owner, log)
  {
    var op := OpOf(th);
    if Acknowledged(l, op, w) && (th.pc.Claiming? || th.pc.Beginning?) {
      ThreadOpProper(th);
      AfterKeepsWellFormed(l, op);
      ActiveNeverFailed(After(l, op), op.target);
    }
  }

  // ----- every step keeps the invariant

  lemma LedgersSoundAfter(l: Ledger, disk: Ledger, op: Op, w: Write, log: seq<Entry>)
    requires WellFormed(l) && LedgerSound(l, log) && LedgerSound(disk, log) && Proper(op)
    requires Accepts(l, op) && !op.Claim? ==> Follows(l.active[op.target].phase, Added(op)[0].phase)
    requires Accepts(l, op) && SendLogged(log, op.record.key) ==> op.Escalate? || !op.record.phase.Failed?
    ensures LedgerSound(MemoryAfter(l, op, w), log) && LedgerSound(DiskAfter(l, disk, op, w), log)
  {
    if Accepts(l, op) { LedgerSoundAfter(l, op, log); }
  }

  lemma RivalKeys(s: System, tid: nat, other: nat)
    requires Safe(s) && tid in s.threads && other in s.threads && tid != other
    requires Writes(s.threads[tid].pc) && Owns(s.threads[other].pc)
    requires Accepts(s.memory, OpOf(s.threads[tid]))
    ensures s.threads[tid].record.key != s.threads[other].record.key
  {
    assert ThreadSafe(s.threads[other], s.memory.idempotency, s.log);
    assert !Rivals(s.threads[tid], s.threads[other]);
  }

  lemma WriteKeepsThreads(s: System, tid: nat, w: Write, other: nat)
    requires Sound(s) && tid in s.threads && Writes(s.threads[tid].pc) && other in s.threads
    ensures var th := s.threads[tid];
            ThreadSound(if other == tid then AfterWrite(th, s.memory, w) else s.threads[other],
                        MemoryAfter(s.memory, OpOf(th), w), DiskAfter(s.memory, s.disk, OpOf(th), w), s.owner, s.log)
  {
    var th := s.threads[tid];
    assert ThreadSafe(th, s.memory.idempotency, s.log);
    assert ThreadSound(th, s.memory, s.disk, s.owner, s.log);
    assert ThreadSound(s.threads[other], s.memory, s.disk, s.owner, s.log);
    ThreadOpProper(th);
    if other == tid {
      OwnThread(th, s.memory, s.disk, s.owner, s.log, w);
    } else if Accepts(s.memory, OpOf(th)) {
      OwnOpOrder(th, s.memory, s.disk, s.owner, s.log);
      if Owns(s.threads[other].pc) { RivalKeys(s, tid, other); }
      BystanderThread(s.threads[other], s.memory, s.disk, s.owner, s.log, OpOf(th), w);
    }
  }

  lemma WriteKeepsScan(s: System, tid: nat, w: Write, sid: nat)
    requires Sound(s) && tid in s.threads && Writes(s.threads[tid].pc) && sid in s.scans
    ensures ScanSound(s.scans[sid], MemoryAfter(s.memory, OpOf(s.threads[tid]), w), s.owner)
  {
    var th := s.threads[tid];
    assert ThreadSafe(th, s.memory.idempotency, s.log);
    assert ThreadSound(th, s.memory, s.disk, s.owner, s.log);
    ThreadOpProper(th);
    if Accepts(s.memory, OpOf(th)) { OwnOpOrder(th, s.memory, s.disk, s.owner, s.log); }
    BystanderScan(s.scans[sid], s.memory, s.owner, OpOf(th), w);
  }

  lemma WriteKeepsLedgers(s: System, tid: nat, w: Write)
    requires Sound(s) && tid in s.threads && Writes(s.threads[tid].pc)
    ensures var op := OpOf(s.threads[tid]);
            LedgerSound(MemoryAfter(s.memory, op, w), s.log) && LedgerSound(DiskAfter(s.memory, s.disk, op, w), s.log)
  {
    var th := s.threads[tid];
    assert ThreadSafe(th, s.memory.idempotency, s.log);
    assert ThreadSound(th, s.memory, s.disk, s.owner, s.log);
    ThreadOpProper(th);
    if Accepts(s.memory, OpOf(th)) { OwnOpOrder(th, s.memory, s.disk, s.owner, s.log); }
    LedgersSoundAfter(s.memory, s.disk, OpOf(th), w, s.log);
  }

  lemma WriteIsSound(s: System, tid: nat, w: Write)
    requires Sound(s) && Quiet(s) && Enabled(s, StoreWrite(tid, w))
    ensures Sound(Apply(s, StoreWrite(tid, w)))
  {
    hide Safe, LedgerSound, ThreadSound, ScanSound;
    var next := Apply(s, StoreWrite(tid, w));
    StepIsSafe(s, StoreWrite(tid, w));
    WriteKeepsLedgers(s, tid, w);
    forall other | other in next.threads
      ensures ThreadSound(next.threads[other], next.memory, next.disk, next.owner, next.log)
    {
      WriteKeepsThreads(s, tid, w, other);
    }
    forall sid | sid in next.scans ensures ScanSound(next.scans[sid], next.memory, next.owner) {
      WriteKeepsScan(s, tid, w, sid);
    }
  }

  /** Steps that move one transaction and leave ledger and log alone. */
  lemma MoveIsSound(s: System, tid: nat, th: Thread)
    requires Sound(s) && tid in s.threads
    requires ThreadSound(th, s.memory, s.disk, s.owner, s.log)
    requires Safe(SetThread(s, tid, th))
    ensures Sound(SetThread(s, tid, th))
  {
  }

  lemma SendLoggedInvoked(log: seq<Entry>, k: string)
    requires LogSound(log) && SendLogged(log, k)
    ensures InvokedKey(log, k)
  {
  }

  lemma ConfirmIsSound(s: System, tid: nat, reading: Reading)
    requires Sound(s) && Quiet(s) && Enabled(s, Confirm(tid, reading))
    ensures Sound(Apply(s, Confirm(tid, reading)))
  {
    var th := s.threads[tid];
    StepIsSafe(s, Confirm(tid, reading));
    assert ThreadSafe(th, s.memory.idempotency, s.log);
    assert ThreadSound(th, s.memory, s.disk, s.owner, s.log);
    if SendLogged(s.log, th.record.key) { SendLoggedInvoked(s.log, th.record.key); }
    MoveIsSound(s, tid, AfterConfirm(th, reading));
  }

  lemma ReturnIsSound(s: System, tid: nat, outcome: Outcome, summary: string)
    requires Sound(s) && Quiet(s) && Enabled(s, Return(tid, outcome, summary))
    ensures Sound(Apply(s, Return(tid, outcome, summary)))
  {
    var th := s.threads[tid];
    StepIsSafe(s, Return(tid, outcome, summary));
    assert ThreadSound(th, s.memory, s.disk, s.owner, s.log);
    MoveIsSound(s, tid, AfterReturn(th, outcome, summary));
  }

  lemma ReceiptIsSound(s: System, tid: nat)
    requires Sound(s) && Quiet(s) && Enabled(s, CheckReceipt(tid))
    ensures Sound(Apply(s, CheckReceipt(tid)))
  {
    hide ReceiptOutcomesHold, NeedsProgress, Safe, LedgerSound;
    StepIsSafe(s, CheckReceipt(tid));
    assert ThreadSound(s.threads[tid], s.memory, s.disk, s.owner, s.log);
    MoveIsSound(s, tid, AfterReceipt(s.threads[tid]));
  }

  lemma StartIsSound(s: System, step: Step)
    requires Sound(s) && Quiet(s) && Enabled(s, step) && step.Start?
    ensures Sound(Apply(s, step))
  {
    StepIsSafe(s, step);
  }

  // ----- steps that log

  lemma SendLoggedAppend(log: seq<Entry>, e: Entry, k: string)
    ensures SendLogged(log + [e], k) <==> SendLogged(log, k) || (e.SendAttempted? && e.key == k)
  {
    var more := log + [e];
    if SendLogged(log, k) {
      var i :| 0 <= i < |log| && log[i].SendAttempted? && log[i].key == k;
      assert more[i].SendAttempted? && more[i].key == k;
    }
    if e.SendAttempted? && e.key == k {
      assert more[|log|].SendAttempted? && more[|log|].key == k;
    }
  }

  lemma LogSoundAppend(log: seq<Entry>, e: Entry)
    requires LogSound(log) && (e.SendAttempted? ==> InvokedKey(log, e.key))
    ensures LogSound(log + [e])
  {
    var more := log + [e];
    forall i | 0 <= i < |more| && more[i].SendAttempted? ensures InvokedKey(more, more[i].key) {
      InvokedAppend(log, e, more[i].key);
      if i < |log| { assert log[i].SendAttempted?; }
    }
  }

  lemma LedgerSoundLogged(l: Ledger, log: seq<Entry>, e: Entry)
    requires LedgerSound(l, log)
    requires e.SendAttempted? ==> NeverFailed(l, e.key) && PastBoundary(l, e.key)
    ensures LedgerSound(l, log + [e])
  {
    forall k | SendLogged(log + [e], k) ensures NeverFailed(l, k) && PastBoundary(l, k) {
      SendLoggedAppend(log, e, k);
    }
  }

  lemma ThreadSoundLogged(th: Thread, l: Ledger, disk: Ledger, owner: Owner, log: seq<Entry>, e: Entry)
    requires ThreadSound(th, l, disk, owner, log)
    requires e.SendAttempted? && Owns(th.pc) ==> th.record.key != e.key
    ensures ThreadSound(th, l, disk, owner, log + [e])
  {
    SendLoggedAppend(log, e, th.record.key);
    InvokedAppend(log, e, th.record.key);
  }

  lemma ActivePastBoundary(l: Ledger, t: string)
    requires WellFormed(l) && t in l.active && l.active[t].phase.Begun?
    ensures PastBoundary(l, l.active[t].key)
  {
    assert ActiveIsLast(l, t);
    assert HasPhase(History(l, t), l.active[t].key, Begun);
  }

  lemma BehindPastBoundary(l: Ledger, disk: Ledger, k: string)
    requires Behind(l, disk) && PastBoundary(l, k)
    ensures PastBoundary(disk, k)
  {
    var t :| HasPhase(History(l, t), k, Begun);
    var i :| 0 <= i < |History(l, t)| && History(l, t)[i].key == k && History(l, t)[i].phase == Begun;
    assert History(disk, t)[i] == History(l, t)[i];
  }

  lemma InvokeKeepsThread(s: System, tid: nat, other: nat)
    requires Sound(s) && tid in s.threads && s.threads[tid].pc.Ready? && other in s.threads
    ensures var th := s.threads[tid];
            ThreadSound(if other == tid then th.(pc := Executing(false)) else s.threads[other], s.memory, s.disk,
                        s.owner, s.log + [Invoked(th.record.key, th.record.target, th.action, th.baseline)])
  {
    var th := s.threads[tid];
    var e := Invoked(th.record.key, th.record.target, th.action, th.baseline);
    assert ThreadSound(s.threads[other], s.memory, s.disk, s.owner, s.log);
    ThreadSoundLogged(s.threads[other], s.memory, s.disk, s.owner, s.log, e);
    InvokedAppend(s.log, e, th.record.key);
    SendLoggedAppend(s.log, e, th.record.key);
    assert ThreadSafe(th, s.memory.idempotency, s.log);
    if SendLogged(s.log, th.record.key) { SendLoggedInvoked(s.log, th.record.key); }
  }

  lemma InvokeIsSound(s: System, tid: nat)
    requires Sound(s) && Quiet(s) && Enabled(s, Invoke(tid))
    ensures Sound(Apply(s, Invoke(tid)))
  {
    hide Safe, LedgerSound, ThreadSound;
    var th := s.threads[tid];
    var e := Invoked(th.record.key, th.record.target, th.action, th.baseline);
    var next := Apply(s, Invoke(tid));
    StepIsSafe(s, Invoke(tid));
    LogSoundAppend(s.log, e);
    LedgerSoundLogged(s.memory, s.log, e);
    LedgerSoundLogged(s.disk, s.log, e);
    forall other | other in next.threads
      ensures ThreadSound(next.threads[other], next.memory, next.disk, next.owner, next.log)
    {
      InvokeKeepsThread(s, tid, other);
    }
  }

  lemma SendKeepsLedgers(s: System, tid: nat)
    requires Sound(s) && Enabled(s, AttemptSend(tid))
    ensures var th := s.threads[tid];
            var e := SendAttempted(th.record.key, th.action.kind);
            LedgerSound(s.memory, s.log + [e]) && LedgerSound(s.disk, s.log + [e]) && LogSound(s.log + [e])
  {
    var th := s.threads[tid];
    var e := SendAttempted(th.record.key, th.action.kind);
    assert ThreadSound(th, s.memory, s.disk, s.owner, s.log);
    LogSoundAppend(s.log, e);
    ActiveNeverFailed(s.memory, th.record.target);
    ActivePastBoundary(s.memory, th.record.target);
    BehindPastBoundary(s.memory, s.disk, th.record.key);
    LedgerSoundLogged(s.memory, s.log, e);
    LedgerSoundLogged(s.disk, s.log, e);
  }

  lemma SendKeepsThread(s: System, tid: nat, other: nat)
    requires Sound(s) && tid in s.threads && s.threads[tid].pc.Executing? && other in s.threads
    ensures var th := s.threads[tid];
            ThreadSound(if other == tid then th.(pc := Executing(true)) else s.threads[other], s.memory, s.disk,
                        s.owner, s.log + [SendAttempted(th.record.key, th.action.kind)])
  {
    var th := s.threads[tid];
    var e := SendAttempted(th.record.key, th.action.kind);
    assert ThreadSound(s.threads[other], s.memory, s.disk, s.owner, s.log);
    if other == tid {
      InvokedAppend(s.log, e, th.record.key);
      SendLoggedAppend(s.log, e, th.record.key);
    } else {
      assert !Rivals(s.threads[other], th);
      ThreadSoundLogged(s.threads[other], s.memory, s.disk, s.owner, s.log, e);
    }
  }

  lemma SendIsSound(s: System, tid: nat)
    requires Sound(s) && Quiet(s) && Enabled(s, AttemptSend(tid))
    ensures Sound(Apply(s, AttemptSend(tid)))
  {
    hide Safe, LedgerSound, ThreadSound;
    var next := Apply(s, AttemptSend(tid));
    StepIsSafe(s, AttemptSend(tid));
    SendKeepsLedgers(s, tid);
    forall other | other in next.threads
      ensures ThreadSound(next.threads[other], next.memory, next.disk, next.owner, next.log)
    {
      SendKeepsThread(s, tid, other);
    }
  }

  lemma PolledThread(th: Thread, l: Ledger, disk: Ledger, owner: Owner, log: seq<Entry>, reading: Reading, expired: bool)
    requires ThreadSound(th, l, disk, owner, log) && th.pc.Polling?
    ensures ThreadSound(AfterPoll(th, reading, expired), l, disk, owner, log)
  {
    hide Verified, Holds, NeverFailed, SendLogged, InvokedKey;
  }

  lemma ProvedIsSound(s: System, e: Entry)
    requires Sound(s) && e.Proved? && Safe(Logged(s, e))
    ensures Sound(Logged(s, e))
  {
    hide Safe, ThreadSound, LedgerSound, LogSound, ScanSound;
    LogSoundAppend(s.log, e);
    LedgerSoundLogged(s.memory, s.log, e);
    LedgerSoundLogged(s.disk, s.log, e);
    forall tid | tid in s.threads ensures ThreadSound(s.threads[tid], s.memory, s.disk, s.owner, s.log + [e]) {
      ThreadSoundLogged(s.threads[tid], s.memory, s.disk, s.owner, s.log, e);
    }
  }

  lemma PollIsSound(s: System, tid: nat, reading: Reading, expired: bool)
    requires Sound(s) && Quiet(s) && Enabled(s, Poll(tid, reading, expired))
    ensures Sound(Apply(s, Poll(tid, reading, expired)))
  {
    hide Verified, Safe, ThreadSound, LedgerSound, LogSound, ScanSound, AfterPoll, PollVerifies;
    var th := s.threads[tid];
    var e, moved := Proved(th.record.key, if reading.Ok? then reading.value else th.baseline), AfterPoll(th, reading, expired);
    StepIsSafe(s, Poll(tid, reading, expired));
    assert ThreadSound(th, s.memory, s.disk, s.owner, s.log);
    PolledThread(th, s.memory, s.disk, s.owner, s.log, reading, expired);
    PollMoveIsSafe(s, tid, reading, expired);
    MoveIsSound(s, tid, moved);
    hide Sound;
    if PollVerifies(th, reading) {
      assert reading.Ok? by { VerifiesIsOk(th, reading); }
      ProvedIsSound(SetThread(s, tid, moved), e);
    }
  }

  lemma VerifiesIsOk(th: Thread, reading: Reading)
    requires PollVerifies(th, reading)
    ensures reading.Ok?
  {
  }

  lemma PollMoveIsSafe(s: System, tid: nat, reading: Reading, expired: bool)
    requires Safe(s) && Enabled(s, Poll(tid, reading, expired))
    ensures Safe(SetThread(s, tid, AfterPoll(s.threads[tid], reading, expired)))
  {
    hide Safe, ThreadOk, AfterPoll, SetThread;
    SafeThread(s, tid);
    PollMovesOn(s.threads[tid], reading, expired);
    MoveIsSafe(s, tid, AfterPoll(s.threads[tid], reading, expired));
  }

  lemma SafeThread(s: System, tid: nat)
    requires Safe(s) && tid in s.threads
    ensures ThreadOk(s.threads[tid])
  {
    hide LedgersSafe, LogSafe, ThreadOk;
    assert ThreadSafe(s.threads[tid], s.memory.idempotency, s.log);
  }

  lemma PollMovesOn(th: Thread, reading: Reading, expired: bool)
    requires ThreadOk(th) && th.pc.Polling?
    ensures var next := AfterPoll(th, reading, expired);
      ThreadOk(next) && next.record.key == th.record.key && !Unspent(next.pc) && Owns(th.pc)
  {
    hide Verified, KeyFor;
  }

  // ----- closing records left by an earlier owner

  lemma StaleCloseOrder(scan: Scan, l: Ledger, owner: Owner, log: seq<Entry>)
    requires WellFormed(l) && LedgerSound(l, log) && ScanSound(scan, l, owner)
    requires Accepts(l, Append(scan.target, StaleClose(scan.record)))
    ensures Follows(l.active[scan.target].phase, StaleClose(scan.record).phase)
    ensures SendLogged(log, scan.record.key) ==> !StaleClose(scan.record).phase.Failed?
  {
    assert l.active[scan.target] == scan.record;
    assert ActiveIsLast(l, scan.target);
    if scan.record.phase.Prepared? { PreparedNotSent(l, scan.target, log); }
  }

  lemma RestartCloseOrder(l: Ledger, t: string, log: seq<Entry>)
    requires WellFormed(l) && LedgerSound(l, log) && t in l.active
    ensures Follows(l.active[t].phase, RestartClose(l.active[t]).phase)
    ensures SendLogged(log, l.active[t].key) ==> !RestartClose(l.active[t]).phase.Failed?
  {
    assert ActiveIsLast(l, t);
    if l.active[t].phase.Prepared? { PreparedNotSent(l, t, log); }
  }

  /** A scan that could still close its record is not looking at a live transaction's. */
  lemma ScanIsNoRival(s: System, sid: nat, tid: nat)
    requires Sound(s) && sid in s.scans && tid in s.threads && Owns(s.threads[tid].pc)
    requires Holds(s.memory, s.scans[sid].target, s.scans[sid].record)
    ensures s.threads[tid].record.key != s.scans[sid].record.key
  {
    var th := s.threads[tid];
    var scan := s.scans[sid];
    assert ThreadSound(th, s.memory, s.disk, s.owner, s.log);
    assert ScanSound(scan, s.memory, s.owner);
    if th.record.key == scan.record.key {
      assert ActiveIsLast(s.memory, th.record.target);
      var h := History(s.memory, th.record.target);
      ActiveKeyOpen(s.memory, scan.target, th.record.target, |h| - 1);
    }
  }

  lemma ScanCloseKeepsThread(s: System, sid: nat, w: Write, tid: nat)
    requires Sound(s) && sid in s.scans && tid in s.threads
    ensures var op := Append(s.scans[sid].target, StaleClose(s.scans[sid].record));
            ThreadSound(s.threads[tid], MemoryAfter(s.memory, op, w), DiskAfter(s.memory, s.disk, op, w), s.owner, s.log)
  {
    var op := Append(s.scans[sid].target, StaleClose(s.scans[sid].record));
    assert ThreadSound(s.threads[tid], s.memory, s.disk, s.owner, s.log);
    if Accepts(s.memory, op) {
      if Owns(s.threads[tid].pc) { ScanIsNoRival(s, sid, tid); }
      BystanderThread(s.threads[tid], s.memory, s.disk, s.owner, s.log, op, w);
    }
  }

  lemma ScanCloseKeepsLedgers(s: System, sid: nat, w: Write)
    requires Sound(s) && sid in s.scans
    ensures var op := Append(s.scans[sid].target, StaleClose(s.scans[sid].record));
            LedgerSound(MemoryAfter(s.memory, op, w), s.log) && LedgerSound(DiskAfter(s.memory, s.disk, op, w), s.log)
  {
    var op := Append(s.scans[sid].target, StaleClose(s.scans[sid].record));
    assert ScanSound(s.scans[sid], s.memory, s.owner);
    if Accepts(s.memory, op) { StaleCloseOrder(s.scans[sid], s.memory, s.owner, s.log); }
    LedgersSoundAfter(s.memory, s.disk, op, w, s.log);
  }

  lemma ScanCloseIsSound(s: System, sid: nat, w: Write)
    requires Sound(s) && Quiet(s) && Enabled(s, ScanClose(sid, w))
    ensures Sound(Apply(s, ScanClose(sid, w)))
  {
    hide Safe, LedgerSound, ThreadSound, ScanSound;
    var op := Append(s.scans[sid].target, StaleClose(s.scans[sid].record));
    var next := Apply(s, ScanClose(sid, w));
    StepIsSafe(s, ScanClose(sid, w));
    ScanCloseKeepsLedgers(s, sid, w);
    forall tid | tid in next.threads
      ensures ThreadSound(next.threads[tid], next.memory, next.disk, next.owner, next.log)
    {
      ScanCloseKeepsThread(s, sid, w, tid);
    }
    forall other | other in next.scans ensures ScanSound(next.scans[other], next.memory, next.owner) {
      ScanCloseProper(s, sid);
      BystanderScan(s.scans[other], s.memory, s.owner, op, w);
    }
  }

  lemma ScanCloseProper(s: System, sid: nat)
    requires Safe(s) && sid in s.scans
    ensures Proper(Append(s.scans[sid].target, StaleClose(s.scans[sid].record)))
  {
  }

  lemma ScanReadIsSound(s: System, step: Step)
    requires Sound(s) && Quiet(s) && Enabled(s, step) && step.ScanRead? && s.owner in step.probe
    ensures Sound(Apply(s, step))
  {
    StepIsSafe(s, step);
    assert ActiveIsLast(s.memory, step.target);
    assert Filed(History(s.memory, step.target), step.target, s.memory.idempotency);
  }

  lemma RestartRecoveryIsSound(s: System, target: string, w: Write)
    requires Sound(s) && Quiet(s) && Enabled(s, RecoverAfterRestart(target, w))
    ensures Sound(Apply(s, RecoverAfterRestart(target, w)))
  {
    var op := Append(target, RestartClose(s.memory.active[target]));
    StepIsSafe(s, RecoverAfterRestart(target, w));
    ActiveTarget(s.memory, target);
    RestartCloseOrder(s.memory, target, s.log);
    LedgersSoundAfter(s.memory, s.disk, op, w, s.log);
  }

  lemma DaemonStepIsSound(s: System, step: Step)
    requires Sound(s) && Quiet(s) && Enabled(s, step)
    requires step.Crash? || step.Restart? || step.Serve?
    ensures Sound(Apply(s, step))
  {
    StepIsSafe(s, step);
  }

  lemma StepIsSound(s: System, step: Step)
    requires Sound(s) && Quiet(s) && Enabled(s, step)
    requires step.ScanRead? ==> s.owner in step.probe
    ensures Sound(Apply(s, step)) && Quiet(Apply(s, step))
  {
    hide Sound, Apply;
    QuietStep(s, step);
    match step {
      case Start(_, _, _, _, _, _, _, _, _) => StartIsSound(s, step);
      case StoreWrite(tid, w) => WriteIsSound(s, tid, w);
      case Confirm(tid, reading) => ConfirmIsSound(s, tid, reading);
      case Invoke(tid) => InvokeIsSound(s, tid);
      case AttemptSend(tid) => SendIsSound(s, tid);
      case Return(tid, outcome, summary) => ReturnIsSound(s, tid, outcome, summary);
      case CheckReceipt(tid) => ReceiptIsSound(s, tid);
      case Poll(tid, reading, expired) => PollIsSound(s, tid, reading, expired);
      case ScanRead(_, _, _, _) => ScanReadIsSound(s, step);
      case ScanClose(sid, w) => ScanCloseIsSound(s, sid, w);
      case RecoverAfterRestart(target, w) => RestartRecoveryIsSound(s, target, w);
      case _ => DaemonStepIsSound(s, step);
    }
  }

  lemma {:induction false} RunIsSound(s: System, steps: seq<Step>)
    requires Sound(s) && Quiet(s) && Runs(s, steps) && ProbeSound(s, steps)
    ensures Sound(End(s, steps)) && Quiet(End(s, steps))
    decreases |steps|
  {
    hide Sound, Enabled, Apply;
    if steps != [] {
      StepIsSound(s, steps[0]);
      RunIsSound(Apply(s, steps[0]), steps[1..]);
    }
  }

  lemma InitialIsSound(s: System)
    requires Initial(s)
    ensures Sound(s) && Quiet(s)
  {
    InitialIsSafe(s);
  }

  // ----- main results

  /**
   After an attempted send no record of its key, in memory or on disk, says Failed; what
   closes it is Succeeded or HumanRequired, however the run continues.
   */
  lemma {:induction false} SentIsNeverFailed(s: System, steps: seq<Step>, k: string, t: string, i: int)
    requires Initial(s) && Runs(s, steps) && ProbeSound(s, steps)
    requires SendLogged(End(s, steps).log, k)
    ensures var l := End(s, steps).memory;
            0 <= i < |History(l, t)| && History(l, t)[i].key == k && Terminal(History(l, t)[i].phase) ==>
              History(l, t)[i].phase.Succeeded? || History(l, t)[i].phase.HumanRequired?
    ensures var l := End(s, steps).disk;
            0 <= i < |History(l, t)| && History(l, t)[i].key == k && Terminal(History(l, t)[i].phase) ==>
              History(l, t)[i].phase.Succeeded? || History(l, t)[i].phase.HumanRequired?
  {
    InitialIsSound(s);
    RunIsSound(s, steps);
    var end := End(s, steps);
    assert !HasPhase(History(end.memory, t), k, Failed);
    assert !HasPhase(History(end.disk, t), k, Failed);
  }
}
