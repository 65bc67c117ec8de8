/**
 At most one execution per idempotency key, over every run: concurrent transactions,
 lost writes that may or may not be on disk, crashes and restarts, whatever the
 process probe answers.
 */
module AtMostOnce {
  import opened Evidence
  import opened Ledger
  import opened Protocol

  // ----- the inductive invariant

  /** The disk holds everything memory acknowledged, and maybe one lost write more. */
  ghost predicate Behind(l: Ledger, disk: Ledger) {
    && l.idempotency <= disk.idempotency
    && forall t :: History(l, t) <= History(disk, t)
  }

  predicate InvokedKey(log: seq<Entry>, k: string) {
    exists i :: 0 <= i < |log| && log[i].Invoked? && log[i].key == k
  }

  predicate OncePerKey(log: seq<Entry>) {
    forall i, j :: 0 <= i < j < |log| && log[i].Invoked? && log[j].Invoked? ==> log[i].key != log[j].key
  }

  predicate OncePerAction(log: seq<Entry>) {
    forall i, j :: 0 <= i < j < |log| && log[i].Invoked? && log[j].Invoked? ==>
      !(log[i].target == log[j].target
        && log[i].action.actionId == log[j].action.actionId
        && log[i].baseline.event.fingerprint == log[j].baseline.event.fingerprint)
  }

  predicate KeyIsAction(e: Entry) {
    e.Invoked? ==> e.key == KeyFor(e.target, e.action.actionId, e.baseline.event.fingerprint)
  }

  /** The transaction has claimed its key and not finished. */
  predicate Owns(pc: Pc) {
    !pc.Claiming? && !pc.Done?
  }

  /** The transaction may still call the executor. */
  predicate Unspent(pc: Pc) {
    pc.Confirming? || pc.Beginning? || pc.Ready?
  }

  predicate ThreadOk(th: Thread) {
    && th.record.actionId == th.action.actionId
    && th.record.key == KeyFor(th.record.target, th.action.actionId, th.baseline.event.fingerprint)
    && (th.pc.Claiming? ==> th.record.phase.Prepared?)
  }

  predicate ThreadSafe(th: Thread, keys: set<string>, log: seq<Entry>) {
    && ThreadOk(th)
    && (Owns(th.pc) ==> th.record.key in keys)
    && (Unspent(th.pc) ==> !InvokedKey(log, th.record.key))
  }

  predicate Rivals(a: Thread, b: Thread) {
    Owns(a.pc) && Owns(b.pc) && a.record.key == b.record.key
  }

  predicate LogSafe(keys: set<string>, log: seq<Entry>) {
    && OncePerKey(log)
    && (forall i :: 0 <= i < |log| ==> KeyIsAction(log[i]) && (log[i].Invoked? ==> log[i].key in keys))
  }

  ghost predicate LedgersSafe(l: Ledger, disk: Ledger) {
    WellFormed(l) && WellFormed(disk) && Behind(l, disk)
  }

  predicate ThreadsSafe(threads: map<nat, Thread>, keys: set<string>, log: seq<Entry>) {
    && (forall tid :: tid in threads ==> ThreadSafe(threads[tid], keys, log))
    && (forall a, b :: a in threads && b in threads && Rivals(threads[a], threads[b]) ==> a == b)
  }

  ghost predicate Safe(s: System) {
    && LedgersSafe(s.memory, s.disk)
    && LogSafe(s.memory.idempotency, s.log)
    && ThreadsSafe(s.threads, s.memory.idempotency, s.log)
    && (forall sid :: sid in s.scans ==> s.scans[sid].record.target == s.scans[sid].target)
  }

  // ----- ledgers

  lemma StoredLedgersSafe(l: Ledger, disk: Ledger, op: Op, w: Write)
    requires LedgersSafe(l, disk) && Proper(op)
    ensures LedgersSafe(MemoryAfter(l, op, w), DiskAfter(l, disk, op, w))
    ensures l.idempotency <= MemoryAfter(l, op, w).idempotency
  {
    if Accepts(l, op) {
      AfterKeepsWellFormed(l, op);
      forall t ensures History(l, t) <= History(After(l, op), t) { AfterHistory(l, op, t); }
    }
  }

  lemma ThreadOpProper(th: Thread)
    requires ThreadOk(th) && Writes(th.pc)
    ensures Proper(OpOf(th))
  {
  }

  lemma ActiveTarget(l: Ledger, t: string)
    requires WellFormed(l) && t in l.active
    ensures l.active[t].target == t
  {
    assert ActiveIsLast(l, t);
    assert Filed(History(l, t), t, l.idempotency);
  }

  // ----- threads

  lemma MoreKeys(threads: map<nat, Thread>, keys: set<string>, more: set<string>, log: seq<Entry>)
    requires ThreadsSafe(threads, keys, log) && keys <= more
    ensures ThreadsSafe(threads, more, log)
  {
    forall tid | tid in threads ensures ThreadSafe(threads[tid], more, log) {
      assert ThreadSafe(threads[tid], keys, log);
    }
  }

  /** One thread moves on, without taking over a key it did not own. */
  lemma MoveThread(threads: map<nat, Thread>, keys: set<string>, log: seq<Entry>, tid: nat, th: Thread)
    requires ThreadsSafe(threads, keys, log) && ThreadSafe(th, keys, log)
    requires Owns(th.pc) ==> tid in threads && Owns(threads[tid].pc) && threads[tid].record.key == th.record.key
    ensures ThreadsSafe(threads[tid := th], keys, log)
  {
    var moved := threads[tid := th];
    forall a, b | a in moved && b in moved && Rivals(moved[a], moved[b]) ensures a == b {
      assert a in threads && b in threads && Rivals(threads[a], threads[b]);
    }
  }

  lemma ClaimThread(l: Ledger, threads: map<nat, Thread>, log: seq<Entry>, tid: nat)
    requires ThreadsSafe(threads, l.idempotency, log) && LogSafe(l.idempotency, log)
    requires tid in threads && threads[tid].pc.Claiming? && Accepts(l, OpOf(threads[tid]))
    ensures ThreadsSafe(threads[tid := threads[tid].(pc := Confirming)], After(l, OpOf(threads[tid])).idempotency, log)
  {
    var th := threads[tid];
    var keys := After(l, OpOf(th)).idempotency;
    MoreKeys(threads, l.idempotency, keys, log);
    var moved := threads[tid := th.(pc := Confirming)];
    forall other | other in threads && Owns(threads[other].pc)
      ensures threads[other].record.key != th.record.key
    {
      assert ThreadSafe(threads[other], l.idempotency, log);
    }
    assert ThreadSafe(th, l.idempotency, log);
    forall a, b | a in moved && b in moved && Rivals(moved[a], moved[b]) ensures a == b {
      if a != tid && b != tid { assert Rivals(threads[a], threads[b]); }
    }
  }

  // ----- the log

  lemma InvokedAppend(log: seq<Entry>, e: Entry, k: string)
    ensures InvokedKey(log + [e], k) <==> InvokedKey(log, k) || (e.Invoked? && e.key == k)
  {
    var more := log + [e];
    if InvokedKey(log, k) {
      var i :| 0 <= i < |log| && log[i].Invoked? && log[i].key == k;
      assert more[i].Invoked? && more[i].key == k;
    }
    if e.Invoked? && e.key == k {
      assert more[|log|].Invoked? && more[|log|].key == k;
    }
  }

  lemma QuietEntry(threads: map<nat, Thread>, keys: set<string>, log: seq<Entry>, e: Entry)
    requires ThreadsSafe(threads, keys, log) && LogSafe(keys, log) && !e.Invoked?
    ensures ThreadsSafe(threads, keys, log + [e]) && LogSafe(keys, log + [e])
  {
    forall tid | tid in threads ensures ThreadSafe(threads[tid], keys, log + [e]) {
      assert ThreadSafe(threads[tid], keys, log);
      InvokedAppend(log, e, threads[tid].record.key);
    }
  }

  lemma InvokeThread(threads: map<nat, Thread>, keys: set<string>, log: seq<Entry>, tid: nat, e: Entry)
    requires ThreadsSafe(threads, keys, log) && LogSafe(keys, log)
    requires tid in threads && threads[tid].pc.Ready?
    requires e.Invoked? && e.key == threads[tid].record.key && KeyIsAction(e)
    ensures LogSafe(keys, log + [e])
    ensures ThreadsSafe(threads[tid := threads[tid].(pc := Executing(false))], keys, log + [e])
  {
    var moved := threads[tid := threads[tid].(pc := Executing(false))];
    assert ThreadSafe(threads[tid], keys, log);
    forall other | other in moved ensures ThreadSafe(moved[other], keys, log + [e]) {
      assert ThreadSafe(threads[other], keys, log);
      InvokedAppend(log, e, moved[other].record.key);
      if other != tid && Unspent(moved[other].pc) { assert !Rivals(threads[other], threads[tid]); }
    }
    forall a, b | a in moved && b in moved && Rivals(moved[a], moved[b]) ensures a == b {
      assert Rivals(threads[a], threads[b]);
    }
  }

  // ----- every step keeps the invariant

  /** Steps by which one transaction moves on without touching the ledger or the log. */
  lemma MoveIsSafe(s: System, tid: nat, th: Thread)
    requires Safe(s) && tid in s.threads
    requires ThreadOk(th) && th.record.key == s.threads[tid].record.key
    requires Owns(th.pc) ==> Owns(s.threads[tid].pc)
    requires Unspent(th.pc) ==> Unspent(s.threads[tid].pc)
    ensures Safe(SetThread(s, tid, th))
  {
    assert ThreadSafe(s.threads[tid], s.memory.idempotency, s.log);
    MoveThread(s.threads, s.memory.idempotency, s.log, tid, th);
  }

  lemma WriteIsSafe(s: System, tid: nat, w: Write)
    requires Safe(s) && tid in s.threads && Writes(s.threads[tid].pc)
    ensures Safe(SetThread(Stored(s, OpOf(s.threads[tid]), w), tid, AfterWrite(s.threads[tid], s.memory, w)))
  {
    var th := s.threads[tid];
    var op := OpOf(th);
    var keys := MemoryAfter(s.memory, op, w).idempotency;
    assert ThreadSafe(th, s.memory.idempotency, s.log);
    ThreadOpProper(th);
    StoredLedgersSafe(s.memory, s.disk, op, w);
    if th.pc.Claiming? && Acknowledged(s.memory, op, w) {
      ClaimThread(s.memory, s.threads, s.log, tid);
    } else {
      MoreKeys(s.threads, s.memory.idempotency, keys, s.log);
      MoveThread(s.threads, keys, s.log, tid, AfterWrite(th, s.memory, w));
    }
  }

  lemma RecoveryIsSafe(s: System, op: Op, w: Write)
    requires Safe(s) && Proper(op)
    ensures Safe(Stored(s, op, w))
  {
    StoredLedgersSafe(s.memory, s.disk, op, w);
    MoreKeys(s.threads, s.memory.idempotency, MemoryAfter(s.memory, op, w).idempotency, s.log);
  }

  lemma InvokeIsSafe(s: System, tid: nat)
    requires Safe(s) && Enabled(s, Invoke(tid))
    ensures Safe(Apply(s, Invoke(tid)))
  {
    var th := s.threads[tid];
    assert ThreadSafe(th, s.memory.idempotency, s.log);
    InvokeThread(s.threads, s.memory.idempotency, s.log, tid,
                 Invoked(th.record.key, th.record.target, th.action, th.baseline));
  }

  lemma LoggedIsSafe(s: System, e: Entry)
    requires Safe(s) && !e.Invoked?
    ensures Safe(Logged(s, e))
  {
    QuietEntry(s.threads, s.memory.idempotency, s.log, e);
  }

  lemma SendIsSafe(s: System, tid: nat)
    requires Safe(s) && Enabled(s, AttemptSend(tid))
    ensures Safe(Apply(s, AttemptSend(tid)))
  {
    var th := s.threads[tid];
    assert ThreadSafe(th, s.memory.idempotency, s.log);
    MoveIsSafe(s, tid, th.(pc := Executing(true)));
    LoggedIsSafe(SetThread(s, tid, th.(pc := Executing(true))), SendAttempted(th.record.key, th.action.kind));
  }

  lemma PollIsSafe(s: System, tid: nat, reading: Reading, expired: bool)
    requires Safe(s) && Enabled(s, Poll(tid, reading, expired))
    ensures Safe(Apply(s, Poll(tid, reading, expired)))
  {
    var th := s.threads[tid];
    assert ThreadSafe(th, s.memory.idempotency, s.log);
    MoveIsSafe(s, tid, AfterPoll(th, reading, expired));
    if PollVerifies(th, reading) {
      LoggedIsSafe(SetThread(s, tid, AfterPoll(th, reading, expired)), Proved(th.record.key, reading.value));
    }
  }

  lemma MovingStepIsSafe(s: System, step: Step)
    requires Safe(s) && Enabled(s, step)
    requires step.Confirm? || step.Return? || step.CheckReceipt?
    ensures Safe(Apply(s, step))
  {
    var th := s.threads[step.tid];
    assert ThreadSafe(th, s.memory.idempotency, s.log);
    assert Apply(s, step) == SetThread(s, step.tid, Apply(s, step).threads[step.tid]);
    MovesOn(s, step);
    hide Apply, Enabled, SetThread, Safe;
    MoveIsSafe(s, step.tid, Apply(s, step).threads[step.tid]);
  }

  lemma MovesOn(s: System, step: Step)
    requires Enabled(s, step) && (step.Confirm? || step.Return? || step.CheckReceipt?) && ThreadOk(s.threads[step.tid])
    ensures var th, next := s.threads[step.tid], Apply(s, step).threads[step.tid];
      && ThreadOk(next) && next.record.key == th.record.key
      && (Owns(next.pc) ==> Owns(th.pc)) && (Unspent(next.pc) ==> Unspent(th.pc))
  {
    hide Revalidate, ReceiptOutcomesHold, NeedsProgress, KeyFor;
  }

  lemma StartIsSafe(s: System, step: Step)
    requires Safe(s) && Enabled(s, step) && step.Start?
    ensures Safe(Apply(s, step))
  {
    MoveThread(s.threads, s.memory.idempotency, s.log, step.tid, Apply(s, step).threads[step.tid]);
  }

  lemma ClosingStepIsSafe(s: System, step: Step)
    requires Safe(s) && Enabled(s, step)
    requires step.ScanRead? || step.ScanClose? || step.RecoverAfterRestart?
    ensures Safe(Apply(s, step))
  {
    match step {
      case ScanRead(_, target, _, _) => ActiveTarget(s.memory, target);
      case ScanClose(sid, w) =>
        RecoveryIsSafe(s, Append(s.scans[sid].target, StaleClose(s.scans[sid].record)), w);
      case RecoverAfterRestart(target, w) =>
        ActiveTarget(s.memory, target);
        RecoveryIsSafe(s, Append(target, RestartClose(s.memory.active[target])), w);
    }
  }

  lemma DaemonStepIsSafe(s: System, step: Step)
    requires Safe(s) && Quiet(s) && Enabled(s, step)
    requires step.Crash? || step.Restart? || step.Serve?
    ensures Safe(Apply(s, step))
  {
  }

  lemma StepIsSafe(s: System, step: Step)
    requires Safe(s) && Quiet(s) && Enabled(s, step)
    ensures Safe(Apply(s, step)) && Quiet(Apply(s, step))
  {
    QuietStep(s, step);
    if step.Start? { StartIsSafe(s, step); }
    else if step.StoreWrite? { WriteIsSafe(s, step.tid, step.w); }
    else if step.Invoke? { InvokeIsSafe(s, step.tid); }
    else if step.ScanRead? || step.ScanClose? || step.RecoverAfterRestart? { ClosingStepIsSafe(s, step); }
    else if step.Crash? || step.Restart? || step.Serve? { DaemonStepIsSafe(s, step); }
    else if step.AttemptSend? { SendIsSafe(s, step.tid); }
    else if step.Poll? { PollIsSafe(s, step.tid, step.reading, step.expired); }
    else { MovingStepIsSafe(s, step); }
  }

  /** Transactions and scans live only while the daemon serves. */
  predicate Quiet(s: System) {
    s.mode.Serving? || (s.threads == map[] && s.scans == map[])
  }

  lemma QuietStep(s: System, step: Step)
    requires Quiet(s) && Enabled(s, step)
    ensures Quiet(Apply(s, step))
  {
  }

  lemma RunIsSafe(s: System, steps: seq<Step>)
    requires Safe(s) && Quiet(s) && Runs(s, steps)
    ensures Safe(End(s, steps)) && Quiet(End(s, steps))
    decreases |steps|
  {
    if steps != [] {
      StepIsSafe(s, steps[0]);
      RunIsSafe(Apply(s, steps[0]), steps[1..]);
    }
  }

  lemma InitialIsSafe(s: System)
    requires Initial(s)
    ensures Safe(s) && Quiet(s)
  {
  }

  // ----- main results

  /** In every run the executor is called at most once per key, and per (target, action, evidence). */
  lemma {:induction false} ExecutedAtMostOnce(s: System, steps: seq<Step>)
    requires Initial(s) && Runs(s, steps)
    ensures OncePerKey(End(s, steps).log)
    ensures OncePerAction(End(s, steps).log)
  {
    InitialIsSafe(s);
    RunIsSafe(s, steps);
  }

  /** In every reachable state, in memory and on disk, the ledger is well formed. */
  lemma {:induction false} ReachableLedgers(s: System, steps: seq<Step>)
    requires Initial(s) && Runs(s, steps)
    ensures WellFormed(End(s, steps).memory) && WellFormed(End(s, steps).disk)
  {
    InitialIsSafe(s);
    RunIsSafe(s, steps);
  }

  lemma StoredGrowsAudit(s: System, op: Op, w: Write, t: string)
    ensures History(s.memory, t) <= History(Stored(s, op, w).memory, t)
  {
    AfterHistory(s.memory, op, t);
  }

  lemma StepGrowsAudit(s: System, step: Step, t: string)
    requires Safe(s) && Enabled(s, step)
    ensures History(s.memory, t) <= History(Apply(s, step).memory, t)
  {
    if step.StoreWrite? {
      StoredGrowsAudit(s, OpOf(s.threads[step.tid]), step.w, t);
    } else if step.ScanClose? {
      var scan := s.scans[step.sid];
      StoredGrowsAudit(s, Append(scan.target, StaleClose(scan.record)), step.w, t);
    } else if step.RecoverAfterRestart? {
      StoredGrowsAudit(s, Append(step.target, RestartClose(s.memory.active[step.target])), step.w, t);
    }
  }

  /** Acknowledged audits only grow: no crash, lost write or restart shortens or edits one. */
  lemma {:induction false} AuditOnlyGrows(s: System, before: seq<Step>, after: seq<Step>, t: string)
    requires Initial(s) && Runs(s, before) && Runs(End(s, before), after)
    ensures History(End(s, before).memory, t) <= History(End(End(s, before), after).memory, t)
  {
    InitialIsSafe(s);
    RunIsSafe(s, before);
    AuditGrowsFrom(End(s, before), after, t);
  }

  lemma {:induction false} AuditGrowsFrom(s: System, steps: seq<Step>, t: string)
    requires Safe(s) && Quiet(s) && Runs(s, steps)
    ensures History(s.memory, t) <= History(End(s, steps).memory, t)
    decreases |steps|
  {
    if steps != [] {
      StepGrowsAudit(s, steps[0], t);
      StepIsSafe(s, steps[0]);
      AuditGrowsFrom(Apply(s, steps[0]), steps[1..], t);
    }
  }
}
