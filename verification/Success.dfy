/**
 What a recorded success rests on, and what can ever be typed, over every run. Neither
 needs the process probe to be right.
 */
module Success {
  import opened Wrappers
  import opened Model
  import opened Policy
  import opened Evidence
  import opened Ledger
  import opened Protocol
  import opened AtMostOnce
  import opened NoBlindRetry
  import Readings

  /** Entry `j` of the log is a proof for the execution at entry `i`, read after its send. */
  predicate Proves(log: seq<Entry>, i: int, j: int)
    requires 0 <= i < |log| && log[i].Invoked? && 0 <= j < |log|
  {
    && log[j].Proved? && log[j].key == log[i].key
    && Readings.Proof(log[i].action, log[i].baseline, log[j].after)
    && (IsInput(log[i].action.kind) ==> SendLogged(log[..j], log[i].key))
  }

  /** Key `k` was executed, and if its action calls for progress, progress was proved. */
  predicate Earned(log: seq<Entry>, k: string) {
    exists i :: 0 <= i < |log| && log[i].Invoked? && log[i].key == k
      && (Readings.AwaitsProgress(log[i].action) ==> exists j :: 0 <= j < |log| && Proves(log, i, j))
  }

  predicate Ran(pc: Pc) {
    pc.Recording? || pc.Receipting? || pc.StartingPoll? || pc.Polling? || pc.Completing?
  }

  predicate ThreadHonest(th: Thread, log: seq<Entry>) {
    && (IsInput(th.action.kind) ==> Typeable(th.action.kind))
    && (Ran(th.pc) || th.pc.Executing? ==>
          Invoked(th.record.key, th.record.target, th.action, th.baseline) in log)
    && (Ran(th.pc) && IsInput(th.action.kind) ==> SendLogged(log, th.record.key))
    && (th.pc.Executing? && th.pc.attempted ==> SendLogged(log, th.record.key))
    && (th.pc.Completing? ==> Earned(log, th.record.key))
  }

  predicate AllEarned(h: seq<Record>, log: seq<Entry>) {
    forall i :: 0 <= i < |h| && h[i].phase.Succeeded? ==> Earned(log, h[i].key)
  }

  ghost predicate LedgerHonest(l: Ledger, log: seq<Entry>) {
    forall t :: AllEarned(History(l, t), log)
  }

  predicate OnlySafeInput(log: seq<Entry>) {
    forall i :: 0 <= i < |log| && log[i].SendAttempted? ==> Typeable(log[i].kind)
  }

  ghost predicate Honest(s: System) {
    && LedgerHonest(s.memory, s.log) && LedgerHonest(s.disk, s.log)
    && (forall tid :: tid in s.threads ==> ThreadHonest(s.threads[tid], s.log))
    && (forall t :: t in s.memory.active ==> !Terminal(s.memory.active[t].phase))
    && (forall t :: t in s.disk.active ==> !Terminal(s.disk.active[t].phase))
    && (forall sid :: sid in s.scans ==> !Terminal(s.scans[sid].record.phase))
    && OnlySafeInput(s.log)
  }

  // ----- more log

  lemma EarnedAppend(log: seq<Entry>, e: Entry, k: string)
    requires Earned(log, k)
    ensures Earned(log + [e], k)
  {
    var more := log + [e];
    var i :| 0 <= i < |log| && log[i].Invoked? && log[i].key == k
      && (Readings.AwaitsProgress(log[i].action) ==> exists j :: 0 <= j < |log| && Proves(log, i, j));
    assert more[i] == log[i];
    if Readings.AwaitsProgress(log[i].action) {
      var j :| 0 <= j < |log| && Proves(log, i, j);
      assert more[..j] == log[..j];
      assert Proves(more, i, j);
    }
  }

  lemma LedgerHonestAppend(l: Ledger, log: seq<Entry>, e: Entry)
    requires LedgerHonest(l, log)
    ensures LedgerHonest(l, log + [e])
  {
    forall t ensures AllEarned(History(l, t), log + [e]) {
      var h := History(l, t);
      assert AllEarned(h, log);
      forall i | 0 <= i < |h| && h[i].phase.Succeeded? ensures Earned(log + [e], h[i].key) {
        EarnedAppend(log, e, h[i].key);
      }
    }
  }

  lemma ThreadHonestAppend(th: Thread, log: seq<Entry>, e: Entry)
    requires ThreadHonest(th, log)
    ensures ThreadHonest(th, log + [e])
  {
    SendLoggedAppend(log, e, th.record.key);
    if th.pc.Completing? { EarnedAppend(log, e, th.record.key); }
  }

  lemma LoggedIsHonest(s: System, e: Entry)
    requires Honest(s) && (e.SendAttempted? ==> Typeable(e.kind))
    ensures Honest(Logged(s, e))
  {
    LedgerHonestAppend(s.memory, s.log, e);
    LedgerHonestAppend(s.disk, s.log, e);
    forall tid | tid in s.threads ensures ThreadHonest(s.threads[tid], s.log + [e]) {
      ThreadHonestAppend(s.threads[tid], s.log, e);
    }
  }

  // ----- writes

  lemma LedgerHonestAfter(l: Ledger, op: Op, log: seq<Entry>)
    requires LedgerHonest(l, log)
    requires !op.Escalate? && op.record.phase.Succeeded? ==> Earned(log, op.record.key)
    ensures LedgerHonest(After(l, op), log)
  {
    forall t ensures AllEarned(History(After(l, op), t), log) {
      AfterHistory(l, op, t);
      assert AllEarned(History(l, t), log);
    }
  }

  lemma StoredIsHonest(s: System, op: Op, w: Write)
    requires Honest(s) && (op.Claim? ==> op.record.phase.Prepared?)
    requires !op.Escalate? && op.record.phase.Succeeded? ==> Earned(s.log, op.record.key)
    ensures Honest(Stored(s, op, w))
  {
    LedgerHonestAfter(s.memory, op, s.log);
  }

  lemma MoveIsHonest(s: System, tid: nat, th: Thread)
    requires Honest(s) && ThreadHonest(th, s.log)
    ensures Honest(SetThread(s, tid, th))
  {
  }

  lemma OwnWriteHonest(th: Thread, l: Ledger, w: Write, log: seq<Entry>)
    requires Writes(th.pc) && ThreadOk(th) && ThreadHonest(th, log)
    ensures var op := OpOf(th);
            && (op.Claim? ==> op.record.phase.Prepared?)
            && (!op.Escalate? && op.record.phase.Succeeded? ==> Earned(log, op.record.key))
    ensures ThreadHonest(AfterWrite(th, l, w), log)
  {
    hide Accepts, Earned, SendLogged;
  }

  lemma WriteIsHonest(s: System, tid: nat, w: Write)
    requires Safe(s) && Honest(s) && Enabled(s, StoreWrite(tid, w))
    ensures Honest(Apply(s, StoreWrite(tid, w)))
  {
    var th := s.threads[tid];
    assert ThreadSafe(th, s.memory.idempotency, s.log);
    OwnWriteHonest(th, s.memory, w, s.log);
    StoredIsHonest(s, OpOf(th), w);
    MoveIsHonest(Stored(s, OpOf(th), w), tid, AfterWrite(th, s.memory, w));
  }

  // ----- the other steps

  lemma InvokeIsHonest(s: System, tid: nat)
    requires Honest(s) && Enabled(s, Invoke(tid))
    ensures Honest(Apply(s, Invoke(tid)))
  {
    var th := s.threads[tid];
    var e := Invoked(th.record.key, th.record.target, th.action, th.baseline);
    assert ThreadHonest(th, s.log);
    LoggedIsHonest(s, e);
    assert (s.log + [e])[|s.log|] == e;
    MoveIsHonest(Logged(s, e), tid, th.(pc := Executing(false)));
  }

  lemma SendIsHonest(s: System, tid: nat)
    requires Honest(s) && Enabled(s, AttemptSend(tid))
    ensures Honest(Apply(s, AttemptSend(tid)))
  {
    var th := s.threads[tid];
    var e := SendAttempted(th.record.key, th.action.kind);
    assert ThreadHonest(th, s.log);
    LoggedIsHonest(s, e);
    SendLoggedAppend(s.log, e, th.record.key);
    MoveIsHonest(Logged(s, e), tid, th.(pc := Executing(true)));
  }

  lemma ProvedIsEarned(th: Thread, log: seq<Entry>, after: LiveEvidence)
    requires ThreadHonest(th, log) && th.pc.Polling? && PollVerifies(th, Ok(after))
    ensures Earned(log + [Proved(th.record.key, after)], th.record.key)
  {
    var more := log + [Proved(th.record.key, after)];
    var e := Invoked(th.record.key, th.record.target, th.action, th.baseline);
    var i :| 0 <= i < |log| && log[i] == e;
    Readings.VerifiesExactly(th.action, th.baseline, after);
    assert more[i] == e && more[..|log|] == log;
    assert Proves(more, i, |log|);
  }

  lemma PollIsHonest(s: System, tid: nat, reading: Reading, expired: bool)
    requires Honest(s) && Enabled(s, Poll(tid, reading, expired))
    ensures Honest(Apply(s, Poll(tid, reading, expired)))
  {
    var th := s.threads[tid];
    var moved := AfterPoll(th, reading, expired);
    assert ThreadHonest(th, s.log);
    if PollVerifies(th, reading) {
      var e := Proved(th.record.key, reading.value);
      LoggedIsHonest(s, e);
      ThreadHonestAppend(th, s.log, e);
      ProvedIsEarned(th, s.log, reading.value);
      MoveIsHonest(Logged(s, e), tid, moved);
    } else {
      MoveIsHonest(s, tid, moved);
    }
  }

  lemma ReceiptIsHonest(s: System, tid: nat)
    requires Honest(s) && Enabled(s, CheckReceipt(tid))
    ensures Honest(Apply(s, CheckReceipt(tid)))
  {
    var th := s.threads[tid];
    assert ThreadHonest(th, s.log);
    Readings.AwaitsIsTested(th.action);
    if !NeedsProgress(th.action) {
      var e := Invoked(th.record.key, th.record.target, th.action, th.baseline);
      var i :| 0 <= i < |s.log| && s.log[i] == e;
      assert Earned(s.log, th.record.key);
    }
    MoveIsHonest(s, tid, AfterReceipt(th));
  }

  lemma ReturnIsHonest(s: System, tid: nat, outcome: Outcome, summary: string)
    requires Honest(s) && Enabled(s, Return(tid, outcome, summary))
    ensures Honest(Apply(s, Return(tid, outcome, summary)))
  {
    assert ThreadHonest(s.threads[tid], s.log);
    MoveIsHonest(s, tid, AfterReturn(s.threads[tid], outcome, summary));
  }

  lemma ConfirmIsHonest(s: System, tid: nat, reading: Reading)
    requires Honest(s) && Enabled(s, Confirm(tid, reading))
    ensures Honest(Apply(s, Confirm(tid, reading)))
  {
    assert ThreadHonest(s.threads[tid], s.log);
    MoveIsHonest(s, tid, AfterConfirm(s.threads[tid], reading));
  }

  lemma StartIsHonest(s: System, step: Step)
    requires Honest(s) && step.Start? && Admitted(step) && Enabled(s, step)
    ensures Honest(Apply(s, step))
  {
    if IsInput(step.action.kind) {
      AuthorizedInput(step.action, ContextFor(step.baseline, step.context, step.wall));
    }
    MoveIsHonest(s, step.tid, Apply(s, step).threads[step.tid]);
  }

  lemma ClosingIsHonest(s: System, step: Step)
    requires Honest(s) && Enabled(s, step)
    requires step.ScanRead? || step.ScanClose? || step.RecoverAfterRestart?
    ensures Honest(Apply(s, step))
  {
    if step.ScanClose? {
      StoredIsHonest(s, Append(s.scans[step.sid].target, StaleClose(s.scans[step.sid].record)), step.w);
    } else if step.RecoverAfterRestart? {
      StoredIsHonest(s, Append(step.target, RestartClose(s.memory.active[step.target])), step.w);
    }
  }

  lemma DaemonIsHonest(s: System, step: Step)
    requires Honest(s) && Quiet(s) && Enabled(s, step)
    requires step.Crash? || step.Restart? || step.Serve?
    ensures Honest(Apply(s, step))
  {
  }

  lemma StepIsHonest(s: System, step: Step)
    requires Safe(s) && Honest(s) && Quiet(s) && Admitted(step) && Enabled(s, step)
    ensures Honest(Apply(s, step))
  {
    hide Safe, Honest, Apply, Admitted;
    match step {
      case Start(_, _, _, _, _, _, _, _, _) => StartIsHonest(s, step);
      case StoreWrite(tid, w) => WriteIsHonest(s, tid, w);
      case Confirm(tid, reading) => ConfirmIsHonest(s, tid, reading);
      case Invoke(tid) => InvokeIsHonest(s, tid);
      case AttemptSend(tid) => SendIsHonest(s, tid);
      case Return(tid, outcome, summary) => ReturnIsHonest(s, tid, outcome, summary);
      case CheckReceipt(tid) => ReceiptIsHonest(s, tid);
      case Poll(tid, reading, expired) => PollIsHonest(s, tid, reading, expired);
      case ScanRead(_, _, _, _) => ClosingIsHonest(s, step);
      case ScanClose(_, _) => ClosingIsHonest(s, step);
      case RecoverAfterRestart(_, _) => ClosingIsHonest(s, step);
      case _ => DaemonIsHonest(s, step);
    }
  }

  lemma {:induction false} RunIsHonest(s: System, steps: seq<Step>)
    requires Safe(s) && Honest(s) && Quiet(s) && Runs(s, steps)
    ensures Honest(End(s, steps))
    decreases |steps|
  {
    hide Safe, Honest, Apply, Admitted, Enabled;
    if steps != [] {
      StepIsSafe(s, steps[0]);
      StepIsHonest(s, steps[0]);
      RunIsHonest(Apply(s, steps[0]), steps[1..]);
    }
  }

  // ----- main results

  /**
   A Succeeded record, in memory or on disk, belongs to an executed action; if that action
   types input, a reading taken after its send proved it.
   */
  lemma {:induction false} SuccessIsEarned(s: System, steps: seq<Step>, t: string, i: int)
    requires Initial(s) && Runs(s, steps)
    ensures var h := History(End(s, steps).memory, t);
            0 <= i < |h| && h[i].phase.Succeeded? ==> Earned(End(s, steps).log, h[i].key)
    ensures var h := History(End(s, steps).disk, t);
            0 <= i < |h| && h[i].phase.Succeeded? ==> Earned(End(s, steps).log, h[i].key)
  {
    InitialIsSafe(s);
    RunIsHonest(s, steps);
    assert AllEarned(History(End(s, steps).memory, t), End(s, steps).log);
    assert AllEarned(History(End(s, steps).disk, t), End(s, steps).log);
  }

  /** Whatever a run types is one of four literals or a key from the actuator's table. */
  lemma {:induction false} OnlyAllowedInput(s: System, steps: seq<Step>)
    requires Initial(s) && Runs(s, steps)
    ensures OnlySafeInput(End(s, steps).log)
  {
    InitialIsSafe(s);
    RunIsHonest(s, steps);
  }
}
