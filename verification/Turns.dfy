/**
 Where each event takes a transaction, failures included: what a reading, a return, a receipt or
 a write leads to, over the fields of what happened.
 */
module Turns {
  import opened Wrappers
  import opened Evidence
  import opened Ledger
  import opened Protocol
  import opened Readings

  /** The transaction moves on and is otherwise as it was. */
  predicate GoesTo(th: Thread, next: Thread, pc: Pc) {
    next == th.(pc := pc)
  }

  /** After the claim: a clear reading of the same source lets it begin; any other is why it is rejected. */
  lemma ConfirmTurns(th: Thread, reading: Reading)
    ensures var next := AfterConfirm(th, reading);
      if reading.Err? then GoesTo(th, next, Rejecting(Store(ReadFailed(reading.error))))
      else if Clear(th.action, reading.value) && SameSource(th.confirmed, reading.value) then GoesTo(th, next, Beginning)
      else
        && next.pc.Rejecting? && GoesTo(th, next, next.pc) && next.pc.error.Revalidation?
        && Tells(next.pc.error.objection, th.action, Some(th.confirmed), reading.value)
  {
    hide Revalidate, Clear, Tells;
    RevalidatesExactly(th.action, Some(th.confirmed), reading);
    if Revalidate(th.action, Some(th.confirmed), reading).Err? {
      ObjectionsAreTrue(th.action, Some(th.confirmed), reading);
    }
  }

  /** The executor's word is taken: done, possibly done, or not done. */
  lemma ReturnTurns(th: Thread, outcome: Outcome, summary: string)
    ensures var next := AfterReturn(th, outcome, summary);
      && (outcome.Ok? ==>
            next == th.(record := th.record.(output := Some(summary)), pc := Recording(outcome.value)))
      && (forall why :: outcome == Err(PossibleSideEffect(why)) ==> GoesTo(th, next, Escalating(SideEffectPossible(why))))
      && (forall why :: outcome == Err(Unsafe(why)) ==> GoesTo(th, next, Rejecting(Execution(Unsafe(why)))))
      && (forall why :: outcome == Err(Integration(why)) ==> GoesTo(th, next, Rejecting(Execution(Integration(why)))))
  {
  }

  /** Without its receipt a send is uncertain; with it, the transaction waits for progress if it awaits any. */
  lemma ReceiptTurns(th: Thread)
    requires th.pc.Receipting?
    ensures GoesTo(th, AfterReceipt(th),
      if !Receipted(th.action, th.pc.output) then Escalating(ReceiptMissing)
      else if AwaitsProgress(th.action) then StartingPoll else Completing(NonInputCompleted))
  {
    hide ReceiptOutcomesHold, NeedsProgress, Receipted, AwaitsProgress;
    ReceiptIsTested(th.action, th.pc.output);
    AwaitsIsTested(th.action);
  }

  /** A poll fails, finds somebody or something else, proves success, is the last one, or is followed by another. */
  lemma PollTurns(th: Thread, reading: Reading, expired: bool)
    ensures var next := AfterPoll(th, reading, expired);
      if reading.Err? then GoesTo(th, next, Escalating(EvidenceUnavailable(reading.error)))
      else if reading.value.humanIntervened || reading.value.identity != th.baseline.identity then
        GoesTo(th, next, Escalating(InterventionOrIdentity))
      else if Proof(th.action, th.baseline, reading.value) then GoesTo(th, next, Completing(OutcomeVerified))
      else if expired then GoesTo(th, next, Escalating(TimedOut))
      else next == th
  {
    hide Verified, Proof;
    if reading.Ok? {
      VerifiesExactly(th.action, th.baseline, reading.value);
    }
  }

  // ----- writes

  /** The ledger is as the write expects it: free for a claim, else held by this action under this key. */
  predicate Fitting(th: Thread, l: Ledger) {
    var r := th.record;
    if th.pc.Claiming? then r.target !in l.active && r.key !in l.idempotency
    else r.target in l.active && l.active[r.target].key == r.key && l.active[r.target].actionId == r.actionId
  }

  /** Why a write that was not acknowledged failed. */
  predicate Failed(th: Thread, l: Ledger, fault: Fault) {
    if Fitting(th, l) then fault == WriteLost
    else if th.record.target in l.active then fault == CasMismatch
    else fault == NoActiveTransaction
  }

  /** The record of the next phase, for the reason that goes with it. */
  predicate Writ(th: Thread, r: Record, phase: Phase, reason: Reason) {
    r == th.record.(phase := phase, reason := reason)
  }

  /** An acknowledged write takes the transaction one stage on, with the record it wrote. */
  lemma AcknowledgedTurns(th: Thread, l: Ledger, w: Write)
    requires Writes(th.pc) && Fitting(th, l) && w.Durable?
    ensures var next := AfterWrite(th, l, w);
      && next == th.(record := next.record, pc := next.pc)
      && match th.pc
         case Claiming => next.record == th.record && next.pc == Confirming
         case Beginning => Writ(th, next.record, Begun, CommitBoundary) && next.pc == Ready
         case Recording(output) => Writ(th, next.record, Sent, ExecutorCompleted) && next.pc == Receipting(output)
         case StartingPoll => Writ(th, next.record, Phase.Verifying, PollingOutcomes) && next.pc == Polling
         case Completing(reason) => Writ(th, next.record, Succeeded, reason) && next.pc == Done(Ok(next.record))
         case Rejecting(error) => Writ(th, next.record, Phase.Failed, Rejected(error)) && next.pc == Done(Err(error))
         case Escalating(cause) => next.record == th.record && next.pc == Done(Err(UncertainOutcome(cause)))
  {
  }

  /** A write that is refused or lost ends the transaction, unless something was sent: that is handed to a human. */
  lemma LostTurns(th: Thread, l: Ledger, w: Write)
    requires Writes(th.pc) && !(Fitting(th, l) && w.Durable?)
    ensures var pc := AfterWrite(th, l, w).pc;
      && GoesTo(th, AfterWrite(th, l, w), pc)
      && match th.pc
         case Claiming => pc == Done(Err(if Fitting(th, l) then Store(WriteLost) else Duplicate))
         case Recording(_) => exists f :: Failed(th, l, f) && pc == Escalating(SentNotRecorded(f))
         case StartingPoll => exists f :: Failed(th, l, f) && pc == Escalating(VerifyingNotRecorded(f))
         case _ => exists f :: Failed(th, l, f) && pc == Done(Err(Store(f)))
  {
    var f := FaultOf(l, OpOf(th));
    assert !th.pc.Claiming? ==> Failed(th, l, f);
  }

  // ----- the daemon

  /** It can die at any time, and then only the disk, and what was done, is left. */
  lemma CrashTurns(s: System)
    ensures Enabled(s, Crash) <==> s.mode != Halted
    ensures Enabled(s, Crash) ==> Apply(s, Crash) == System(s.memory, s.disk, Halted, s.owner, map[], map[], s.log)
  {
  }

  /** It starts again from disk, as another owner, and closes what it finds open before it serves. */
  lemma RestartTurns(s: System, owner: Owner)
    ensures Enabled(s, Restart(owner)) <==> s.mode == Halted
    ensures Enabled(s, Restart(owner)) ==>
      Apply(s, Restart(owner)) == System(s.disk, s.disk, Booting, owner, s.threads, s.scans, s.log)
    ensures Enabled(s, Serve) <==> s.mode == Booting
    ensures Enabled(s, Serve) ==> Apply(s, Serve) == s.(mode := Serving)
  {
  }

  /** The target's audit is longer by the record as closed, and the target is free. */
  predicate Closed(l: Ledger, after: Ledger, target: string, r: Record, phase: Phase, reason: Reason) {
    && after.audit == l.audit[target := History(l, target) + [r.(phase := phase, reason := reason)]]
    && after.active == l.active - {target} && after.idempotency == l.idempotency
  }

  /** What was only prepared has failed; anything later is for a human. */
  function Closing(r: Record): Phase {
    if r.phase == Prepared then Phase.Failed else HumanRequired
  }

  lemma RecoveryTurns(s: System, target: string, w: Write)
    ensures Enabled(s, RecoverAfterRestart(target, w)) <==> s.mode == Booting && target in s.memory.active
    ensures Enabled(s, RecoverAfterRestart(target, w)) ==>
      var r, end := s.memory.active[target], Apply(s, RecoverAfterRestart(target, w));
      && end == s.(memory := end.memory, disk := end.disk)
      && if w.Durable? then
           && end.disk == end.memory
           && Closed(s.memory, end.memory, target, r, Closing(r),
                     if r.phase == Prepared then RestartBeforeSideEffect else RestartAfterCommit)
         else end.memory == s.memory
  {
  }

  /** A scan notes an active record whose lease has run out and whose owner is not found. */
  lemma ScanTurns(s: System, sid: nat, target: string, probe: set<Owner>, now: nat)
    ensures Enabled(s, ScanRead(sid, target, probe, now)) <==>
      && s.mode == Serving && sid !in s.scans && target in s.memory.active
      && now > s.memory.active[target].leaseDeadline && s.memory.active[target].owner !in probe
    ensures Enabled(s, ScanRead(sid, target, probe, now)) ==>
      Apply(s, ScanRead(sid, target, probe, now)) == s.(scans := s.scans[sid := Scan(target, s.memory.active[target])])
  {
  }

  /** It closes what it noted, if the target is still held under that key, in whatever phase by now. */
  lemma ScanCloseTurns(s: System, sid: nat, w: Write)
    ensures Enabled(s, ScanClose(sid, w)) <==> s.mode == Serving && sid in s.scans
    ensures Enabled(s, ScanClose(sid, w)) ==>
      var scan, end := s.scans[sid], Apply(s, ScanClose(sid, w));
      var held := scan.target in s.memory.active && s.memory.active[scan.target].key == scan.record.key
                  && s.memory.active[scan.target].actionId == scan.record.actionId;
      && end == s.(memory := end.memory, disk := end.disk, scans := s.scans - {sid})
      && if held && w.Durable? then
           end.disk == end.memory
           && Closed(s.memory, end.memory, scan.target, scan.record, Closing(scan.record), LeaseExpired)
         else end.memory == s.memory
  {
  }
}
