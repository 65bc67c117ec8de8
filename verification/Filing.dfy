/**
 Every record the ledger ever holds can be traced to the transaction that prepared it: its key,
 target, evidence and lease are those of one start in the run. A stale-lease scan therefore
 reads nothing that was prepared less than thirty seconds before.
 */
module Filing {
  import opened Wrappers
  import opened Evidence
  import opened Ledger
  import opened Protocol

  /** The record is of the transaction that started at place `i` of the run. */
  predicate Of(r: Record, past: seq<Step>, i: nat) {
    && i < |past| && past[i].Start?
    && var start := past[i];
       && r.target == start.target && r.actionId == start.action.actionId
       && r.key == start.target + ":" + start.action.actionId + ":" + start.baseline.event.fingerprint
       && r.identity == start.baseline.identity && r.fingerprint == start.baseline.event.fingerprint
       && r.preparedAt == start.now && r.snapshot == start.snapshot
       && r.leaseDeadline == Min(start.now + 30_000, 18_446_744_073_709_551_615)
  }

  predicate Traced(r: Record, past: seq<Step>) {
    exists i: nat :: i < |past| && Of(r, past, i)
  }

  predicate AllTraced(h: seq<Record>, past: seq<Step>) {
    forall i :: 0 <= i < |h| ==> Traced(h[i], past)
  }

  ghost predicate LedgerTraced(l: Ledger, past: seq<Step>) {
    && (forall t :: AllTraced(History(l, t), past))
    && (forall t :: t in l.active ==> Traced(l.active[t], past))
  }

  ghost predicate SystemTraced(s: System, past: seq<Step>) {
    && LedgerTraced(s.memory, past) && LedgerTraced(s.disk, past)
    && (forall tid :: tid in s.threads ==> Traced(s.threads[tid].record, past))
    && (forall sid :: sid in s.scans ==> Traced(s.scans[sid].record, past))
  }

  // ----- more steps

  lemma TracedAppend(r: Record, past: seq<Step>, step: Step)
    requires Traced(r, past)
    ensures Traced(r, past + [step])
  {
    var i: nat :| i < |past| && Of(r, past, i);
    assert (past + [step])[i] == past[i];
    assert Of(r, past + [step], i);
  }

  lemma LedgerAppend(l: Ledger, past: seq<Step>, step: Step)
    requires LedgerTraced(l, past)
    ensures LedgerTraced(l, past + [step])
  {
    hide Traced;
    forall t ensures AllTraced(History(l, t), past + [step]) {
      var h := History(l, t);
      assert AllTraced(h, past);
      forall i | 0 <= i < |h| ensures Traced(h[i], past + [step]) {
        TracedAppend(h[i], past, step);
      }
    }
    forall t | t in l.active ensures Traced(l.active[t], past + [step]) {
      TracedAppend(l.active[t], past, step);
    }
  }

  lemma SystemAppend(s: System, past: seq<Step>, step: Step)
    requires SystemTraced(s, past)
    ensures SystemTraced(s, past + [step])
  {
    hide Traced, LedgerTraced;
    LedgerAppend(s.memory, past, step);
    LedgerAppend(s.disk, past, step);
    forall tid | tid in s.threads ensures Traced(s.threads[tid].record, past + [step]) {
      TracedAppend(s.threads[tid].record, past, step);
    }
    forall sid | sid in s.scans ensures Traced(s.scans[sid].record, past + [step]) {
      TracedAppend(s.scans[sid].record, past, step);
    }
  }

  // ----- records that follow a traced one

  /** A record of the same transaction, in another phase, with another reason or output. */
  predicate SameFile(a: Record, b: Record) {
    b == a.(phase := b.phase, reason := b.reason, output := b.output)
  }

  lemma SameFileTraced(a: Record, b: Record, past: seq<Step>)
    requires Traced(a, past) && SameFile(a, b)
    ensures Traced(b, past)
  {
    var i: nat :| i < |past| && Of(a, past, i);
    assert Of(b, past, i);
  }

  lemma AddedTraced(op: Op, past: seq<Step>)
    requires Traced(op.record, past)
    ensures AllTraced(Added(op), past)
  {
    forall i | 0 <= i < |Added(op)| ensures Traced(Added(op)[i], past) {
      SameFileTraced(op.record, Added(op)[i], past);
    }
  }

  lemma AfterTraced(l: Ledger, op: Op, past: seq<Step>)
    requires LedgerTraced(l, past) && Traced(op.record, past)
    ensures LedgerTraced(After(l, op), past)
  {
    AddedTraced(op, past);
    hide Traced, Added;
    forall t ensures AllTraced(History(After(l, op), t), past) {
      AfterHistory(l, op, t);
      assert AllTraced(History(l, t), past);
    }
  }

  lemma StoredTraced(s: System, op: Op, w: Write, past: seq<Step>)
    requires SystemTraced(s, past) && Traced(op.record, past)
    ensures SystemTraced(Stored(s, op, w), past)
  {
    hide Traced, LedgerTraced, After, Accepts;
    AfterTraced(s.memory, op, past);
  }

  // ----- the steps

  lemma ThreadFiles(th: Thread, l: Ledger, w: Write)
    requires Writes(th.pc)
    ensures SameFile(th.record, OpOf(th).record) && SameFile(th.record, AfterWrite(th, l, w).record)
  {
    hide Accepts;
  }

  lemma StartTraced(past: seq<Step>, step: Step, owner: Owner)
    requires step.Start?
    ensures Traced(PreparedRecord(step.target, owner, step.action, step.baseline, step.now, step.snapshot), past + [step])
  {
    var r := PreparedRecord(step.target, owner, step.action, step.baseline, step.now, step.snapshot);
    assert Of(r, past + [step], |past|);
  }

  lemma SetTraced(s: System, past: seq<Step>, tid: nat, th: Thread)
    requires SystemTraced(s, past) && Traced(th.record, past)
    ensures SystemTraced(SetThread(s, tid, th), past)
  {
    hide Traced, LedgerTraced;
  }

  lemma LoggedTraced(s: System, past: seq<Step>, e: Entry)
    requires SystemTraced(s, past)
    ensures SystemTraced(Logged(s, e), past)
  {
    hide Traced, LedgerTraced;
  }

  lemma ThreadTraced(s: System, past: seq<Step>, tid: nat, next: Record)
    requires SystemTraced(s, past) && tid in s.threads && SameFile(s.threads[tid].record, next)
    ensures Traced(next, past)
  {
    hide Traced, LedgerTraced;
    SameFileTraced(s.threads[tid].record, next, past);
  }

  lemma WriteTraced(s: System, past: seq<Step>, tid: nat, w: Write)
    requires SystemTraced(s, past) && Enabled(s, StoreWrite(tid, w))
    ensures SystemTraced(Apply(s, StoreWrite(tid, w)), past)
  {
    hide Traced, SystemTraced, AfterWrite, OpOf, Stored, SetThread, SameFile;
    var th := s.threads[tid];
    ThreadFiles(th, s.memory, w);
    ThreadTraced(s, past, tid, OpOf(th).record);
    ThreadTraced(s, past, tid, AfterWrite(th, s.memory, w).record);
    StoredTraced(s, OpOf(th), w, past);
    SetTraced(Stored(s, OpOf(th), w), past, tid, AfterWrite(th, s.memory, w));
  }

  predicate Moves(step: Step) {
    step.Confirm? || step.Invoke? || step.AttemptSend? || step.Return? || step.CheckReceipt? || step.Poll?
  }

  lemma MoveFiles(s: System, step: Step)
    requires Enabled(s, step) && Moves(step)
    ensures var th := Apply(s, step).threads[step.tid];
      && SameFile(s.threads[step.tid].record, th.record)
      && (Apply(s, step) == SetThread(s, step.tid, th)
          || exists e :: Apply(s, step) == Logged(SetThread(s, step.tid, th), e))
  {
    hide Revalidate, Verified, ReceiptOutcomesHold, NeedsProgress;
  }

  lemma MoveTraced(s: System, past: seq<Step>, step: Step)
    requires SystemTraced(s, past) && Enabled(s, step) && Moves(step)
    ensures SystemTraced(Apply(s, step), past)
  {
    MoveFiles(s, step);
    hide SystemTraced, Traced, Apply, SetThread, Logged, SameFile;
    var th := Apply(s, step).threads[step.tid];
    ThreadTraced(s, past, step.tid, th.record);
    SetTraced(s, past, step.tid, th);
    if e :| Apply(s, step) == Logged(SetThread(s, step.tid, th), e) {
      LoggedTraced(SetThread(s, step.tid, th), past, e);
    }
  }

  lemma ScanTraced(s: System, past: seq<Step>, sid: nat, w: Write)
    requires SystemTraced(s, past) && Enabled(s, ScanClose(sid, w))
    ensures SystemTraced(Apply(s, ScanClose(sid, w)), past)
  {
    hide Traced, LedgerTraced, StaleClose;
    var scan := s.scans[sid];
    assert SameFile(scan.record, StaleClose(scan.record)) by { ClosesFiles(scan.record); }
    SameFileTraced(scan.record, StaleClose(scan.record), past);
    StoredTraced(s, Append(scan.target, StaleClose(scan.record)), w, past);
  }

  lemma RecoverTraced(s: System, past: seq<Step>, target: string, w: Write)
    requires SystemTraced(s, past) && Enabled(s, RecoverAfterRestart(target, w))
    ensures SystemTraced(Apply(s, RecoverAfterRestart(target, w)), past)
  {
    hide Traced, RestartClose, Stored;
    var r := s.memory.active[target];
    assert SameFile(r, RestartClose(r)) by { ClosesFiles(r); }
    SameFileTraced(r, RestartClose(r), past);
    StoredTraced(s, Append(target, RestartClose(r)), w, past);
  }

  lemma ClosesFiles(r: Record)
    ensures SameFile(r, StaleClose(r)) && SameFile(r, RestartClose(r))
  {
  }

  lemma ReadTraced(s: System, past: seq<Step>, step: Step)
    requires SystemTraced(s, past) && step.ScanRead? && Enabled(s, step)
    ensures SystemTraced(Apply(s, step), past)
  {
    hide Traced;
  }

  lemma StepTraced(s: System, past: seq<Step>, step: Step)
    requires SystemTraced(s, past) && Enabled(s, step)
    ensures SystemTraced(Apply(s, step), past + [step])
  {
    hide Traced, LedgerTraced;
    if step.Start? {
      SystemAppend(s, past, step);
      StartTraced(past, step, s.owner);
    } else if step.Crash? || step.Restart? || step.Serve? {
      SystemAppend(s, past, step);
    } else {
      hide Apply, Enabled, SystemTraced;
      if step.StoreWrite? {
        WriteTraced(s, past, step.tid, step.w);
      } else if step.ScanRead? {
        ReadTraced(s, past, step);
      } else if step.ScanClose? {
        ScanTraced(s, past, step.sid, step.w);
      } else if step.RecoverAfterRestart? {
        RecoverTraced(s, past, step.target, step.w);
      } else {
        MoveTraced(s, past, step);
      }
      SystemAppend(Apply(s, step), past, step);
    }
  }

  lemma {:induction false} RunTraced(s: System, past: seq<Step>, steps: seq<Step>)
    requires SystemTraced(s, past) && Runs(s, steps)
    ensures SystemTraced(End(s, steps), past + steps)
    decreases |steps|
  {
    hide SystemTraced, Apply, Enabled, Admitted;
    if steps == [] {
      assert past + steps == past;
    } else {
      StepTraced(s, past, steps[0]);
      RunTraced(Apply(s, steps[0]), past + [steps[0]], steps[1..]);
      assert (past + [steps[0]]) + steps[1..] == past + steps;
    }
  }

  // ----- main results

  /** In every run each record, in memory or on disk, is of a transaction that was started in it. */
  lemma EveryRecordIsTraced(s: System, steps: seq<Step>, t: string, i: nat)
    requires Initial(s) && Runs(s, steps)
    ensures i < |History(End(s, steps).memory, t)| ==> Traced(History(End(s, steps).memory, t)[i], steps)
    ensures i < |History(End(s, steps).disk, t)| ==> Traced(History(End(s, steps).disk, t)[i], steps)
  {
    RunTraced(s, [], steps);
    assert [] + steps == steps;
    hide Traced, Runs, End;
    assert AllTraced(History(End(s, steps).memory, t), steps);
    assert AllTraced(History(End(s, steps).disk, t), steps);
  }

  /** A scan reads only what was prepared more than thirty seconds before, by an owner that is not found. */
  lemma LeaseProtects(s: System, steps: seq<Step>, scan: Step)
    requires Initial(s) && Runs(s, steps) && scan.ScanRead? && Enabled(End(s, steps), scan)
    requires scan.now <= 18_446_744_073_709_551_615
    ensures var r := End(s, steps).memory.active[scan.target];
      && r.owner !in scan.probe && r.preparedAt + 30_000 < scan.now
      && exists i: nat :: i < |steps| && Of(r, steps, i)
  {
    RunTraced(s, [], steps);
    assert [] + steps == steps;
    var r := End(s, steps).memory.active[scan.target];
    assert Traced(r, steps);
    var i: nat :| i < |steps| && Of(r, steps, i);
  }
}
