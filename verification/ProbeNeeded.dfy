/** Exactly how good the process probe must be: it must recognise the live owner, whenever a scan asks. */
module ProbeNeeded {
  import opened Wrappers
  import opened Model
  import opened Policy
  import opened Evidence
  import opened Ledger
  import opened Protocol
  import opened NoBlindRetry
  import Sample

  /** Which answers a probe may give while the daemon that asks is `owner`. */
  type Probes = (Owner, set<Owner>) -> bool

  predicate Within(s: System, step: Step, probes: Probes) {
    step.ScanRead? ==> probes(s.owner, step.probe)
  }

  predicate ProbesWithin(s: System, steps: seq<Step>, probes: Probes)
    requires Runs(s, steps)
    decreases |steps|
  {
    steps == [] || (Within(s, steps[0], probes) && ProbesWithin(Apply(s, steps[0]), steps[1..], probes))
  }

  lemma {:induction false} Extend(s: System, steps: seq<Step>, step: Step, probes: Probes)
    requires Runs(s, steps) && ProbesWithin(s, steps, probes)
    requires Admitted(step) && Enabled(End(s, steps), step) && Within(End(s, steps), step, probes)
    ensures Runs(s, steps + [step]) && ProbesWithin(s, steps + [step], probes)
    ensures End(s, steps + [step]) == Apply(End(s, steps), step)
    decreases |steps|
  {
    hide Enabled, Apply, Admitted, Within;
    var more := steps + [step];
    if steps == [] {
      assert more[1..] == [];
    } else {
      assert more[0] == steps[0] && more[1..] == steps[1..] + [step];
      Extend(Apply(s, steps[0]), steps[1..], step, probes);
    }
  }

  lemma NoProbes(s: System, probes: Probes)
    ensures Runs(s, []) && End(s, []) == s && ProbesWithin(s, [], probes)
  {
  }

  ghost predicate SentThenFailed(s: System) {
    exists k, t :: SendLogged(s.log, k) && HasPhase(History(s.memory, t), k, Failed)
  }

  predicate Confirmable(th: Thread) {
    Revalidate(th.action, Some(th.confirmed), Ok(th.confirmed)).Ok?
  }

  /** A transaction has claimed `r`, which a scan has read and not yet closed. */
  predicate ClaimedAndRead(s: System, r: Record) {
    && s.mode.Serving? && 0 in s.threads && 0 in s.scans
    && s.threads[0].record == r && s.threads[0].pc.Confirming? && r.phase.Prepared?
    && IsInput(s.threads[0].action.kind) && Confirmable(s.threads[0])
    && s.scans[0] == Scan(r.target, r)
    && r.target in s.memory.active && s.memory.active[r.target] == r
  }

  /** The same transaction has since crossed its commit boundary. */
  predicate CommittedAndRead(s: System, r: Record) {
    && s.mode.Serving? && 0 in s.threads && 0 in s.scans
    && s.threads[0].record == r.Next(Begun, CommitBoundary) && s.threads[0].pc.Ready? && r.phase.Prepared?
    && IsInput(s.threads[0].action.kind)
    && s.scans[0] == Scan(r.target, r)
    && Holds(s.memory, r.target, r)
  }

  lemma ReachClaimed(s: System, start: Step, owner: Owner, probe: set<Owner>, probes: Probes)
    returns (steps: seq<Step>, r: Record)
    requires Initial(s) && start.Start? && start.tid == 0 && Admitted(start) && IsInput(start.action.kind)
    requires probes(owner, probe) && owner !in probe
    ensures Runs(s, steps) && ProbesWithin(s, steps, probes) && ClaimedAndRead(End(s, steps), r)
  {
    hide Revalidate, Authorize, ActuatorAccepts, ContextFor, Runs, End, KeyFor, ProbesWithin;
    var late := start.now + LEASE_MS + 1;
    var scan := ScanRead(0, start.target, probe, late);
    r := PreparedRecord(start.target, owner, start.action, start.baseline, start.now, start.snapshot);
    NoProbes(s, probes);
    Extend(s, [], Restart(owner), probes);
    Extend(s, [] + [Restart(owner)], Serve, probes);
    Extend(s, [] + [Restart(owner)] + [Serve], start, probes);
    steps := [] + [Restart(owner)] + [Serve] + [start];
    Extend(s, steps, StoreWrite(0, Durable), probes);
    steps := steps + [StoreWrite(0, Durable)];
    Extend(s, steps, scan, probes);
    steps := steps + [scan];
    assert Confirmable(End(s, steps).threads[0]) by { SelfConfirms(start); }
  }

  lemma SelfConfirms(start: Step)
    requires start.Start? && Admitted(start)
    ensures Revalidate(start.action, Some(start.confirmed), Ok(start.confirmed)).Ok?
  {
    hide Authorize, ActuatorAccepts, ContextFor, ActionFingerprint, ResumeSessionChanged;
  }

  lemma ReachCommitted(s: System, before: seq<Step>, r: Record, probes: Probes) returns (steps: seq<Step>)
    requires Runs(s, before) && ProbesWithin(s, before, probes) && ClaimedAndRead(End(s, before), r)
    ensures Runs(s, steps) && ProbesWithin(s, steps, probes) && CommittedAndRead(End(s, steps), r)
  {
    hide Revalidate, Runs, End, ProbesWithin;
    var live := End(s, before).threads[0].confirmed;
    Extend(s, before, Confirm(0, Ok(live)), probes);
    steps := before + [Confirm(0, Ok(live))];
    Extend(s, steps, StoreWrite(0, Durable), probes);
    steps := steps + [StoreWrite(0, Durable)];
  }

  lemma ReachFailed(s: System, before: seq<Step>, r: Record, probes: Probes) returns (steps: seq<Step>)
    requires Runs(s, before) && ProbesWithin(s, before, probes) && CommittedAndRead(End(s, before), r)
    ensures Runs(s, steps) && ProbesWithin(s, steps, probes) && SentThenFailed(End(s, steps))
  {
    hide Runs, End, ProbesWithin;
    Extend(s, before, Invoke(0), probes);
    steps := before + [Invoke(0)];
    Extend(s, steps, AttemptSend(0), probes);
    steps := steps + [AttemptSend(0)];
    Extend(s, steps, ScanClose(0, Durable), probes);
    steps := steps + [ScanClose(0, Durable)];
    var end := End(s, steps);
    var h := History(end.memory, r.target);
    assert end.log[|end.log| - 1] == SendAttempted(r.key, End(s, before).threads[0].action.kind);
    assert h[|h| - 1] == StaleClose(r);
    assert SendLogged(end.log, r.key) && HasPhase(h, r.key, Failed);
  }

  /**
   For every admitted input action and every probe answer that misses the live owner there
   is a run that types the action and then records it as Failed: the scan reads the
   prepared record, the transaction commits and sends, and the scan closes the record as it
   read it. The ledger's swap compares keys, not phases.
   */
  lemma BlindProbeBreaksSafety(s: System, start: Step, owner: Owner, probe: set<Owner>, probes: Probes)
    requires Initial(s) && start.Start? && start.tid == 0 && Admitted(start) && IsInput(start.action.kind)
    requires probes(owner, probe) && owner !in probe
    ensures exists steps :: Runs(s, steps) && ProbesWithin(s, steps, probes) && SentThenFailed(End(s, steps))
  {
    hide Runs, End, Admitted, SentThenFailed, ProbesWithin;
    var claimed, r := ReachClaimed(s, start, owner, probe, probes);
    var committed := ReachCommitted(s, claimed, r, probes);
    var failed := ReachFailed(s, committed, r, probes);
    assert Runs(s, failed) && ProbesWithin(s, failed, probes) && SentThenFailed(End(s, failed));
  }

  lemma {:induction false} WithinIsSound(s: System, steps: seq<Step>, probes: Probes)
    requires Runs(s, steps) && ProbesWithin(s, steps, probes)
    requires forall owner, probe :: probes(owner, probe) ==> owner in probe
    ensures ProbeSound(s, steps)
    decreases |steps|
  {
    hide Enabled, Apply, Admitted;
    if steps != [] {
      WithinIsSound(Apply(s, steps[0]), steps[1..], probes);
    }
  }

  lemma SoundIsSafe(s: System, steps: seq<Step>)
    requires Initial(s) && Runs(s, steps) && ProbeSound(s, steps)
    ensures !SentThenFailed(End(s, steps))
  {
    hide Runs, End, ProbeSound, Initial;
    forall k, t | SendLogged(End(s, steps).log, k)
      ensures !HasPhase(History(End(s, steps).memory, t), k, Failed)
    {
      var h := History(End(s, steps).memory, t);
      forall i | 0 <= i < |h| ensures !(h[i].key == k && h[i].phase == Failed) {
        SentIsNeverFailed(s, steps, k, t, i);
      }
    }
  }

  /** No run with these probe answers records a sent action as Failed, if and only if every answer holds the live owner. */
  lemma ProbeConditionIsExact(s: System, probes: Probes)
    requires Initial(s)
    ensures (forall steps :: Runs(s, steps) && ProbesWithin(s, steps, probes) ==> !SentThenFailed(End(s, steps)))
      <==> (forall owner, probe :: probes(owner, probe) ==> owner in probe)
  {
    if owner, probe :| probes(owner, probe) && owner !in probe {
      var context := RecoveryContext(1, 0, 0, false, true, None, None, None);
      assert ByteLen("f") == 1;
      Sample.EnterIsAdmitted("f", context, 0, "p", 0);
      var start := Start(0, "p", Sample.EnterAt("f"), context, Sample.Limited("f"), Sample.Limited("f"), None, 0, "");
      hide Runs, End, Admitted, SentThenFailed, ProbesWithin;
      BlindProbeBreaksSafety(s, start, owner, probe, probes);
    } else {
      hide SentThenFailed;
      forall steps | Runs(s, steps) && ProbesWithin(s, steps, probes) ensures !SentThenFailed(End(s, steps)) {
        WithinIsSound(s, steps, probes);
        SoundIsSafe(s, steps);
      }
    }
  }
}
