/**
 The recovery protocol as a step system: any number of transactions and stale-lease
 scans share one ledger, every store write may be lost (and a lost write may still be
 on disk), and the daemon may crash between any two steps and restart from disk.
 */
module Protocol {
  import opened Wrappers
  import opened Model
  import opened Policy
  import opened Evidence
  import opened Ledger

  /** A failed write left the file as it was, or was renamed into place before the error. */
  datatype Write = Durable | LostAbsent | LostPresent

  /** Where a transaction stands: the effect it performs next. */
  datatype Pc =
    | Claiming
    | Confirming
    | Beginning
    | Ready
    | Executing(attempted: bool)
    | Recording(output: Output)
    | Receipting(output: Output)
    | StartingPoll
    | Polling
    | Completing(reason: Reason)
    | Rejecting(error: TransactionError)
    | Escalating(cause: Cause)
    | Done(result: Result<Record, TransactionError>)

  datatype Thread = Thread(
    action: Action,
    baseline: LiveEvidence,
    confirmed: LiveEvidence,
    record: Record,
    pc: Pc)

  /** A stale-lease scan that has read an active record and not yet closed it. */
  datatype Scan = Scan(target: string, record: Record)

  datatype Entry =
    | Invoked(key: string, target: string, action: Action, baseline: LiveEvidence)
    | SendAttempted(key: string, kind: ActionKind)
    | Proved(key: string, after: LiveEvidence)

  datatype Mode = Halted | Booting | Serving

  datatype System = System(
    memory: Ledger,
    disk: Ledger,
    mode: Mode,
    owner: Owner,
    threads: map<nat, Thread>,
    scans: map<nat, Scan>,
    log: seq<Entry>)

  const LEASE_MS := 30_000
  const U64_MAX := 18_446_744_073_709_551_615

  function KeyFor(target: string, actionId: string, fingerprint: string): string {
    target + ":" + actionId + ":" + fingerprint
  }

  function PreparedRecord(
    target: string, owner: Owner, a: Action, baseline: LiveEvidence, now: nat, snapshot: string): Record
  {
    Record(
      actionId := a.actionId,
      key := KeyFor(target, a.actionId, baseline.event.fingerprint),
      target := target,
      identity := baseline.identity,
      fingerprint := baseline.event.fingerprint,
      owner := owner,
      preparedAt := now,
      leaseDeadline := Min(now + LEASE_MS, U64_MAX),
      phase := Prepared,
      reason := Reason.Confirmed,
      snapshot := snapshot,
      output := None)
  }

  // ----- the ledger operation a transaction performs next

  predicate Writes(pc: Pc) {
    pc.Claiming? || pc.Beginning? || pc.Recording? || pc.StartingPoll?
    || pc.Completing? || pc.Rejecting? || pc.Escalating?
  }

  /** The record the pending write stores last. */
  function Pending(th: Thread): Record
    requires Writes(th.pc)
  {
    match th.pc
    case Claiming => th.record
    case Beginning => th.record.Next(Begun, CommitBoundary)
    case Recording(_) => th.record.Next(Sent, ExecutorCompleted)
    case StartingPoll => th.record.Next(Verifying, PollingOutcomes)
    case Completing(reason) => th.record.Next(Succeeded, reason)
    case Rejecting(error) => th.record.Next(Failed, Rejected(error))
    case Escalating(_) => th.record
  }

  function OpOf(th: Thread): Op
    requires Writes(th.pc)
  {
    var t := th.record.target;
    if th.pc.Claiming? then Claim(t, th.record)
    else if th.pc.Escalating? then Op.Escalate(t, th.record, th.pc.cause)
    else Append(t, Pending(th))
  }

  predicate Acknowledged(l: Ledger, op: Op, w: Write) {
    Accepts(l, op) && w.Durable?
  }

  function MemoryAfter(l: Ledger, op: Op, w: Write): Ledger {
    if Acknowledged(l, op, w) then After(l, op) else l
  }

  function DiskAfter(l: Ledger, disk: Ledger, op: Op, w: Write): Ledger {
    if Accepts(l, op) && !w.LostAbsent? then After(l, op) else disk
  }

  function FaultOf(l: Ledger, op: Op): Fault {
    if Accepts(l, op) then WriteLost
    else if op.target !in l.active then NoActiveTransaction
    else CasMismatch
  }

  function AfterWrite(th: Thread, l: Ledger, w: Write): Thread
    requires Writes(th.pc)
  {
    var op := OpOf(th);
    var next := th.(record := Pending(th));
    if Acknowledged(l, op, w) then
      match th.pc
      case Claiming => next.(pc := Confirming)
      case Beginning => next.(pc := Ready)
      case Recording(output) => next.(pc := Receipting(output))
      case StartingPoll => next.(pc := Polling)
      case Completing(_) => next.(pc := Done(Ok(next.record)))
      case Rejecting(error) => next.(pc := Done(Err(error)))
      case Escalating(cause) => next.(pc := Done(Err(UncertainOutcome(cause))))
    else
      var fault := FaultOf(l, op);
      match th.pc
      case Claiming => th.(pc := Done(Err(if Accepts(l, op) then Store(fault) else Duplicate)))
      case Recording(_) => th.(pc := Escalating(SentNotRecorded(fault)))
      case StartingPoll => th.(pc := Escalating(VerifyingNotRecorded(fault)))
      case _ => th.(pc := Done(Err(Store(fault))))
  }

  // ----- the steps that touch no ledger

  function AfterConfirm(th: Thread, reading: Reading): Thread {
    match Revalidate(th.action, Some(th.confirmed), reading)
    case Ok(_) => th.(pc := Beginning)
    case Err(error) => th.(pc := Rejecting(error))
  }

  /** The executor's promise: an error that denies side effects means nothing was sent. */
  predicate ExecutorContract(kind: ActionKind, attempted: bool, outcome: Outcome) {
    && (attempted ==> outcome.Ok? || outcome.error.PossibleSideEffect?)
    && (IsInput(kind) && outcome.Ok? ==> attempted)
  }

  function AfterReturn(th: Thread, outcome: Outcome, summary: string): Thread {
    match outcome
    case Ok(output) => th.(record := th.record.(output := Some(summary)), pc := Recording(output))
    case Err(error) =>
      if error.PossibleSideEffect? then th.(pc := Escalating(SideEffectPossible(error.why)))
      else th.(pc := Rejecting(Execution(error)))
  }

  function AfterReceipt(th: Thread): Thread
    requires th.pc.Receipting?
  {
    if !ReceiptOutcomesHold(th.pc.output, th.action.outcomes) then
      th.(pc := Escalating(ReceiptMissing))
    else if !NeedsProgress(th.action) then
      th.(pc := Completing(NonInputCompleted))
    else th.(pc := StartingPoll)
  }

  function AfterPoll(th: Thread, reading: Reading, expired: bool): Thread {
    match reading
    case Err(why) => th.(pc := Escalating(EvidenceUnavailable(why)))
    case Ok(after) =>
      if after.humanIntervened || after.identity != th.baseline.identity then
        th.(pc := Escalating(InterventionOrIdentity))
      else if Verified(th.baseline, after, th.action.outcomes) then
        th.(pc := Completing(OutcomeVerified))
      else if expired then
        th.(pc := Escalating(TimedOut))
      else th
  }

  predicate PollVerifies(th: Thread, reading: Reading) {
    && reading.Ok?
    && !reading.value.humanIntervened && reading.value.identity == th.baseline.identity
    && Verified(th.baseline, reading.value, th.action.outcomes)
  }

  // ----- closing what an earlier owner left open

  function RestartClose(r: Record): Record {
    if r.phase.Prepared? then
      r.Next(Failed, RestartBeforeSideEffect)
    else r.Next(HumanRequired, RestartAfterCommit)
  }

  function StaleClose(r: Record): Record {
    r.Next(if r.phase.Prepared? then Failed else HumanRequired,
           LeaseExpired)
  }

  // ----- steps

  datatype Step =
    /** Two readings, the policy and the third precondition pass; the record is prepared. */
    | Start(tid: nat, target: string, action: Action, context: RecoveryContext,
            baseline: LiveEvidence, confirmed: LiveEvidence, wall: Option<int>, now: nat, snapshot: string)
    | StoreWrite(tid: nat, w: Write)
    | Confirm(tid: nat, reading: Reading)
    | Invoke(tid: nat)
    | AttemptSend(tid: nat)
    | Return(tid: nat, outcome: Outcome, summary: string)
    | CheckReceipt(tid: nat)
    | Poll(tid: nat, reading: Reading, expired: bool)
    /** `probe` holds the owners the process probe reports alive; `now` is the clock. */
    | ScanRead(sid: nat, target: string, probe: set<Owner>, now: nat)
    | ScanClose(sid: nat, w: Write)
    | Crash
    | Restart(owner: Owner)
    | RecoverAfterRestart(target: string, w: Write)
    | Serve

  predicate At(s: System, tid: nat) {
    s.mode.Serving? && tid in s.threads
  }

  /** What `run` checks before it claims: the action, two readings and the policy. */
  predicate Admitted(step: Step) {
    step.Start? ==>
      && ActuatorAccepts(step.action)
      && Revalidate(step.action, None, Ok(step.baseline)).Ok?
      && Authorize(step.action, ContextFor(step.baseline, step.context, step.wall)).Ok?
      && Revalidate(step.action, Some(step.baseline), Ok(step.confirmed)).Ok?
  }

  predicate Enabled(s: System, step: Step) {
    match step
    case Start(tid, _, _, _, _, _, _, _, _) => s.mode.Serving? && tid !in s.threads
    case StoreWrite(tid, _) => At(s, tid) && Writes(s.threads[tid].pc)
    case Confirm(tid, _) => At(s, tid) && s.threads[tid].pc.Confirming?
    case Invoke(tid) => At(s, tid) && s.threads[tid].pc.Ready?
    case AttemptSend(tid) => At(s, tid) && s.threads[tid].pc.Executing? && IsInput(s.threads[tid].action.kind)
    case Return(tid, outcome, _) =>
      At(s, tid) && s.threads[tid].pc.Executing?
      && ExecutorContract(s.threads[tid].action.kind, s.threads[tid].pc.attempted, outcome)
    case CheckReceipt(tid) => At(s, tid) && s.threads[tid].pc.Receipting?
    case Poll(tid, _, _) => At(s, tid) && s.threads[tid].pc.Polling?
    case ScanRead(sid, target, probe, now) =>
      s.mode.Serving? && sid !in s.scans && target in s.memory.active
      && s.memory.active[target].leaseDeadline < now && s.memory.active[target].owner !in probe
    case ScanClose(sid, _) => s.mode.Serving? && sid in s.scans
    case Crash => !s.mode.Halted?
    case Restart(_) => s.mode.Halted?
    case RecoverAfterRestart(target, _) => s.mode.Booting? && target in s.memory.active
    case Serve => s.mode.Booting?
  }

  function Stored(s: System, op: Op, w: Write): System {
    s.(memory := MemoryAfter(s.memory, op, w), disk := DiskAfter(s.memory, s.disk, op, w))
  }

  function SetThread(s: System, tid: nat, th: Thread): System {
    s.(threads := s.threads[tid := th])
  }

  function Logged(s: System, e: Entry): System {
    s.(log := s.log + [e])
  }

  function Apply(s: System, step: Step): System
    requires Enabled(s, step)
  {
    match step
    case Start(tid, target, action, _, baseline, confirmed, _, now, snapshot) =>
      var record := PreparedRecord(target, s.owner, action, baseline, now, snapshot);
      SetThread(s, tid, Thread(action, baseline, confirmed, record, Claiming))
    case StoreWrite(tid, w) =>
      var th := s.threads[tid];
      SetThread(Stored(s, OpOf(th), w), tid, AfterWrite(th, s.memory, w))
    case Confirm(tid, reading) => SetThread(s, tid, AfterConfirm(s.threads[tid], reading))
    case Invoke(tid) =>
      var th := s.threads[tid];
      Logged(SetThread(s, tid, th.(pc := Executing(false))),
             Invoked(th.record.key, th.record.target, th.action, th.baseline))
    case AttemptSend(tid) =>
      var th := s.threads[tid];
      Logged(SetThread(s, tid, th.(pc := Executing(true))), SendAttempted(th.record.key, th.action.kind))
    case Return(tid, outcome, summary) => SetThread(s, tid, AfterReturn(s.threads[tid], outcome, summary))
    case CheckReceipt(tid) => SetThread(s, tid, AfterReceipt(s.threads[tid]))
    case Poll(tid, reading, expired) =>
      var th := s.threads[tid];
      var next := SetThread(s, tid, AfterPoll(th, reading, expired));
      if PollVerifies(th, reading) then Logged(next, Proved(th.record.key, reading.value)) else next
    case ScanRead(sid, target, _, _) => s.(scans := s.scans[sid := Scan(target, s.memory.active[target])])
    case ScanClose(sid, w) =>
      var scan := s.scans[sid];
      Stored(s, Append(scan.target, StaleClose(scan.record)), w).(scans := s.scans - {sid})
    case Crash => s.(mode := Halted, threads := map[], scans := map[])
    case Restart(owner) => s.(mode := Booting, memory := s.disk, owner := owner)
    case RecoverAfterRestart(target, w) =>
      Stored(s, Append(target, RestartClose(s.memory.active[target])), w)
    case Serve => s.(mode := Serving)
  }

  predicate Initial(s: System) {
    s.memory == EMPTY && s.disk == EMPTY && s.mode.Halted?
    && s.threads == map[] && s.scans == map[] && s.log == []
  }

  predicate Runs(s: System, steps: seq<Step>)
    decreases |steps|
  {
    steps == []
    || (Admitted(steps[0]) && Enabled(s, steps[0]) && Runs(Apply(s, steps[0]), steps[1..]))
  }

  /** The state a run ends in. */
  function End(s: System, steps: seq<Step>): System
    requires Runs(s, steps)
    decreases |steps|
  {
    if steps == [] then s else End(Apply(s, steps[0]), steps[1..])
  }

  /** The assumption on the process probe: it always recognises the live owner. */
  predicate ProbeSound(s: System, steps: seq<Step>)
    requires Runs(s, steps)
    decreases |steps|
  {
    steps == []
    || ((steps[0].ScanRead? ==> s.owner in steps[0].probe) && ProbeSound(Apply(s, steps[0]), steps[1..]))
  }

  lemma Nothing(s: System)
    ensures Runs(s, []) && End(s, []) == s
  {
  }

  lemma {:induction false} RunsAppend(s: System, steps: seq<Step>, step: Step)
    requires Runs(s, steps) && Admitted(step) && Enabled(End(s, steps), step)
    ensures Runs(s, steps + [step]) && End(s, steps + [step]) == Apply(End(s, steps), step)
    decreases |steps|
  {
    hide Enabled, Apply, Admitted;
    var more := steps + [step];
    if steps == [] {
      assert more[1..] == [];
    } else {
      assert more[0] == steps[0] && more[1..] == steps[1..] + [step];
      RunsAppend(Apply(s, steps[0]), steps[1..], step);
    }
  }
}
