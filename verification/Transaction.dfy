/**
 The transaction as the daemon runs it, call by call. Every execution is shown to be a
 run of the step system, so what holds of all runs holds of this code.
 */
module Transaction {
  import opened Wrappers
  import opened Model
  import opened Policy
  import opened Evidence
  import opened Ledger
  import opened Protocol
  import opened ActionStore
  import opened Executor
  import R = Readings

  // ----- following the step system

  /** The steps lead from `s` to a state with this ledger, in which only `tid` has moved, to `th`. */
  ghost predicate Follows(s: System, steps: seq<Step>, memory: Ledger, disk: Ledger, tid: nat, th: Thread) {
    && Runs(s, steps)
    && var end := End(s, steps);
       end == s.(memory := memory, disk := disk, threads := s.threads[tid := th], log := end.log)
  }

  predicate Open(s: System, tid: nat) {
    s.mode.Serving? && tid !in s.threads
  }

  lemma FollowStart(s: System, tid: nat, step: Step)
    requires Open(s, tid) && step.Start? && step.tid == tid && Admitted(step)
    ensures Follows(s, [step], s.memory, s.disk, tid,
      Thread(step.action, step.baseline, step.confirmed,
        PreparedRecord(step.target, s.owner, step.action, step.baseline, step.now, step.snapshot), Claiming))
  {
    hide Admitted, PreparedRecord, Runs, End;
    Nothing(s);
    RunsAppend(s, [], step);
    assert [] + [step] == [step];
  }

  lemma FollowWrite(
    s: System, steps: seq<Step>, memory: Ledger, disk: Ledger, tid: nat, th: Thread, w: Write)
    requires s.mode.Serving? && Follows(s, steps, memory, disk, tid, th) && Writes(th.pc)
    ensures Follows(s, steps + [StoreWrite(tid, w)], MemoryAfter(memory, OpOf(th), w),
      DiskAfter(memory, disk, OpOf(th), w), tid, AfterWrite(th, memory, w))
  {
    hide Runs, End, MemoryAfter, DiskAfter, OpOf, AfterWrite, Writes;
    RunsAppend(s, steps, StoreWrite(tid, w));
    var next := AfterWrite(th, memory, w);
    assert s.threads[tid := th][tid := next] == s.threads[tid := next];
  }

  lemma FollowConfirm(
    s: System, steps: seq<Step>, memory: Ledger, disk: Ledger, tid: nat, th: Thread, reading: Reading)
    requires s.mode.Serving? && Follows(s, steps, memory, disk, tid, th) && th.pc.Confirming?
    ensures Follows(s, steps + [Confirm(tid, reading)], memory, disk, tid, AfterConfirm(th, reading))
  {
    hide Runs, End, AfterConfirm;
    RunsAppend(s, steps, Confirm(tid, reading));
    var next := AfterConfirm(th, reading);
    assert s.threads[tid := th][tid := next] == s.threads[tid := next];
  }

  lemma FollowInvoke(s: System, steps: seq<Step>, memory: Ledger, disk: Ledger, tid: nat, th: Thread)
    requires s.mode.Serving? && Follows(s, steps, memory, disk, tid, th) && th.pc.Ready?
    ensures Follows(s, steps + [Invoke(tid)], memory, disk, tid, th.(pc := Executing(false)))
  {
    hide Runs, End;
    RunsAppend(s, steps, Invoke(tid));
    var next := th.(pc := Executing(false));
    assert s.threads[tid := th][tid := next] == s.threads[tid := next];
  }

  lemma FollowSend(s: System, steps: seq<Step>, memory: Ledger, disk: Ledger, tid: nat, th: Thread)
    requires s.mode.Serving? && Follows(s, steps, memory, disk, tid, th)
    requires th.pc.Executing? && IsInput(th.action.kind)
    ensures Follows(s, steps + [AttemptSend(tid)], memory, disk, tid, th.(pc := Executing(true)))
  {
    hide Runs, End;
    RunsAppend(s, steps, AttemptSend(tid));
    var next := th.(pc := Executing(true));
    assert s.threads[tid := th][tid := next] == s.threads[tid := next];
  }

  lemma FollowReturn(
    s: System, steps: seq<Step>, memory: Ledger, disk: Ledger, tid: nat, th: Thread, outcome: Outcome, summary: string)
    requires s.mode.Serving? && Follows(s, steps, memory, disk, tid, th)
    requires th.pc.Executing? && ExecutorContract(th.action.kind, th.pc.attempted, outcome)
    ensures Follows(s, steps + [Return(tid, outcome, summary)], memory, disk, tid, AfterReturn(th, outcome, summary))
  {
    hide Runs, End, AfterReturn;
    RunsAppend(s, steps, Return(tid, outcome, summary));
    var next := AfterReturn(th, outcome, summary);
    assert s.threads[tid := th][tid := next] == s.threads[tid := next];
  }

  lemma FollowReceipt(s: System, steps: seq<Step>, memory: Ledger, disk: Ledger, tid: nat, th: Thread)
    requires s.mode.Serving? && Follows(s, steps, memory, disk, tid, th) && th.pc.Receipting?
    ensures Follows(s, steps + [CheckReceipt(tid)], memory, disk, tid, AfterReceipt(th))
  {
    hide Runs, End, AfterReceipt;
    RunsAppend(s, steps, CheckReceipt(tid));
    var next := AfterReceipt(th);
    assert s.threads[tid := th][tid := next] == s.threads[tid := next];
  }

  lemma FollowPoll(
    s: System, steps: seq<Step>, memory: Ledger, disk: Ledger, tid: nat, th: Thread, reading: Reading, expired: bool)
    requires s.mode.Serving? && Follows(s, steps, memory, disk, tid, th) && th.pc.Polling?
    ensures Follows(s, steps + [Poll(tid, reading, expired)], memory, disk, tid, AfterPoll(th, reading, expired))
  {
    hide Runs, End, AfterPoll, PollVerifies;
    RunsAppend(s, steps, Poll(tid, reading, expired));
    var next := AfterPoll(th, reading, expired);
    assert s.threads[tid := th][tid := next] == s.threads[tid := next];
  }

  // ----- the code

  const POLL_MS := 100

  /**
   Everything a transaction is told: evidence, clocks, the store's faults and the executor's
   moment. Nothing bounds how long a clock may stand still, so `polls` says for how many
   verification readings the transaction is followed.
   */
  datatype World = World(
    readings: nat -> Reading,
    wall: Option<int>,
    now: nat,
    snapshot: string,
    writes: nat -> Point,
    moment: Moment,
    summary: string,
    clock: nat -> nat,
    verifications: nat -> Reading,
    polls: nat)

  /** How a transaction ended; nothing while it is still polling. */
  type Ending = Option<Result<Record, TransactionError>>

  predicate Reached(pc: Pc, r: Ending) {
    if r.Some? then pc == Done(r.value) else pc.Polling?
  }

  /** What an ending says about the terminal: only success, uncertainty or a store fault may follow typing. */
  predicate AdmitsTyping(r: Ending) {
    r.Some? && r.value.Err? ==> r.value.error.UncertainOutcome? || r.value.error.Store?
  }

  /**
   A clock that advances with each sleep ends the polling after ten readings per second of timeout
   and one; whatever the clock does, time is not up before it shows the deadline.
   */
  ghost predicate Timely(world: World, timeout: nat, count: nat, r: Ending) {
    && count <= world.polls
    && (r == Some(Err(UncertainOutcome(TimedOut))) ==>
          world.clock(count) >= Min(world.clock(0) + timeout * 1000, U64_MAX))
    && (Ticks(world.clock) ==> count <= timeout * 10 + 1 && (r.None? ==> world.polls <= timeout * 10))
  }

  /** The deadline of the polling: the timeout after the clock was first read. */
  function Deadline(world: World, a: Action): nat {
    Min(world.clock(0) + a.timeoutSeconds * 1000, U64_MAX)
  }

  /** A step acts on nothing but what the transaction was told, each reading in its turn. */
  ghost predicate Hears(world: World, a: Action, step: Step) {
    match step
    case Start(_, _, action, _, baseline, confirmed, wall, now, snapshot) =>
      && action == a && world.readings(0) == Ok(baseline) && world.readings(1) == Ok(confirmed)
      && wall == world.wall && now == world.now && snapshot == world.snapshot
    case Confirm(_, reading) => reading == world.readings(2)
    case Return(_, _, summary) => summary == world.summary
    case Poll(_, reading, expired) =>
      exists i: nat :: reading == world.verifications(i) && (expired <==> world.clock(i + 1) >= Deadline(world, a))
    case StoreWrite(_, w) => exists i: nat :: i < 5 && w == WriteAt(world.writes(i))
    case _ => true
  }

  ghost predicate Heard(world: World, a: Action, steps: seq<Step>) {
    forall k :: 0 <= k < |steps| ==> Hears(world, a, steps[k])
  }

  lemma HeardMore(world: World, a: Action, steps: seq<Step>, step: Step)
    requires Heard(world, a, steps) && Hears(world, a, step)
    ensures Heard(world, a, steps + [step])
  {
    hide Hears;
  }

  lemma HeardWrite(world: World, a: Action, steps: seq<Step>, tid: nat, i: nat)
    requires Heard(world, a, steps) && i < 5
    ensures Heard(world, a, steps + [StoreWrite(tid, WriteAt(world.writes(i)))])
  {
    assert Hears(world, a, StoreWrite(tid, WriteAt(world.writes(i))));
    hide Heard, Hears;
    HeardMore(world, a, steps, StoreWrite(tid, WriteAt(world.writes(i))));
  }

  lemma HeardPoll(world: World, a: Action, steps: seq<Step>, tid: nat, i: nat, expired: bool, wrote: bool)
    requires Heard(world, a, steps) && (expired <==> world.clock(i + 1) >= Deadline(world, a))
    ensures Heard(world, a, steps + [Poll(tid, world.verifications(i), expired)]
      + if wrote then [StoreWrite(tid, WriteAt(world.writes(4)))] else [])
  {
    var poll := Poll(tid, world.verifications(i), expired);
    assert Hears(world, a, poll);
    hide Heard, Hears;
    HeardMore(world, a, steps, poll);
    if wrote {
      HeardWrite(world, a, steps + [poll], tid, 4);
    } else {
      assert steps + [poll] + [] == steps + [poll];
    }
  }

  predicate Proves(th: Thread, reading: Reading) {
    reading.Ok? && R.Proof(th.action, th.baseline, reading.value)
  }

  /** A reading that decides nothing: it could be read, shows the target unattended, and proves nothing. */
  predicate Undecided(th: Thread, reading: Reading) {
    reading.Ok? && !reading.value.humanIntervened && reading.value.identity == th.baseline.identity
    && !R.Proof(th.action, th.baseline, reading.value)
  }

  /** The clock as the polling loop reads it: once before it, then once after each reading. */
  ghost predicate Ticks(clock: nat -> nat) {
    clock(0) <= clock(1) && forall i: nat :: i > 0 ==> clock(i) + POLL_MS <= clock(i + 1)
  }

  lemma {:induction false} ClockAdvances(clock: nat -> nat, i: nat)
    requires Ticks(clock)
    ensures clock(0) + POLL_MS * i <= clock(i + 1)
  {
    if i > 0 {
      ClockAdvances(clock, i - 1);
    }
  }

  method Persist(store: JsonActionStore, target: string, record: Record, phase: Phase, reason: Reason, at: Point)
    returns (r: Result<Record, TransactionError>)
    requires store.store.Valid()
    modifies store, store.store
    ensures store.store.Valid()
    ensures var op := Append(target, record.Next(phase, reason));
      && store.Performs(op, WriteAt(at))
      && r == (if Acknowledged(old(store.state), op, WriteAt(at)) then Ok(op.record)
               else Err(Store(FaultOf(old(store.state), op))))
  {
    var next := record.Next(phase, reason);
    var done := store.DoAppend(target, next, at);
    r := if done.Ok? then Ok(next) else Err(Store(done.error));
  }

  method Terminate(store: JsonActionStore, target: string, record: Record, error: TransactionError, at: Point)
    returns (r: Result<Record, TransactionError>)
    requires store.store.Valid()
    modifies store, store.store
    ensures store.store.Valid()
    ensures var op := Append(target, record.Next(Failed, Rejected(error)));
      && store.Performs(op, WriteAt(at))
      && r == Err(if Acknowledged(old(store.state), op, WriteAt(at)) then error
                  else Store(FaultOf(old(store.state), op)))
  {
    var done := store.DoAppend(target, record.Next(Failed, Rejected(error)), at);
    r := Err(if done.Ok? then error else Store(done.error));
  }

  method GiveUp(store: JsonActionStore, target: string, record: Record, cause: Cause, at: Point)
    returns (r: Result<Record, TransactionError>)
    requires store.store.Valid()
    modifies store, store.store
    ensures store.store.Valid()
    ensures var op := Op.Escalate(target, record, cause);
      && store.Performs(op, WriteAt(at))
      && r == Err(if Acknowledged(old(store.state), op, WriteAt(at)) then UncertainOutcome(cause)
                  else Store(FaultOf(old(store.state), op)))
  {
    var done := store.EscalateUncertain(target, record, cause, at);
    r := Err(if done.Ok? then UncertainOutcome(cause) else Store(done.error));
  }

  /** Take one reading: it decides, time is up, or there will be another. */
  method React(store: JsonActionStore, action: Action, baseline: LiveEvidence, record: Record,
               reading: Reading, expired: bool, at: Point,
               ghost s: System, ghost before: seq<Step>, ghost tid: nat, ghost th: Thread)
    returns (r: Ending, ghost steps: seq<Step>, ghost end: Thread)
    requires store.store.Valid() && s.mode.Serving? && th.pc.Polling?
    requires th.action == action && th.baseline == baseline && th.record == record
    requires Follows(s, before, store.state, store.store.OnDisk(), tid, th)
    modifies store, store.store
    ensures store.store.Valid()
    ensures Follows(s, steps, store.state, store.store.OnDisk(), tid, end)
    ensures end.action == th.action && end.baseline == th.baseline
    ensures steps == before + [Poll(tid, reading, expired)] + (if r.Some? then [StoreWrite(tid, WriteAt(at))] else [])
    ensures r.None? ==> end == th && Undecided(th, reading) && !expired
    ensures r.Some? ==> Reached(end.pc, r) && (r.value.Ok? ==> Proves(th, reading) && PollVerifies(th, reading))
    ensures r == Some(Err(UncertainOutcome(TimedOut))) ==> expired
    ensures AdmitsTyping(r)
  {
    hide R.Proof, Follows, Verified, MemoryAfter, DiskAfter, FaultOf, Acknowledged;
    var target := record.target;
    ghost var w, next := WriteAt(at), AfterPoll(th, reading, expired);
    if reading.Ok? {
      R.VerifiesExactly(action, baseline, reading.value);
    }
    FollowPoll(s, before, store.state, store.store.OnDisk(), tid, th, reading, expired);
    steps, end := before + [Poll(tid, reading, expired)], th;
    if Writes(next.pc) {
      FollowWrite(s, steps, store.state, store.store.OnDisk(), tid, next, w);
      steps, end := steps + [StoreWrite(tid, w)], AfterWrite(next, store.state, w);
    }
    var done: Result<Record, TransactionError>;
    if reading.Err? {
      done := GiveUp(store, target, record, EvidenceUnavailable(reading.error), at);
      return Some(done), steps, end;
    }
    var after := reading.value;
    if after.humanIntervened || after.identity != baseline.identity {
      done := GiveUp(store, target, record, InterventionOrIdentity, at);
      return Some(done), steps, end;
    }
    if Verified(baseline, after, action.outcomes) {
      done := Persist(store, target, record, Succeeded, OutcomeVerified, at);
      return Some(done), steps, end;
    }
    if expired {
      done := GiveUp(store, target, record, TimedOut, at);
      return Some(done), steps, end;
    }
    r := None;
  }

  /** Poll until an outcome is verified, contradicted or out of time. */
  method Verify(store: JsonActionStore, action: Action, baseline: LiveEvidence, record: Record, world: World,
                ghost s: System, ghost before: seq<Step>, ghost tid: nat, ghost th: Thread)
    returns (r: Ending, count: nat, ghost steps: seq<Step>, ghost end: Thread)
    requires store.store.Valid() && s.mode.Serving? && th.pc.Polling?
    requires th.action == action && th.baseline == baseline && th.record == record
    requires Follows(s, before, store.state, store.store.OnDisk(), tid, th) && Heard(world, action, before)
    modifies store, store.store
    ensures store.store.Valid()
    ensures Follows(s, steps, store.state, store.store.OnDisk(), tid, end) && Reached(end.pc, r)
    ensures end.action == action && end.baseline == baseline && Heard(world, action, steps)
    ensures Timely(world, action.timeoutSeconds, count, r)
    ensures forall i :: 0 <= i < count && (r.None? || i < count - 1) ==> Undecided(th, world.verifications(i))
    ensures r.Some? && r.value.Ok? ==>
      count > 0 && Proves(th, world.verifications(count - 1)) && PollVerifies(th, world.verifications(count - 1))
    ensures AdmitsTyping(r)
  {
    hide Follows, Undecided, Proves, PollVerifies, Heard;
    var timeout := action.timeoutSeconds;
    var deadline := Min(world.clock(0) + Min(timeout * 1000, U64_MAX), U64_MAX);
    count, steps, end, r := 0, before, th, None;
    while count < world.polls
      invariant store.store.Valid() && count <= world.polls
      invariant Ticks(world.clock) ==> count <= timeout * 10
      invariant Follows(s, steps, store.state, store.store.OnDisk(), tid, th) && end == th && r.None?
      invariant Heard(world, action, steps)
      invariant forall i :: 0 <= i < count ==> Undecided(th, world.verifications(i))
    {
      var i := count;
      count := count + 1;
      var expired := world.clock(i + 1) >= deadline;
      ghost var was := steps;
      r, steps, end := React(store, action, baseline, record, world.verifications(i), expired, world.writes(4), s, steps, tid, th);
      HeardPoll(world, action, was, tid, i, expired, r.Some?);
      if r.Some? {
        return;
      }
      if Ticks(world.clock) {
        ClockAdvances(world.clock, i);
      }
    }
  }

  /** Record the send, check the receipt, and poll when the action needs progress. */
  method Settle(store: JsonActionStore, action: Action, baseline: LiveEvidence, sent: Record, output: Output,
                world: World, ghost s: System, ghost before: seq<Step>, ghost tid: nat, ghost start: Thread)
    returns (r: Ending, count: nat, ghost steps: seq<Step>, ghost end: Thread)
    requires store.store.Valid() && s.mode.Serving?
    requires Follows(s, before, store.state, store.store.OnDisk(), tid, start)
    requires start.pc == Recording(output) && Heard(world, action, before)
    requires start.action == action && start.baseline == baseline && start.record == sent
    modifies store, store.store
    ensures store.store.Valid()
    ensures Follows(s, steps, store.state, store.store.OnDisk(), tid, end) && Reached(end.pc, r)
    ensures end.action == action && end.baseline == baseline && Heard(world, action, steps)
    ensures Timely(world, action.timeoutSeconds, count, r)
    ensures r.Some? && r.value.Ok? && IsInput(action.kind) ==> exists i :: 0 <= i < count && PollVerifies(start, world.verifications(i))
    ensures AdmitsTyping(r)
  {
    hide Follows, Verified, MemoryAfter, DiskAfter, FaultOf, Acknowledged, ReceiptOutcomesHold, PollVerifies, Heard;
    var target := sent.target;
    count := 0;
    ghost var w := WriteAt(world.writes(2));
    FollowWrite(s, before, store.state, store.store.OnDisk(), tid, start, w);
    ghost var th := AfterWrite(start, store.state, w);
    steps := before + [StoreWrite(tid, w)];
    HeardWrite(world, action, before, tid, 2);
    var recorded := Persist(store, target, sent, Sent, ExecutorCompleted, world.writes(2));
    if recorded.Err? {
      w := WriteAt(world.writes(3));
      FollowWrite(s, steps, store.state, store.store.OnDisk(), tid, th, w);
      HeardWrite(world, action, steps, tid, 3);
      steps, end := steps + [StoreWrite(tid, w)], AfterWrite(th, store.state, w);
      var done := GiveUp(store, target, sent, SentNotRecorded(recorded.error.fault), world.writes(3));
      return Some(done), count, steps, end;
    }
    var record := recorded.value;
    FollowReceipt(s, steps, store.state, store.store.OnDisk(), tid, th);
    th := AfterReceipt(th);
    HeardMore(world, action, steps, CheckReceipt(tid));
    steps := steps + [CheckReceipt(tid)];
    w := WriteAt(world.writes(3));
    FollowWrite(s, steps, store.state, store.store.OnDisk(), tid, th, w);
    HeardWrite(world, action, steps, tid, 3);
    steps, end := steps + [StoreWrite(tid, w)], AfterWrite(th, store.state, w);
    if !ReceiptOutcomesHold(output, action.outcomes) {
      var done := GiveUp(store, target, record, ReceiptMissing, world.writes(3));
      return Some(done), count, steps, end;
    }
    if !NeedsProgress(action) {
      var done := Persist(store, target, record, Succeeded, NonInputCompleted, world.writes(3));
      return Some(done), count, steps, end;
    }
    var verifying := Persist(store, target, record, Phase.Verifying, PollingOutcomes, world.writes(3));
    if verifying.Err? {
      w := WriteAt(world.writes(4));
      FollowWrite(s, steps, store.state, store.store.OnDisk(), tid, end, w);
      HeardWrite(world, action, steps, tid, 4);
      steps, end := steps + [StoreWrite(tid, w)], AfterWrite(end, store.state, w);
      var done := GiveUp(store, target, record, VerifyingNotRecorded(verifying.error.fault), world.writes(4));
      return Some(done), count, steps, end;
    }
    ghost var polling := end;
    r, count, steps, end := Verify(store, action, baseline, verifying.value, world, s, steps, tid, polling);
    if r.Some? && r.value.Ok? {
      SameProof(start, polling, world.verifications, count);
    }
  }

  lemma SameProof(start: Thread, polling: Thread, readings: nat -> Reading, count: nat)
    requires start.action == polling.action && start.baseline == polling.baseline
    requires exists i :: 0 <= i < count && PollVerifies(polling, readings(i))
    ensures exists i :: 0 <= i < count && PollVerifies(start, readings(i))
  {
    var i :| 0 <= i < count && PollVerifies(polling, readings(i));
    assert PollVerifies(start, readings(i));
  }

  /** The executor was called; the step system saw the call, the attempt if there was one, and the return. */
  lemma FollowExecution(
    s: System, before: seq<Step>, memory: Ledger, disk: Ledger, tid: nat, th: Thread,
    attempted: bool, outcome: Outcome, summary: string, world: World)
    returns (steps: seq<Step>)
    requires s.mode.Serving? && Follows(s, before, memory, disk, tid, th) && th.pc.Ready?
    requires Heard(world, th.action, before) && summary == world.summary
    requires attempted ==> IsInput(th.action.kind)
    requires ExecutorContract(th.action.kind, attempted, outcome)
    ensures Follows(s, steps, memory, disk, tid, AfterReturn(th, outcome, summary))
    ensures Heard(world, th.action, steps)
  {
    hide Follows;
    FollowInvoke(s, before, memory, disk, tid, th);
    steps := before + [Invoke(tid)];
    var called := th.(pc := Executing(false));
    if attempted {
      FollowSend(s, steps, memory, disk, tid, called);
      steps := steps + [AttemptSend(tid)];
      called := called.(pc := Executing(true));
    }
    FollowReturn(s, steps, memory, disk, tid, called, outcome, summary);
    steps := steps + [Return(tid, outcome, summary)];
    assert AfterReturn(called, outcome, summary) == AfterReturn(th, outcome, summary);
  }

  /** Confirm once more, cross the commit boundary, and act. */
  method Commit(store: JsonActionStore, mux: Multiplexer, action: Action, baseline: LiveEvidence,
                confirmed: LiveEvidence, prepared: Record, world: World,
                ghost s: System, ghost before: seq<Step>, ghost tid: nat, ghost start: Thread)
    returns (r: Ending, count: nat, ghost steps: seq<Step>, ghost end: Thread)
    requires store.store.Valid() && s.mode.Serving?
    requires Follows(s, before, store.state, store.store.OnDisk(), tid, start)
    requires start == Thread(action, baseline, confirmed, prepared, Confirming) && Heard(world, action, before)
    modifies store, store.store, mux
    ensures store.store.Valid()
    ensures Follows(s, steps, store.state, store.store.OnDisk(), tid, end) && Reached(end.pc, r)
    ensures end.action == action && end.baseline == baseline && Heard(world, action, steps)
    ensures Timely(world, action.timeoutSeconds, count, r)
    ensures r.Some? && r.value.Ok? && IsInput(action.kind) ==>
      && mux.sent == old(mux.sent) + Strokes(action.kind)
      && exists i :: 0 <= i < count && PollVerifies(start, world.verifications(i))
    ensures mux.sent != old(mux.sent) ==> AdmitsTyping(r)
  {
    hide Follows, Revalidate, MemoryAfter, DiskAfter, FaultOf, Acknowledged, PollVerifies, Strokes, ActuatorAccepts, Heard;
    var target := prepared.target;
    count := 0;
    FollowConfirm(s, before, store.state, store.store.OnDisk(), tid, start, world.readings(2));
    ghost var th := AfterConfirm(start, world.readings(2));
    steps := before + [Confirm(tid, world.readings(2))];
    HeardMore(world, action, before, Confirm(tid, world.readings(2)));
    ghost var w := WriteAt(world.writes(1));
    FollowWrite(s, steps, store.state, store.store.OnDisk(), tid, th, w);
    HeardWrite(world, action, steps, tid, 1);
    steps, end := steps + [StoreWrite(tid, w)], AfterWrite(th, store.state, w);
    var live := Revalidate(action, Some(confirmed), world.readings(2));
    if live.Err? {
      NeverTimedOut(action, Some(confirmed), world.readings(2));
      var done := Terminate(store, target, prepared, live.error, world.writes(1));
      return Some(done), count, steps, end;
    }
    var begun := Persist(store, target, prepared, Begun, CommitBoundary, world.writes(1));
    if begun.Err? {
      return Some(begun), count, steps, end;
    }
    var record := begun.value;
    var outcome := Execute(mux, action, world.moment);
    steps := FollowExecution(s, steps, store.state, store.store.OnDisk(), tid, end,
                             mux.sent != old(mux.sent), outcome, world.summary, world);
    end := AfterReturn(end, outcome, world.summary);
    w := WriteAt(world.writes(2));
    if outcome.Err? {
      FollowWrite(s, steps, store.state, store.store.OnDisk(), tid, end, w);
      HeardWrite(world, action, steps, tid, 2);
      steps, end := steps + [StoreWrite(tid, w)], AfterWrite(end, store.state, w);
      var done: Result<Record, TransactionError>;
      if outcome.error.PossibleSideEffect? {
        done := GiveUp(store, target, record, SideEffectPossible(outcome.error.why), world.writes(2));
      } else {
        done := Terminate(store, target, record, Execution(outcome.error), world.writes(2));
      }
      return Some(done), count, steps, end;
    }
    record := record.(output := Some(world.summary));
    ghost var sent := end;
    r, count, steps, end := Settle(store, action, baseline, record, outcome.value, world, s, steps, tid, sent);
    if r.Some? && r.value.Ok? && IsInput(action.kind) {
      SameProof(start, sent, world.verifications, count);
    }
  }

  /** The claim follows the step system too: a refused or lost one ends the transaction. */
  lemma FollowClaim(
    s: System, tid: nat, step: Step, w: Write)
    returns (steps: seq<Step>, th: Thread)
    requires Open(s, tid) && step.Start? && step.tid == tid && Admitted(step)
    ensures var record := PreparedRecord(step.target, s.owner, step.action, step.baseline, step.now, step.snapshot);
      var op := Claim(step.target, record);
      && Follows(s, steps, MemoryAfter(s.memory, op, w), DiskAfter(s.memory, s.disk, op, w), tid, th)
      && steps == [step] + [StoreWrite(tid, w)]
      && th == Thread(step.action, step.baseline, step.confirmed, record,
                      if Acknowledged(s.memory, op, w) then Confirming
                      else Done(Err(if Accepts(s.memory, op) then Store(WriteLost) else Duplicate)))
  {
    hide Follows, Admitted, MemoryAfter, DiskAfter;
    FollowStart(s, tid, step);
    var record := PreparedRecord(step.target, s.owner, step.action, step.baseline, step.now, step.snapshot);
    var start := Thread(step.action, step.baseline, step.confirmed, record, Claiming);
    FollowWrite(s, [step], s.memory, s.disk, tid, start, w);
    steps, th := [step] + [StoreWrite(tid, w)], AfterWrite(start, s.memory, w);
  }

  /**
   One transaction, from the first check to its result. Either it is turned away before
   claiming anything, or what it did is a run of the step system that ends with its result.
   */
  method Run(store: JsonActionStore, mux: Multiplexer, target: string, owner: Owner, action: Action,
             context: RecoveryContext, world: World, ghost s: System, ghost tid: nat)
    returns (r: Ending, count: nat, ghost steps: seq<Step>, ghost end: Option<Thread>)
    requires store.store.Valid() && Open(s, tid)
    requires s.owner == owner && s.memory == store.state && s.disk == store.store.OnDisk()
    modifies store, store.store, mux
    ensures store.store.Valid()
    ensures end.None? ==>
      && r.Some? && r.value.Err? && mux.sent == old(mux.sent)
      && store.state == old(store.state) && store.store.OnDisk() == old(store.store.OnDisk())
    ensures end.Some? <==> Welcome(target, action, context, world, tid)
    ensures end.Some? ==>
      && Follows(s, steps, store.state, store.store.OnDisk(), tid, end.value) && Reached(end.value.pc, r)
      && Heard(world, action, steps)
    ensures Timely(world, action.timeoutSeconds, count, r)
    ensures r.Some? && r.value.Ok? && IsInput(action.kind) ==>
      && mux.sent == old(mux.sent) + Strokes(action.kind)
      && exists i :: 0 <= i < count && PollVerifies(end.value, world.verifications(i))
    ensures mux.sent != old(mux.sent) ==> AdmitsTyping(r)
  {
    hide Follows, Revalidate, Authorize, MemoryAfter, DiskAfter, PollVerifies, Strokes, ActuatorAccepts, KeyFor, ContextFor;
    count, steps, end := 0, [], None;
    if !ActuatorAccepts(action) {
      return Some(Err(Execution(Unsafe("action refused")))), count, steps, end;
    }
    var baseline := Revalidate(action, None, world.readings(0));
    if baseline.Err? {
      NeverTimedOut(action, None, world.readings(0));
      return Some(Err(baseline.error)), count, steps, end;
    }
    Readings(action, None, world.readings(0));
    var policy := ContextFor(baseline.value, context, world.wall);
    var verdict := Authorize(action, policy);
    if verdict.Err? {
      return Some(Err(Denied(verdict.error))), count, steps, end;
    }
    var confirmed := Revalidate(action, Some(baseline.value), world.readings(1));
    if confirmed.Err? {
      NeverTimedOut(action, Some(baseline.value), world.readings(1));
      return Some(Err(confirmed.error)), count, steps, end;
    }
    Readings(action, Some(baseline.value), world.readings(1));
    ghost var step := Start(tid, target, action, context, baseline.value, confirmed.value, world.wall,
                            world.now, world.snapshot);
    var record := PreparedRecord(target, owner, action, baseline.value, world.now, world.snapshot);
    ghost var claimed, th := FollowClaim(s, tid, step, WriteAt(world.writes(0)));
    assert Heard(world, action, []);
    HeardMore(world, action, [], step);
    HeardWrite(world, action, [] + [step], tid, 0);
    var won := store.ClaimPrepared(target, record, world.writes(0));
    steps, end := claimed, Some(th);
    if won.Err? {
      return Some(Err(Store(won.error))), count, steps, end;
    }
    if !won.value {
      return Some(Err(Duplicate)), count, steps, end;
    }
    ghost var last;
    r, count, steps, last :=
      Commit(store, mux, action, baseline.value, confirmed.value, record, world, s, claimed, tid, th);
    end := Some(last);
    if r.Some? && r.value.Ok? && IsInput(action.kind) {
      SameProof(last, th, world.verifications, count);
    }
  }

  /** The two readings before the claim and the policy let the transaction in. */
  predicate Welcome(target: string, action: Action, context: RecoveryContext, world: World, tid: nat) {
    && world.readings(0).Ok? && world.readings(1).Ok?
    && Admitted(Start(tid, target, action, context, world.readings(0).value, world.readings(1).value,
                      world.wall, world.now, world.snapshot))
  }

  lemma NeverTimedOut(a: Action, baseline: Option<LiveEvidence>, reading: Reading)
    requires Revalidate(a, baseline, reading).Err?
    ensures Revalidate(a, baseline, reading).error.Store? || Revalidate(a, baseline, reading).error.Revalidation?
  {
    hide Revalidate;
    R.ObjectionsAreTrue(a, baseline, reading);
  }

  /** A reading that passes is the evidence it passes on. */
  lemma Readings(a: Action, baseline: Option<LiveEvidence>, reading: Reading)
    requires Revalidate(a, baseline, reading).Ok?
    ensures reading == Ok(Revalidate(a, baseline, reading).value)
  {
    hide ActionFingerprint, ResumeSessionChanged;
  }

  // ----- the stale-lease scan

  predicate Stale(r: Record, now: nat, probe: set<Owner>) {
    r.leaseDeadline < now && r.owner !in probe
  }

  lemma FollowScan(s: System, sid: nat, target: string, probe: set<Owner>, now: nat, w: Write)
    returns (steps: seq<Step>)
    requires s.mode.Serving? && sid !in s.scans && target in s.memory.active
    requires Stale(s.memory.active[target], now, probe)
    ensures Runs(s, steps) && steps == [ScanRead(sid, target, probe, now), ScanClose(sid, w)]
    ensures var op := Append(target, StaleClose(s.memory.active[target]));
      End(s, steps) == s.(memory := MemoryAfter(s.memory, op, w), disk := DiskAfter(s.memory, s.disk, op, w))
  {
    hide Runs, End, MemoryAfter, DiskAfter, StaleClose;
    Nothing(s);
    RunsAppend(s, [], ScanRead(sid, target, probe, now));
    steps := [] + [ScanRead(sid, target, probe, now)];
    RunsAppend(s, steps, ScanClose(sid, w));
    steps := steps + [ScanClose(sid, w)];
    var scan := Scan(target, s.memory.active[target]);
    assert s.scans[sid := scan] - {sid} == s.scans;
  }

  /** Close a record whose lease ran out and whose owner the probe does not find. */
  method RecoverStale(store: JsonActionStore, target: string, now: nat, probe: set<Owner>, at: Point,
                      ghost s: System, ghost sid: nat)
    returns (r: Result<Option<Record>, TransactionError>, ghost steps: seq<Step>)
    requires store.store.Valid() && s.mode.Serving? && sid !in s.scans
    requires s.memory == store.state && s.disk == store.store.OnDisk()
    modifies store, store.store
    ensures store.store.Valid() && Runs(s, steps)
    ensures End(s, steps) == s.(memory := store.state, disk := store.store.OnDisk())
    ensures target in old(store.state.active) && !Stale(old(store.state.active[target]), now, probe) ==>
      r == Err(ActiveOwner) && steps == []
    ensures target in old(store.state.active) && Stale(old(store.state.active[target]), now, probe) ==>
      var closed := StaleClose(old(store.state.active[target]));
      && steps == [ScanRead(sid, target, probe, now), ScanClose(sid, WriteAt(at))]
      && r == if WriteAt(at).Durable? then Ok(Some(closed)) else Err(Store(WriteLost))
    ensures target !in old(store.state.active) ==> r == Ok(None) && steps == []
  {
    hide Runs, End, MemoryAfter, DiskAfter;
    Nothing(s);
    steps := [];
    if target !in store.state.active {
      return Ok(None), steps;
    }
    var record := store.state.active[target];
    if now <= record.leaseDeadline || record.owner in probe {
      return Err(ActiveOwner), steps;
    }
    steps := FollowScan(s, sid, target, probe, now, WriteAt(at));
    var terminal := record.Next(if record.phase.Prepared? then Failed else HumanRequired, LeaseExpired);
    var done := store.DoAppend(target, terminal, at);
    r := if done.Ok? then Ok(Some(terminal)) else Err(Store(done.error));
  }
}
