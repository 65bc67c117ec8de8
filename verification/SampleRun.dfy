/** The sample action through the step system: claimed, executed, verified and recorded as Succeeded. */
module SampleRun {
  import opened Wrappers
  import opened Model
  import opened Evidence
  import opened Ledger
  import opened Protocol
  import opened Transaction
  import opened Sample

  // ----- what a run invoked

  /** The keys of the executor calls in a log, in order. */
  function InvokedKeys(log: seq<Entry>): seq<string> {
    if log == [] then []
    else
      var last := log[|log| - 1];
      InvokedKeys(log[..|log| - 1]) + (if last.Invoked? then [last.key] else [])
  }

  lemma InvokedSnoc(log: seq<Entry>, e: Entry)
    ensures InvokedKeys(log + [e]) == InvokedKeys(log) + if e.Invoked? then [e.key] else []
  {
    assert (log + [e])[..|log|] == log;
  }

  lemma QuietStep(s: System, step: Step)
    requires Enabled(s, step) && !step.Invoke?
    ensures InvokedKeys(Apply(s, step).log) == InvokedKeys(s.log)
  {
    hide InvokedKeys;
    if step.AttemptSend? {
      InvokedSnoc(s.log, SendAttempted(s.threads[step.tid].record.key, s.threads[step.tid].action.kind));
    } else if step.Poll? && step.reading.Ok? {
      InvokedSnoc(s.log, Proved(s.threads[step.tid].record.key, step.reading.value));
    }
  }

  predicate Quiet(steps: seq<Step>) {
    forall i :: 0 <= i < |steps| ==> !steps[i].Invoke?
  }

  lemma {:induction false} QuietRun(s: System, steps: seq<Step>)
    requires Runs(s, steps) && Quiet(steps)
    ensures InvokedKeys(End(s, steps).log) == InvokedKeys(s.log)
    decreases |steps|
  {
    hide Enabled, Apply, Admitted, InvokedKeys;
    if steps != [] {
      QuietStep(s, steps[0]);
      QuietRun(Apply(s, steps[0]), steps[1..]);
    }
  }

  lemma {:induction false} RunsSplit(s: System, a: seq<Step>, b: seq<Step>)
    requires Runs(s, a + b)
    ensures Runs(s, a) && Runs(End(s, a), b) && End(s, a + b) == End(End(s, a), b)
    decreases |a|
  {
    hide Enabled, Apply, Admitted;
    if a == [] {
      assert a + b == b;
    } else {
      assert (a + b)[0] == a[0] && (a + b)[1..] == a[1..] + b;
      RunsSplit(Apply(s, a[0]), a[1..], b);
    }
  }

  lemma {:induction false} RunsJoin(s: System, a: seq<Step>, b: seq<Step>)
    requires Runs(s, a) && Runs(End(s, a), b)
    ensures Runs(s, a + b) && End(s, a + b) == End(End(s, a), b)
    decreases |a|
  {
    hide Enabled, Apply, Admitted;
    if a == [] {
      assert a + b == b;
    } else {
      assert (a + b)[0] == a[0] && (a + b)[1..] == a[1..] + b;
      RunsJoin(Apply(s, a[0]), a[1..], b);
    }
  }

  lemma InvokeLogs(s: System, steps: seq<Step>, memory: Ledger, disk: Ledger, tid: nat, th: Thread)
    requires s.mode.Serving? && Follows(s, steps, memory, disk, tid, th) && th.pc.Ready?
    ensures Runs(s, steps + [Invoke(tid)])
    ensures InvokedKeys(End(s, steps + [Invoke(tid)]).log) == InvokedKeys(End(s, steps).log) + [th.record.key]
  {
    hide InvokedKeys, Runs, End;
    RunsAppend(s, steps, Invoke(tid));
    InvokedSnoc(End(s, steps).log, Invoked(th.record.key, th.record.target, th.action, th.baseline));
  }

  // ----- the transaction

  function EnterKey(target: string, f: string): string {
    KeyFor(target, "a", f)
  }

  /** Room for the transaction: its target is free and its key unclaimed. */
  predicate Free(s: System, tid: nat, target: string, f: string) {
    Transaction.Open(s, tid) && target !in s.memory.active && EnterKey(target, f) !in s.memory.idempotency
  }

  function EnterStart(tid: nat, target: string, f: string, context: RecoveryContext): Step {
    Start(tid, target, EnterAt(f), context, Limited(f), Limited(f), None, 0, "")
  }

  /** The ledger holds a record of the key as the target's active one. */
  predicate Holding(l: Ledger, th: Thread) {
    Holds(l, th.record.target, th.record)
  }

  /** A transaction that holds its target appends its next record. */
  lemma DurableAppend(s: System, steps: seq<Step>, l: Ledger, disk: Ledger, tid: nat, th: Thread)
    returns (l': Ledger, th': Thread)
    requires s.mode.Serving? && Follows(s, steps, l, disk, tid, th) && Holding(l, th)
    requires th.pc.Beginning? || th.pc.Recording? || th.pc.StartingPoll? || th.pc.Completing?
    ensures l' == Appended(l, th.record.target, Pending(th))
    ensures th' == th.(record := Pending(th), pc := Appending(th))
    ensures Follows(s, steps + [StoreWrite(tid, Durable)], l', l', tid, th')
    ensures !Terminal(Pending(th).phase) ==> Holding(l', th')
  {
    hide Follows;
    FollowWrite(s, steps, l, disk, tid, th, Durable);
    l', th' := Appended(l, th.record.target, Pending(th)), th.(record := Pending(th), pc := Appending(th));
  }

  /** Where a transaction stands after its append. */
  function Appending(th: Thread): Pc
    requires th.pc.Beginning? || th.pc.Recording? || th.pc.StartingPoll? || th.pc.Completing?
  {
    match th.pc
    case Beginning => Ready
    case Recording(output) => Receipting(output)
    case StartingPoll => Polling
    case Completing(_) => Done(Ok(Pending(th)))
  }

  lemma EnterClaims(s: System, tid: nat, target: string, f: string, context: RecoveryContext)
    returns (l: Ledger, th: Thread)
    requires Free(s, tid, target, f) && Admitted(EnterStart(tid, target, f, context))
    ensures Follows(s, [EnterStart(tid, target, f, context), StoreWrite(tid, Durable)], l, l, tid, th)
    ensures th.pc.Confirming? && Holding(l, th)
    ensures th.record.target == target && th.record.key == EnterKey(target, f)
    ensures th.action == EnterAt(f) && th.baseline == th.confirmed == Limited(f)
    ensures l.idempotency == s.memory.idempotency + {EnterKey(target, f)}
    ensures l.active.Keys == s.memory.active.Keys + {target}
  {
    hide Follows, Admitted, EnterAt, Limited, KeyFor;
    var start := EnterStart(tid, target, f, context);
    EnterParts(f);
    FollowStart(s, tid, start);
    var record := PreparedRecord(target, s.owner, start.action, start.baseline, start.now, start.snapshot);
    th := Thread(start.action, start.baseline, start.confirmed, record, Claiming);
    FollowWrite(s, [start], s.memory, s.disk, tid, th, Durable);
    l, th := Claimed(s.memory, target, record), th.(pc := Confirming);
    assert [start] + [StoreWrite(tid, Durable)] == [start, StoreWrite(tid, Durable)];
  }

  /** From the claim to the commit boundary. */
  lemma EnterCommits(s: System, tid: nat, target: string, f: string, context: RecoveryContext)
    returns (steps: seq<Step>, l: Ledger, th: Thread)
    requires Free(s, tid, target, f) && Admitted(EnterStart(tid, target, f, context))
    ensures Follows(s, steps, l, l, tid, th) && th.pc.Ready? && Holding(l, th) && Quiet(steps)
    ensures th.record.target == target && th.record.key == EnterKey(target, f)
    ensures th.action == EnterAt(f) && th.baseline == Limited(f)
    ensures l.idempotency == s.memory.idempotency + {EnterKey(target, f)}
    ensures l.active.Keys == s.memory.active.Keys + {target}
  {
    hide Follows, Admitted, Revalidate, EnterAt, Limited, KeyFor, AfterWrite, OpOf, MemoryAfter, DiskAfter;
    EnterRevalidates(f, Some(Limited(f)));
    l, th := EnterClaims(s, tid, target, f, context);
    steps := [EnterStart(tid, target, f, context), StoreWrite(tid, Durable)];
    FollowConfirm(s, steps, l, l, tid, th, Ok(Limited(f)));
    steps, th := steps + [Confirm(tid, Ok(Limited(f)))], th.(pc := Beginning);
    l, th := DurableAppend(s, steps, l, l, tid, th);
    steps := steps + [StoreWrite(tid, Durable)];
  }

  lemma EnterParts(f: string)
    ensures EnterAt(f).actionId == "a" && Limited(f).event.fingerprint == f && IsInput(EnterAt(f).kind)
    ensures ReceiptOutcomesHold(Committed, EnterAt(f).outcomes) && NeedsProgress(EnterAt(f))
    ensures !Resumed(f).humanIntervened && Resumed(f).identity == Limited(f).identity
  {
  }

  /** From the executor's return to the record of success. */
  lemma EnterSucceeds(s: System, before: seq<Step>, l0: Ledger, disk0: Ledger, tid: nat, start: Thread, f: string)
    returns (rest: seq<Step>, l: Ledger, disk: Ledger, th: Thread)
    requires s.mode.Serving? && Follows(s, before, l0, disk0, tid, start)
    requires start.pc == Executing(false) && Holding(l0, start)
    requires start.action == EnterAt(f) && start.baseline == Limited(f)
    ensures Follows(s, before + rest, l, disk, tid, th) && Quiet(rest)
    ensures th.pc.Done? && th.pc.result.Ok? && th.pc.result.value.phase.Succeeded?
    ensures l.idempotency == l0.idempotency && l.active.Keys == l0.active.Keys - {start.record.target}
  {
    hide Follows, EnterAt, Limited, Resumed, Verified, ReceiptOutcomesHold, NeedsProgress, AfterWrite, OpOf;
    EnterParts(f);
    ResumedVerifies(f);
    th, l, disk := start, l0, disk0;
    var steps := before;
    FollowSend(s, steps, l, disk, tid, th);
    steps, th := steps + [AttemptSend(tid)], th.(pc := Executing(true));
    FollowReturn(s, steps, l, disk, tid, th, Ok(Committed), "");
    steps, th := steps + [Return(tid, Ok(Committed), "")], AfterReturn(th, Ok(Committed), "");
    l, th := DurableAppend(s, steps, l, disk, tid, th);
    steps, disk := steps + [StoreWrite(tid, Durable)], l;
    FollowReceipt(s, steps, l, disk, tid, th);
    steps, th := steps + [CheckReceipt(tid)], th.(pc := StartingPoll);
    l, th := DurableAppend(s, steps, l, disk, tid, th);
    steps, disk := steps + [StoreWrite(tid, Durable)], l;
    FollowPoll(s, steps, l, disk, tid, th, Ok(Resumed(f)), false);
    steps, th := steps + [Poll(tid, Ok(Resumed(f)), false)], th.(pc := Completing(OutcomeVerified));
    l, th := DurableAppend(s, steps, l, disk, tid, th);
    disk := l;
    rest := [AttemptSend(tid), Return(tid, Ok(Committed), ""), StoreWrite(tid, Durable), CheckReceipt(tid),
             StoreWrite(tid, Durable), Poll(tid, Ok(Resumed(f)), false), StoreWrite(tid, Durable)];
    assert steps + [StoreWrite(tid, Durable)] == before + rest;
  }

  /** The whole transaction: one executor call under its key, and its target free again. */
  lemma EnterRuns(s: System, tid: nat, target: string, f: string, context: RecoveryContext)
    returns (steps: seq<Step>, th: Thread)
    requires Free(s, tid, target, f) && Admitted(EnterStart(tid, target, f, context))
    ensures Runs(s, steps)
    ensures th.pc.Done? && th.pc.result.Ok? && th.pc.result.value.phase.Succeeded?
    ensures var end := End(s, steps);
      && InvokedKeys(end.log) == InvokedKeys(s.log) + [EnterKey(target, f)]
      && end.mode.Serving? && end.threads == s.threads[tid := th] && end.owner == s.owner
      && end.memory.idempotency == s.memory.idempotency + {EnterKey(target, f)}
      && end.memory.active.Keys == s.memory.active.Keys
  {
    hide Admitted, InvokedKeys, Holding, Quiet, Apply, Enabled, EnterAt, Limited, KeyFor;
    var first, l, ready := EnterCommits(s, tid, target, f, context);
    QuietRun(s, first);
    InvokeLogs(s, first, l, l, tid, ready);
    FollowInvoke(s, first, l, l, tid, ready);
    var mid := first + [Invoke(tid)];
    assert Holding(l, ready.(pc := Executing(false))) by { SameHolding(l, ready); }
    var rest, l', disk', done := EnterSucceeds(s, mid, l, l, tid, ready.(pc := Executing(false)), f);
    RunsSplit(s, mid, rest);
    QuietRun(End(s, mid), rest);
    steps, th := mid + rest, done;
  }

  lemma SameHolding(l: Ledger, th: Thread)
    requires Holding(l, th)
    ensures Holding(l, th.(pc := Executing(false)))
  {
  }
}
