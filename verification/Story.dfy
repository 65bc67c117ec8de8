/**
 What lies behind an executor call and behind a success, in every run: which readings were
 taken and what they showed, what the policy was asked, what came back and what proved it.
 */
module Story {
  import opened Wrappers
  import opened Model
  import opened Policy
  import opened Evidence
  import opened Ledger
  import opened Protocol
  import opened Readings
  import Permissions

  // ----- what a transaction acts on

  /** A declared precondition is true of the evidence, the budgets and the clock. */
  predicate True(c: Condition, live: LiveEvidence, r: RecoveryContext, wall: Option<int>) {
    var text := TextOf(c.value);
    && c.kind in {TargetIdentityMatches, ProcessAlive, SessionIdMatches, EvidenceFingerprintMatches, ComposerEmpty,
                  MenuStable, AgentStateIs, GoalStateIs, EventCategoryIs, NoHumanIntervention,
                  ClaudeResumeSessionIs, CurrentTimeAtOrAfter}
    && (c.kind == TargetIdentityMatches ==> live.targetRevalidated && live.paneMatches)
    && (c.kind == ProcessAlive ==> live.processAlive)
    && (c.kind == SessionIdMatches ==> text == r.sessionId)
    && (c.kind == EvidenceFingerprintMatches ==> text == Some(live.event.fingerprint))
    && (c.kind == ComposerEmpty ==> live.composerSafe)
    && (c.kind == AgentStateIs ==> text == TextOf(live.event.Meta(AgentState)))
    && (c.kind == GoalStateIs ==> text == TextOf(live.event.Meta(GoalState)))
    && (c.kind == EventCategoryIs ==> text == Some(CategoryName(live.event.category)))
    && (c.kind == NoHumanIntervention ==> !live.humanIntervened)
    && (c.kind == ClaudeResumeSessionIs ==> text == TextOf(live.event.Meta(ClaudeResumeSession)))
    && (c.kind == CurrentTimeAtOrAfter ==>
          text.Some? && c.instant.Some? && wall.Some? && c.instant.value <= wall.value)
  }

  /** The budgets handed to the transaction cover the action. */
  predicate Covers(r: RecoveryContext, kind: ActionKind, live: LiveEvidence, wall: Option<int>) {
    && r.attemptsRemaining >= 1 && r.cooldownReady
    && (kind.WaitDuration? ==> kind.seconds <= r.waitRemainingSeconds)
    && (kind.WaitUntil? ==>
          kind.instant.Some? && wall.Some? && Permissions.Soon(kind.instant.value, wall.value, r.waitRemainingSeconds))
    && (kind == ActionKind.Escalate(AlternatePlanner) || kind == ActionKind.Escalate(SecondOpinion) ==>
          && r.plannerCallsRemaining >= 1
          && r.failedFamily.Some? && r.plannerFamily.Some? && r.failedFamily.value != r.plannerFamily.value)
    && (kind == ActionKind.Escalate(SecondOpinion) ==>
          r.plannerCallsRemaining >= 2 && r.plannerConcurrency && live.composerSafe)
  }

  const TYPED_KEYS := {Enter, EscapeKey, Up, Down, Left, Right, Tab}

  /** Neither a C0 nor a C1 control character, nor DEL. */
  predicate Plain(text: string) {
    forall i :: 0 <= i < |text| ==> ' ' <= text[i] <= '~' || text[i] as int >= 0xa0
  }

  /** The actuator can type it: characters that are no controls, keys it has names for. */
  predicate Handy(kind: ActionKind) {
    && (kind.SendText? ==> Plain(kind.text))
    && (kind.SubmitText? ==> Plain(kind.text))
    && (kind.SendKeys? ==> forall i :: 0 <= i < |kind.keys| ==> kind.keys[i] in TYPED_KEYS)
  }

  predicate Literal(kind: ActionKind) {
    && (kind.SendText? ==> kind.text in Permissions.LITERALS)
    && (kind.SubmitText? ==> kind.text in Permissions.LITERALS)
  }

  /** What is typed is one of the literals or some of the keys, with a declared reason to. */
  predicate Sober(a: Action) {
    && Handy(a.kind) && Literal(a.kind)
    && (a.kind.SendKeys? ==> 1 <= |a.kind.keys| <= 16)
    && (a.kind.SendText? || a.kind.SubmitText? || a.kind.SendKeys? ==> 1 <= |a.preconditions|)
    && 1 <= a.timeoutSeconds <= 86_400 && 1 <= |a.outcomes| <= 6 && |a.preconditions| <= 12
  }

  predicate Approved(a: Action, live: LiveEvidence, r: RecoveryContext, wall: Option<int>) {
    Sober(a) && Covers(r, a.kind, live, wall)
    && forall i :: 0 <= i < |a.preconditions| ==> True(a.preconditions[i], live, r, wall)
  }

  /** Three readings, each clear, all of one source. */
  ghost predicate Seen(a: Action, first: LiveEvidence, second: LiveEvidence, third: LiveEvidence) {
    Clear(a, first) && Clear(a, second) && Clear(a, third) && SameSource(first, second) && SameSource(first, third)
  }

  lemma ActuatorExactly(a: Action)
    ensures ActuatorAccepts(a) <==> ValidAction(a) && Handy(a.kind)
  {
    hide ValidAction;
    if a.kind.SendKeys? {
      forall i | 0 <= i < |a.kind.keys| ensures SymbolicKey(a.kind.keys[i]) <==> a.kind.keys[i] in TYPED_KEYS {
      }
    }
  }

  lemma ValidIsBounded(a: Action)
    requires ValidAction(a)
    ensures a.kind.SendKeys? ==> 1 <= |a.kind.keys| <= 16
    ensures a.kind.SendText? || a.kind.SubmitText? || a.kind.SendKeys? ==> 1 <= |a.preconditions|
    ensures 1 <= a.timeoutSeconds <= 86_400 && 1 <= |a.outcomes| <= 6 && |a.preconditions| <= 12
  {
    hide ByteLen, ValidId, ValidPrecondition, ValidOutcome;
  }

  /** Over a clear reading the policy asks for nothing but budgets, true preconditions and literals. */
  lemma PermitsExactly(a: Action, live: LiveEvidence, r: RecoveryContext, wall: Option<int>)
    requires ValidAction(a) && Clear(a, live) && Handy(a.kind)
    ensures Permissions.Permits(a, ContextFor(live, r, wall)) <==>
      && Literal(a.kind) && Covers(r, a.kind, live, wall)
      && forall i :: 0 <= i < |a.preconditions| ==> True(a.preconditions[i], live, r, wall)
  {
    hide ValidAction, Names;
    var ctx := ContextFor(live, r, wall);
    forall i | 0 <= i < |a.preconditions|
      ensures Permissions.Met(a.preconditions[i], ctx) <==> True(a.preconditions[i], live, r, wall)
    {
      MetIsTrue(a.preconditions[i], live, r, wall);
    }
    hide Permissions.Met, True;
    if a.kind.SendKeys? {
      assert forall i :: 0 <= i < |a.kind.keys| ==> a.kind.keys[i] in Permissions.KEYS;
    }
  }

  lemma MetIsTrue(c: Condition, live: LiveEvidence, r: RecoveryContext, wall: Option<int>)
    ensures Permissions.Met(c, ContextFor(live, r, wall)) <==> True(c, live, r, wall)
  {
  }

  /** A transaction gets as far as its claim exactly when its two readings are clear and the action is approved. */
  lemma AdmitsExactly(step: Step)
    requires step.Start?
    ensures Admitted(step) <==>
      && ValidAction(step.action) && Approved(step.action, step.baseline, step.context, step.wall)
      && Clear(step.action, step.baseline) && Clear(step.action, step.confirmed)
      && SameSource(step.baseline, step.confirmed)
  {
    hide Revalidate, Authorize, ActuatorAccepts, Clear, ValidAction, Covers, True, Handy, Literal;
    RevalidatesExactly(step.action, None, Ok(step.baseline));
    RevalidatesExactly(step.action, Some(step.baseline), Ok(step.confirmed));
    Permissions.AuthorizesExactly(step.action, ContextFor(step.baseline, step.context, step.wall));
    ActuatorExactly(step.action);
    if ValidAction(step.action) {
      ValidIsBounded(step.action);
      if Clear(step.action, step.baseline) && Handy(step.action.kind) {
        PermitsExactly(step.action, step.baseline, step.context, step.wall);
      }
    }
  }

  // ----- where in a run it happened

  /** The steps of a run that took one transaction to where it stands. */
  datatype Places = Places(start: nat, confirm: nat, invoke: nat, send: nat, back: nat, proof: nat)

  predicate NoCrash(past: seq<Step>, from: nat, to: nat) {
    forall x :: from < x < to && x < |past| ==> !past[x].Crash?
  }

  predicate StartedAt(past: seq<Step>, tid: nat, th: Thread, i: nat) {
    && i < |past| && past[i].Start? && past[i].tid == tid && Admitted(past[i])
    && past[i].action == th.action && past[i].baseline == th.baseline && past[i].confirmed == th.confirmed
    && past[i].target == th.record.target
    && NoCrash(past, i, |past|)
  }

  predicate ConfirmedAt(past: seq<Step>, tid: nat, th: Thread, i: nat, j: nat) {
    i < j < |past| && past[j].Confirm? && past[j].tid == tid
    && Revalidate(th.action, Some(th.confirmed), past[j].reading).Ok?
  }

  predicate StepAt(past: seq<Step>, after: nat, at: nat, step: Step) {
    after < at < |past| && past[at] == step
  }

  predicate ReturnedAt(past: seq<Step>, tid: nat, after: nat, at: nat) {
    after < at < |past| && past[at].Return? && past[at].tid == tid && past[at].outcome.Ok?
  }

  predicate ProvedAt(past: seq<Step>, tid: nat, th: Thread, after: nat, at: nat) {
    after < at < |past| && past[at].Poll? && past[at].tid == tid && PollVerifies(th, past[at].reading)
  }

  predicate Succeeding(pc: Pc) {
    pc.Completing? || (pc.Done? && pc.result.Ok?)
  }

  predicate Settling(pc: Pc) {
    pc.StartingPoll? || pc.Polling? || Succeeding(pc)
  }

  predicate Returned(pc: Pc) {
    pc.Recording? || pc.Receipting? || Settling(pc)
  }

  predicate Begins(pc: Pc) {
    pc.Beginning? || pc.Ready?
  }

  predicate Called(pc: Pc) {
    pc.Executing? || Returned(pc)
  }

  predicate Told(past: seq<Step>, tid: nat, th: Thread, p: Places) {
    && StartedAt(past, tid, th, p.start)
    && (Begins(th.pc) || Called(th.pc) ==> ConfirmedAt(past, tid, th, p.start, p.confirm))
    && (Called(th.pc) ==> StepAt(past, p.confirm, p.invoke, Invoke(tid)))
    && (th.pc == Executing(true) || (Returned(th.pc) && IsInput(th.action.kind)) ==>
          StepAt(past, p.invoke, p.send, AttemptSend(tid)))
    && (Returned(th.pc) ==> ReturnedAt(past, tid, p.invoke, p.back) && (IsInput(th.action.kind) ==> p.send < p.back))
    && (th.pc.Recording? || th.pc.Receipting? ==> past[p.back].outcome == Ok(th.pc.output))
    && (Settling(th.pc) ==> ReceiptOutcomesHold(past[p.back].outcome.value, th.action.outcomes))
    && (th.pc.StartingPoll? || th.pc.Polling? ==> NeedsProgress(th.action))
    && (Succeeding(th.pc) && NeedsProgress(th.action) ==> ProvedAt(past, tid, th, p.back, p.proof))
  }

  ghost predicate ThreadTold(past: seq<Step>, tid: nat, th: Thread) {
    exists p :: Told(past, tid, th, p)
  }

  /** An executor call and the steps it rests on. */
  predicate CallAt(past: seq<Step>, e: Entry, i: nat, j: nat, n: nat)
    requires e.Invoked?
  {
    && i < j < n < |past| && NoCrash(past, i, n)
    && past[i].Start? && Admitted(past[i]) && past[n] == Invoke(past[i].tid)
    && past[i].action == e.action && past[i].baseline == e.baseline && past[i].target == e.target
    && past[j].Confirm? && past[j].tid == past[i].tid
    && Revalidate(e.action, Some(past[i].confirmed), past[j].reading).Ok?
  }

  ghost predicate CallTold(past: seq<Step>, e: Entry) {
    e.Invoked? ==> exists i: nat, j: nat, n: nat :: CallAt(past, e, i, j, n)
  }

  ghost predicate AllTold(s: System, past: seq<Step>) {
    && (forall tid :: tid in s.threads ==> ThreadTold(past, tid, s.threads[tid]))
    && (forall x :: 0 <= x < |s.log| ==> CallTold(past, s.log[x]))
  }

  // ----- more steps

  lemma ToldAppend(past: seq<Step>, step: Step, tid: nat, th: Thread, p: Places)
    requires Told(past, tid, th, p) && !step.Crash?
    ensures Told(past + [step], tid, th, p)
  {
    hide Admitted, Revalidate, PollVerifies, ReceiptOutcomesHold, NeedsProgress, IsInput;
    var more := past + [step];
    assert forall x :: 0 <= x < |past| ==> more[x] == past[x];
  }

  lemma CallAppend(past: seq<Step>, step: Step, e: Entry)
    requires CallTold(past, e)
    ensures CallTold(past + [step], e)
  {
    hide Admitted, Revalidate;
    if e.Invoked? {
      var i: nat, j: nat, n: nat :| CallAt(past, e, i, j, n);
      var more := past + [step];
      assert forall x :: 0 <= x < |past| ==> more[x] == past[x];
      assert CallAt(more, e, i, j, n);
    }
  }

  lemma OthersTold(s: System, past: seq<Step>, step: Step)
    requires AllTold(s, past) && !step.Crash?
    ensures AllTold(s, past + [step])
  {
    forall tid | tid in s.threads ensures ThreadTold(past + [step], tid, s.threads[tid]) {
      var p :| Told(past, tid, s.threads[tid], p);
      ToldAppend(past, step, tid, s.threads[tid], p);
    }
    forall x | 0 <= x < |s.log| ensures CallTold(past + [step], s.log[x]) {
      CallAppend(past, step, s.log[x]);
    }
  }

  // ----- each step of a transaction

  predicate SameCase(th: Thread, next: Thread) {
    next.action == th.action && next.baseline == th.baseline && next.confirmed == th.confirmed
    && next.record.target == th.record.target
  }

  /** Where a transaction was does not depend on where it stands. */
  lemma SamePlaces(past: seq<Step>, tid: nat, th: Thread, next: Thread, p: Places)
    requires SameCase(th, next)
    ensures StartedAt(past, tid, th, p.start) == StartedAt(past, tid, next, p.start)
    ensures ConfirmedAt(past, tid, th, p.start, p.confirm) == ConfirmedAt(past, tid, next, p.start, p.confirm)
    ensures ProvedAt(past, tid, th, p.back, p.proof) == ProvedAt(past, tid, next, p.back, p.proof)
  {
    hide Admitted, Revalidate, Verified, NoCrash;
  }

  lemma WriteKeepsCase(th: Thread, l: Ledger, w: Write)
    requires Writes(th.pc)
    ensures SameCase(th, AfterWrite(th, l, w))
  {
    hide Acknowledged, Accepts, FaultOf;
  }

  lemma WriteMoves(th: Thread, l: Ledger, w: Write)
    requires Writes(th.pc)
    ensures var pc := AfterWrite(th, l, w).pc;
      || (pc.Done? && pc.result.Err?) || pc.Escalating?
      || (th.pc.Claiming? && pc.Confirming?)
      || (th.pc.Beginning? && pc.Ready?)
      || (th.pc.Recording? && pc == Receipting(th.pc.output))
      || (th.pc.StartingPoll? && pc.Polling?)
      || (th.pc.Completing? && pc.Done?)
  {
    hide Acknowledged, Accepts, FaultOf;
  }

  lemma StartTold(past: seq<Step>, step: Step, owner: Owner)
    requires step.Start? && Admitted(step)
    ensures ThreadTold(past + [step], step.tid,
      Thread(step.action, step.baseline, step.confirmed,
             PreparedRecord(step.target, owner, step.action, step.baseline, step.now, step.snapshot), Claiming))
  {
    hide Admitted;
    var th := Thread(step.action, step.baseline, step.confirmed,
                     PreparedRecord(step.target, owner, step.action, step.baseline, step.now, step.snapshot), Claiming);
    assert Told(past + [step], step.tid, th, Places(|past|, 0, 0, 0, 0, 0));
  }

  lemma WriteTold(past: seq<Step>, tid: nat, w: Write, th: Thread, l: Ledger, p: Places)
    requires Told(past, tid, th, p) && Writes(th.pc)
    ensures Told(past + [StoreWrite(tid, w)], tid, AfterWrite(th, l, w), p)
  {
    hide StartedAt, ConfirmedAt, ProvedAt, StepAt, ReceiptOutcomesHold, NeedsProgress, AfterWrite;
    ToldAppend(past, StoreWrite(tid, w), tid, th, p);
    WriteKeepsCase(th, l, w);
    WriteMoves(th, l, w);
    SamePlaces(past + [StoreWrite(tid, w)], tid, th, AfterWrite(th, l, w), p);
  }

  lemma ConfirmTold(past: seq<Step>, tid: nat, reading: Reading, th: Thread, p: Places)
    requires Told(past, tid, th, p) && th.pc.Confirming?
    ensures Told(past + [Confirm(tid, reading)], tid, AfterConfirm(th, reading), p.(confirm := |past|))
  {
    ToldAppend(past, Confirm(tid, reading), tid, th, p);
    hide Admitted, Revalidate, ReceiptOutcomesHold, NeedsProgress, PollVerifies;
  }

  lemma InvokeTold(past: seq<Step>, tid: nat, th: Thread, p: Places)
    requires Told(past, tid, th, p) && th.pc.Ready?
    ensures Told(past + [Invoke(tid)], tid, th.(pc := Executing(false)), p.(invoke := |past|))
    ensures CallTold(past + [Invoke(tid)], Invoked(th.record.key, th.record.target, th.action, th.baseline))
  {
    ToldAppend(past, Invoke(tid), tid, th, p);
    hide Admitted, Revalidate, ReceiptOutcomesHold, NeedsProgress, PollVerifies;
    assert CallAt(past + [Invoke(tid)], Invoked(th.record.key, th.record.target, th.action, th.baseline),
                  p.start, p.confirm, |past|);
  }

  lemma SendTold(past: seq<Step>, tid: nat, th: Thread, p: Places)
    requires Told(past, tid, th, p) && th.pc.Executing?
    ensures Told(past + [AttemptSend(tid)], tid, th.(pc := Executing(true)), p.(send := |past|))
  {
    ToldAppend(past, AttemptSend(tid), tid, th, p);
    hide Admitted, Revalidate, ReceiptOutcomesHold, NeedsProgress, PollVerifies;
  }

  lemma ReturnTold(past: seq<Step>, tid: nat, outcome: Outcome, summary: string, th: Thread, p: Places)
    requires Told(past, tid, th, p) && th.pc.Executing?
    requires ExecutorContract(th.action.kind, th.pc.attempted, outcome)
    ensures Told(past + [Return(tid, outcome, summary)], tid, AfterReturn(th, outcome, summary), p.(back := |past|))
  {
    hide StartedAt, ConfirmedAt, ProvedAt, ReceiptOutcomesHold, NeedsProgress, IsInput;
    var more, next := past + [Return(tid, outcome, summary)], AfterReturn(th, outcome, summary);
    ToldAppend(past, Return(tid, outcome, summary), tid, th, p);
    SamePlaces(more, tid, th, next, p);
  }

  lemma ReceiptTold(past: seq<Step>, tid: nat, th: Thread, p: Places)
    requires Told(past, tid, th, p) && th.pc.Receipting?
    ensures Told(past + [CheckReceipt(tid)], tid, AfterReceipt(th), p)
  {
    hide StartedAt, ConfirmedAt, ProvedAt, StepAt, ReceiptOutcomesHold, NeedsProgress, IsInput;
    ToldAppend(past, CheckReceipt(tid), tid, th, p);
    SamePlaces(past + [CheckReceipt(tid)], tid, th, AfterReceipt(th), p);
  }

  lemma PollProves(past: seq<Step>, tid: nat, reading: Reading, expired: bool, th: Thread, back: nat)
    requires PollVerifies(th, reading) && back < |past|
    ensures ProvedAt(past + [Poll(tid, reading, expired)], tid, th, back, |past|)
  {
    hide PollVerifies;
  }

  lemma PollTold(past: seq<Step>, tid: nat, reading: Reading, expired: bool, th: Thread, p: Places)
    requires Told(past, tid, th, p) && th.pc.Polling?
    ensures ThreadTold(past + [Poll(tid, reading, expired)], tid, AfterPoll(th, reading, expired))
  {
    hide StartedAt, ConfirmedAt, ProvedAt, StepAt, ReceiptOutcomesHold, NeedsProgress, IsInput, Verified;
    var more, next := past + [Poll(tid, reading, expired)], AfterPoll(th, reading, expired);
    ToldAppend(past, Poll(tid, reading, expired), tid, th, p);
    if PollVerifies(th, reading) {
      var q := p.(proof := |past|);
      assert ProvedAt(more, tid, th, p.back, |past|) by { PollProves(past, tid, reading, expired, th, p.back); }
      SamePlaces(more, tid, th, next, q);
      assert Told(more, tid, next, q);
    } else {
      SamePlaces(more, tid, th, next, p);
      assert Told(more, tid, next, p);
    }
  }

  predicate Moves(step: Step) {
    step.StoreWrite? || step.Confirm? || step.Invoke? || step.AttemptSend? || step.Return? || step.CheckReceipt? || step.Poll?
  }

  /** The transaction that moves is told to where it moves. */
  lemma MoverTold(s: System, past: seq<Step>, step: Step)
    requires AllTold(s, past) && Enabled(s, step) && Moves(step)
    ensures ThreadTold(past + [step], step.tid, Apply(s, step).threads[step.tid])
  {
    hide Told, AfterWrite, AfterConfirm, AfterReturn, AfterReceipt, AfterPoll, PollVerifies, OpOf;
    var tid := step.tid;
    var th := s.threads[tid];
    assert ThreadTold(past, tid, th);
    var p :| Told(past, tid, th, p);
    match step
    case StoreWrite(_, w) => WriteTold(past, tid, w, th, s.memory, p);
    case Confirm(_, reading) => ConfirmTold(past, tid, reading, th, p);
    case Invoke(_) => InvokeTold(past, tid, th, p);
    case AttemptSend(_) => SendTold(past, tid, th, p);
    case Return(_, outcome, summary) => ReturnTold(past, tid, outcome, summary, th, p);
    case CheckReceipt(_) => ReceiptTold(past, tid, th, p);
    case Poll(_, reading, expired) => PollTold(past, tid, reading, expired, th, p);
  }

  /** A step changes at most the thread it names, and logs at most one entry. */
  lemma OneMoves(s: System, step: Step)
    requires Enabled(s, step) && !step.Crash? && !step.Start?
    ensures var end := Apply(s, step);
      && end.threads == (if Moves(step) then s.threads[step.tid := end.threads[step.tid]] else s.threads)
      && (forall x :: 0 <= x < |end.log| ==>
            || (x < |s.log| && end.log[x] == s.log[x])
            || !end.log[x].Invoked?
            || (step.Invoke? && var th := s.threads[step.tid];
                end.log[x] == Invoked(th.record.key, th.record.target, th.action, th.baseline)))
  {
    hide AfterWrite, AfterConfirm, AfterReturn, AfterReceipt, AfterPoll, PollVerifies, OpOf;
  }

  lemma StepTold(s: System, past: seq<Step>, step: Step)
    requires AllTold(s, past) && Admitted(step) && Enabled(s, step)
    ensures AllTold(Apply(s, step), past + [step])
  {
    hide ThreadTold, CallTold;
    var end := Apply(s, step);
    if step.Crash? {
      forall x | 0 <= x < |s.log| ensures CallTold(past + [step], s.log[x]) {
        CallAppend(past, step, s.log[x]);
      }
    } else {
      OthersTold(s, past, step);
      hide Apply, Enabled, Admitted;
      if step.Start? {
        StartStepTold(s, past, step);
      } else {
        OneMoves(s, step);
        if Moves(step) {
          MoverTold(s, past, step);
        }
        if step.Invoke? {
          CallStepTold(s, past, step.tid);
        }
        forall x | 0 <= x < |end.log| ensures CallTold(past + [step], end.log[x]) {
          OtherEntry(past + [step], end.log[x]);
        }
      }
    }
  }

  lemma OtherEntry(past: seq<Step>, e: Entry)
    ensures !e.Invoked? ==> CallTold(past, e)
  {
  }

  lemma StartStepTold(s: System, past: seq<Step>, step: Step)
    requires AllTold(s, past + [step]) && Admitted(step) && Enabled(s, step) && step.Start?
    ensures AllTold(Apply(s, step), past + [step])
  {
    hide ThreadTold, CallTold, Admitted, PreparedRecord;
    StartTold(past, step, s.owner);
  }

  lemma CallStepTold(s: System, past: seq<Step>, tid: nat)
    requires AllTold(s, past) && Enabled(s, Invoke(tid))
    ensures var th := s.threads[tid];
      CallTold(past + [Invoke(tid)], Invoked(th.record.key, th.record.target, th.action, th.baseline))
  {
    hide Told, CallTold;
    var th := s.threads[tid];
    assert ThreadTold(past, tid, th);
    var p :| Told(past, tid, th, p);
    InvokeTold(past, tid, th, p);
  }

  lemma {:induction false} RunTold(s: System, past: seq<Step>, steps: seq<Step>)
    requires AllTold(s, past) && Runs(s, steps)
    ensures AllTold(End(s, steps), past + steps)
    decreases |steps|
  {
    hide AllTold, Apply, Enabled, Admitted;
    if steps == [] {
      assert past + steps == past;
    } else {
      StepTold(s, past, steps[0]);
      RunTold(Apply(s, steps[0]), past + [steps[0]], steps[1..]);
      assert (past + [steps[0]]) + steps[1..] == past + steps;
    }
  }

  // ----- main results

  /** Start, confirm and call by one transaction of one daemon, in this order. */
  ghost predicate Grounded(steps: seq<Step>, e: Entry, i: nat, j: nat, n: nat)
    requires e.Invoked?
  {
    && i < j < n < |steps| && NoCrash(steps, i, n)
    && steps[i].Start? && steps[j].Confirm? && steps[n] == Invoke(steps[i].tid) && steps[j].tid == steps[i].tid
    && steps[i].action == e.action && steps[i].baseline == e.baseline && steps[i].target == e.target
    && steps[j].reading.Ok?
    && Seen(e.action, steps[i].baseline, steps[i].confirmed, steps[j].reading.value)
    && Approved(e.action, e.baseline, steps[i].context, steps[i].wall)
  }

  /**
   In every run, behind each executor call stand three clear readings of one source, the last
   of them taken after the claim, and a policy under which every declared precondition was
   true of the first.
   */
  lemma {:induction false} EveryCallIsGrounded(s: System, steps: seq<Step>, x: nat)
    requires Initial(s) && Runs(s, steps)
    requires x < |End(s, steps).log| && End(s, steps).log[x].Invoked?
    ensures exists i: nat, j: nat, n: nat :: Grounded(steps, End(s, steps).log[x], i, j, n)
  {
    hide Admitted, Revalidate, Clear, Approved;
    assert AllTold(s, []);
    RunTold(s, [], steps);
    assert [] + steps == steps;
    var e := End(s, steps).log[x];
    assert CallTold(steps, e);
    var i: nat, j: nat, n: nat :| CallAt(steps, e, i, j, n);
    AdmitsExactly(steps[i]);
    RevalidatesExactly(e.action, Some(steps[i].confirmed), steps[j].reading);
    assert Grounded(steps, e, i, j, n);
  }

  /** The transaction called the executor, typed if it types, got a receipt, and saw the proof it awaits. */
  ghost predicate Earned(steps: seq<Step>, tid: nat, th: Thread, p: Places) {
    && p.invoke < p.back < |steps| && steps[p.invoke] == Invoke(tid)
    && (th.action.kind.SendText? || th.action.kind.SubmitText? || th.action.kind.SendKeys? ==>
          p.invoke < p.send < p.back && steps[p.send] == AttemptSend(tid))
    && steps[p.back].Return? && steps[p.back].tid == tid
    && steps[p.back].outcome.Ok? && Receipted(th.action, steps[p.back].outcome.value)
    && (AwaitsProgress(th.action) ==>
          && p.back < p.proof < |steps| && steps[p.proof].Poll? && steps[p.proof].tid == tid
          && steps[p.proof].reading.Ok? && Proof(th.action, th.baseline, steps[p.proof].reading.value))
  }

  lemma ToldIsEarned(steps: seq<Step>, tid: nat, th: Thread, p: Places)
    requires Told(steps, tid, th, p) && th.pc.Done? && th.pc.result.Ok?
    ensures Earned(steps, tid, th, p)
  {
    hide StartedAt, ConfirmedAt, Verified, ReceiptOutcomesHold, NeedsProgress, Receipted, AwaitsProgress, Proof;
    AwaitsIsTested(th.action);
    ReceiptIsTested(th.action, steps[p.back].outcome.value);
    if NeedsProgress(th.action) {
      VerifiesExactly(th.action, th.baseline, steps[p.proof].reading.value);
    }
  }

  /** In every run a transaction that answers with success has earned it. */
  lemma {:induction false} SuccessfulAnswers(s: System, steps: seq<Step>, tid: nat)
    requires Initial(s) && Runs(s, steps)
    requires tid in End(s, steps).threads
    requires var pc := End(s, steps).threads[tid].pc; pc.Done? && pc.result.Ok?
    ensures exists p :: Earned(steps, tid, End(s, steps).threads[tid], p)
  {
    hide Told, Earned, CallTold, Apply, Enabled, Admitted;
    assert AllTold(s, []);
    RunTold(s, [], steps);
    assert [] + steps == steps;
    var th := End(s, steps).threads[tid];
    assert ThreadTold(steps, tid, th);
    var p :| Told(steps, tid, th, p);
    ToldIsEarned(steps, tid, th, p);
  }
}
