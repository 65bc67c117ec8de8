/**
 The attempt budget from the machine to the executor. An attempt is charged and stored
 before the remaining budget is computed, and a remaining budget of zero is denied, so the
 last attempt a budget allows can never act.
 */
module Budgets {
  import opened Wrappers
  import opened Model
  import opened Policy
  import opened Evidence
  import opened Watchers
  import StateMachine
  import MachineRuns
  import Registry
  import Restarts
  import Edits
  import MachineHistory
  import Permissions
  import Protocol

  type Machine = StateMachine.Machine

  /** The budgets a transaction is handed, taken from the watcher's machine and last event. */
  function FromWatcher(m: Machine, event: Event, now: nat): Option<RecoveryContext> {
    if !(m.state.Confirmed? || m.state.Acting?) || !IsActionable(event.category) then None
    else Some(RecoveryContext(
      attemptsRemaining := SaturatingSub(m.budget.maxAttempts, m.attempts),
      waitRemainingSeconds := StateMachine.Seconds(SaturatingSub(m.budget.maxWait, m.wait)),
      plannerCallsRemaining := SaturatingSub(m.budget.plannerCalls, m.plannerCalls),
      plannerConcurrency := false,
      cooldownReady := m.state.Acting? || StateMachine.CooledDown(m, now),
      sessionId := event.sessionId,
      failedFamily := event.providerFamily,
      plannerFamily := None))
  }

  /** A proposed action, the event it answers, and what its transaction reads before it claims. */
  datatype Attempt = Attempt(
    action: Action, event: Event, now: nat,
    baseline: LiveEvidence, confirmed: LiveEvidence, wall: Option<int>, preparedAt: nat, snapshot: string)
  {
    function Fingerprint(): string { ActionFingerprint(action) }

    function Key(target: string): string {
      Protocol.KeyFor(target, action.actionId, baseline.event.fingerprint)
    }

    /** The transaction this attempt starts, with a machine that has begun it. */
    function Start(target: string, tid: nat, context: RecoveryContext): Protocol.Step {
      Protocol.Start(tid, target, action, context, baseline, confirmed, wall, preparedAt, snapshot)
    }
  }

  predicate Permitted(m: Machine, a: Attempt) {
    var context := FromWatcher(m, a.event, a.now);
    context.Some? && Protocol.Admitted(a.Start("", 0, context.value))
  }

  /**
   One machine over its whole life, the keys claimed for its target, and the keys of the
   transactions that won their claim: only those can call the executor.
   */
  datatype Life = Life(target: string, memory: Machine, disk: Machine, claimed: set<string>, acted: seq<string>)

  datatype Happening =
    | Command(c: StateMachine.Command, w: Protocol.Write)
    /** An observation is committed to the watcher that holds the machine. */
    | Observe(watcher: Watcher, seen: Event, w: Protocol.Write)
    | Dispatch(attempt: Attempt, w: Protocol.Write)
    /** The daemon dies, and the watcher that holds the machine is replayed from disk. */
    | Crash(watcher: Watcher)

  /** What is applied to a copy replaces the machine once it is stored. */
  function Stored(l: Life, next: Machine, w: Protocol.Write): Life {
    l.(memory := if w.Durable? then next else l.memory, disk := if w.LostAbsent? then l.disk else next)
  }

  function Persisted(l: Life, c: StateMachine.Command, w: Protocol.Write): Life {
    if StateMachine.Judge(l.memory, c).Accepted? then Stored(l, StateMachine.Advance(l.memory, c), w) else l
  }

  function BeginOf(a: Attempt): StateMachine.Command {
    StateMachine.BeginAction(a.Fingerprint(), a.now)
  }

  /** Begun, stored, admitted on a budget that already counts it, and the first to claim its key. */
  predicate Acts(l: Life, a: Attempt, w: Protocol.Write) {
    && StateMachine.Judge(l.memory, BeginOf(a)).Accepted? && w.Durable?
    && Permitted(StateMachine.Advance(l.memory, BeginOf(a)), a)
    && a.Key(l.target) !in l.claimed
  }

  function Step(l: Life, e: Happening): Life {
    match e
    case Command(c, w) => Persisted(l, c, w)
    case Observe(watcher, seen, w) =>
      var absorbed := Absorb(watcher, l.memory, seen);
      if absorbed.Ok? && absorbed.value.recovery.Some? then Stored(l, absorbed.value.recovery.value, w) else l
    case Dispatch(a, w) =>
      if a.Fingerprint() == "" then l
      else
        var next := Persisted(l, BeginOf(a), w);
        if Acts(l, a, w) then next.(claimed := l.claimed + {a.Key(l.target)}, acted := l.acted + [a.Key(l.target)])
        else next
    case Crash(watcher) =>
      var back := Registry.Replay(watcher.(recovery := Some(l.disk)));
      if back.Ok? && back.value.recovery.Some? then
        l.(memory := back.value.recovery.value, disk := back.value.recovery.value)
      else l.(memory := l.disk)
  }

  function Lived(l: Life, es: seq<Happening>): Life
    decreases |es|
  {
    if es == [] then l else Lived(Step(l, es[0]), es[1..])
  }

  function Born(budget: StateMachine.Budget, target: string): Life {
    Life(target, StateMachine.Fresh(budget), StateMachine.Fresh(budget), {}, [])
  }

  // ----- what the budgets hand out

  /** The whole seconds in a duration. */
  predicate WholeSeconds(seconds: nat, d: nat) {
    seconds * StateMachine.NANOS <= d < (seconds + 1) * StateMachine.NANOS
  }

  /** What is left is what was not spent; no planner is ever on offer. */
  predicate Left(m: Machine, event: Event, now: nat, r: RecoveryContext) {
    && r.attemptsRemaining == (if m.attempts <= m.budget.maxAttempts then m.budget.maxAttempts - m.attempts else 0)
    && WholeSeconds(r.waitRemainingSeconds, if m.wait <= m.budget.maxWait then m.budget.maxWait - m.wait else 0)
    && r.plannerCallsRemaining
       == (if m.plannerCalls <= m.budget.plannerCalls then m.budget.plannerCalls - m.plannerCalls else 0)
    && !r.plannerConcurrency && r.plannerFamily == None
    && r.sessionId == event.sessionId && r.failedFamily == event.providerFamily
    && (r.cooldownReady <==>
          m.state == StateMachine.Acting || m.last == None
          || MachineHistory.Rested(m.budget.cooldown, m.last.value, now))
  }

  /** Budgets are handed to a confirmed or acting machine whose event is worth acting on. */
  lemma HandsOutExactly(m: Machine, event: Event, now: nat)
    ensures FromWatcher(m, event, now).Some? <==>
      m.state in {StateMachine.Confirmed, StateMachine.Acting} && event.category !in Edits.CALM
    ensures FromWatcher(m, event, now).Some? ==> Left(m, event, now, FromWatcher(m, event, now).value)
  {
    MachineHistory.CooledExactly(m, now);
    hide StateMachine.CooledDown;
    var d := SaturatingSub(m.budget.maxWait, m.wait);
    var q := StateMachine.Seconds(d);
    assert q * StateMachine.NANOS <= d < (q + 1) * StateMachine.NANOS;
  }

  /** Since no planner is on offer, nothing is ever escalated to one. */
  lemma NoPlannerIsAsked(m: Machine, a: Attempt)
    requires Permitted(m, a)
    ensures a.action.kind.Escalate? ==> a.action.kind.level == HumanLevel
  {
    HandsOutExactly(m, a.event, a.now);
    var context := FromWatcher(m, a.event, a.now).value;
    Permissions.AuthorizesExactly(a.action, ContextFor(a.baseline, context, a.wall));
    hide FromWatcher, Authorize, Revalidate, ActuatorAccepts, Left;
    if a.action.kind.Escalate? {
      Permissions.ValidKinds(a.action);
    }
  }

  // ----- the bound

  predicate Covered(l: Life, budget: StateMachine.Budget) {
    && MachineRuns.Sound(l.memory) && MachineRuns.Sound(l.disk)
    && l.memory.budget == budget && l.disk.budget == budget
    && |l.acted| <= l.memory.attempts && |l.acted| <= l.disk.attempts
    && |l.acted| <= SaturatingSub(budget.maxAttempts, 1)
    && MachineRuns.Distinct(l.acted) && (forall k :: k in l.acted ==> k in l.claimed)
  }

  lemma PermittedHasAttempts(m: Machine, a: Attempt)
    requires Permitted(m, a)
    ensures m.attempts < m.budget.maxAttempts
  {
    hide ValidAction, KindAllowed, PreconditionHolds, WaitUntilSeconds, ActuatorAccepts, Revalidate;
  }

  lemma PersistedCovers(l: Life, c: StateMachine.Command, w: Protocol.Write, budget: StateMachine.Budget)
    requires Covered(l, budget)
    ensures Covered(Persisted(l, c, w), budget)
  {
    hide MachineRuns.Sound, StateMachine.Judge;
    MachineRuns.ApplyIsSound(l.memory, c);
  }

  lemma TellIsSound(m: Machine, c: StateMachine.Command)
    requires MachineRuns.Sound(m) && Tell(m, c).Ok? && !c.BeginAction?
    ensures var next := Tell(m, c).value;
      MachineRuns.Sound(next) && next.budget == m.budget && next.attempts == m.attempts
  {
    hide MachineRuns.Sound;
    MachineRuns.ApplyIsSound(m, c);
  }

  lemma AbsorbIsSound(w: Watcher, m: Machine, e: Event)
    requires MachineRuns.Sound(m)
    ensures Absorb(w, m, e).Ok? && Absorb(w, m, e).value.recovery.Some?
    ensures var next := Absorb(w, m, e).value.recovery.value;
      MachineRuns.Sound(next) && next.budget == m.budget && next.attempts == m.attempts
  {
    AbsorbAccepts(w, m, e);
    hide MachineRuns.Sound, Rearms, Confirms;
    var first := if m.state.NeedsRevalidation? then Tell(m, StateMachine.Revalidated) else Ok(m);
    if m.state.NeedsRevalidation? {
      TellIsSound(m, StateMachine.Revalidated);
    }
    var lifecycle := if m.state.NeedsRevalidation? then Observing else w.lifecycle;
    var second := if Rearms(first.value, lifecycle, e) then Tell(first.value, StateMachine.RearmAfterWait) else first;
    if Rearms(first.value, lifecycle, e) {
      TellIsSound(first.value, StateMachine.RearmAfterWait);
    }
    if Confirms(second.value, w.schedule, e) {
      TellIsSound(second.value, StateMachine.Confirm(e.fingerprint));
    }
  }

  lemma CrashCovers(l: Life, watcher: Watcher, budget: StateMachine.Budget)
    requires Covered(l, budget)
    ensures Covered(Step(l, Crash(watcher)), budget)
  {
    var found := watcher.(recovery := Some(l.disk));
    Restarts.ReplayExactly(found);
    MachineRuns.ApplyIsSound(l.disk, StateMachine.Restart);
    hide MachineRuns.Sound, Registry.Replay;
    if Registry.Replay(found).Ok? {
      var back := Registry.Replay(found).value.recovery.value;
      assert back == StateMachine.Apply(l.disk, StateMachine.Restart);
    }
  }

  lemma StepCovers(l: Life, e: Happening, budget: StateMachine.Budget)
    requires Covered(l, budget)
    ensures Covered(Step(l, e), budget)
  {
    hide MachineRuns.Sound, Permitted, StateMachine.Judge, Absorb;
    match e
    case Command(c, w) => PersistedCovers(l, c, w, budget);
    case Observe(watcher, seen, _) => AbsorbIsSound(watcher, l.memory, seen);
    case Dispatch(a, w) =>
      PersistedCovers(l, BeginOf(a), w, budget);
      if Acts(l, a, w) {
        PermittedHasAttempts(StateMachine.Advance(l.memory, BeginOf(a)), a);
      }
    case Crash(watcher) => CrashCovers(l, watcher, budget);
  }

  lemma {:induction false} LifeCovers(l: Life, es: seq<Happening>, budget: StateMachine.Budget)
    requires Covered(l, budget)
    ensures Covered(Lived(l, es), budget)
    decreases |es|
  {
    hide Step, Covered;
    if es != [] {
      StepCovers(l, es[0], budget);
      LifeCovers(Step(l, es[0]), es[1..], budget);
    }
  }

  /** A crash leaves a machine that must look again, with what it spent and finished as it was on disk. */
  lemma CrashLooksAgain(l: Life, watcher: Watcher, budget: StateMachine.Budget)
    requires Covered(l, budget) && (watcher.revision < U64_MAX || Restarts.Rests(watcher.lifecycle))
    ensures var after := Step(l, Crash(watcher));
      && Restarts.LooksAgain(l.disk, after.memory) && after.disk == after.memory
      && after == l.(memory := after.memory, disk := after.disk)
    ensures forall a, w :: !Acts(Step(l, Crash(watcher)), a, w)
  {
    Restarts.ReplayExactly(watcher.(recovery := Some(l.disk)));
    hide Registry.Replay, Permitted, MachineRuns.Chains;
  }

  /** A budget of n attempts lets at most n - 1 actions reach the executor, crashes included, and none of them twice. */
  lemma LastAttemptNeverActs(budget: StateMachine.Budget, target: string, es: seq<Happening>)
    ensures |Lived(Born(budget, target), es).acted| <= SaturatingSub(budget.maxAttempts, 1)
    ensures MachineRuns.Distinct(Lived(Born(budget, target), es).acted)
  {
    LifeCovers(Born(budget, target), es, budget);
  }
}
