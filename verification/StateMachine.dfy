/**
 The per-watcher recovery machine: which commands it accepts in which state, and the
 budgets it spends. `Apply` is the specification; the class below performs the same
 commands field by field, in the order the daemon does.
 */
module StateMachine {
  import opened Wrappers

  datatype State =
    | NeedsRevalidation | Observing | Confirmed | Acting | Waiting
    | Verifying | Recovered | HumanRequired | Stopped

  /** Durations are in nanoseconds. */
  datatype Budget = Budget(maxAttempts: nat, maxWait: nat, plannerCalls: nat, cooldown: nat)

  const NANOS := 1_000_000_000
  /** The longest representable duration: 2^64 seconds less one nanosecond. */
  const DURATION_MAX := 18_446_744_073_709_551_616 * NANOS - 1

  datatype Because = Validated | AfterRestart

  datatype Edge = Edge(from: State, to: State, why: Because)

  datatype Machine = Machine(
    schema: nat,
    state: State,
    budget: Budget,
    attempts: nat,
    wait: nat,
    last: Option<nat>,
    completed: set<string>,
    current: Option<string>,
    plannerCalls: nat,
    audit: seq<Edge>)

  datatype Command =
    | Revalidated
    | Confirm(fingerprint: string)
    | BeginAction(fingerprint: string, now: nat)
    | ActionFailed(fingerprint: string, pause: nat)
    | ActionSucceeded(fingerprint: string)
    | RearmAfterWait
    | ReservePlanner
    | Restart

  datatype Refusal =
    | RevalidationRequired | DuplicateAction | StaleEvidence | AttemptsExhausted | CooldownActive
    | WaitExhausted | RearmNeedsCompletion | PlannerExhausted | InvalidTransition | UnsupportedSchema

  /** `Overflowed` is the panic of an addition past the longest duration. */
  datatype Verdict = Accepted | Refused(why: Refusal) | Overflowed

  function Fresh(budget: Budget): Machine {
    Machine(1, NeedsRevalidation, budget, 0, 0, None, {}, None, 0, [])
  }

  predicate Legal(from: State, to: State) {
    match from
    case NeedsRevalidation => to.Observing?
    case Observing => to.Confirmed?
    case Confirmed => to.Acting?
    case Acting => to.Waiting? || to.Verifying?
    case Waiting => to.Confirmed?
    case Verifying => to.Recovered?
    case Recovered => to.Observing?
    case _ => false
  }

  function Moved(m: Machine, to: State, why: Because): Machine {
    m.(state := to, audit := m.audit + [Edge(m.state, to, why)])
  }

  function Seconds(d: nat): nat { d / NANOS }

  predicate CooledDown(m: Machine, now: nat) {
    m.last.Some? ==> SaturatingSub(now, m.last.value) >= Seconds(m.budget.cooldown)
  }

  predicate WaitFits(m: Machine, pause: nat) {
    Min(m.wait + pause, DURATION_MAX) <= m.budget.maxWait
  }

  /** What the machine answers to a command. */
  function Judge(m: Machine, c: Command): Verdict {
    match c
    case Revalidated => if Legal(m.state, Observing) then Accepted else Refused(InvalidTransition)
    case Confirm(_) => if Legal(m.state, State.Confirmed) then Accepted else Refused(InvalidTransition)
    case BeginAction(fp, now) =>
      if m.state.NeedsRevalidation? then Refused(RevalidationRequired)
      else if fp in m.completed then Refused(DuplicateAction)
      else if m.current != Some(fp) then Refused(StaleEvidence)
      else if m.attempts >= m.budget.maxAttempts then Refused(AttemptsExhausted)
      else if !CooledDown(m, now) then Refused(CooldownActive)
      else if m.state.Confirmed? then Accepted
      else Refused(InvalidTransition)
    case ActionFailed(fp, pause) =>
      if m.current != Some(fp) || !WaitFits(m, pause) then Refused(WaitExhausted)
      else if m.wait + pause > DURATION_MAX then Overflowed
      else if m.state.Acting? then Accepted
      else Refused(InvalidTransition)
    case ActionSucceeded(fp) =>
      if m.current != Some(fp) then Refused(StaleEvidence)
      else if m.state.Acting? then Accepted
      else Refused(InvalidTransition)
    case RearmAfterWait => if m.state.Recovered? then Accepted else Refused(RearmNeedsCompletion)
    case ReservePlanner =>
      if m.plannerCalls < m.budget.plannerCalls then Accepted else Refused(PlannerExhausted)
    case Restart => if m.schema == 1 then Accepted else Refused(UnsupportedSchema)
  }

  /** The machine after a command it accepts. */
  function Advance(m: Machine, c: Command): Machine
    requires Judge(m, c).Accepted?
  {
    match c
    case Revalidated => Moved(m, Observing, Validated)
    case Confirm(fp) => Moved(m, Confirmed, Validated).(current := Some(fp))
    case BeginAction(_, now) => Moved(m, Acting, Validated).(attempts := m.attempts + 1, last := Some(now))
    case ActionFailed(_, pause) =>
      Moved(Moved(m, Waiting, Validated), Confirmed, Validated).(wait := m.wait + pause)
    case ActionSucceeded(fp) =>
      Moved(Moved(m, Verifying, Validated), Recovered, Validated).(completed := m.completed + {fp})
    case RearmAfterWait => Moved(m, Observing, Validated).(current := None)
    case ReservePlanner => m.(plannerCalls := m.plannerCalls + 1)
    case Restart => Moved(m, NeedsRevalidation, AfterRestart)
  }

  /** A failure report is charged before its transition is checked. */
  predicate ChargedAnyway(m: Machine, c: Command) {
    c.ActionFailed? && Judge(m, c) == Refused(InvalidTransition)
  }

  function Apply(m: Machine, c: Command): Machine {
    if Judge(m, c).Accepted? then Advance(m, c)
    else if ChargedAnyway(m, c) then m.(wait := m.wait + c.pause)
    else m
  }

  function After(m: Machine, cs: seq<Command>): Machine
    decreases |cs|
  {
    if cs == [] then m else After(Apply(m, cs[0]), cs[1..])
  }

  /** The commands of a run that the machine accepts, in order. */
  function Taken(m: Machine, cs: seq<Command>): seq<Command>
    decreases |cs|
  {
    if cs == [] then []
    else (if Judge(m, cs[0]).Accepted? then [cs[0]] else []) + Taken(Apply(m, cs[0]), cs[1..])
  }

  // ----- the machine as the daemon keeps it

  class RecoveryMachine {
    const schema: nat
    const budget: Budget
    var state: State
    var attempts: nat
    var wait: nat
    var last: Option<nat>
    var completed: set<string>
    var current: Option<string>
    var plannerCalls: nat
    var audit: seq<Edge>

    function View(): Machine
      reads this
    {
      Machine(schema, state, budget, attempts, wait, last, completed, current, plannerCalls, audit)
    }

    constructor (budget: Budget)
      ensures View() == Fresh(budget)
    {
      schema := 1;
      this.budget := budget;
      state, attempts, wait, last := NeedsRevalidation, 0, 0, None;
      completed, current, plannerCalls, audit := {}, None, 0, [];
    }

    method Transition(next: State) returns (v: Verdict)
      modifies this
      ensures v == if Legal(old(state), next) then Accepted else Refused(InvalidTransition)
      ensures View() == if v.Accepted? then Moved(old(View()), next, Validated) else old(View())
    {
      if Legal(state, next) {
        var from := state;
        state := next;
        audit := audit + [Edge(from, next, Validated)];
        v := Accepted;
      } else {
        v := Refused(InvalidTransition);
      }
    }

    method RestoreForRestart() returns (v: Verdict)
      modifies this
      ensures v == Judge(old(View()), Restart) && View() == Apply(old(View()), Restart)
    {
      if schema != 1 {
        return Refused(UnsupportedSchema);
      }
      var from := state;
      state := NeedsRevalidation;
      audit := audit + [Edge(from, state, AfterRestart)];
      v := Accepted;
    }

    method DoConfirm(fingerprint: string) returns (v: Verdict)
      modifies this
      ensures v == Judge(old(View()), Confirm(fingerprint)) && View() == Apply(old(View()), Confirm(fingerprint))
    {
      v := Transition(Confirmed);
      if v.Accepted? {
        current := Some(fingerprint);
      }
    }

    method DoBegin(fingerprint: string, now: nat) returns (v: Verdict)
      modifies this
      ensures v == Judge(old(View()), BeginAction(fingerprint, now))
      ensures View() == Apply(old(View()), BeginAction(fingerprint, now))
    {
      if state == NeedsRevalidation {
        return Refused(RevalidationRequired);
      }
      if fingerprint in completed {
        return Refused(DuplicateAction);
      }
      if current != Some(fingerprint) {
        return Refused(StaleEvidence);
      }
      if attempts >= budget.maxAttempts {
        return Refused(AttemptsExhausted);
      }
      if last.Some? && SaturatingSub(now, last.value) < Seconds(budget.cooldown) {
        return Refused(CooldownActive);
      }
      v := Transition(Acting);
      if v.Accepted? {
        attempts := attempts + 1;
        last := Some(now);
      }
    }

    method DoFail(fingerprint: string, pause: nat) returns (v: Verdict)
      modifies this
      ensures v == Judge(old(View()), ActionFailed(fingerprint, pause))
      ensures View() == Apply(old(View()), ActionFailed(fingerprint, pause))
    {
      if current != Some(fingerprint) || Min(wait + pause, DURATION_MAX) > budget.maxWait {
        return Refused(WaitExhausted);
      }
      if wait + pause > DURATION_MAX {
        return Overflowed;
      }
      wait := wait + pause;
      v := Transition(Waiting);
      if v.Accepted? {
        v := Transition(Confirmed);
      }
    }

    method DoSucceed(fingerprint: string) returns (v: Verdict)
      modifies this
      ensures v == Judge(old(View()), ActionSucceeded(fingerprint))
      ensures View() == Apply(old(View()), ActionSucceeded(fingerprint))
    {
      if current != Some(fingerprint) {
        return Refused(StaleEvidence);
      }
      v := Transition(Verifying);
      if v.Accepted? {
        v := Transition(Recovered);
        completed := completed + {fingerprint};
      }
    }

    method DoRearm() returns (v: Verdict)
      modifies this
      ensures v == Judge(old(View()), RearmAfterWait) && View() == Apply(old(View()), RearmAfterWait)
    {
      if state != Recovered {
        return Refused(RearmNeedsCompletion);
      }
      current := None;
      v := Transition(Observing);
    }

    method DoReserve() returns (v: Verdict)
      modifies this
      ensures v == Judge(old(View()), ReservePlanner) && View() == Apply(old(View()), ReservePlanner)
    {
      if plannerCalls >= budget.plannerCalls {
        return Refused(PlannerExhausted);
      }
      plannerCalls := plannerCalls + 1;
      v := Accepted;
    }

    method Execute(c: Command) returns (v: Verdict)
      modifies this
      ensures v == Judge(old(View()), c) && View() == Apply(old(View()), c)
    {
      match c
      case Revalidated => v := Transition(Observing);
      case Confirm(fp) => v := DoConfirm(fp);
      case BeginAction(fp, now) => v := DoBegin(fp, now);
      case ActionFailed(fp, pause) => v := DoFail(fp, pause);
      case ActionSucceeded(fp) => v := DoSucceed(fp);
      case RearmAfterWait => v := DoRearm();
      case ReservePlanner => v := DoReserve();
      case Restart => v := RestoreForRestart();
    }
  }
}
