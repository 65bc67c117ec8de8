/**
 The recovery machine told by its history alone: which command it accepts next is a matter of
 the commands it accepted before, and of the waits it was charged. No state is mentioned.
 */
module MachineHistory {
  import opened Wrappers
  import opened StateMachine
  import opened MachineRuns

  /** The last accepted command that is not a planner reservation. */
  function LastMove(ds: seq<Command>): Option<Command>
    decreases |ds|
  {
    if ds == [] then None
    else if ds[|ds| - 1].ReservePlanner? then LastMove(ds[..|ds| - 1])
    else Some(ds[|ds| - 1])
  }

  /** The evidence the machine is at: what was last confirmed, until it is armed anew. */
  function At(ds: seq<Command>): Option<string>
    decreases |ds|
  {
    if ds == [] then None
    else
      match ds[|ds| - 1]
      case Confirm(f) => Some(f)
      case RearmAfterWait => None
      case _ => At(ds[..|ds| - 1])
  }

  predicate Begun(c: Command, f: string) {
    c.BeginAction? && c.fingerprint == f
  }

  predicate InPlace(ds: seq<Command>, c: Command) {
    var last := LastMove(ds);
    match c
    case Revalidated => last.None? || last.value.Restart? || last.value.ActionSucceeded?
    case Confirm(_) => last.Some? && (last.value.Revalidated? || last.value.RearmAfterWait?)
    case BeginAction(f, _) =>
      last.Some? && (last.value == Confirm(f) || (last.value.ActionFailed? && last.value.fingerprint == f))
    case ActionFailed(f, _) => last.Some? && Begun(last.value, f)
    case ActionSucceeded(f) => last.Some? && Begun(last.value, f)
    case RearmAfterWait => last.Some? && last.value.ActionSucceeded?
    case ReservePlanner => true
    case Restart => true
  }

  /** The cooldown is over, to the second; one shorter than a second never runs. */
  predicate Rested(cooldown: nat, last: nat, now: nat) {
    cooldown < NANOS || cooldown < (now - last + 1) * NANOS
  }

  /** Budget, cooldown and the evidence already dealt with leave room for the command. */
  predicate InBudget(budget: Budget, ds: seq<Command>, charged: nat, c: Command) {
    match c
    case BeginAction(f, now) =>
      var times := Times(ds);
      && f !in Successes(ds)
      && |times| < budget.maxAttempts
      && (times != [] ==> Rested(budget.cooldown, times[|times| - 1], now))
    case ActionFailed(_, pause) => charged + pause <= Min(budget.maxWait, DURATION_MAX)
    case ReservePlanner => Count(ds, false) < budget.plannerCalls
    case _ => true
  }

  // ----- the machine mirrors its history

  predicate StateFits(s: State, current: Option<string>, last: Option<Command>) {
    match last
    case None => s.NeedsRevalidation?
    case Some(c) =>
      match c
      case Restart => s.NeedsRevalidation?
      case Revalidated => s.Observing?
      case RearmAfterWait => s.Observing?
      case Confirm(f) => s.Confirmed? && current == Some(f)
      case BeginAction(f, _) => s.Acting? && current == Some(f)
      case ActionFailed(f, _) => s.Confirmed? && current == Some(f)
      case ActionSucceeded(_) => s.Recovered?
      case ReservePlanner => false
  }

  predicate LastIs(last: Option<nat>, times: seq<nat>) {
    last == if times == [] then None else Some(times[|times| - 1])
  }

  ghost predicate Mirrors(m: Machine, ds: seq<Command>) {
    && m.schema == 1
    && m.attempts == |Times(ds)| && m.plannerCalls == Count(ds, false)
    && (forall f :: f in m.completed <==> f in Successes(ds))
    && LastIs(m.last, Times(ds))
    && m.current == At(ds) && StateFits(m.state, m.current, LastMove(ds))
  }

  lemma {:induction false} HistoryGrows(ds: seq<Command>, c: Command)
    ensures Times(ds + [c]) == Times(ds) + (if c.BeginAction? then [c.now] else [])
    ensures Successes(ds + [c]) == Successes(ds) + (if c.ActionSucceeded? then [c.fingerprint] else [])
    ensures Count(ds + [c], false) == Count(ds, false) + (if c.ReservePlanner? then 1 else 0)
  {
    if ds == [] {
      assert ds + [c] == [c] && [c][1..] == [];
    } else {
      assert (ds + [c])[0] == ds[0] && (ds + [c])[1..] == ds[1..] + [c];
      HistoryGrows(ds[1..], c);
    }
  }

  lemma LastGrows(ds: seq<Command>, c: Command)
    ensures LastMove(ds + [c]) == if c.ReservePlanner? then LastMove(ds) else Some(c)
    ensures At(ds + [c]) == if c.Confirm? then Some(c.fingerprint) else if c.RearmAfterWait? then None else At(ds)
  {
    assert (ds + [c])[..|ds|] == ds;
  }

  lemma StepMirrors(m: Machine, ds: seq<Command>, c: Command)
    requires Mirrors(m, ds) && Judge(m, c).Accepted?
    ensures Mirrors(Apply(m, c), ds + [c])
  {
    HistoryGrows(ds, c);
    LastGrows(ds, c);
    hide Times, Successes, Count, LastMove, At;
  }

  lemma RefusedMirrors(m: Machine, ds: seq<Command>, c: Command)
    requires Mirrors(m, ds) && !Judge(m, c).Accepted?
    ensures Mirrors(Apply(m, c), ds)
  {
    hide Times, Successes, Count, LastMove, At;
  }

  lemma {:induction false} RunMirrors(m: Machine, ds: seq<Command>, cs: seq<Command>)
    requires Mirrors(m, ds)
    ensures Mirrors(After(m, cs), ds + Taken(m, cs))
    decreases |cs|
  {
    hide Mirrors, Apply, Judge;
    if cs == [] {
      assert ds + [] == ds;
    } else {
      var taken, rest := Judge(m, cs[0]).Accepted?, Taken(Apply(m, cs[0]), cs[1..]);
      if taken {
        StepMirrors(m, ds, cs[0]);
        RunMirrors(Apply(m, cs[0]), ds + [cs[0]], cs[1..]);
        assert ds + [cs[0]] + rest == ds + ([cs[0]] + rest);
      } else {
        RefusedMirrors(m, ds, cs[0]);
        RunMirrors(Apply(m, cs[0]), ds, cs[1..]);
        assert [] + rest == rest;
      }
    }
  }

  lemma FreshMirrors(budget: Budget)
    ensures Mirrors(Fresh(budget), [])
  {
  }

  /** Whole seconds since the last attempt against the whole seconds of the cooldown. */
  lemma CooledExactly(m: Machine, now: nat)
    ensures CooledDown(m, now) <==>
      (m.last.Some? ==> Rested(m.budget.cooldown, m.last.value, now))
  {
    var q := Seconds(m.budget.cooldown);
    assert q * NANOS <= m.budget.cooldown < (q + 1) * NANOS;
    if m.last.Some? {
      var d := now - m.last.value;
      if d < q {
        assert d * NANOS <= (q - 1) * NANOS;
      } else {
        assert d * NANOS >= q * NANOS;
      }
    }
  }

  lemma {:induction false} MirrorAccepts(m: Machine, ds: seq<Command>, c: Command)
    requires Mirrors(m, ds)
    ensures Judge(m, c).Accepted? <==> InPlace(ds, c) && InBudget(m.budget, ds, m.wait, c)
  {
    if c.BeginAction? {
      CooledExactly(m, c.now);
    }
    hide Times, Successes, Count, LastMove, At, Seconds, CooledDown;
  }

  // ----- main results

  /** After any run, restarts included, the machine accepts exactly what its history allows. */
  lemma AcceptsExactly(budget: Budget, cs: seq<Command>, c: Command)
    ensures var m, ds := After(Fresh(budget), cs), Taken(Fresh(budget), cs);
      Judge(m, c).Accepted? <==> InPlace(ds, c) && InBudget(budget, ds, Charged(Fresh(budget), cs), c)
  {
    var m, ds := After(Fresh(budget), cs), Taken(Fresh(budget), cs);
    FreshMirrors(budget);
    RunMirrors(Fresh(budget), [], cs);
    assert [] + ds == ds;
    RunIsSound(Fresh(budget), cs);
    CountersCount(Fresh(budget), cs);
    MirrorAccepts(m, ds, c);
  }

  lemma MirrorRefuses(m: Machine, ds: seq<Command>, c: Command)
    requires Mirrors(m, ds) && !Judge(m, c).Accepted?
    ensures Apply(m, c) == if c.ActionFailed? && At(ds) == Some(c.fingerprint) && InBudget(m.budget, ds, m.wait, c)
                           then m.(wait := m.wait + c.pause) else m
  {
    hide Times, Successes, Count, LastMove, At, Seconds;
  }

  /** A refused command leaves the machine alone, but for a failure report on the evidence it is at, which is charged. */
  lemma RefusesExactly(budget: Budget, cs: seq<Command>, c: Command)
    ensures var m, ds := After(Fresh(budget), cs), Taken(Fresh(budget), cs);
      !Judge(m, c).Accepted? ==>
        Apply(m, c) == if c.ActionFailed? && At(ds) == Some(c.fingerprint) && InBudget(budget, ds, m.wait, c)
                       then m.(wait := m.wait + c.pause) else m
  {
    hide Mirrors, Apply, Judge, InBudget;
    var m, ds := After(Fresh(budget), cs), Taken(Fresh(budget), cs);
    FreshMirrors(budget);
    RunMirrors(Fresh(budget), [], cs);
    assert [] + ds == ds;
    RunIsSound(Fresh(budget), cs);
    if !Judge(m, c).Accepted? {
      MirrorRefuses(m, ds, c);
    }
  }

  /** What a refusal tells the caller about the machine. */
  predicate Tells(why: Refusal, m: Machine, c: Command) {
    match why
    case RevalidationRequired => c.BeginAction? && m.state == NeedsRevalidation
    case DuplicateAction => c.BeginAction? && c.fingerprint in m.completed
    case StaleEvidence => (c.BeginAction? || c.ActionSucceeded?) && m.current != Some(c.fingerprint)
    case AttemptsExhausted => c.BeginAction? && m.attempts >= m.budget.maxAttempts
    case CooldownActive => c.BeginAction? && m.last.Some? && !Rested(m.budget.cooldown, m.last.value, c.now)
    case WaitExhausted =>
      c.ActionFailed? && (m.current != Some(c.fingerprint) || m.wait + c.pause > m.budget.maxWait)
    case RearmNeedsCompletion => c.RearmAfterWait? && m.state != Recovered
    case PlannerExhausted => c.ReservePlanner? && m.plannerCalls >= m.budget.plannerCalls
    case UnsupportedSchema => c.Restart? && m.schema != 1
    case InvalidTransition =>
      || (c.Revalidated? && m.state !in {NeedsRevalidation, Recovered})
      || (c.Confirm? && m.state !in {Observing, Waiting})
      || (c.BeginAction? && m.state != Confirmed)
      || ((c.ActionFailed? || c.ActionSucceeded?) && m.state != Acting)
  }

  lemma RefusalsAreTrue(m: Machine, c: Command)
    ensures Judge(m, c).Refused? ==> Tells(Judge(m, c).why, m, c)
    ensures c.BeginAction? && m.state == NeedsRevalidation ==> Judge(m, c) == Refused(RevalidationRequired)
  {
    if c.BeginAction? {
      CooledExactly(m, c.now);
    }
    hide Seconds, CooledDown;
  }
}
