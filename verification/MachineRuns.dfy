/** What every run of the recovery machine keeps, restarts included. */
module MachineRuns {
  import opened Wrappers
  import opened StateMachine

  // ----- one invariant over all reachable machines

  /** The eight moves a machine makes by itself. */
  const MOVES: set<(State, State)> := {
    (NeedsRevalidation, Observing), (Observing, Confirmed), (Confirmed, Acting), (Acting, Waiting),
    (Acting, Verifying), (Waiting, Confirmed), (Verifying, Recovered), (Recovered, Observing)}

  lemma LegalExactly(from: State, to: State)
    ensures Legal(from, to) <==> (from, to) in MOVES
  {
  }

  /** A path of these moves and of restarts from `from` to `to`. */
  predicate Chains(audit: seq<Edge>, from: State, to: State)
    decreases |audit|
  {
    if audit == [] then from == to
    else
      && audit[0].from == from
      && (audit[0].why.Validated? ==> (from, audit[0].to) in MOVES)
      && (audit[0].why.AfterRestart? ==> audit[0].to.NeedsRevalidation?)
      && Chains(audit[1..], audit[0].to, to)
  }

  /** The states a machine can be found in between commands. */
  predicate Rests(s: State) {
    s.NeedsRevalidation? || s.Observing? || s.Confirmed? || s.Acting? || s.Recovered?
  }

  predicate Sound(m: Machine) {
    && m.schema == 1
    && m.attempts <= m.budget.maxAttempts
    && m.wait <= m.budget.maxWait
    && m.plannerCalls <= m.budget.plannerCalls
    && Rests(m.state)
    && (m.state.Confirmed? ==> m.current.Some?)
    && (m.state.Acting? ==> m.current.Some? && m.current.value !in m.completed)
    && (m.last.None? <==> m.attempts == 0)
    && Chains(m.audit, NeedsRevalidation, m.state)
  }

  lemma {:induction false} ChainExtends(audit: seq<Edge>, from: State, e: Edge)
    requires Chains(audit, from, e.from)
    requires if e.why.Validated? then (e.from, e.to) in MOVES else e.to.NeedsRevalidation?
    ensures Chains(audit + [e], from, e.to)
    decreases |audit|
  {
    var more := audit + [e];
    if audit == [] {
      assert more[1..] == [];
    } else {
      assert more[0] == audit[0] && more[1..] == audit[1..] + [e];
      ChainExtends(audit[1..], audit[0].to, e);
    }
  }

  lemma MoveChains(m: Machine, to: State, why: Because)
    requires Chains(m.audit, NeedsRevalidation, m.state)
    requires if why.Validated? then Legal(m.state, to) else to.NeedsRevalidation?
    ensures Chains(Moved(m, to, why).audit, NeedsRevalidation, to)
  {
    LegalExactly(m.state, to);
    ChainExtends(m.audit, NeedsRevalidation, Edge(m.state, to, why));
  }

  lemma ApplyChains(m: Machine, c: Command)
    requires Sound(m)
    ensures Chains(Apply(m, c).audit, NeedsRevalidation, Apply(m, c).state)
  {
    hide Chains;
    if Judge(m, c).Accepted? {
      match c
      case Revalidated => MoveChains(m, Observing, Validated);
      case Confirm(_) => MoveChains(m, Confirmed, Validated);
      case BeginAction(_, _) => MoveChains(m, Acting, Validated);
      case ActionFailed(_, _) =>
        MoveChains(m, Waiting, Validated);
        MoveChains(Moved(m, Waiting, Validated), Confirmed, Validated);
      case ActionSucceeded(_) =>
        MoveChains(m, Verifying, Validated);
        MoveChains(Moved(m, Verifying, Validated), Recovered, Validated);
      case RearmAfterWait => MoveChains(m, Observing, Validated);
      case ReservePlanner =>
      case Restart => MoveChains(m, NeedsRevalidation, AfterRestart);
    }
  }

  lemma ApplyIsSound(m: Machine, c: Command)
    requires Sound(m)
    ensures Sound(Apply(m, c)) && Apply(m, c).budget == m.budget
  {
    hide Chains;
    ApplyChains(m, c);
  }

  lemma {:induction false} RunIsSound(m: Machine, cs: seq<Command>)
    requires Sound(m)
    ensures Sound(After(m, cs)) && After(m, cs).budget == m.budget
    decreases |cs|
  {
    if cs != [] {
      ApplyIsSound(m, cs[0]);
      RunIsSound(Apply(m, cs[0]), cs[1..]);
    }
  }

  /** Whatever is asked of it, a machine stays within budget and its audit explains its state. */
  lemma EveryRunKeepsBudgets(budget: Budget, cs: seq<Command>)
    ensures var m := After(Fresh(budget), cs);
      && m.attempts <= budget.maxAttempts
      && m.wait <= budget.maxWait
      && m.plannerCalls <= budget.plannerCalls
      && Rests(m.state)
      && Chains(m.audit, NeedsRevalidation, m.state)
  {
    RunIsSound(Fresh(budget), cs);
  }

  // ----- what the counters count

  function Count(cs: seq<Command>, begins: bool): nat
    decreases |cs|
  {
    if cs == [] then 0
    else (if (if begins then cs[0].BeginAction? else cs[0].ReservePlanner?) then 1 else 0) + Count(cs[1..], begins)
  }

  /** The waits a run is charged, refused reports included. */
  function Charged(m: Machine, cs: seq<Command>): nat
    decreases |cs|
  {
    if cs == [] then 0
    else
      (if cs[0].ActionFailed? && (Judge(m, cs[0]).Accepted? || ChargedAnyway(m, cs[0])) then cs[0].pause else 0)
      + Charged(Apply(m, cs[0]), cs[1..])
  }

  lemma {:induction false} CountersCount(m: Machine, cs: seq<Command>)
    ensures After(m, cs).attempts == m.attempts + Count(Taken(m, cs), true)
    ensures After(m, cs).plannerCalls == m.plannerCalls + Count(Taken(m, cs), false)
    ensures After(m, cs).wait == m.wait + Charged(m, cs)
    decreases |cs|
  {
    if cs != [] {
      var rest := Taken(Apply(m, cs[0]), cs[1..]);
      assert ([cs[0]] + rest)[1..] == rest;
      assert [] + rest == rest;
      CountersCount(Apply(m, cs[0]), cs[1..]);
    }
  }

  /** A refused command changes the machine exactly when it is a failure report charged too early. */
  lemma RefusalChangesOnlyTheWait(m: Machine, c: Command)
    requires !Judge(m, c).Accepted?
    ensures Apply(m, c) != m <==>
      && c.ActionFailed? && c.pause > 0 && m.current == Some(c.fingerprint)
      && !m.state.Acting? && m.wait + c.pause <= Min(m.budget.maxWait, DURATION_MAX)
  {
    if c.ActionFailed? && ChargedAnyway(m, c) {
      assert Apply(m, c).wait == m.wait + c.pause;
    }
  }

  /** The wait addition can overflow only under a budget of the longest duration. */
  lemma OverflowNeedsUnlimitedBudget(m: Machine, c: Command)
    ensures Judge(m, c).Overflowed? <==>
      && c.ActionFailed? && m.current == Some(c.fingerprint)
      && m.budget.maxWait >= DURATION_MAX && m.wait + c.pause > DURATION_MAX
  {
  }

  // ----- each fingerprint succeeds at most once

  function Successes(cs: seq<Command>): seq<string>
    decreases |cs|
  {
    if cs == [] then []
    else (if cs[0].ActionSucceeded? then [cs[0].fingerprint] else []) + Successes(cs[1..])
  }

  predicate Distinct(xs: seq<string>) {
    forall i, j :: 0 <= i < j < |xs| ==> xs[i] != xs[j]
  }

  lemma {:induction false} SuccessesAreNew(m: Machine, cs: seq<Command>)
    requires Sound(m)
    ensures Distinct(Successes(Taken(m, cs)))
    ensures forall f :: f in Successes(Taken(m, cs)) ==> f !in m.completed
    ensures After(m, cs).completed == m.completed + set f | f in Successes(Taken(m, cs))
    decreases |cs|
  {
    if cs != [] {
      var next := Apply(m, cs[0]);
      var rest := Taken(next, cs[1..]);
      assert ([cs[0]] + rest)[1..] == rest;
      assert [] + rest == rest;
      ApplyIsSound(m, cs[0]);
      SuccessesAreNew(next, cs[1..]);
      hide Chains, Sound, Apply;
      assert next.completed == m.completed
        + (if cs[0].ActionSucceeded? && Judge(m, cs[0]).Accepted? then {cs[0].fingerprint} else {}) by {
        CompletedGrows(m, cs[0]);
      }
      assert cs[0].ActionSucceeded? && Judge(m, cs[0]).Accepted? ==> cs[0].fingerprint !in m.completed by {
        CompletedGrows(m, cs[0]);
      }
    }
  }

  lemma CompletedGrows(m: Machine, c: Command)
    requires Sound(m)
    ensures Apply(m, c).completed
      == m.completed + (if c.ActionSucceeded? && Judge(m, c).Accepted? then {c.fingerprint} else {})
    ensures c.ActionSucceeded? && Judge(m, c).Accepted? ==> c.fingerprint !in m.completed
  {
    hide Chains;
  }

  lemma EachFingerprintSucceedsOnce(budget: Budget, cs: seq<Command>)
    ensures Distinct(Successes(Taken(Fresh(budget), cs)))
  {
    SuccessesAreNew(Fresh(budget), cs);
  }

  // ----- the cooldown

  /** The clock readings recorded with accepted attempts. */
  function Times(cs: seq<Command>): seq<nat>
    decreases |cs|
  {
    if cs == [] then []
    else (if cs[0].BeginAction? then [cs[0].now] else []) + Times(cs[1..])
  }

  /** Each reading is at least `gap` nanoseconds later than the one before it. */
  predicate Spaced(ts: seq<nat>, gap: nat) {
    forall i :: 0 < i < |ts| ==> (ts[i] - ts[i - 1]) * NANOS >= gap
  }

  predicate WholeSeconds(d: nat) {
    d > 0 && d % NANOS == 0
  }

  predicate LateEnough(ts: seq<nat>, last: Option<nat>, gap: nat) {
    ts != [] && last.Some? ==> (ts[0] - last.value) * NANOS >= gap
  }

  lemma AttemptIsLate(m: Machine, c: Command)
    requires WholeSeconds(m.budget.cooldown)
    ensures Apply(m, c).budget == m.budget
    ensures if c.BeginAction? && Judge(m, c).Accepted?
      then Apply(m, c).last == Some(c.now) && LateEnough([c.now], m.last, m.budget.cooldown)
      else Apply(m, c).last == m.last
  {
    if c.BeginAction? && Judge(m, c).Accepted? && m.last.Some? {
      var q := Seconds(m.budget.cooldown);
      assert m.budget.cooldown == q * NANOS;
      assert c.now - m.last.value >= q;
    }
  }

  lemma SpacedCons(t: nat, ts: seq<nat>, gap: nat)
    requires Spaced(ts, gap) && LateEnough(ts, Some(t), gap)
    ensures Spaced([t] + ts, gap)
  {
    forall i | 0 < i < |[t] + ts|
      ensures (([t] + ts)[i] - ([t] + ts)[i - 1]) * NANOS >= gap
    {
      if i > 1 {
        assert (ts[i - 1] - ts[i - 2]) * NANOS >= gap;
      }
    }
  }

  lemma {:induction false} TimesAreSpaced(m: Machine, cs: seq<Command>)
    requires WholeSeconds(m.budget.cooldown)
    ensures Spaced(Times(Taken(m, cs)), m.budget.cooldown)
    ensures LateEnough(Times(Taken(m, cs)), m.last, m.budget.cooldown)
    decreases |cs|
  {
    hide Apply, Judge, Spaced;
    if cs == [] {
      assert Spaced([], m.budget.cooldown) by { SpacedNil(m.budget.cooldown); }
    } else {
      var next := Apply(m, cs[0]);
      var rest := Taken(next, cs[1..]);
      AttemptIsLate(m, cs[0]);
      TimesAreSpaced(next, cs[1..]);
      assert ([cs[0]] + rest)[1..] == rest;
      assert [] + rest == rest;
      assert [] + Times(rest) == Times(rest);
      if cs[0].BeginAction? && Judge(m, cs[0]).Accepted? {
        SpacedCons(cs[0].now, Times(rest), m.budget.cooldown);
      }
    }
  }

  lemma SpacedNil(gap: nat)
    ensures Spaced([], gap)
  {
  }

  /** The shortest run that makes two attempts. */
  function TwoAttempts(first: nat, second: nat): seq<Command> {
    [Revalidated, Confirm("f"), BeginAction("f", first), ActionFailed("f", 0), BeginAction("f", second)]
  }

  lemma TwoAttemptsTaken(budget: Budget, first: nat, second: nat)
    requires budget.maxAttempts >= 2 && SaturatingSub(second, first) >= Seconds(budget.cooldown)
    ensures Times(Taken(Fresh(budget), TwoAttempts(first, second))) == [first, second]
  {
    var m0 := Fresh(budget);
    var m1 := Apply(m0, Revalidated);
    var m2 := Apply(m1, Confirm("f"));
    var m3 := Apply(m2, BeginAction("f", first));
    var m4 := Apply(m3, ActionFailed("f", 0));
    var c := TwoAttempts(first, second);
    assert c[1..] == [Confirm("f"), BeginAction("f", first), ActionFailed("f", 0), BeginAction("f", second)];
    assert c[1..][1..] == [BeginAction("f", first), ActionFailed("f", 0), BeginAction("f", second)];
    assert c[1..][1..][1..] == [ActionFailed("f", 0), BeginAction("f", second)];
    assert c[1..][1..][1..][1..] == [BeginAction("f", second)];
    assert Taken(m4, [BeginAction("f", second)]) == [BeginAction("f", second)];
    assert Taken(m3, c[1..][1..][1..]) == [ActionFailed("f", 0), BeginAction("f", second)];
    assert Taken(m2, c[1..][1..]) == c[1..][1..];
    assert Taken(m1, c[1..]) == c[1..];
    assert Taken(m0, c) == c;
    assert Times(c[1..][1..][1..][1..]) == [second];
    assert Times(c[1..][1..]) == [first, second];
  }

  /**
   Attempts are spaced by the cooldown in every run, whatever the clock does, exactly when
   no second attempt is allowed or the cooldown is a positive whole number of seconds: the
   code compares whole seconds with a subtraction that stops at zero.
   */
  lemma CooldownSpacesAttempts(budget: Budget)
    ensures (forall cs :: Spaced(Times(Taken(Fresh(budget), cs)), budget.cooldown))
      <==> budget.maxAttempts < 2 || WholeSeconds(budget.cooldown)
  {
    if budget.maxAttempts < 2 {
      forall cs ensures Spaced(Times(Taken(Fresh(budget), cs)), budget.cooldown) {
        RunIsSound(Fresh(budget), cs);
        CountersCount(Fresh(budget), cs);
        OneTimePerAttempt(Taken(Fresh(budget), cs));
      }
    } else if WholeSeconds(budget.cooldown) {
      forall cs ensures Spaced(Times(Taken(Fresh(budget), cs)), budget.cooldown) {
        TimesAreSpaced(Fresh(budget), cs);
      }
    } else {
      var q := Seconds(budget.cooldown);
      var second := if q == 0 then 0 else 1 + q;
      TwoAttemptsTaken(budget, 1, second);
      var ts := [1, second];
      assert (ts[1] - ts[0]) * NANOS < budget.cooldown || q == 0;
      assert !Spaced(Times(Taken(Fresh(budget), TwoAttempts(1, second))), budget.cooldown);
    }
  }

  lemma {:induction false} OneTimePerAttempt(cs: seq<Command>)
    ensures |Times(cs)| == Count(cs, true)
    decreases |cs|
  {
    if cs != [] {
      OneTimePerAttempt(cs[1..]);
    }
  }
}
