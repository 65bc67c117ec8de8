/**
 The attempt budget is used up to the last attempt but one: for every budget of n attempts
 the daemon can go through n - 1 different actions, each of which it executes.
 */
module BudgetReached {
  import opened Wrappers
  import opened Model
  import opened Policy
  import opened Evidence
  import opened Watchers
  import opened Budgets
  import StateMachine
  import Protocol
  import Sample
  import SampleRun

  // ----- what the daemon can do

  /** What the daemon itself brings about; nothing else reaches a machine outside of tests. */
  predicate Issued(e: Happening) {
    e.Observe? || e.Dispatch? || e.Crash? || (e.Command? && e.c.ActionSucceeded?)
  }

  /** A limit reported by a Claude hook: it rearms a machine that has recovered from another one. */
  predicate FreshLimit(e: Event) {
    && e.source.kind.Hook? && e.source.sourceId.ClaudeStopFailure?
    && e.policyHint.WaitAllowed? && ClaudeResetAt in e.metadata && IsActionable(e.category)
  }

  /** A machine of this budget that is acting on its k-th attempt. */
  function Begun(budget: StateMachine.Budget, k: nat): Machine {
    StateMachine.Fresh(budget).(state := StateMachine.Acting, attempts := k)
  }

  predicate Ready(budget: StateMachine.Budget, a: Attempt) {
    && a.Fingerprint() != "" && a.event.fingerprint == a.Fingerprint() && FreshLimit(a.event)
    && Permitted(Begun(budget, 1), a)
  }

  function Keys(target: string, attempts: seq<Attempt>): seq<string> {
    seq(|attempts|, i requires 0 <= i < |attempts| => attempts[i].Key(target))
  }

  function Prints(attempts: seq<Attempt>): seq<string> {
    seq(|attempts|, i requires 0 <= i < |attempts| => attempts[i].Fingerprint())
  }

  predicate Distinct(keys: seq<string>) {
    forall i, j :: 0 <= i < j < |keys| ==> keys[i] != keys[j]
  }

  /** Different evidence, different keys, and the cooldown between them. */
  predicate Separate(budget: StateMachine.Budget, target: string, attempts: seq<Attempt>) {
    && (forall i, j :: 0 <= i < j < |attempts| ==>
          attempts[i].Fingerprint() != attempts[j].Fingerprint() && attempts[i].Key(target) != attempts[j].Key(target))
    && (forall i :: 0 < i < |attempts| ==>
          SaturatingSub(attempts[i].now, attempts[i - 1].now) >= StateMachine.Seconds(budget.cooldown))
  }

  // ----- one round: observe a limit, dispatch, succeed

  /** The policy asks only whether attempts remain, not how many. */
  lemma AuthorizeIgnoresCount(a: Action, ctx: PolicyContext, n: nat)
    requires ctx.attemptsRemaining > 0 && n > 0
    ensures Authorize(a, ctx).Ok? <==> Authorize(a, ctx.(attemptsRemaining := n)).Ok?
  {
    hide ValidAction, WaitUntilSeconds, SafeText;
    var other := ctx.(attemptsRemaining := n);
    assert forall c :: PreconditionHolds(c, ctx) == PreconditionHolds(c, other);
  }

  lemma LaterIsPermitted(budget: StateMachine.Budget, m: Machine, a: Attempt)
    requires Permitted(Begun(budget, 1), a)
    requires m.budget == budget && m.state.Acting? && m.wait == 0 && m.plannerCalls == 0
    requires m.attempts < budget.maxAttempts
    ensures Permitted(m, a)
  {
    PermittedHasAttempts(Begun(budget, 1), a);
    hide Authorize, ActuatorAccepts, Revalidate;
    var first := FromWatcher(Begun(budget, 1), a.event, a.now).value;
    var later := FromWatcher(m, a.event, a.now).value;
    assert later == first.(attemptsRemaining := later.attemptsRemaining);
    AuthorizeIgnoresCount(a.action, ContextFor(a.baseline, first, a.wall), later.attemptsRemaining);
  }

  /** The machine after these attempts, each of which succeeded. */
  ghost predicate Performed(l: Life, budget: StateMachine.Budget, target: string, done: seq<Attempt>) {
    var m, n := l.memory, |done|;
    && l.target == target && l.acted == Keys(target, done)
    && (forall k :: k in l.claimed <==> k in Keys(target, done))
    && m.budget == budget && m.attempts == n && m.wait == 0 && m.plannerCalls == 0
    && (forall f :: f in m.completed <==> f in Prints(done))
    && (if n == 0 then m.state.NeedsRevalidation? && m.last.None?
        else m.state.Recovered? && m.last == Some(done[n - 1].now) && m.current == Some(done[n - 1].Fingerprint()))
  }

  function RoundOf(watcher: Watcher, a: Attempt): seq<Happening> {
    [Observe(watcher, a.event, Protocol.Durable), Dispatch(a, Protocol.Durable),
     Command(StateMachine.ActionSucceeded(a.Fingerprint()), Protocol.Durable)]
  }

  /** A fresh limit confirms a machine that is new or has recovered from another one. */
  lemma LimitConfirms(watcher: Watcher, m: Machine, e: Event)
    requires FreshLimit(e) && (m.state.NeedsRevalidation? || (m.state.Recovered? && m.current != Some(e.fingerprint)))
    ensures var after := Absorb(watcher, m, e);
      after.Ok? && after.value.recovery.Some? && var m' := after.value.recovery.value;
      && m' == m.(state := StateMachine.Confirmed, current := Some(e.fingerprint), audit := m'.audit)
  {
  }

  /** A machine on which this attempt can begin as soon as its limit is observed. */
  predicate Begins(l: Life, budget: StateMachine.Budget, a: Attempt) {
    var m, f := l.memory, a.Fingerprint();
    && (m.state.NeedsRevalidation? || (m.state.Recovered? && m.current != Some(f)))
    && m.budget == budget && m.wait == 0 && m.plannerCalls == 0 && m.attempts + 1 < budget.maxAttempts
    && f !in m.completed && StateMachine.CooledDown(m, a.now) && a.Key(l.target) !in l.claimed
  }

  lemma RoundSteps(l: Life, budget: StateMachine.Budget, a: Attempt, watcher: Watcher)
    requires Begins(l, budget, a) && Ready(budget, a)
    ensures var l' := Lived(l, RoundOf(watcher, a)); var m, m', key := l.memory, l'.memory, a.Key(l.target);
      && l' == l.(memory := m', disk := m', claimed := l.claimed + {key}, acted := l.acted + [key])
      && m' == m.(state := StateMachine.Recovered, current := Some(a.Fingerprint()), last := Some(a.now),
                  attempts := m.attempts + 1, completed := m.completed + {a.Fingerprint()}, audit := m'.audit)
  {
    var round := RoundOf(watcher, a);
    LimitConfirms(watcher, l.memory, a.event);
    hide Permitted, Absorb, FreshLimit;
    var l1 := Step(l, round[0]);
    var begun := StateMachine.Advance(l1.memory, BeginOf(a));
    LaterIsPermitted(budget, begun, a);
    assert Acts(l1, a, Protocol.Durable);
    var l2 := Step(l1, round[1]);
    var l3 := Step(l2, round[2]);
    ThreeSteps(l, round);
  }

  lemma ThreeSteps(l: Life, es: seq<Happening>)
    requires |es| == 3
    ensures Lived(l, es) == Step(Step(Step(l, es[0]), es[1]), es[2])
  {
    hide Step;
    var l1 := Step(l, es[0]);
    var l2 := Step(l1, es[1]);
    assert es[1..] == [es[1], es[2]] && es[1..][1..] == [es[2]] && es[1..][1..][1..] == [];
    assert Lived(l, es) == Lived(l1, es[1..]) == Lived(l2, es[1..][1..]);
  }

  lemma NextBegins(l: Life, budget: StateMachine.Budget, target: string, done: seq<Attempt>, a: Attempt)
    requires Performed(l, budget, target, done) && |done| + 1 < budget.maxAttempts
    requires Separate(budget, target, done + [a])
    ensures Begins(l, budget, a)
  {
    var more, n := done + [a], |done|;
    assert more[n] == a && forall i :: 0 <= i < n ==> more[i] == done[i];
    assert a.Fingerprint() !in Prints(done) && a.Key(target) !in Keys(target, done);
  }

  lemma RoundActs(l: Life, budget: StateMachine.Budget, target: string, done: seq<Attempt>, a: Attempt, watcher: Watcher)
    requires Performed(l, budget, target, done) && Ready(budget, a) && |done| + 1 < budget.maxAttempts
    requires Separate(budget, target, done + [a])
    ensures Performed(Lived(l, RoundOf(watcher, a)), budget, target, done + [a])
  {
    NextBegins(l, budget, target, done, a);
    hide Separate, Ready, Begins, Lived;
    RoundSteps(l, budget, a, watcher);
    var more := done + [a];
    assert Keys(target, more) == Keys(target, done) + [a.Key(target)];
    assert Prints(more) == Prints(done) + [a.Fingerprint()];
  }

  lemma {:induction false} LivedConcat(l: Life, es: seq<Happening>, fs: seq<Happening>)
    ensures Lived(l, es + fs) == Lived(Lived(l, es), fs)
    decreases |es|
  {
    hide Step;
    if es == [] {
      assert es + fs == fs;
    } else {
      assert (es + fs)[0] == es[0] && (es + fs)[1..] == es[1..] + fs;
      LivedConcat(Step(l, es[0]), es[1..], fs);
    }
  }

  lemma SeparatePrefix(budget: StateMachine.Budget, target: string, attempts: seq<Attempt>, n: nat)
    requires n <= |attempts| && Separate(budget, target, attempts)
    ensures Separate(budget, target, attempts[..n])
  {
    assert forall i :: 0 <= i < n ==> attempts[..n][i] == attempts[i];
  }

  /** Any n - 1 or fewer ready attempts, kept apart, are all performed by some life the daemon can have. */
  lemma {:induction false} AttemptsArePerformed(
    budget: StateMachine.Budget, target: string, attempts: seq<Attempt>, watcher: Watcher)
    returns (es: seq<Happening>)
    requires |attempts| <= SaturatingSub(budget.maxAttempts, 1) && Separate(budget, target, attempts)
    requires forall i :: 0 <= i < |attempts| ==> Ready(budget, attempts[i])
    ensures forall i :: 0 <= i < |es| ==> Issued(es[i])
    ensures Performed(Lived(Born(budget, target), es), budget, target, attempts)
    ensures Lived(Born(budget, target), es).acted == Keys(target, attempts)
    decreases |attempts|
  {
    hide Ready, Separate, Performed, Step, Born, Lived;
    if attempts == [] {
      es := [];
      NothingPerformed(budget, target);
    } else {
      var n := |attempts| - 1;
      var before, a := attempts[..n], attempts[n];
      assert before + [a] == attempts && Ready(budget, a);
      SeparatePrefix(budget, target, attempts, n);
      var first := AttemptsArePerformed(budget, target, before, watcher);
      RoundActs(Lived(Born(budget, target), first), budget, target, before, a, watcher);
      es := first + RoundOf(watcher, a);
      LivedConcat(Born(budget, target), first, RoundOf(watcher, a));
      PerformedKeys(Lived(Born(budget, target), es), budget, target, attempts);
    }
  }

  lemma NothingPerformed(budget: StateMachine.Budget, target: string)
    ensures Performed(Lived(Born(budget, target), []), budget, target, [])
    ensures Lived(Born(budget, target), []).acted == Keys(target, [])
  {
  }

  lemma PerformedKeys(l: Life, budget: StateMachine.Budget, target: string, done: seq<Attempt>)
    requires Performed(l, budget, target, done)
    ensures l.acted == Keys(target, done)
  {
  }

  // ----- n - 1 attempts for every budget

  const U32_MAX := 4_294_967_295

  function Glyph(k: nat): char
    requires k < 0x10000
  {
    (0x10000 + k) as char
  }

  /** As many different fingerprints as attempts can be counted. */
  function Print(i: nat): string
    requires i <= U32_MAX
  {
    [Glyph(i / 0x10000), Glyph(i % 0x10000)]
  }

  lemma PrintIsUsable(i: nat)
    requires i <= U32_MAX
    ensures Sample.Usable(Print(i))
  {
    var f := Print(i);
    assert ByteLen(f[1..][1..]) == 0;
    assert ByteLen(f[1..]) <= 4;
  }

  lemma PrintIsInjective(i: nat, j: nat)
    requires i <= U32_MAX && j <= U32_MAX && Print(i) == Print(j)
    ensures i == j
  {
    assert Print(i)[0] == Print(j)[0] && Print(i)[1] == Print(j)[1];
    assert Glyph(i / 0x10000) as int == Glyph(j / 0x10000) as int;
    assert Glyph(i % 0x10000) as int == Glyph(j % 0x10000) as int;
  }

  lemma KeyIsInjective(target: string, f: string, g: string)
    requires SampleRun.EnterKey(target, f) == SampleRun.EnterKey(target, g)
    ensures f == g
  {
    var front := target + ":" + "a" + ":";
    assert front + f == SampleRun.EnterKey(target, f) && front + g == SampleRun.EnterKey(target, g);
    assert (front + f)[|front|..] == f && (front + g)[|front|..] == g;
  }

  /** The i-th attempt: Enter, at the i-th limit, as soon as the cooldown allows. */
  function EnterAttempt(budget: StateMachine.Budget, i: nat): Attempt
    requires i <= U32_MAX
  {
    var f := Print(i);
    Attempt(Sample.EnterAt(f), Sample.LimitEvent(f), i * StateMachine.Seconds(budget.cooldown),
            Sample.Limited(f), Sample.Limited(f), None, 0, "")
  }

  function Attempts(budget: StateMachine.Budget, n: nat): seq<Attempt>
    requires n <= U32_MAX
  {
    seq(n, i requires 0 <= i < n => EnterAttempt(budget, i))
  }

  function Context(budget: StateMachine.Budget, i: nat): RecoveryContext
    requires i <= U32_MAX
  {
    var a := EnterAttempt(budget, i);
    FromWatcher(Begun(budget, i + 1), a.event, a.now).value
  }

  lemma EnterIsReady(budget: StateMachine.Budget, i: nat)
    requires i <= U32_MAX && budget.maxAttempts >= 2
    ensures Ready(budget, EnterAttempt(budget, i))
  {
    var f := Print(i);
    var a := EnterAttempt(budget, i);
    PrintIsUsable(i);
    Sample.EnterFingerprint(f);
    var context := FromWatcher(Begun(budget, 1), a.event, a.now).value;
    Sample.EnterIsAdmitted(f, context, 0, "", 0);
    hide Protocol.Admitted, ActionFingerprint, Sample.EnterAt, Print;
    assert a.Start("", 0, context) == Protocol.Start(0, "", Sample.EnterAt(f), context, Sample.Limited(f), Sample.Limited(f), None, 0, "");
  }

  lemma EntersAreSeparate(budget: StateMachine.Budget, target: string, n: nat)
    requires n <= U32_MAX
    ensures Separate(budget, target, Attempts(budget, n))
    ensures Keys(target, Attempts(budget, n)) == EnterKeys(target, n)
  {
    var attempts, q := Attempts(budget, n), StateMachine.Seconds(budget.cooldown);
    forall i | 0 <= i < n
      ensures attempts[i].Fingerprint() == Print(i) && attempts[i].Key(target) == SampleRun.EnterKey(target, Print(i))
    {
      Sample.EnterFingerprint(Print(i));
    }
    forall i, j | 0 <= i < j < n
      ensures Print(i) != Print(j) && SampleRun.EnterKey(target, Print(i)) != SampleRun.EnterKey(target, Print(j))
    {
      if Print(i) == Print(j) {
        PrintIsInjective(i, j);
      }
      if SampleRun.EnterKey(target, Print(i)) == SampleRun.EnterKey(target, Print(j)) {
        KeyIsInjective(target, Print(i), Print(j));
      }
    }
    hide Print, SampleRun.EnterKey;
    forall i | 0 < i < n ensures SaturatingSub(attempts[i].now, attempts[i - 1].now) >= q {
      assert i * q - (i - 1) * q == q;
    }
  }

  function EnterKeys(target: string, n: nat): seq<string>
    requires n <= U32_MAX
  {
    seq(n, i requires 0 <= i < n => SampleRun.EnterKey(target, Print(i)))
  }

  /** Nothing but the first n sample keys is claimed, and no target is busy. */
  ghost predicate Idle(s: Protocol.System, target: string, n: nat)
    requires n <= U32_MAX
  {
    && s.mode.Serving? && target !in s.memory.active
    && (forall k :: k in s.memory.idempotency ==> k in EnterKeys(target, n))
    && (forall tid :: tid in s.threads ==> tid < n)
    && SampleRun.InvokedKeys(s.log) == EnterKeys(target, n)
  }

  lemma DaemonStarts(s: Protocol.System, target: string) returns (steps: seq<Protocol.Step>)
    requires Protocol.Initial(s)
    ensures Protocol.Runs(s, steps) && Idle(Protocol.End(s, steps), target, 0)
  {
    hide Protocol.Runs, Protocol.End;
    var owner := s.owner;
    Protocol.Nothing(s);
    Protocol.RunsAppend(s, [], Protocol.Restart(owner));
    Protocol.RunsAppend(s, [] + [Protocol.Restart(owner)], Protocol.Serve);
    steps := [] + [Protocol.Restart(owner)] + [Protocol.Serve];
  }

  lemma NextKeyIsFree(s: Protocol.System, target: string, n: nat)
    requires n < U32_MAX && Idle(s, target, n)
    ensures SampleRun.Free(s, n, target, Print(n))
  {
    var key := SampleRun.EnterKey(target, Print(n));
    if key in s.memory.idempotency {
      var i :| 0 <= i < n && EnterKeys(target, n)[i] == key;
      KeyIsInjective(target, Print(i), Print(n));
      PrintIsInjective(i, n);
    }
  }

  /** One more transaction, on the budget that is then left. */
  lemma NextEnterRuns(budget: StateMachine.Budget, target: string, s: Protocol.System, n: nat)
    returns (steps: seq<Protocol.Step>)
    requires n + 1 < budget.maxAttempts <= U32_MAX && Idle(s, target, n)
    ensures Protocol.Runs(s, steps) && Idle(Protocol.End(s, steps), target, n + 1)
  {
    hide Protocol.Runs, Protocol.End, Protocol.Admitted, Print, SampleRun.InvokedKeys, SampleRun.EnterKey, Sample.EnterAt, Sample.Limited;
    var f, context := Print(n), Context(budget, n);
    NextKeyIsFree(s, target, n);
    PrintIsUsable(n);
    Sample.EnterIsAdmitted(f, context, n, target, 0);
    var th;
    steps, th := SampleRun.EnterRuns(s, n, target, f, context);
    var key, more := SampleRun.EnterKey(target, f), EnterKeys(target, n + 1);
    assert more == EnterKeys(target, n) + [key];
  }

  /** The step system executes the same keys, one transaction after the other. */
  lemma {:induction false} EntersRun(budget: StateMachine.Budget, target: string, s: Protocol.System, n: nat)
    returns (steps: seq<Protocol.Step>)
    requires Protocol.Initial(s) && n < budget.maxAttempts <= U32_MAX
    ensures Protocol.Runs(s, steps) && Idle(Protocol.End(s, steps), target, n)
  {
    hide Protocol.Runs, Protocol.End, Protocol.Initial, Idle;
    if n == 0 {
      steps := DaemonStarts(s, target);
    } else {
      var before := EntersRun(budget, target, s, n - 1);
      var more := NextEnterRuns(budget, target, Protocol.End(s, before), n - 1);
      SampleRun.RunsJoin(s, before, more);
      steps := before + more;
    }
  }

  lemma SeparateKeys(budget: StateMachine.Budget, target: string, attempts: seq<Attempt>)
    requires Separate(budget, target, attempts)
    ensures Distinct(Keys(target, attempts))
  {
  }

  /**
   For every budget of n attempts, some life the daemon can have performs n - 1 attempts with
   different keys, and some run of the step system executes exactly these keys, in that order.
   */
  lemma BoundIsReached(budget: StateMachine.Budget, target: string, s: Protocol.System, watcher: Watcher)
    returns (es: seq<Happening>, steps: seq<Protocol.Step>)
    requires Protocol.Initial(s) && budget.maxAttempts <= U32_MAX
    ensures forall i :: 0 <= i < |es| ==> Issued(es[i])
    ensures |Lived(Born(budget, target), es).acted| == SaturatingSub(budget.maxAttempts, 1)
    ensures Distinct(Lived(Born(budget, target), es).acted)
    ensures Protocol.Runs(s, steps)
    ensures SampleRun.InvokedKeys(Protocol.End(s, steps).log) == Lived(Born(budget, target), es).acted
  {
    hide Protocol.Runs, Protocol.End, Protocol.Initial, SampleRun.InvokedKeys, Ready, Separate, Performed, Lived, Print, EnterAttempt,
      Distinct;
    var n := SaturatingSub(budget.maxAttempts, 1);
    var attempts := Attempts(budget, n);
    EntersAreSeparate(budget, target, n);
    assert Distinct(Keys(target, attempts)) by { SeparateKeys(budget, target, attempts); }
    forall i | 0 <= i < n ensures Ready(budget, attempts[i]) {
      EnterIsReady(budget, i);
    }
    es := AttemptsArePerformed(budget, target, attempts, watcher);
    if budget.maxAttempts == 0 {
      steps := DaemonStarts(s, target);
    } else {
      steps := EntersRun(budget, target, s, n);
    }
  }
}
