/**
 What the compiled policy allows, said over the fields it is asked about and without its
 order of tests: `Authorize` answers Ok exactly then, and each denial states a fact.
 */
module Permissions {
  import opened Wrappers
  import opened Model
  import opened Policy

  /** The evidence is fresh, the target is the one that was meant, and nobody is at it. */
  predicate Fresh(ctx: PolicyContext) {
    ctx.targetRevalidated && ctx.evidenceCurrent && !ctx.humanIntervened && ctx.processAlive && ctx.paneMatches
  }

  /** A declared precondition is one the policy knows, and is true. */
  predicate Met(c: Condition, ctx: PolicyContext) {
    var text := TextOf(c.value);
    && c.kind in {TargetIdentityMatches, ProcessAlive, SessionIdMatches, EvidenceFingerprintMatches, ComposerEmpty,
                  MenuStable, AgentStateIs, GoalStateIs, EventCategoryIs, NoHumanIntervention,
                  ClaudeResumeSessionIs, CurrentTimeAtOrAfter}
    && (c.kind == TargetIdentityMatches ==> ctx.targetRevalidated && ctx.paneMatches)
    && (c.kind == ProcessAlive ==> ctx.processAlive)
    && (c.kind == SessionIdMatches ==> ctx.sessionId == text)
    && (c.kind == EvidenceFingerprintMatches ==> ctx.fingerprint == text)
    && (c.kind == ComposerEmpty ==> ctx.composerEmpty)
    && (c.kind == MenuStable ==> ctx.menuStable)
    && (c.kind == AgentStateIs ==> ctx.agentState == text)
    && (c.kind == GoalStateIs ==> ctx.goalState == text)
    && (c.kind == EventCategoryIs ==> ctx.eventCategory == text)
    && (c.kind == NoHumanIntervention ==> !ctx.humanIntervened)
    && (c.kind == ClaudeResumeSessionIs ==> ctx.claudeResumeSession == text)
    && (c.kind == CurrentTimeAtOrAfter ==>
          text.Some? && c.instant.Some? && ctx.wallTime.Some? && c.instant.value <= ctx.wallTime.value)
  }

  /** A time less than a second ago, or so soon that the wait left covers its whole seconds. */
  predicate Soon(at: int, now: int, seconds: nat) {
    -1_000_000_000 < at - now < (seconds + 1) * 1_000_000_000
  }

  /** The budget covers what this kind of action spends. */
  predicate Affordable(kind: ActionKind, ctx: PolicyContext) {
    && ctx.attemptsRemaining >= 1 && ctx.cooldownReady
    && (kind.WaitDuration? ==> kind.seconds <= ctx.waitRemainingSeconds)
    && (kind.WaitUntil? ==>
          && kind.instant.Some? && ctx.wallTime.Some?
          && Soon(kind.instant.value, ctx.wallTime.value, ctx.waitRemainingSeconds))
  }

  predicate OtherProvider(ctx: PolicyContext) {
    ctx.failedFamily.Some? && ctx.plannerFamily.Some? && ctx.failedFamily.value != ctx.plannerFamily.value
  }

  /** Another planner is of another known provider than the one that failed, and has calls left. */
  predicate PlannerFree(kind: ActionKind, ctx: PolicyContext) {
    && (kind == Escalate(AlternatePlanner) || kind == Escalate(SecondOpinion) ==>
          && ctx.plannerCallsRemaining >= 1
          && OtherProvider(ctx))
    && (kind == Escalate(SecondOpinion) ==>
          ctx.plannerCallsRemaining >= 2 && ctx.plannerConcurrency && ctx.composerEmpty)
  }

  const LITERALS := {"/goal resume", "continue", "retry", "Continue exactly where you left off."}

  const KEYS := {Enter, EscapeKey, Up, Down, Left, Right, Tab, BackTab, Home, EndKey, PageUp, PageDown}

  /** Input is a known text or known keys, for a composer that holds nothing. */
  predicate Tame(kind: ActionKind, ctx: PolicyContext) {
    && (kind.SendText? ==> ctx.composerEmpty && kind.text in LITERALS)
    && (kind.SubmitText? ==> ctx.composerEmpty && kind.text in LITERALS)
    && (kind.SendKeys? ==> ctx.composerEmpty && forall i :: 0 <= i < |kind.keys| ==> kind.keys[i] in KEYS)
  }

  predicate Uncontradicted(ctx: PolicyContext) {
    ctx.contradictoryRank.Some? ==> ctx.contradictoryRank.value <= ctx.sourceRank
  }

  predicate Permits(a: Action, ctx: PolicyContext) {
    && ValidAction(a)
    && Fresh(ctx)
    && (forall i :: 0 <= i < |a.preconditions| ==> Met(a.preconditions[i], ctx))
    && Affordable(a.kind, ctx) && PlannerFree(a.kind, ctx) && Tame(a.kind, ctx)
    && Uncontradicted(ctx)
  }

  // ----- the tests of the code, one by one

  lemma MetIsHolds(c: Condition, ctx: PolicyContext)
    ensures Met(c, ctx) <==> PreconditionHolds(c, ctx)
  {
  }

  lemma MetAll(a: Action, ctx: PolicyContext)
    ensures (forall i :: 0 <= i < |a.preconditions| ==> Met(a.preconditions[i], ctx))
      <==> !exists c :: c in a.preconditions && !PreconditionHolds(c, ctx)
  {
    hide Met, PreconditionHolds;
    forall i | 0 <= i < |a.preconditions|
      ensures Met(a.preconditions[i], ctx) <==> PreconditionHolds(a.preconditions[i], ctx)
    {
      MetIsHolds(a.preconditions[i], ctx);
    }
  }

  lemma SecondsOf(at: int, now: int, seconds: nat)
    ensures WaitUntilSeconds(Some(at), Some(now)).Some? <==> at - now > -NANOS
    ensures WaitUntilSeconds(Some(at), Some(now)).Some? ==>
      (WaitUntilSeconds(Some(at), Some(now)).value > seconds <==> at - now >= (seconds + 1) * NANOS)
  {
    if at >= now {
      var q := (at - now) / NANOS;
      assert q * NANOS <= at - now < (q + 1) * NANOS;
    }
  }

  lemma SecondsAreSoon(at: int, now: int, seconds: nat)
    ensures Soon(at, now, seconds) <==>
      WaitUntilSeconds(Some(at), Some(now)).Some? && WaitUntilSeconds(Some(at), Some(now)).value <= seconds
  {
    hide WaitUntilSeconds;
    SecondsOf(at, now, seconds);
  }

  lemma AffordableIsTested(kind: ActionKind, ctx: PolicyContext)
    ensures Affordable(kind, ctx) <==>
      && ctx.attemptsRemaining != 0 && ctx.cooldownReady
      && !(kind.WaitDuration? && kind.seconds > ctx.waitRemainingSeconds)
      && (kind.WaitUntil? ==>
            && WaitUntilSeconds(kind.instant, ctx.wallTime).Some?
            && WaitUntilSeconds(kind.instant, ctx.wallTime).value <= ctx.waitRemainingSeconds)
  {
    hide WaitUntilSeconds, Soon;
    if kind.WaitUntil? {
      if kind.instant.Some? && ctx.wallTime.Some? {
        SecondsAreSoon(kind.instant.value, ctx.wallTime.value, ctx.waitRemainingSeconds);
      } else {
        NoSeconds(kind.instant, ctx.wallTime);
      }
    }
  }

  lemma NoSeconds(at: Option<int>, now: Option<int>)
    requires at.None? || now.None?
    ensures WaitUntilSeconds(at, now).None?
  {
  }

  lemma PlannerIsTested(kind: ActionKind, ctx: PolicyContext)
    requires kind.Escalate? ==> !kind.level.OtherLevel?
    ensures PlannerFree(kind, ctx) <==>
      && !(AsksPlanner(kind)
           && (ctx.failedFamily.None? || ctx.plannerFamily.None? || ctx.failedFamily == ctx.plannerFamily))
      && !(AsksPlanner(kind) && ctx.plannerCallsRemaining == 0)
      && !(kind.Escalate? && kind.level.SecondOpinion?
           && (ctx.plannerCallsRemaining < 2 || !ctx.plannerConcurrency || !ctx.composerEmpty))
  {
  }

  lemma ValidKinds(a: Action)
    requires ValidAction(a)
    ensures a.kind.WaitDuration? ==> a.kind.seconds <= 86_400
    ensures a.kind.Capture? ==> a.kind.maxLines <= 300
    ensures a.kind.Escalate? ==> !a.kind.level.OtherLevel?
  {
    hide ByteLen, ValidId, ValidPrecondition, ValidOutcome;
  }

  lemma TameIsTested(a: Action, ctx: PolicyContext)
    requires ValidAction(a)
    ensures Tame(a.kind, ctx) <==> KindAllowed(a.kind, ctx)
  {
    ValidKinds(a);
    hide ValidAction;
    if a.kind.SendKeys? {
      forall i | 0 <= i < |a.kind.keys| ensures a.kind.keys[i] in KEYS <==> PolicyKey(a.kind.keys[i]) {
      }
    }
  }

  // ----- main results

  /** The policy says yes to exactly what it permits. */
  lemma AuthorizesExactly(a: Action, ctx: PolicyContext)
    ensures Authorize(a, ctx).Ok? <==> Permits(a, ctx)
  {
    hide ValidAction, Met, PreconditionHolds, WaitUntilSeconds, Affordable, PlannerFree, Tame, KindAllowed;
    if ValidAction(a) {
      ValidKinds(a);
      MetAll(a, ctx);
      AffordableIsTested(a.kind, ctx);
      PlannerIsTested(a.kind, ctx);
      TameIsTested(a, ctx);
    }
  }

  /** What a denial tells the caller. */
  predicate Tells(d: Denial, a: Action, ctx: PolicyContext) {
    match d
    case InvalidAction => !ValidAction(a)
    case RevalidationRequired => !Fresh(ctx)
    case SameProviderPlanner =>
      a.kind.Escalate? && a.kind.level != HumanLevel
      && !OtherProvider(ctx)
    case AttemptOrCooldown => ctx.attemptsRemaining == 0 || !ctx.cooldownReady
    case CumulativeWait =>
      || (a.kind.WaitDuration? && a.kind.seconds > ctx.waitRemainingSeconds)
      || (a.kind.WaitUntil? && a.kind.instant.Some? && ctx.wallTime.Some?
          && a.kind.instant.value - ctx.wallTime.value >= (ctx.waitRemainingSeconds + 1) * 1_000_000_000)
    case WallTimeRequired =>
      a.kind.WaitUntil?
      && (a.kind.instant.None? || ctx.wallTime.None?
          || a.kind.instant.value - ctx.wallTime.value <= -1_000_000_000)
    case PlannerBudget => a.kind.Escalate? && a.kind.level != HumanLevel && ctx.plannerCallsRemaining == 0
    case SecondOpinionBudget =>
      a.kind == Escalate(SecondOpinion)
      && (ctx.plannerCallsRemaining < 2 || !ctx.plannerConcurrency || !ctx.composerEmpty)
    case PreconditionFailed => exists i :: 0 <= i < |a.preconditions| && !Met(a.preconditions[i], ctx)
    case HigherRankedContradiction => !Uncontradicted(ctx)
    case NotAllowed => !Tame(a.kind, ctx)
  }

  lemma DenialsAreTrue(a: Action, ctx: PolicyContext)
    ensures Authorize(a, ctx).Err? ==> Tells(Authorize(a, ctx).error, a, ctx)
  {
    hide ValidAction, Met, PreconditionHolds, WaitUntilSeconds, Affordable, Tame, KindAllowed;
    if ValidAction(a) {
      MetAll(a, ctx);
      if a.kind.WaitUntil? {
        if a.kind.instant.Some? && ctx.wallTime.Some? {
          SecondsOf(a.kind.instant.value, ctx.wallTime.value, ctx.waitRemainingSeconds);
        } else {
          NoSeconds(a.kind.instant, ctx.wallTime);
        }
      }
      TameIsTested(a, ctx);
    }
  }
}
