/** The compiled policy: the last word on whether an action may run at all. */
module Policy {
  import opened Wrappers
  import opened Model

  datatype PolicyContext = PolicyContext(
    targetRevalidated: bool,
    evidenceCurrent: bool,
    humanIntervened: bool,
    sourceRank: nat,
    contradictoryRank: Option<nat>,
    processAlive: bool,
    paneMatches: bool,
    composerEmpty: bool,
    failedFamily: Option<string>,
    plannerFamily: Option<string>,
    attemptsRemaining: nat,
    waitRemainingSeconds: nat,
    plannerCallsRemaining: nat,
    plannerConcurrency: bool,
    cooldownReady: bool,
    sessionId: Option<string>,
    fingerprint: Option<string>,
    menuStable: bool,
    agentState: Option<string>,
    goalState: Option<string>,
    eventCategory: Option<string>,
    wallTime: Option<int>,
    claudeResumeSession: Option<string>)

  const NANOS := 1_000_000_000

  /** Whole seconds from `now` to `at`, dropped toward zero; absent when that is negative. */
  function WaitUntilSeconds(at: Option<int>, now: Option<int>): Option<nat> {
    if at.None? || now.None? then None
    else if at.value <= now.value - NANOS then None
    else if at.value < now.value then Some(0)
    else Some((at.value - now.value) / NANOS)
  }

  predicate PreconditionHolds(c: Condition, ctx: PolicyContext) {
    var text := TextOf(c.value);
    match c.kind
    case TargetIdentityMatches => ctx.targetRevalidated && ctx.paneMatches
    case ProcessAlive => ctx.processAlive
    case SessionIdMatches => text == ctx.sessionId
    case EvidenceFingerprintMatches => text == ctx.fingerprint
    case ComposerEmpty => ctx.composerEmpty
    case MenuStable => ctx.menuStable
    case AgentStateIs => text == ctx.agentState
    case GoalStateIs => text == ctx.goalState
    case EventCategoryIs => text == ctx.eventCategory
    case NoHumanIntervention => !ctx.humanIntervened
    case ClaudeResumeSessionIs => text == ctx.claudeResumeSession
    case CurrentTimeAtOrAfter =>
      text.Some? && c.instant.Some? && ctx.wallTime.Some? && ctx.wallTime.value >= c.instant.value
    case _ => false
  }

  /** The four literals the policy lets the daemon type. */
  predicate SafeText(text: string) {
    text in {"/goal resume", "continue", "retry", "Continue exactly where you left off."}
  }

  predicate PolicyKey(k: KeyName) {
    !(k.CtrlC? || k.CtrlD? || k.CtrlL? || k.OtherKey?)
  }

  predicate AsksPlanner(kind: ActionKind) {
    kind.Escalate? && !kind.level.HumanLevel?
  }

  predicate KindAllowed(kind: ActionKind, ctx: PolicyContext) {
    match kind
    case WaitUntil(_, _) => true
    case WaitDuration(seconds) => seconds <= 86_400
    case Capture(_, maxLines) => maxLines <= 300
    case CheckStatus(_, _) => true
    case Notify(_, _) => true
    case StopWatching => true
    case Noop => true
    case Escalate(level) => !level.OtherLevel?
    case SendKeys(keys) => ctx.composerEmpty && forall k :: k in keys ==> PolicyKey(k)
    case SendText(text) => ctx.composerEmpty && SafeText(text)
    case SubmitText(text) => ctx.composerEmpty && SafeText(text)
  }

  datatype Denial =
    | InvalidAction | RevalidationRequired | SameProviderPlanner | AttemptOrCooldown
    | CumulativeWait | WallTimeRequired | PlannerBudget | SecondOpinionBudget
    | PreconditionFailed | HigherRankedContradiction | NotAllowed

  function Authorize(a: Action, ctx: PolicyContext): Result<(), Denial> {
    if !ValidAction(a) then Err(InvalidAction)
    else if !ctx.targetRevalidated || !ctx.evidenceCurrent || ctx.humanIntervened
            || !ctx.processAlive || !ctx.paneMatches then
      Err(RevalidationRequired)
    else if AsksPlanner(a.kind)
            && (ctx.failedFamily.None? || ctx.plannerFamily.None? || ctx.failedFamily == ctx.plannerFamily) then
      Err(SameProviderPlanner)
    else if ctx.attemptsRemaining == 0 || !ctx.cooldownReady then Err(AttemptOrCooldown)
    else if a.kind.WaitDuration? && a.kind.seconds > ctx.waitRemainingSeconds then Err(CumulativeWait)
    else if a.kind.WaitUntil? && WaitUntilSeconds(a.kind.instant, ctx.wallTime).None? then
      Err(WallTimeRequired)
    else if a.kind.WaitUntil?
            && WaitUntilSeconds(a.kind.instant, ctx.wallTime).value > ctx.waitRemainingSeconds then
      Err(CumulativeWait)
    else if AsksPlanner(a.kind) && ctx.plannerCallsRemaining == 0 then Err(PlannerBudget)
    else if a.kind.Escalate? && a.kind.level.SecondOpinion?
            && (ctx.plannerCallsRemaining < 2 || !ctx.plannerConcurrency || !ctx.composerEmpty) then
      Err(SecondOpinionBudget)
    else if exists c :: c in a.preconditions && !PreconditionHolds(c, ctx) then Err(PreconditionFailed)
    else if ctx.contradictoryRank.Some? && ctx.contradictoryRank.value > ctx.sourceRank then
      Err(HigherRankedContradiction)
    else if KindAllowed(a.kind, ctx) then Ok(())
    else Err(NotAllowed)
  }

  /** The keys the actuator can translate. */
  predicate SymbolicKey(k: KeyName) {
    k.Enter? || k.EscapeKey? || k.Up? || k.Down? || k.Left? || k.Right? || k.Tab?
  }

  predicate ForbiddenLiteral(c: char) {
    var code := c as int;
    code <= 0x1f || 0x7f <= code <= 0x9f
  }

  predicate Printable(text: string) {
    forall i :: 0 <= i < |text| ==> !ForbiddenLiteral(text[i])
  }

  /** The actuator's own check, made before the transaction reads anything. */
  predicate ActuatorAccepts(a: Action) {
    && ValidAction(a)
    && match a.kind
       case SendText(text) => Printable(text)
       case SubmitText(text) => Printable(text)
       case SendKeys(keys) => forall k :: k in keys ==> SymbolicKey(k)
       case _ => true
  }

  /** What may ever be typed: one of four literals, or keys from a list of seven. */
  predicate Typeable(kind: ActionKind) {
    match kind
    case SendText(text) => SafeText(text)
    case SubmitText(text) => SafeText(text)
    case SendKeys(keys) => keys != [] && forall k :: k in keys ==> SymbolicKey(k)
    case _ => false
  }

  /** An input action both checks accept types only what is allowed, into an empty composer. */
  lemma AuthorizedInput(a: Action, ctx: PolicyContext)
    requires ActuatorAccepts(a) && Authorize(a, ctx).Ok? && IsInput(a.kind)
    ensures Typeable(a.kind) && ctx.composerEmpty && ctx.attemptsRemaining > 0
  {
    hide SafeText, ValidAction, Printable, PreconditionHolds, WaitUntilSeconds;
    if a.kind.SendKeys? {
      AcceptedKeys(a);
    }
  }

  lemma AcceptedKeys(a: Action)
    requires ActuatorAccepts(a) && a.kind.SendKeys?
    ensures a.kind.keys != []
  {
    hide ValidId, ByteLen, ValidPrecondition, ValidOutcome, SymbolicKey;
  }
}
