/**
 Live evidence: what a reading must show before input is sent, and what a later
 reading must show before the input counts as having worked.
 */
module Evidence {
  import opened Wrappers
  import opened Model
  import opened Policy

  datatype LiveEvidence = LiveEvidence(
    identity: string,
    targetRevalidated: bool,
    processAlive: bool,
    paneMatches: bool,
    evidenceCurrent: bool,
    composerSafe: bool,
    humanIntervened: bool,
    event: Event)

  type Reading = Result<LiveEvidence, string>

  datatype Objection =
    | NotRevalidated | ProcessGone | PaneMismatch | EvidenceStale | HumanIntervened
    | ComposerUnsafe | FingerprintChanged | ResumeSessionMoved | IdentityOrSourceChanged

  datatype TransactionError =
    | Duplicate
    | ActiveOwner
    | Revalidation(objection: Objection)
    | Denied(denial: Denial)
    | Execution(error: ExecutionError)
    | UncertainOutcome(cause: Cause)
    | Store(fault: Fault)

  /** How a store or evidence call failed. */
  datatype Fault = NoActiveTransaction | CasMismatch | WriteLost | ReadFailed(why: string)

  /** Why an outcome is recorded as uncertain. */
  datatype Cause =
    | SideEffectPossible(why: string)
    | SentNotRecorded(fault: Fault)
    | VerifyingNotRecorded(fault: Fault)
    | ReceiptMissing
    | EvidenceUnavailable(why: string)
    | InterventionOrIdentity
    | TimedOut

  datatype ExecutionError =
    | Unsafe(why: string)
    | Integration(why: string)
    | PossibleSideEffect(why: string)

  // ----- before the send

  function FirstWithKind(cs: seq<Condition>, kind: ConditionKind): Option<Condition> {
    if cs == [] then None
    else if cs[0].kind == kind then Some(cs[0])
    else FirstWithKind(cs[1..], kind)
  }

  function ActionFingerprint(a: Action): string {
    var c := FirstWithKind(a.preconditions, EvidenceFingerprintMatches);
    if c.Some? && TextOf(c.value.value).Some? then TextOf(c.value.value).value else ""
  }

  predicate ResumeSessionChanged(a: Action, live: LiveEvidence) {
    exists c :: c in a.preconditions && c.kind.ClaudeResumeSessionIs?
      && TextOf(c.value) != TextOf(live.event.Meta(ClaudeResumeSession))
  }

  function Revalidate(a: Action, baseline: Option<LiveEvidence>, reading: Reading)
    : Result<LiveEvidence, TransactionError>
  {
    match reading
    case Err(why) => Err(Store(ReadFailed(why)))
    case Ok(live) =>
      if !live.targetRevalidated then Err(Revalidation(NotRevalidated))
      else if !live.processAlive then Err(Revalidation(ProcessGone))
      else if !live.paneMatches then Err(Revalidation(PaneMismatch))
      else if !live.evidenceCurrent then Err(Revalidation(EvidenceStale))
      else if live.humanIntervened then Err(Revalidation(HumanIntervened))
      else if IsInput(a.kind) && !live.composerSafe then Err(Revalidation(ComposerUnsafe))
      else if live.event.fingerprint != ActionFingerprint(a) then
        Err(Revalidation(FingerprintChanged))
      else if ResumeSessionChanged(a, live) then Err(Revalidation(ResumeSessionMoved))
      else if baseline.Some?
              && (baseline.value.identity != live.identity
                  || baseline.value.event.source != live.event.source
                  || baseline.value.event.confidence != live.event.confidence) then
        Err(Revalidation(IdentityOrSourceChanged))
      else Ok(live)
  }

  /** The budgets the coordinator hands a transaction. */
  datatype RecoveryContext = RecoveryContext(
    attemptsRemaining: nat,
    waitRemainingSeconds: nat,
    plannerCallsRemaining: nat,
    plannerConcurrency: bool,
    cooldownReady: bool,
    sessionId: Option<string>,
    failedFamily: Option<string>,
    plannerFamily: Option<string>)

  function ContextFor(live: LiveEvidence, r: RecoveryContext, wall: Option<int>): PolicyContext
  {
    PolicyContext(
      targetRevalidated := live.targetRevalidated,
      evidenceCurrent := live.evidenceCurrent,
      humanIntervened := live.humanIntervened,
      sourceRank := Rank(live.event.source.kind),
      contradictoryRank := None,
      processAlive := live.processAlive,
      paneMatches := live.paneMatches,
      composerEmpty := live.composerSafe,
      failedFamily := r.failedFamily,
      plannerFamily := r.plannerFamily,
      attemptsRemaining := r.attemptsRemaining,
      waitRemainingSeconds := r.waitRemainingSeconds,
      plannerCallsRemaining := r.plannerCallsRemaining,
      plannerConcurrency := r.plannerConcurrency,
      cooldownReady := r.cooldownReady,
      sessionId := r.sessionId,
      fingerprint := Some(live.event.fingerprint),
      menuStable := true,
      agentState := TextOf(live.event.Meta(AgentState)),
      goalState := TextOf(live.event.Meta(GoalState)),
      eventCategory := Some(CategoryName(live.event.category)),
      wallTime := wall,
      claudeResumeSession := TextOf(live.event.Meta(ClaudeResumeSession)))
  }

  // ----- after the send

  datatype Output = Committed | Scheduled | Captured | Status | Notified | HandedOver

  type Outcome = Result<Output, ExecutionError>

  predicate ReceiptHolds(output: Output, outcome: Condition) {
    match outcome.kind
    case WaitStateRecorded => output.Scheduled?
    case HumanNotified => output.Notified?
    case _ => true
  }

  predicate ReceiptOutcomesHold(output: Output, outcomes: seq<Condition>) {
    forall c :: c in outcomes ==> ReceiptHolds(output, c)
  }

  predicate ProgressOutcome(k: ConditionKind) {
    k.AgentWorking? || k.AgentIdle? || k.BlockCleared? || k.GoalActiveOrPursuing?
    || k.AgentStateIs? || k.MenuDismissed? || k.ProcessTerminated?
  }

  predicate NeedsProgress(a: Action) {
    IsInput(a.kind) || exists c :: c in a.outcomes && ProgressOutcome(c.kind)
  }

  /** Rust's order on strings. */
  predicate LexLess(a: string, b: string) {
    if b == "" then false
    else if a == "" then true
    else a[0] < b[0] || (a[0] == b[0] && LexLess(a[1..], b[1..]))
  }

  /** A later reading of the same Claude session that reports progress after the resume. */
  predicate ClaudeProgressed(before: LiveEvidence, after: LiveEvidence, outcome: Condition) {
    var session := TextOf(outcome.value);
    && session.Some?
    && after.event.source.sourceId.Claude?
    && after.event.category.Working?
    && after.event.Flagged(ClaudePostResumeProgress)
    && TextOf(before.event.Meta(ClaudeResumeSession)) == session
    && TextOf(after.event.Meta(ClaudeResumeSession)) == session
    && LexLess(before.event.observedAt, after.event.observedAt)
  }

  predicate MenuBecameStructuredWait(before: LiveEvidence, after: LiveEvidence) {
    && before.event.source.kind.ScreenDetection?
    && before.event.source.sourceId.Claude?
    && before.event.source.ruleOrField == "labelled_wait_menu"
    && after.event.source.kind.Hook?
    && after.event.source.sourceId.ClaudeStopFailure?
    && (after.event.category.UsageLimit? || after.event.category.SessionLimit? || after.event.category.WeeklyLimit?)
    && after.event.policyHint.WaitAllowed?
    && ClaudeResetAt in after.event.metadata
  }

  function Lower(c: char): char {
    if 'A' <= c <= 'Z' then (c as int + 32) as char else c
  }

  function LowerCase(s: string): string {
    seq(|s|, i requires 0 <= i < |s| => Lower(s[i]))
  }

  predicate GoalPursued(after: LiveEvidence) {
    var state := TextOf(after.event.Meta(GoalState));
    state.Some? && LowerCase(state.value) in {"active", "pursuing"}
  }

  predicate OutcomeReached(before: LiveEvidence, after: LiveEvidence, outcome: Condition) {
    var e := after.event;
    match outcome.kind
    case AgentWorking => e.category.Working?
    case GoalActiveOrPursuing =>
      e.category.Working? || GoalPursued(after) || e.Flagged(CodexPostResumeProgress)
    case AgentStateIs => TextOf(outcome.value) == Some("WORKING") && e.category.Working?
    case AgentIdle => e.category.Idle?
    case BlockCleared => !IsActionable(e.category)
    case MenuDismissed => !IsActionable(e.category) || MenuBecameStructuredWait(before, after)
    case ProcessTerminated => e.category.Terminated?
    case _ => false
  }

  predicate Verified(before: LiveEvidence, after: LiveEvidence, outcomes: seq<Condition>) {
    if after.event.fingerprint == before.event.fingerprint then false
    else if exists c :: c in outcomes && c.kind.ClaudeProgress? then
      exists c :: c in outcomes && c.kind.ClaudeProgress? && ClaudeProgressed(before, after, c)
    else if Rank(after.event.source.kind) < Rank(before.event.source.kind)
            || after.event.confidence < before.event.confidence then false
    else exists c :: c in outcomes && OutcomeReached(before, after, c)
  }
}
