/**
 Events, actions and conditions, as far as the recovery protocol reads them. Names the
 daemon compares with fixed texts are constructors here; every other spelling is `Other`.
 */
module Model {
  import opened Wrappers

  /** A JSON scalar: event metadata and condition values hold nothing else. */
  datatype Scalar = Null | Bool(flag: bool) | Number(number: real) | Text(text: string)

  /** `as_str` on an optional JSON value. */
  function TextOf(value: Option<Scalar>): Option<string> {
    if value.Some? && value.value.Text? then Some(value.value.text) else None
  }

  // ----- events

  datatype SourceKind =
    | TypedApi | Hook | StructuredLog | ProcessMetadata
    | HerdrAgentState | ScreenDetection | Planner | Internal

  function Rank(kind: SourceKind): nat {
    match kind
    case TypedApi => 8
    case Hook => 7
    case StructuredLog => 6
    case ProcessMetadata => 5
    case HerdrAgentState => 4
    case ScreenDetection => 3
    case Planner => 2
    case Internal => 1
  }

  /** The subsystems the protocol tells apart by name. */
  datatype SourceId = Claude | ClaudeStopFailure | OtherSource(name: string)

  datatype EventSource = EventSource(
    kind: SourceKind,
    sourceId: SourceId,
    ruleOrField: string,
    sourceVersion: Option<string>)

  datatype Category =
    | Working | Idle | WaitingForModel | WaitingForTool | WaitingForUser
    | PermissionPrompt | QuestionPrompt
    | UsageLimit | SessionLimit | WeeklyLimit | ModelCreditExhausted
    | TransientOverload | CapacityBlock
    | AuthenticationFailure | BillingFailure | InvalidRequest | ModelUnavailable
    | SafetyBlock | PausedGoal | BlockedGoal | ContextLimit | TerminalFailure
    | Crashed | Terminated | UnknownBlocked | Recovered | HumanIntervention

  predicate IsActionable(c: Category) {
    !(c.Working? || c.Idle? || c.Recovered? || c.HumanIntervention? || c.Terminated?)
  }

  /** The variant's name in upper case, as conditions spell it. */
  function CategoryName(c: Category): string {
    match c
    case Working => "WORKING"
    case Idle => "IDLE"
    case WaitingForModel => "WAITINGFORMODEL"
    case WaitingForTool => "WAITINGFORTOOL"
    case WaitingForUser => "WAITINGFORUSER"
    case PermissionPrompt => "PERMISSIONPROMPT"
    case QuestionPrompt => "QUESTIONPROMPT"
    case UsageLimit => "USAGELIMIT"
    case SessionLimit => "SESSIONLIMIT"
    case WeeklyLimit => "WEEKLYLIMIT"
    case ModelCreditExhausted => "MODELCREDITEXHAUSTED"
    case TransientOverload => "TRANSIENTOVERLOAD"
    case CapacityBlock => "CAPACITYBLOCK"
    case AuthenticationFailure => "AUTHENTICATIONFAILURE"
    case BillingFailure => "BILLINGFAILURE"
    case InvalidRequest => "INVALIDREQUEST"
    case ModelUnavailable => "MODELUNAVAILABLE"
    case SafetyBlock => "SAFETYBLOCK"
    case PausedGoal => "PAUSEDGOAL"
    case BlockedGoal => "BLOCKEDGOAL"
    case ContextLimit => "CONTEXTLIMIT"
    case TerminalFailure => "TERMINALFAILURE"
    case Crashed => "CRASHED"
    case Terminated => "TERMINATED"
    case UnknownBlocked => "UNKNOWNBLOCKED"
    case Recovered => "RECOVERED"
    case HumanIntervention => "HUMANINTERVENTION"
  }

  datatype PolicyHint =
    | ObserveOnly | DeterministicActionAllowed | WaitAllowed | PlannerAllowed
    | HumanRequiredHint | StopWatchingHint

  /** Metadata fields the protocol reads. */
  datatype Field =
    | AgentState | GoalState | ClaudeResume | CodexResume | ClaudeResumeSession
    | ClaudeResetAt | ClaudePostResumeProgress | CodexPostResumeProgress | OtherField(name: string)

  datatype Event = Event(
    observedAt: string,
    watcherId: string,
    targetIdentityHash: string,
    sessionId: Option<string>,
    providerFamily: Option<string>,
    source: EventSource,
    category: Category,
    confidence: real,
    fingerprint: string,
    policyHint: PolicyHint,
    metadata: map<Field, Scalar>)
  {
    function Meta(name: Field): Option<Scalar> {
      if name in metadata then Some(metadata[name]) else None
    }

    predicate Flagged(name: Field) {
      Meta(name) == Some(Bool(true))
    }
  }

  // ----- actions

  datatype ConditionKind =
    // preconditions
    | TargetIdentityMatches | ProcessAlive | SessionIdMatches | EvidenceFingerprintMatches
    | ComposerEmpty | MenuStable | GoalStateIs | EventCategoryIs | NoHumanIntervention
    | ClaudeResumeSessionIs | CurrentTimeAtOrAfter
    // both
    | AgentStateIs
    // outcomes
    | AgentWorking | AgentIdle | BlockCleared | GoalActiveOrPursuing | MenuDismissed
    | WaitStateRecorded | ProcessTerminated | ClaudeProgress | HumanNotified | NoStateChangeExpected
    | OtherCondition(name: string)

  predicate IsPrecondition(k: ConditionKind) {
    k.TargetIdentityMatches? || k.ProcessAlive? || k.SessionIdMatches? || k.EvidenceFingerprintMatches?
    || k.ComposerEmpty? || k.MenuStable? || k.AgentStateIs? || k.GoalStateIs? || k.EventCategoryIs?
    || k.NoHumanIntervention? || k.ClaudeResumeSessionIs? || k.CurrentTimeAtOrAfter?
  }

  predicate IsOutcome(k: ConditionKind) {
    k.AgentWorking? || k.AgentIdle? || k.BlockCleared? || k.GoalActiveOrPursuing? || k.MenuDismissed?
    || k.WaitStateRecorded? || k.AgentStateIs? || k.ProcessTerminated? || k.ClaudeProgress?
    || k.HumanNotified? || k.NoStateChangeExpected?
  }

  /** `instant` is what RFC 3339 parsing makes of the value's text, in nanoseconds. */
  datatype Condition = Condition(kind: ConditionKind, value: Option<Scalar>, instant: Option<int>)

  datatype KeyName =
    | Enter | EscapeKey | Up | Down | Left | Right | Tab | BackTab
    | CtrlC | CtrlD | CtrlL | Home | EndKey | PageUp | PageDown | OtherKey(name: string)

  datatype CaptureSource = ScreenDetected | ScreenRecent | StructuredState | LogTail | OtherCapture(name: string)

  datatype Level = AlternatePlanner | SecondOpinion | HumanLevel | OtherLevel(name: string)

  datatype Severity = Info | Warning | Error | Critical | OtherSeverity(name: string)

  datatype Check =
    | AliveCheck | IdentityCheck | AgentCheck | GoalCheck | ClearedCheck | ComposerCheck
    | LiteralCheck | NoLiteralCheck | OtherCheck(name: string)

  datatype ActionKind =
    | WaitUntil(at: string, instant: Option<int>)
    | WaitDuration(seconds: nat)
    | Capture(source: CaptureSource, maxLines: nat)
    | CheckStatus(check: Check, expected: Option<string>)
    | SendText(text: string)
    | SubmitText(text: string)
    | SendKeys(keys: seq<KeyName>)
    | Notify(severity: Severity, message: string)
    | Escalate(level: Level)
    | StopWatching
    | Noop

  /** The kinds that type into the terminal. */
  predicate IsInput(kind: ActionKind) {
    kind.SendText? || kind.SubmitText? || kind.SendKeys?
  }

  datatype Action = Action(
    kind: ActionKind,
    actionId: string,
    reason: string,
    preconditions: seq<Condition>,
    outcomes: seq<Condition>,
    timeoutSeconds: nat)

  /** The length Rust reports: bytes of the UTF-8 encoding. */
  function ByteLen(s: string): nat {
    if s == [] then 0
    else
      var code := s[0] as int;
      (if code < 0x80 then 1 else if code < 0x800 then 2 else if code < 0x10000 then 3 else 4)
      + ByteLen(s[1..])
  }

  predicate Digit(c: char) { '0' <= c <= '9' }

  predicate Alphanumeric(c: char) {
    Digit(c) || 'a' <= c <= 'z' || 'A' <= c <= 'Z'
  }

  predicate ValidId(id: string) {
    && 0 < |id| <= 96
    && forall i :: 0 <= i < |id| ==> Alphanumeric(id[i]) || (i > 0 && id[i] in "._:-")
  }

  predicate ScalarFits(c: Condition) {
    c.value.Some? && c.value.value.Text? ==> ByteLen(c.value.value.text) <= 256
  }

  predicate ValidPrecondition(c: Condition) {
    ScalarFits(c) && IsPrecondition(c.kind)
  }

  predicate ValidOutcome(c: Condition) {
    ScalarFits(c) && IsOutcome(c.kind)
  }

  predicate ValidText(text: string) {
    text != "" && ByteLen(text) <= 512
  }

  predicate ValidKind(a: Action) {
    match a.kind
    case WaitUntil(_, instant) => instant.Some?
    case WaitDuration(seconds) => 1 <= seconds <= 86_400
    case Capture(source, maxLines) => !source.OtherCapture? && 1 <= maxLines <= 300
    case CheckStatus(check, expected) =>
      !check.OtherCheck? && (expected.Some? ==> ByteLen(expected.value) <= 256)
    case SendText(text) => a.preconditions != [] && ValidText(text)
    case SubmitText(text) => a.preconditions != [] && ValidText(text)
    case SendKeys(keys) =>
      a.preconditions != [] && 0 < |keys| <= 16 && forall k :: k in keys ==> !k.OtherKey?
    case Notify(severity, message) =>
      !severity.OtherSeverity? && message != "" && ByteLen(message) <= 500
    case Escalate(level) => !level.OtherLevel?
    case StopWatching => true
    case Noop => true
  }

  predicate ValidAction(a: Action) {
    && ValidId(a.actionId)
    && a.reason != "" && ByteLen(a.reason) <= 500
    && 0 < a.timeoutSeconds <= 86_400
    && |a.preconditions| <= 12
    && 0 < |a.outcomes| <= 6
    && (forall c :: c in a.preconditions ==> ValidPrecondition(c))
    && (forall c :: c in a.outcomes ==> ValidOutcome(c))
    && ValidKind(a)
  }
}
