/**
 What a reading must show before input goes ahead on it, and what a later one must show
 for the input to have worked, said over the fields of the readings. The tests of the code
 pass exactly then.
 */
module Readings {
  import opened Wrappers
  import opened Model
  import opened Evidence

  // ----- before the send

  /** The fingerprint the action is bound to: what its first fingerprint precondition names. */
  ghost predicate Names(cs: seq<Condition>, f: string) {
    || (f == "" && forall i :: 0 <= i < |cs| ==> cs[i].kind != EvidenceFingerprintMatches)
    || (exists i :: 0 <= i < |cs| && cs[i].kind == EvidenceFingerprintMatches
          && (forall j :: 0 <= j < i ==> cs[j].kind != EvidenceFingerprintMatches)
          && (cs[i].value == Some(Text(f)) || (f == "" && TextOf(cs[i].value).None?)))
  }

  /** The named target is live, unattended and as the action expects it. */
  ghost predicate Clear(a: Action, live: LiveEvidence) {
    && live.targetRevalidated && live.processAlive && live.paneMatches && live.evidenceCurrent
    && !live.humanIntervened
    && (a.kind.SendText? || a.kind.SubmitText? || a.kind.SendKeys? ==> live.composerSafe)
    && Names(a.preconditions, live.event.fingerprint)
    && (forall i :: 0 <= i < |a.preconditions| && a.preconditions[i].kind == ClaudeResumeSessionIs ==>
          TextOf(a.preconditions[i].value) == TextOf(live.event.Meta(ClaudeResumeSession)))
  }

  predicate SameSource(was: LiveEvidence, live: LiveEvidence) {
    live.identity == was.identity && live.event.source == was.event.source
    && live.event.confidence == was.event.confidence
  }

  lemma {:induction false} FirstNames(cs: seq<Condition>, kind: ConditionKind)
    ensures match FirstWithKind(cs, kind)
      case None => forall i :: 0 <= i < |cs| ==> cs[i].kind != kind
      case Some(c) =>
        exists i :: 0 <= i < |cs| && cs[i] == c && c.kind == kind && forall j :: 0 <= j < i ==> cs[j].kind != kind
  {
    if cs != [] && cs[0].kind != kind {
      FirstNames(cs[1..], kind);
      var c := FirstWithKind(cs[1..], kind);
      assert forall i :: 0 < i < |cs| ==> cs[i] == cs[1..][i - 1];
      if c.Some? {
        var i :| 0 <= i < |cs[1..]| && cs[1..][i] == c.value && forall j :: 0 <= j < i ==> cs[1..][j].kind != kind;
        assert cs[i + 1] == c.value;
      }
    }
  }

  lemma BoundFingerprint(a: Action, f: string)
    ensures f == ActionFingerprint(a) <==> Names(a.preconditions, f)
  {
    FirstNames(a.preconditions, EvidenceFingerprintMatches);
  }

  lemma SessionsAgree(a: Action, live: LiveEvidence)
    ensures !ResumeSessionChanged(a, live) <==>
      forall i :: 0 <= i < |a.preconditions| && a.preconditions[i].kind == ClaudeResumeSessionIs ==>
        TextOf(a.preconditions[i].value) == TextOf(live.event.Meta(ClaudeResumeSession))
  {
  }

  /** A reading passes exactly when it is clear and, after the first, from the same source. */
  lemma RevalidatesExactly(a: Action, baseline: Option<LiveEvidence>, reading: Reading)
    ensures Revalidate(a, baseline, reading).Ok? <==>
      && reading.Ok? && Clear(a, reading.value)
      && (baseline.Some? ==> SameSource(baseline.value, reading.value))
    ensures Revalidate(a, baseline, reading).Ok? ==> Revalidate(a, baseline, reading).value == reading.value
  {
    if reading.Ok? {
      BoundFingerprint(a, reading.value.event.fingerprint);
      SessionsAgree(a, reading.value);
      hide Names, ActionFingerprint, ResumeSessionChanged;
    }
  }

  /** What an objection tells about the reading. */
  ghost predicate Tells(o: Objection, a: Action, baseline: Option<LiveEvidence>, live: LiveEvidence) {
    match o
    case NotRevalidated => !live.targetRevalidated
    case ProcessGone => !live.processAlive
    case PaneMismatch => !live.paneMatches
    case EvidenceStale => !live.evidenceCurrent
    case HumanIntervened => live.humanIntervened
    case ComposerUnsafe => !live.composerSafe && (a.kind.SendText? || a.kind.SubmitText? || a.kind.SendKeys?)
    case FingerprintChanged => !Names(a.preconditions, live.event.fingerprint)
    case ResumeSessionMoved =>
      exists c :: c in a.preconditions && c.kind == ClaudeResumeSessionIs
        && TextOf(c.value) != TextOf(live.event.Meta(ClaudeResumeSession))
    case IdentityOrSourceChanged => baseline.Some? && !SameSource(baseline.value, live)
  }

  lemma ObjectionsAreTrue(a: Action, baseline: Option<LiveEvidence>, reading: Reading)
    requires Revalidate(a, baseline, reading).Err?
    ensures var why := Revalidate(a, baseline, reading).error;
      if reading.Err? then why == Store(ReadFailed(reading.error))
      else why.Revalidation? && Tells(why.objection, a, baseline, reading.value)
  {
    if reading.Ok? {
      BoundFingerprint(a, reading.value.event.fingerprint);
      hide Names, ActionFingerprint;
    }
  }

  // ----- after the send

  const WEAKEST_FIRST :=
    [Internal, Planner, ScreenDetection, HerdrAgentState, ProcessMetadata, StructuredLog, Hook, TypedApi]

  /** Evidence of kind `now` comes no earlier in the list than evidence of kind `was`. */
  predicate NoWeaker(was: SourceKind, now: SourceKind) {
    exists i, j :: 0 <= i <= j < 8 && WEAKEST_FIRST[i] == was && WEAKEST_FIRST[j] == now
  }

  /** `a` comes before `b` in a dictionary: it is a proper prefix, or smaller where they first differ. */
  predicate Precedes(a: string, b: string) {
    exists k: nat :: k < |b| && FirstDiffer(a, b, k)
  }

  /** The texts agree up to `k`, where `a` ends or is smaller. */
  predicate FirstDiffer(a: string, b: string, k: nat) {
    k <= |a| && k < |b| && a[..k] == b[..k] && (k == |a| || a[k] < b[k])
  }

  /** The same letters, whatever their case; `word` is in lower case. */
  predicate SpellsOut(text: string, word: string) {
    && |text| == |word|
    && forall i :: 0 <= i < |text| ==> text[i] == word[i] || ('A' <= text[i] <= 'Z' && text[i] as int + 32 == word[i] as int)
  }

  /** Claude reports progress in the session the outcome names, later than the baseline. */
  predicate SessionProgress(before: Event, after: Event, outcome: Condition) {
    && outcome.value.Some? && outcome.value.value.Text?
    && after.source.sourceId == Claude && after.category == Working
    && ClaudePostResumeProgress in after.metadata && after.metadata[ClaudePostResumeProgress] == Bool(true)
    && ClaudeResumeSession in before.metadata && before.metadata[ClaudeResumeSession] == outcome.value.value
    && ClaudeResumeSession in after.metadata && after.metadata[ClaudeResumeSession] == outcome.value.value
    && Precedes(before.observedAt, after.observedAt)
  }

  /** The labelled menu on Claude's screen gave way to the limit and reset time its hook reports. */
  predicate LimitAfterMenu(before: Event, after: Event) {
    && before.source.kind == ScreenDetection && before.source.sourceId == Claude
    && before.source.ruleOrField == "labelled_wait_menu"
    && after.source.kind == Hook && after.source.sourceId == ClaudeStopFailure
    && after.category in {UsageLimit, SessionLimit, WeeklyLimit}
    && after.policyHint == WaitAllowed && ClaudeResetAt in after.metadata
  }

  /** The agent is not stuck: nothing is left for a recovery to act on. */
  const UNBLOCKED := {Working, Idle, Category.Recovered, HumanIntervention, Category.Terminated}

  /** The event shows what this outcome asks for. */
  predicate Shows(before: Event, after: Event, outcome: Condition) {
    || (outcome.kind == AgentWorking && after.category == Working)
    || (outcome.kind == AgentIdle && after.category == Idle)
    || (outcome.kind == ProcessTerminated && after.category == Category.Terminated)
    || (outcome.kind == AgentStateIs && outcome.value == Some(Text("WORKING")) && after.category == Working)
    || (outcome.kind == BlockCleared && after.category in UNBLOCKED)
    || (outcome.kind == MenuDismissed && (after.category in UNBLOCKED || LimitAfterMenu(before, after)))
    || (outcome.kind == GoalActiveOrPursuing
        && (|| after.category == Working
            || (GoalState in after.metadata && after.metadata[GoalState].Text?
                && (SpellsOut(after.metadata[GoalState].text, "active") || SpellsOut(after.metadata[GoalState].text, "pursuing")))
            || (CodexPostResumeProgress in after.metadata && after.metadata[CodexPostResumeProgress] == Bool(true))))
  }

  /**
   A reading after the send proves success: the same target, nobody at it, a new fingerprint,
   and Claude's progress in its session where an outcome asks for that, or else an outcome
   shown on evidence no weaker than the baseline.
   */
  predicate Proof(a: Action, before: LiveEvidence, after: LiveEvidence) {
    && after.identity == before.identity
    && !after.humanIntervened
    && after.event.fingerprint != before.event.fingerprint
    && if exists c :: c in a.outcomes && c.kind == ClaudeProgress
       then exists c :: c in a.outcomes && c.kind == ClaudeProgress && SessionProgress(before.event, after.event, c)
       else
         && NoWeaker(before.event.source.kind, after.event.source.kind)
         && after.event.confidence >= before.event.confidence
         && exists c :: c in a.outcomes && Shows(before.event, after.event, c)
  }

  lemma RankIsPlace(kind: SourceKind, i: nat)
    requires i < 8
    ensures Rank(kind) == i + 1 <==> WEAKEST_FIRST[i] == kind
  {
  }

  lemma RankOrders(was: SourceKind, now: SourceKind)
    ensures NoWeaker(was, now) <==> Rank(was) <= Rank(now)
  {
    RankIsPlace(was, Rank(was) - 1);
    RankIsPlace(now, Rank(now) - 1);
    if NoWeaker(was, now) {
      var i, j :| 0 <= i <= j < 8 && WEAKEST_FIRST[i] == was && WEAKEST_FIRST[j] == now;
      RankIsPlace(was, i);
      RankIsPlace(now, j);
    }
  }

  lemma DifferAtOnce(a: string, b: string)
    requires a != "" && b != "" && a[0] != b[0]
    ensures Precedes(a, b) <==> a[0] < b[0]
  {
    if Precedes(a, b) {
      var k: nat :| k < |b| && FirstDiffer(a, b, k);
      assert k > 0 ==> a[..k][0] == b[..k][0];
    } else {
      assert FirstDiffer(a, b, 0) <==> a[0] < b[0];
    }
  }

  lemma DifferLater(a: string, b: string)
    requires a != "" && b != "" && a[0] == b[0]
    ensures Precedes(a, b) <==> Precedes(a[1..], b[1..])
  {
    if Precedes(a, b) {
      var k: nat :| k < |b| && FirstDiffer(a, b, k);
      assert a[1..][..k - 1] == a[..k][1..] && b[1..][..k - 1] == b[..k][1..];
      assert FirstDiffer(a[1..], b[1..], k - 1);
    }
    if Precedes(a[1..], b[1..]) {
      var k: nat :| k < |b[1..]| && FirstDiffer(a[1..], b[1..], k);
      assert a[..k + 1] == [a[0]] + a[1..][..k] && b[..k + 1] == [b[0]] + b[1..][..k];
      assert FirstDiffer(a, b, k + 1);
    }
  }

  lemma {:induction false} LexPrecedes(a: string, b: string)
    ensures LexLess(a, b) <==> Precedes(a, b)
  {
    if a == "" {
      assert b != "" ==> FirstDiffer(a, b, 0);
    } else if b != "" && a[0] == b[0] {
      DifferLater(a, b);
      LexPrecedes(a[1..], b[1..]);
    } else if b != "" {
      DifferAtOnce(a, b);
    }
  }

  lemma LowerSpells(text: string, word: string)
    requires forall i :: 0 <= i < |word| ==> 'a' <= word[i] <= 'z'
    ensures LowerCase(text) == word <==> SpellsOut(text, word)
  {
    var low := LowerCase(text);
    if low == word {
      forall i | 0 <= i < |text|
        ensures text[i] == word[i] || ('A' <= text[i] <= 'Z' && text[i] as int + 32 == word[i] as int)
      {
        assert low[i] == Lower(text[i]);
      }
    }
    if SpellsOut(text, word) {
      assert forall i :: 0 <= i < |text| ==> low[i] == word[i];
    }
  }

  lemma ProgressIsTested(before: LiveEvidence, after: LiveEvidence, c: Condition)
    ensures ClaudeProgressed(before, after, c) <==> SessionProgress(before.event, after.event, c)
  {
    LexPrecedes(before.event.observedAt, after.event.observedAt);
    hide Precedes, LexLess;
  }

  lemma ShowsIsTested(before: LiveEvidence, after: LiveEvidence, c: Condition)
    ensures OutcomeReached(before, after, c) <==> Shows(before.event, after.event, c)
  {
    var state := TextOf(after.event.Meta(GoalState));
    if state.Some? {
      LowerSpells(state.value, "active");
      LowerSpells(state.value, "pursuing");
    }
    hide SpellsOut, LowerCase;
  }

  /** A reading verifies exactly when it is a proof. */
  lemma VerifiesExactly(a: Action, before: LiveEvidence, after: LiveEvidence)
    ensures Proof(a, before, after) <==>
      !after.humanIntervened && after.identity == before.identity && Verified(before, after, a.outcomes)
  {
    hide ClaudeProgressed, SessionProgress, OutcomeReached, Shows, NoWeaker;
    RankOrders(before.event.source.kind, after.event.source.kind);
    forall c | c in a.outcomes
      ensures ClaudeProgressed(before, after, c) <==> SessionProgress(before.event, after.event, c)
      ensures OutcomeReached(before, after, c) <==> Shows(before.event, after.event, c)
    {
      ProgressIsTested(before, after, c);
      ShowsIsTested(before, after, c);
    }
  }

  // ----- which actions call for a proof, and what their receipts show

  /** The action types, or expects a change that only later evidence can show. */
  predicate AwaitsProgress(a: Action) {
    || a.kind.SendText? || a.kind.SubmitText? || a.kind.SendKeys?
    || exists c :: c in a.outcomes && c.kind in {AgentWorking, AgentIdle, BlockCleared, GoalActiveOrPursuing,
                                                 AgentStateIs, MenuDismissed, ProcessTerminated}
  }

  /** A wait was scheduled and a human told, where the action promised it. */
  predicate Receipted(a: Action, output: Output) {
    forall c :: c in a.outcomes ==>
      (c.kind == WaitStateRecorded ==> output == Scheduled) && (c.kind == HumanNotified ==> output == Notified)
  }

  lemma AwaitsIsTested(a: Action)
    ensures AwaitsProgress(a) <==> NeedsProgress(a)
  {
    forall c | c in a.outcomes
      ensures ProgressOutcome(c.kind) <==> c.kind in {AgentWorking, AgentIdle, BlockCleared, GoalActiveOrPursuing,
                                                      AgentStateIs, MenuDismissed, ProcessTerminated}
    {
    }
  }

  lemma ReceiptIsTested(a: Action, output: Output)
    ensures Receipted(a, output) <==> ReceiptOutcomesHold(output, a.outcomes)
  {
  }
}
