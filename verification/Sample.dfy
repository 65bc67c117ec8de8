/** One action and its evidence, for results that say a run exists: Enter, pressed at a Claude limit. */
module Sample {
  import opened Wrappers
  import opened Model
  import opened Policy
  import opened Evidence
  import opened Protocol

  /** Press Enter while the evidence shows fingerprint `f`. */
  function EnterAt(f: string): Action {
    Action(SendKeys([Enter]), "a", "r", [Condition(EvidenceFingerprintMatches, Some(Text(f)), None)],
           [Condition(AgentWorking, None, None)], 30)
  }

  /** A usage limit that a Claude hook reports, with its reset time. */
  function LimitEvent(f: string): Event {
    Event("1", "w", "h", None, None, EventSource(Hook, ClaudeStopFailure, "r", None), UsageLimit, 1.0, f,
          WaitAllowed, map[ClaudeResetAt := Text("2")])
  }

  function Limited(f: string): LiveEvidence {
    LiveEvidence("i", true, true, true, true, true, false, LimitEvent(f))
  }

  /** The same target, working again: another fingerprint on evidence as strong. */
  function Resumed(f: string): LiveEvidence {
    Limited(f).(event := LimitEvent(f).(category := Working, fingerprint := f + "!"))
  }

  predicate Usable(f: string) {
    f != "" && ByteLen(f) <= 256
  }

  lemma EnterIsValid(f: string)
    requires Usable(f)
    ensures ActuatorAccepts(EnterAt(f))
  {
    var a := EnterAt(f);
    assert ByteLen("r") == 1;
    assert a.actionId[0] == 'a';
    assert ValidAction(a);
  }

  lemma EnterFingerprint(f: string)
    ensures ActionFingerprint(EnterAt(f)) == f
  {
    var cs := EnterAt(f).preconditions;
    assert FirstWithKind(cs, EvidenceFingerprintMatches) == Some(cs[0]);
  }

  lemma EnterRevalidates(f: string, baseline: Option<LiveEvidence>)
    requires baseline.None? || baseline == Some(Limited(f))
    ensures Revalidate(EnterAt(f), baseline, Ok(Limited(f))).Ok?
  {
    EnterFingerprint(f);
    hide ActionFingerprint;
  }

  lemma EnterIsAuthorized(f: string, context: RecoveryContext)
    requires Usable(f) && context.attemptsRemaining > 0 && context.cooldownReady
    ensures Authorize(EnterAt(f), ContextFor(Limited(f), context, None)).Ok?
  {
    EnterIsValid(f);
    hide ValidAction;
  }

  /** With an attempt left, a transaction for it passes every check up to its claim. */
  lemma EnterIsAdmitted(f: string, context: RecoveryContext, tid: nat, target: string, now: nat)
    requires Usable(f) && context.attemptsRemaining > 0 && context.cooldownReady
    ensures Admitted(Start(tid, target, EnterAt(f), context, Limited(f), Limited(f), None, now, ""))
  {
    EnterIsValid(f);
    EnterRevalidates(f, None);
    EnterRevalidates(f, Some(Limited(f)));
    EnterIsAuthorized(f, context);
    hide ActuatorAccepts, Revalidate, Authorize, ContextFor, EnterAt, Limited;
  }

  lemma ResumedVerifies(f: string)
    ensures Verified(Limited(f), Resumed(f), EnterAt(f).outcomes)
  {
    assert |f + "!"| == |f| + 1;
    var c := EnterAt(f).outcomes[0];
    assert c in EnterAt(f).outcomes && OutcomeReached(Limited(f), Resumed(f), c);
  }
}
