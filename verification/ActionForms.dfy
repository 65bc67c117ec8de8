/** Which actions are well formed, by the lengths and names the schema allows. */
module ActionForms {
  import opened Wrappers
  import opened Lines
  import opened Model
  import JsonText

  /** The UTF-8 form of a text. */
  function Utf8Of(s: string): seq<byte> {
    if s == [] then [] else JsonText.Encode(s[0] as int) + Utf8Of(s[1..])
  }

  lemma {:induction false} ByteLenCounts(s: string)
    ensures ByteLen(s) == |Utf8Of(s)|
  {
    if s != [] {
      ByteLenCounts(s[1..]);
    }
  }

  /** At most `max` bytes, and at least `min`. */
  predicate Sized(s: string, min: nat, max: nat) {
    min <= |Utf8Of(s)| <= max
  }

  /** A digit or a letter of ASCII, by its code. */
  predicate Plain(c: char) {
    var code := c as int;
    0x30 <= code <= 0x39 || 0x41 <= code <= 0x5a || 0x61 <= code <= 0x7a
  }

  predicate Name(id: string) {
    && 1 <= |id| <= 96
    && forall i :: 0 <= i < |id| ==> Plain(id[i]) || (i >= 1 && id[i] in ['.', '_', ':', '-'])
  }

  const PRECONDITIONS := {
    TargetIdentityMatches, ProcessAlive, SessionIdMatches, EvidenceFingerprintMatches, ComposerEmpty, MenuStable,
    AgentStateIs, GoalStateIs, EventCategoryIs, NoHumanIntervention, ClaudeResumeSessionIs, CurrentTimeAtOrAfter}

  const OUTCOMES := {
    AgentWorking, AgentIdle, BlockCleared, GoalActiveOrPursuing, MenuDismissed, WaitStateRecorded, AgentStateIs,
    ProcessTerminated, ClaudeProgress, HumanNotified, NoStateChangeExpected}

  predicate KindFormed(a: Action) {
    && (a.kind.WaitUntil? ==> a.kind.instant.Some?)
    && (a.kind.WaitDuration? ==> 1 <= a.kind.seconds <= 86_400)
    && (a.kind.Capture? ==>
          a.kind.source in {ScreenDetected, ScreenRecent, StructuredState, LogTail} && 1 <= a.kind.maxLines <= 300)
    && (a.kind.CheckStatus? ==>
          && a.kind.check in {AliveCheck, IdentityCheck, AgentCheck, GoalCheck, ClearedCheck, ComposerCheck,
                              LiteralCheck, NoLiteralCheck}
          && (a.kind.expected.Some? ==> Sized(a.kind.expected.value, 0, 256)))
    && (a.kind.SendText? ==> a.preconditions != [] && Sized(a.kind.text, 1, 512))
    && (a.kind.SubmitText? ==> a.preconditions != [] && Sized(a.kind.text, 1, 512))
    && (a.kind.SendKeys? ==>
          && a.preconditions != [] && 1 <= |a.kind.keys| <= 16
          && forall i :: 0 <= i < |a.kind.keys| ==>
               a.kind.keys[i] in {Enter, EscapeKey, Up, Down, Left, Right, Tab, BackTab, CtrlC, CtrlD, CtrlL, Home,
                                  EndKey, PageUp, PageDown})
    && (a.kind.Notify? ==> a.kind.severity in {Info, Warning, Error, Critical} && Sized(a.kind.message, 1, 500))
    && (a.kind.Escalate? ==> a.kind.level in {AlternatePlanner, SecondOpinion, HumanLevel})
  }

  predicate Formed(a: Action) {
    && Name(a.actionId) && Sized(a.reason, 1, 500) && 1 <= a.timeoutSeconds <= 86_400
    && |a.preconditions| <= 12 && 1 <= |a.outcomes| <= 6
    && (forall i :: 0 <= i < |a.preconditions| ==> a.preconditions[i].kind in PRECONDITIONS && Brief(a.preconditions[i]))
    && (forall i :: 0 <= i < |a.outcomes| ==> a.outcomes[i].kind in OUTCOMES && Brief(a.outcomes[i]))
    && KindFormed(a)
  }

  predicate Brief(c: Condition) {
    c.value.Some? && c.value.value.Text? ==> Sized(c.value.value.text, 0, 256)
  }

  lemma SizedExactly(s: string, min: nat, max: nat)
    ensures Sized(s, min, max) <==> min <= ByteLen(s) <= max
    ensures s != "" <==> ByteLen(s) >= 1
  {
    ByteLenCounts(s);
  }

  lemma NameExactly(id: string)
    ensures Name(id) <==> ValidId(id)
  {
    forall i | 0 <= i < |id| ensures Alphanumeric(id[i]) <==> Plain(id[i]) {
    }
  }

  lemma ConditionExactly(c: Condition)
    ensures ValidPrecondition(c) <==> c.kind in PRECONDITIONS && Brief(c)
    ensures ValidOutcome(c) <==> c.kind in OUTCOMES && Brief(c)
  {
    if c.value.Some? && c.value.value.Text? {
      SizedExactly(c.value.value.text, 0, 256);
    }
    hide Sized, ByteLen;
  }

  lemma KindExactly(a: Action)
    ensures KindFormed(a) <==> ValidKind(a)
  {
    match a.kind
    case SendText(text) => SizedExactly(text, 1, 512);
    case SubmitText(text) => SizedExactly(text, 1, 512);
    case Notify(_, message) => SizedExactly(message, 1, 500);
    case CheckStatus(_, expected) =>
      if expected.Some? {
        SizedExactly(expected.value, 0, 256);
      }
    case SendKeys(keys) =>
      forall i | 0 <= i < |keys|
        ensures !keys[i].OtherKey? <==>
          keys[i] in {Enter, EscapeKey, Up, Down, Left, Right, Tab, BackTab, CtrlC, CtrlD, CtrlL, Home, EndKey, PageUp, PageDown}
      {
      }
    case _ =>
  }

  /** An action passes validation exactly when it is formed as the schema says. */
  lemma ValidExactly(a: Action)
    ensures ValidAction(a) <==> Formed(a)
  {
    hide Name, ValidId, Sized, ByteLen, KindFormed, ValidKind, ValidPrecondition, ValidOutcome, Brief;
    NameExactly(a.actionId);
    SizedExactly(a.reason, 1, 500);
    KindExactly(a);
    forall i | 0 <= i < |a.preconditions|
      ensures ValidPrecondition(a.preconditions[i])
        <==> a.preconditions[i].kind in PRECONDITIONS && Brief(a.preconditions[i])
    {
      ConditionExactly(a.preconditions[i]);
    }
    forall i | 0 <= i < |a.outcomes|
      ensures ValidOutcome(a.outcomes[i]) <==> a.outcomes[i].kind in OUTCOMES && Brief(a.outcomes[i])
    {
      ConditionExactly(a.outcomes[i]);
    }
  }
}
