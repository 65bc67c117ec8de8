/**
 Typing into the terminal: the multiplexer actuator, and the daemon's executor that
 guards it with fresh evidence, the dispatch snapshot and the cancellation flag.
 */
module Executor {
  import opened Wrappers
  import opened Model
  import opened Policy
  import opened Evidence
  import opened Protocol

  /** One command sent to the multiplexer. */
  datatype Stroke = Literal(text: string) | Submitted(text: string) | Key(key: KeyName)

  /** What an input action types, in order. */
  function Strokes(kind: ActionKind): seq<Stroke> {
    match kind
    case SendText(text) => [Literal(text)]
    case SubmitText(text) => [Submitted(text)]
    case SendKeys(keys) => seq(|keys|, i requires 0 <= i < |keys| => Key(keys[i]))
    case _ => []
  }

  /** These strokes type the action: the text, the text and its submission, or each key in turn. */
  predicate Types(kind: ActionKind, strokes: seq<Stroke>) {
    && (kind.SendText? ==> strokes == [Literal(kind.text)])
    && (kind.SubmitText? ==> strokes == [Submitted(kind.text)])
    && (kind.SendKeys? ==>
          |strokes| == |kind.keys| && forall i :: 0 <= i < |strokes| ==> strokes[i] == Key(kind.keys[i]))
    && (!kind.SendText? && !kind.SubmitText? && !kind.SendKeys? ==> strokes == [])
  }

  lemma StrokesType(kind: ActionKind)
    ensures Types(kind, Strokes(kind))
  {
  }

  /** How the multiplexer answers its n-th command: nothing, or an error. */
  type Replies = nat -> Option<string>

  /** The first of `n` commands that fails, or `n` when none does. */
  function FirstFault(replies: Replies, n: nat): (k: nat)
    ensures k <= n && (k < n ==> replies(k).Some?)
    ensures forall i :: 0 <= i < k ==> replies(i).None?
  {
    if n == 0 then 0
    else
      var k := FirstFault(replies, n - 1);
      if k < n - 1 || replies(n - 1).Some? then k else n
  }

  predicate NoFault(replies: Replies, n: nat) {
    FirstFault(replies, n) == n
  }

  class Multiplexer {
    var sent: seq<Stroke>

    constructor ()
      ensures sent == []
    {
      sent := [];
    }

    method Send(stroke: Stroke, reply: Option<string>) returns (error: Option<string>)
      modifies this
      ensures sent == old(sent) + [stroke] && error == reply
    {
      sent := sent + [stroke];
      error := reply;
    }
  }

  /** The strokes that leave before the first failing one stops the loop, that one included. */
  function Attempted(strokes: seq<Stroke>, replies: Replies): seq<Stroke> {
    strokes[..Min(FirstFault(replies, |strokes|) + 1, |strokes|)]
  }

  method Actuate(mux: Multiplexer, action: Action, identity: Option<string>, replies: Replies, other: Outcome)
    returns (outcome: Outcome)
    modifies mux
    ensures !ActuatorAccepts(action) || identity.Some? || !IsInput(action.kind) ==> mux.sent == old(mux.sent)
    ensures ActuatorAccepts(action) && identity.None? && IsInput(action.kind) ==>
      mux.sent == old(mux.sent) + Attempted(Strokes(action.kind), replies)
    ensures IsInput(action.kind) ==>
      outcome.Ok? == (ActuatorAccepts(action) && identity.None? && NoFault(replies, |Strokes(action.kind)|))
    ensures ExecutorContract(action.kind, mux.sent != old(mux.sent), outcome)
  {
    if !ActuatorAccepts(action) {
      return Err(Unsafe("action refused"));
    }
    if identity.Some? {
      return Err(Integration(identity.value));
    }
    if !IsInput(action.kind) {
      return other;
    }
    hide ActuatorAccepts;
    var strokes := Strokes(action.kind);
    assert strokes != [] by { InputTypes(action); }
    var i := 0;
    while i < |strokes|
      invariant i <= |strokes|
      invariant mux.sent == old(mux.sent) + strokes[..i]
      invariant forall j :: 0 <= j < i ==> replies(j).None?
    {
      var error := mux.Send(strokes[i], replies(i));
      assert strokes[..i + 1] == strokes[..i] + [strokes[i]];
      if error.Some? {
        assert FirstFault(replies, |strokes|) == i;
        assert Attempted(strokes, replies) == strokes[..i + 1];
        return Err(PossibleSideEffect(error.value));
      }
      i := i + 1;
    }
    assert FirstFault(replies, |strokes|) == |strokes|;
    assert Attempted(strokes, replies) == strokes[..i] == strokes;
    outcome := Ok(Committed);
  }

  lemma InputTypes(action: Action)
    requires ActuatorAccepts(action) && IsInput(action.kind)
    ensures Strokes(action.kind) != []
  {
    if action.kind.SendKeys? {
      AcceptedKeys(action);
      assert |Strokes(action.kind)| == |action.kind.keys|;
    }
  }

  /** What the daemon's executor meets, in the order it meets it. */
  datatype Moment = Moment(
    cancelledBefore: bool,
    live: Reading,
    snapshotMatches: bool,
    identity: Option<string>,
    replies: Replies,
    cancelledAfter: bool,
    other: Outcome)

  predicate LiveEnough(live: Reading) {
    live.Ok? && !live.value.humanIntervened && live.value.targetRevalidated
    && live.value.processAlive && live.value.paneMatches
  }

  /** Not cancelled, and a reading at this moment shows the target live, in its pane and unattended. */
  predicate Unhindered(m: Moment) {
    && !m.cancelledBefore && m.snapshotMatches
    && m.live.Ok? && m.live.value.targetRevalidated && m.live.value.processAlive && m.live.value.paneMatches
    && !m.live.value.humanIntervened
  }

  /**
   Nothing is typed unless every guard held; an error that denies side effects means
   nothing was typed; a cancellation that arrives after the guards is always uncertain.
   */
  method Execute(mux: Multiplexer, action: Action, m: Moment) returns (outcome: Outcome)
    modifies mux
    ensures mux.sent == old(mux.sent)
      + if Unhindered(m) && ActuatorAccepts(action) && m.identity.None? then Attempted(Strokes(action.kind), m.replies)
        else []
    ensures Types(action.kind, Strokes(action.kind))
    ensures ExecutorContract(action.kind, mux.sent != old(mux.sent), outcome)
    ensures IsInput(action.kind) && Unhindered(m) && m.cancelledAfter ==>
      outcome.Err? && outcome.error.PossibleSideEffect?
    ensures IsInput(action.kind) && outcome.Ok? ==>
      Unhindered(m) && !m.cancelledAfter && mux.sent == old(mux.sent) + Strokes(action.kind)
    ensures m.cancelledBefore || action.kind.Notify? ==> outcome.Err? && outcome.error.Unsafe?
    ensures action.kind.Capture? ==>
      if Unhindered(m) && !m.cancelledAfter then outcome == m.other
      else outcome.Err? && (outcome.error.Unsafe? || (outcome.error.Integration? && m.live.Err?))
    ensures !m.cancelledBefore && !IsInput(action.kind) && !action.kind.Capture? && !action.kind.Notify? ==> outcome == m.other
  {
    hide ActuatorAccepts;
    if m.cancelledBefore {
      return Err(Unsafe("recovery cancellation requested"));
    }
    if IsInput(action.kind) {
      if m.live.Err? {
        return Err(Integration(m.live.error));
      }
      if !LiveEnough(m.live) || !m.snapshotMatches {
        return Err(Unsafe("target changed before dispatch"));
      }
      outcome := Actuate(mux, action, m.identity, m.replies, m.other);
      if m.cancelledAfter {
        return Err(PossibleSideEffect("recovery cancellation arrived after multiplexer dispatch"));
      }
      if outcome.Ok? {
        var strokes := Strokes(action.kind);
        assert Attempted(strokes, m.replies) == strokes;
      }
    } else if action.kind.Capture? {
      if m.live.Err? {
        return Err(Integration(m.live.error));
      }
      if !LiveEnough(m.live) || !m.snapshotMatches {
        return Err(Unsafe("target changed before dispatch"));
      }
      if m.cancelledAfter {
        return Err(Unsafe("recovery cancellation requested"));
      }
      outcome := m.other;
    } else if action.kind.Notify? {
      outcome := Err(Unsafe("notification is not an autonomous recovery action"));
    } else {
      outcome := m.other;
    }
  }
}
