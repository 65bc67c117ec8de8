/**
 What a restart makes of the watchers it finds: every machine must see its target again
 before it may act, and nothing it has spent or finished is forgotten.
 */
module Restarts {
  import opened Wrappers
  import opened Watchers
  import opened Registry
  import opened Dispatch
  import Protocol
  import SM = StateMachine

  /** The machine after a restart: it must look again, its audit says so, and all else is as it was. */
  predicate LooksAgain(was: SM.Machine, now: SM.Machine) {
    && now.state == SM.NeedsRevalidation
    && now.audit == was.audit + [SM.Edge(was.state, SM.NeedsRevalidation, SM.AfterRestart)]
    && now.schema == was.schema && now.budget == was.budget
    && now.attempts == was.attempts && now.wait == was.wait && now.plannerCalls == was.plannerCalls
    && now.last == was.last && now.completed == was.completed && now.current == was.current
  }

  /** Three attempts, five minutes of waiting, no planner, a minute between attempts; nothing spent. */
  predicate Unspent(m: SM.Machine) {
    && m.budget.maxAttempts == 3 && m.budget.maxWait == 300_000_000_000
    && m.budget.plannerCalls == 0 && m.budget.cooldown == 60_000_000_000
    && m.schema == 1 && m.state == SM.NeedsRevalidation
    && m.attempts == 0 && m.wait == 0 && m.plannerCalls == 0
    && m.last == None && m.completed == {} && m.current == None
  }

  /** Nothing is left to watch, or a human has been asked. */
  predicate Rests(l: Lifecycle) {
    l.Stopped? || l.TargetTerminated? || l.NeedsHuman?
  }

  predicate Replays(was: Watcher, now: Watcher) {
    && (was.recovery.Some? ==> now.recovery.Some? && LooksAgain(was.recovery.value, now.recovery.value))
    && (was.recovery.None? ==>
          if was.target.OnMultiplexer? && was.target.needsRevalidation
          then now.recovery.Some? && |now.recovery.value.audit| == 1 && Unspent(now.recovery.value)
          else now.recovery.None?)
    && (if Rests(was.lifecycle) then now.lifecycle == was.lifecycle && now.revision == was.revision
        else now.lifecycle == NeedsHuman(RestartRevalidation) && now.revision == was.revision + 1)
    && now.id == was.id && now.target == was.target && now.updatedAt == was.updatedAt
    && now.schedule == was.schedule && now.lastObservation == was.lastObservation
    && now.claude == was.claude && now.codex == was.codex
  }

  /** A watcher is taken up again exactly when its machine is of the known form and its revision is not full. */
  lemma ReplayExactly(w: Watcher)
    ensures Replay(w).Ok? <==>
      (w.recovery.Some? ==> w.recovery.value.schema == 1)
      && (Rests(w.lifecycle) || w.revision < 18_446_744_073_709_551_615)
    ensures Replay(w).Ok? ==> Replays(w, Replay(w).value)
  {
  }

  // ----- nothing begins before the target was seen again

  predicate Unseen(w: Watcher) {
    w.recovery.Some? ==> w.recovery.value.state == SM.NeedsRevalidation
  }

  /** The step looks at the watcher: an event or a registration is committed, or its machine is set or told. */
  ghost predicate Looks(s: State, step: Step, id: string) {
    match step
    case DoRegister(w, _) => var plan := PlanRegister(s.memory, w); plan.Write? && plan.id == id
    case DoEdit(at, edit, _, _) =>
      at == id
      && ((edit.CommitObservation? && edit.seen.Some?) || edit.SetRecovery? || edit == Recover(SM.Revalidated))
    case _ => false
  }

  ghost predicate NeverLooks(s: State, steps: seq<Step>, id: string)
    requires Runs(s, steps)
    decreases |steps|
  {
    steps == [] || (!Looks(s, steps[0], id) && NeverLooks(Apply(s, steps[0]), steps[1..], id))
  }

  lemma EditLeavesUnseen(w: Watcher, edit: Edit, now: nat)
    requires Unseen(w) && Proposed(w, edit, now).Ok?
    requires !(edit.CommitObservation? && edit.seen.Some?) && !edit.SetRecovery? && edit != Recover(SM.Revalidated)
    ensures Unseen(Proposed(w, edit, now).value)
  {
  }

  predicate BothUnseen(s: State, id: string) {
    id in s.memory && Unseen(s.memory[id]) && id in s.disk && Unseen(s.disk[id])
  }

  lemma PlanLeavesUnseen(s: State, step: Step, id: string)
    requires Keyed(s.memory) && id in s.memory && Unseen(s.memory[id]) && !Looks(s, step, id)
    ensures var plan := PlanOf(s, step); plan.Write? ==> id in plan.next && Unseen(plan.next[id])
  {
    PlanIsSane(s, step);
    hide PlanRegister, Unseen, Keyed;
    match step
    case DoEdit(at, edit, now, _) =>
      if at == id && Proposed(s.memory[id], edit, now).Ok? {
        EditLeavesUnseen(s.memory[id], edit, now);
      }
    case DoWake(at, f, now, _) =>
      var edit := if at in s.memory then SetSchedule(s.memory[at].schedule.(wakePending := true, lastWake := Some(f)))
                  else SetSchedule(DEFAULT_SCHEDULE);
      if at == id && Proposed(s.memory[id], edit, now).Ok? {
        EditLeavesUnseen(s.memory[id], edit, now);
      }
    case _ =>
  }

  lemma ReplayedIsUnseen(ws: Table, id: string)
    requires Replayable(ws) && id in ws
    ensures id in ReplayAll(ws) && Unseen(ReplayAll(ws)[id])
  {
    ReplayExactly(ws[id]);
    hide Replay;
  }

  lemma StepLeavesUnseen(s: State, step: Step, id: string)
    requires Behind(s) && Enabled(s, step) && BothUnseen(s, id) && !Looks(s, step, id)
    ensures BothUnseen(Apply(s, step), id)
  {
    hide Unseen, PlanOf, Looks, Keyed, TableKept;
    PlanLeavesUnseen(s, step, id);
    if step.Restart? && Replayable(s.disk) {
      ReplayedIsUnseen(s.disk, id);
    }
  }

  lemma {:induction false} RunLeavesUnseen(s: State, steps: seq<Step>, id: string)
    requires Behind(s) && Runs(s, steps) && BothUnseen(s, id) && NeverLooks(s, steps, id)
    ensures BothUnseen(End(s, steps), id)
    decreases |steps|
  {
    hide Behind, Enabled, Apply, BothUnseen, Looks;
    if steps != [] {
      StepKeeps(s, steps[0]);
      StepLeavesUnseen(s, steps[0], id);
      RunLeavesUnseen(Apply(s, steps[0]), steps[1..], id);
    }
  }

  /**
   After a restart, whatever else happens, no action begins for a watcher until an observation or
   a registration was committed for it, or its machine was set or told that it is revalidated.
   */
  lemma NothingBeginsUnseen(
    s: State, w: Protocol.Write, steps: seq<Step>, id: string, fingerprint: string, clock: nat, now: nat)
    requires Behind(s) && Apply(s, Restart(w)).up && Runs(Apply(s, Restart(w)), steps)
    requires id in s.disk && NeverLooks(Apply(s, Restart(w)), steps, id)
    ensures var ws := End(Apply(s, Restart(w)), steps).memory;
      PlanEdit(ws, id, Recover(SM.BeginAction(fingerprint, clock)), now).Refuse?
  {
    var up := Apply(s, Restart(w));
    StepKeeps(s, Restart(w));
    ReplayedIsUnseen(s.disk, id);
    RunLeavesUnseen(up, steps, id);
  }

  // ----- the steps of a run

  /** A restart finds what is on disk, replayed; it serves only if it could store that, and knows no token. */
  lemma RestartExactly(s: State, w: Protocol.Write)
    ensures var after := Apply(s, Restart(w));
      && after.tokens == map[] && after.log == s.log && after.disk == after.memory
      && if (forall id :: id in s.disk ==> Replay(s.disk[id]).Ok?) && !w.LostAbsent? then
           && after.memory.Keys == s.disk.Keys
           && (forall id :: id in s.disk ==> Replays(s.disk[id], after.memory[id]))
           && after.up == w.Durable?
         else after.memory == s.disk && !after.up
  {
    hide Replay, Replays;
    if Replayable(s.disk) {
      forall id | id in s.disk ensures Replays(s.disk[id], ReplayAll(s.disk)[id]) {
        ReplayExactly(s.disk[id]);
      }
    }
  }

  /** An operation that writes is known when it was stored, and on disk unless it was lost altogether. */
  lemma OperationExactly(s: State, step: Step)
    requires Enabled(s, step) && (step.DoRegister? || step.DoEdit? || step.DoWake?)
    ensures var plan, after := PlanOf(s, step), Apply(s, step);
      && after.up && after.tokens == s.tokens
      && if !plan.Write? then after == s
         else
           && after.memory == (if step.w == Protocol.Durable then plan.next else s.memory)
           && after.disk == (if step.w == Protocol.LostAbsent then s.disk else plan.next)
           && after.log == (if step.w == Protocol.Durable then s.log + [Mutated(plan.id)] else s.log)
  {
    hide PlanRegister, PlanEdit, PlanWake;
  }

  /** A token that was just taken can be sent on. */
  lemma FreshTokenSends(s: State, tid: nat, id: string)
    requires s.up && Keyed(s.memory) && id in s.memory && tid !in s.tokens
    ensures Runs(s, [Snapshot(tid, id), Send(tid)])
    ensures var after := End(s, [Snapshot(tid, id), Send(tid)]);
      after.log == s.log + [Taken(tid, id), Sent(tid, id)] && after.memory == s.memory && after.disk == s.disk
  {
    var steps := [Snapshot(tid, id), Send(tid)];
    var taken := Apply(s, Snapshot(tid, id));
    assert Enabled(taken, Send(tid));
    var sent := Apply(taken, Send(tid));
    assert steps[1..] == [Send(tid)] && [Send(tid)][1..] == [];
    assert Runs(sent, []) && End(sent, []) == sent;
    assert Runs(taken, [Send(tid)]) && End(taken, [Send(tid)]) == sent;
  }
}
