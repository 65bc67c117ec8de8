/**
 What each operation of the registry does to a watcher, field by field: which edits are
 refused, what a committed event makes of the machine, and what registering again resets.
 */
module Edits {
  import opened Wrappers
  import opened Model
  import opened Watchers
  import opened Registry
  import SM = StateMachine

  const FULL := 18_446_744_073_709_551_615

  // ----- simple edits

  /** The same watcher in every field this edit does not name. */
  predicate Otherwise(was: Watcher, now: Watcher, edit: Edit) {
    && now.id == was.id && now.claude == was.claude && now.codex == was.codex
    && (!edit.Transition? && !edit.CommitObservation? ==> now.lifecycle == was.lifecycle)
    && (!edit.Retarget? ==> now.target == was.target)
    && (!edit.SetRecovery? && !edit.Recover? && !edit.CommitObservation? ==> now.recovery == was.recovery)
    && (!edit.SetSchedule? && !edit.CompleteObservation? && !edit.CommitObservation? ==> now.schedule == was.schedule)
    && (!edit.SetEvent? && !edit.CompleteObservation? && !edit.CommitObservation? ==>
          now.lastObservation == was.lastObservation)
  }

  /** A wake that was pending is done, and done now; all else of the schedule is as given. */
  predicate Awake(s: Schedule, now: nat, after: Schedule) {
    && !after.wakePending && after.lastWakeDone == (if s.wakePending then Some(now) else s.lastWakeDone)
    && after == s.(wakePending := after.wakePending, lastWakeDone := after.lastWakeDone)
  }

  predicate Named(was: Watcher, after: Watcher, edit: Edit, now: nat) {
    && (edit.Transition? ==> after.lifecycle == edit.lifecycle)
    && (edit.Retarget? ==> after.target == was.target.(process := edit.process))
    && (edit.SetRecovery? ==> after.recovery == Some(edit.machine))
    && (edit.Recover? ==> was.recovery.Some? && after.recovery == Some(SM.Apply(was.recovery.value, edit.command)))
    && (edit.SetSchedule? ==> after.schedule == edit.schedule)
    && (edit.SetEvent? ==> after.lastObservation == Some(edit.event))
    && (edit.CompleteObservation? ==>
          && Awake(was.schedule, now, after.schedule)
          && after.lastObservation == (if edit.seen.Some? then edit.seen else was.lastObservation))
  }

  /** An edit is stored one revision later, unless the revision is full or the machine refuses a command. */
  lemma EditExactly(w: Watcher, edit: Edit, now: nat)
    requires !edit.CommitObservation?
    ensures var p := Proposed(w, edit, now);
      && (p.Ok? <==>
            && w.revision < FULL
            && (edit.Recover? ==> w.recovery.Some? && SM.Judge(w.recovery.value, edit.command).Accepted?))
      && (p.Ok? ==>
            && p.value.revision == w.revision + 1 && p.value.updatedAt == now
            && Otherwise(w, p.value, edit) && Named(w, p.value, edit, now))
  {
    hide SM.Judge, SM.Advance;
  }

  // ----- committing an observation

  /** Nothing to act on: the agent works, idles, has recovered or ended, or a human took over. */
  const CALM := {Working, Idle, Category.Recovered, HumanIntervention, Category.Terminated}

  predicate True(e: Event, name: Field) {
    name in e.metadata && e.metadata[name] == Bool(true)
  }

  /** The machine has done its work and the event asks for more: a wait is over, or a hook reports another limit. */
  predicate ArmsAgain(m: SM.Machine, l: Lifecycle, e: Event) {
    && m.state == SM.Recovered
    && (|| (l.Waiting? && (True(e, ClaudeResume) || True(e, CodexResume)))
        || (&& e.source.kind == Hook && e.source.sourceId == ClaudeStopFailure
            && e.policyHint == WaitAllowed && ClaudeResetAt in e.metadata && m.current != Some(e.fingerprint)))
  }

  /** Worth acting on; a screen has shown it at least twice. */
  predicate Stands(e: Event, screens: nat) {
    e.category !in CALM && (e.source.kind == ScreenDetection ==> screens >= 2)
  }

  /** The machine looks or watches anew, and is confirmed if the event stands; else it is left alone. */
  predicate Absorbed(was: SM.Machine, l: Lifecycle, e: Event, screens: nat, after: SM.Machine) {
    var watches := was.state == SM.NeedsRevalidation || was.state == SM.Observing || ArmsAgain(was, l, e);
    && after.state == (if watches && Stands(e, screens) then SM.Confirmed else if watches then SM.Observing else was.state)
    && after.current == (if watches && Stands(e, screens) then Some(e.fingerprint)
                         else if ArmsAgain(was, l, e) then None else was.current)
    && was.audit <= after.audit
    && after == was.(state := after.state, current := after.current, audit := after.audit)
  }

  lemma AbsorbExactly(w: Watcher, m: SM.Machine, e: Event)
    ensures var r := Absorb(w, m, e);
      && r.Ok? && r.value.recovery.Some?
      && Absorbed(m, w.lifecycle, e, w.schedule.screenCount, r.value.recovery.value)
      && r.value == w.(recovery := r.value.recovery,
                       lifecycle := if m.state == SM.NeedsRevalidation then Observing else w.lifecycle)
  {
  }

  /** A committed observation stores the schedule, the event, and what it makes of the machine. */
  lemma CommitExactly(w: Watcher, schedule: Schedule, seen: Option<Event>, now: nat)
    ensures var p := Proposed(w, CommitObservation(schedule, seen), now);
      && (p.Ok? <==> w.revision < FULL)
      && (p.Ok? ==> var after := p.value;
            && after.revision == w.revision + 1 && after.updatedAt == now
            && Otherwise(w, after, CommitObservation(schedule, seen)) && Awake(schedule, now, after.schedule)
            && after.lastObservation == (if seen.Some? then seen else w.lastObservation)
            && if seen.Some? && w.recovery.Some? then
                 && after.recovery.Some?
                 && Absorbed(w.recovery.value, w.lifecycle, seen.value, schedule.screenCount, after.recovery.value)
                 && after.lifecycle == (if w.recovery.value.state == SM.NeedsRevalidation then Observing else w.lifecycle)
               else after.recovery == w.recovery && after.lifecycle == w.lifecycle)
  {
    if seen.Some? && w.recovery.Some? {
      AbsorbExactly(w.(schedule := Woken(schedule, now)), w.recovery.value, seen.value);
      hide Absorb, Absorbed;
    }
  }

  // ----- registering again

  predicate OnOneProcess(a: Target, b: Target) {
    a.process.pid == b.process.pid && a.process.startTime == b.process.startTime
  }

  /** The same process, watched in the same way: directly, or in the same pane. */
  predicate OneTarget(a: Target, b: Target) {
    && OnOneProcess(a, b)
    && (|| (a.OnProcess? && b.OnProcess?)
        || (a.OnMultiplexer? && b.OnMultiplexer? && a.provider == b.provider && a.server == b.server && a.pane == b.pane))
  }

  /** The process was watched directly, and now comes with its pane and that pane's context. */
  predicate Enriches(was: Target, anew: Target) {
    was.OnProcess? && anew.OnMultiplexer? && anew.context.Some? && !anew.needsRevalidation
  }

  predicate Clashes(was: Option<string>, anew: Option<string>) {
    was.Some? && anew.Some? && was.value != anew.value
  }

  predicate Adds(was: Option<string>, anew: Option<string>) {
    was.None? && anew.Some?
  }

  predicate StartsOver(was: Watcher, anew: Watcher) {
    Enriches(was.target, anew.target) || Adds(was.codex, anew.codex) || Adds(was.claude, anew.claude)
  }

  predicate Resumes(was: Watcher) {
    was.lifecycle == NeedsHuman(RestartRevalidation)
  }

  predicate Validates(was: Target, anew: Target) {
    was.OnMultiplexer? && was.needsRevalidation && (anew.OnMultiplexer? ==> !anew.needsRevalidation)
  }

  function Known(was: Option<string>, anew: Option<string>): Option<string> {
    if was.Some? then was else anew
  }

  predicate Renewed(was: Watcher, anew: Watcher, after: Watcher) {
    && after.id == was.id && after.target == anew.target
    && after.revision == was.revision + 1 && after.updatedAt == anew.updatedAt
    && if StartsOver(was, anew) then
         && after.lifecycle == Registered && after.recovery == None && after.lastObservation == None
         && after.schedule == was.schedule.(wakePending := true)
         && after.codex == Known(was.codex, anew.codex) && after.claude == Known(was.claude, anew.claude)
       else
         && after.lifecycle == (if Resumes(was) then Registered else was.lifecycle)
         && after.recovery == (if Resumes(was) then anew.recovery else was.recovery)
         && after.lastObservation == was.lastObservation && after.schedule == was.schedule
         && after.codex == was.codex && after.claude == was.claude
  }

  /** What registering again does to the watcher that is already there. */
  predicate Renews(ws: Table, id: string, anew: Watcher, plan: Plan)
    requires id in ws
  {
    var was := ws[id];
    if Clashes(was.codex, anew.codex) || Clashes(was.claude, anew.claude) then plan == Refuse(IdCollision)
    else if !StartsOver(was, anew) && !Validates(was.target, anew.target) && !Resumes(was) then
      plan == Answer(Existing(id))
    else if was.revision >= FULL then plan == Refuse(RevisionOverflow)
    else
      && plan.Write? && plan.id == id && id in plan.next
      && Renewed(was, anew, plan.next[id]) && plan.next == ws[id := plan.next[id]]
      && plan.reply == if StartsOver(was, anew) || Resumes(was) then Revalidated(id) else Existing(id)
  }

  lemma RefreshExactly(ws: Table, id: string, anew: Watcher)
    requires id in ws
    ensures Renews(ws, id, anew, PlanRefresh(ws, id, anew))
  {
  }

  lemma TargetsExactly(a: Target, b: Target)
    ensures SameTarget(a, b) <==> OneTarget(a, b)
    ensures SameProcess(a, b) <==> OnOneProcess(a, b)
    ensures Richer(a, b) <==> Enriches(a, b)
  {
  }

  lemma OnlyOne(ids: set<string>, id: string)
    requires ids == {id}
    ensures First(ids) == id
  {
  }

  /** Nothing watches the process yet: it is added, unless the name is taken. */
  lemma NewProcessIsAdded(ws: Table, w: Watcher)
    requires Keyed(ws) && forall id :: id in ws ==> !OnOneProcess(ws[id].target, w.target)
    ensures PlanRegister(ws, w)
      == if w.id in ws then Refuse(IdCollision) else Write(ws[w.id := w], w.id, Added(w.id))
  {
    assert SameProcesses(ws, w.target) == {} && SameTargets(ws, w.target) == {} by {
      forall id | id in ws ensures !SameProcess(ws[id].target, w.target) && !SameTarget(ws[id].target, w.target) {
        TargetsExactly(ws[id].target, w.target);
      }
    }
    if w.id in ws {
      TargetsExactly(ws[w.id].target, w.target);
    }
  }

  /** One watcher has the process: it is renewed, kept, or in the way. */
  lemma KnownProcessIsRenewed(ws: Table, w: Watcher, id: string)
    requires Keyed(ws) && Unique(ws) && id in ws && OnOneProcess(ws[id].target, w.target)
    ensures var was, plan := ws[id].target, PlanRegister(ws, w);
      if w.id in ws && w.id != id then plan == Refuse(IdCollision)
      else if OneTarget(was, w.target) || (w.id != id && Enriches(was, w.target)) then Renews(ws, id, w, plan)
      else if w.id != id && Enriches(w.target, was) then plan == Answer(Existing(id))
      else plan == Refuse(IdCollision)
  {
    TargetsExactly(ws[id].target, w.target);
    TargetsExactly(w.target, ws[id].target);
    hide PlanRefresh, Renews;
    RefreshExactly(ws, id, w);
    if w.id !in ws {
      assert SameProcesses(ws, w.target) == {id} && SameTargets(ws, w.target) <= {id} by {
        forall other | other in ws && SameProcess(ws[other].target, w.target) ensures other == id {
          assert SameProcess(ws[other].target, ws[id].target);
        }
      }
      OnlyOne(SameProcesses(ws, w.target), id);
      if SameTarget(ws[id].target, w.target) {
        assert SameTargets(ws, w.target) == {id};
        OnlyOne(SameTargets(ws, w.target), id);
      } else {
        assert SameTargets(ws, w.target) == {};
      }
    } else if w.id != id {
      assert !SameProcess(ws[w.id].target, ws[id].target);
    }
  }

  // ----- waking

  /** A wake is noted once: not while one is pending, nor within a minute of the same one's end. */
  lemma WakeExactly(ws: Table, id: string, f: string, now: nat)
    ensures var plan := PlanWake(ws, id, f, now);
      if !(16 <= |f| <= 128 && forall i :: 0 <= i < |f| ==> f[i] in "0123456789abcdefABCDEF") then plan == Refuse(BadFingerprint)
      else if id !in ws then plan == Refuse(Unknown)
      else
        var s := ws[id].schedule;
        if s.wakePending
           || (s.lastWake == Some(f) && s.lastWakeDone.Some? && now - s.lastWakeDone.value < 60_000 && now < FULL)
        then plan == Answer(Existing(id))
        else if ws[id].revision >= FULL then plan == Refuse(RevisionOverflow)
        else plan == Write(ws[id := ws[id].(schedule := s.(wakePending := true, lastWake := Some(f)),
                                            revision := ws[id].revision + 1, updatedAt := now)], id, Changed(id))
  {
    forall i | 0 <= i < |f| ensures HexDigit(f[i]) <==> f[i] in "0123456789abcdefABCDEF" {
      HexExactly(f[i]);
    }
    hide HexDigit;
  }

  lemma HexExactly(c: char)
    ensures HexDigit(c) <==> c in "0123456789abcdefABCDEF"
  {
    var hex := "0123456789abcdefABCDEF";
    if HexDigit(c) {
      var k := if c <= '9' then c as int - '0' as int
               else if c >= 'a' then c as int - 'a' as int + 10 else c as int - 'A' as int + 16;
      assert hex[k] == c;
    }
  }
}
