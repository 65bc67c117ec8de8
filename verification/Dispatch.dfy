/**
 Runs of the registry with dispatch tokens: what operations and restarts keep, and why a
 token that still matches proves that nothing was committed for its watcher since.
 */
module Dispatch {
  import opened Wrappers
  import opened Watchers
  import opened Registry
  import Protocol

  datatype Note = Mutated(id: string) | Taken(tid: nat, id: string) | Sent(tid: nat, id: string)

  /** A token and where in the log it was taken. */
  datatype Token = Token(image: Watcher, at: nat)

  datatype State = State(memory: Table, disk: Table, up: bool, tokens: map<nat, Token>, log: seq<Note>)

  datatype Step =
    | DoRegister(watcher: Watcher, w: Protocol.Write)
    | DoEdit(id: string, edit: Edit, now: nat, w: Protocol.Write)
    | DoWake(id: string, fingerprint: string, now: nat, w: Protocol.Write)
    | Snapshot(tid: nat, id: string)
    | Send(tid: nat)
    | Restart(w: Protocol.Write)

  /** The executor sends while it holds the registry lock, and only on a match. */
  predicate Enabled(s: State, step: Step) {
    match step
    case Snapshot(tid, id) => s.up && id in s.memory && tid !in s.tokens
    case Send(tid) =>
      s.up && tid in s.tokens && MatchesSnapshot(s.memory, s.tokens[tid].image)
    case Restart(_) => true
    case _ => s.up
  }

  ghost function PlanOf(s: State, step: Step): Plan {
    match step
    case DoRegister(watcher, _) => PlanRegister(s.memory, watcher)
    case DoEdit(id, edit, now, _) => PlanEdit(s.memory, id, edit, now)
    case DoWake(id, f, now, _) => PlanWake(s.memory, id, f, now)
    case _ => Refuse(Unknown)
  }

  function Persist(s: State, plan: Plan, w: Protocol.Write): State {
    if !plan.Write? then s
    else s.(memory := if w.Durable? then plan.next else s.memory,
            disk := if w.LostAbsent? then s.disk else plan.next,
            log := if w.Durable? then s.log + [Mutated(plan.id)] else s.log)
  }

  /** Start again from disk; the daemon serves only if the replayed table was stored. */
  function Restarted(s: State, w: Protocol.Write): State {
    var down := s.(memory := s.disk, up := false, tokens := map[]);
    if !Replayable(s.disk) then down
    else
      var table := ReplayAll(s.disk);
      if w.Durable? then down.(memory := table, disk := table, up := true)
      else if w.LostPresent? then down.(memory := table, disk := table)
      else down
  }

  ghost function Apply(s: State, step: Step): State
    requires Enabled(s, step)
  {
    match step
    case Snapshot(tid, id) =>
      s.(tokens := s.tokens[tid := Token(s.memory[id], |s.log|)], log := s.log + [Taken(tid, s.memory[id].id)])
    case Send(tid) => s.(log := s.log + [Sent(tid, s.tokens[tid].image.id)])
    case Restart(w) => Restarted(s, w)
    case DoRegister(_, w) => Persist(s, PlanOf(s, step), w)
    case DoEdit(_, _, _, w) => Persist(s, PlanOf(s, step), w)
    case DoWake(_, _, _, w) => Persist(s, PlanOf(s, step), w)
  }

  ghost predicate Runs(s: State, steps: seq<Step>)
    decreases |steps|
  {
    steps == [] || (Enabled(s, steps[0]) && Runs(Apply(s, steps[0]), steps[1..]))
  }

  ghost function End(s: State, steps: seq<Step>): State
    requires Runs(s, steps)
    decreases |steps|
  {
    if steps == [] then s else End(Apply(s, steps[0]), steps[1..])
  }

  predicate Initial(s: State) {
    s.memory == map[] && s.disk == map[] && s.up && s.tokens == map[] && s.log == []
  }

  // ----- every operation writes a table that keeps what was there

  lemma PlanIsSane(s: State, step: Step)
    requires Keyed(s.memory)
    ensures Moves(s.memory, PlanOf(s, step)) && Sane(s.memory, PlanOf(s, step))
  {
    hide Keyed, Sane, Moves, PlanRegister, PlanEdit;
    match step
    case DoRegister(watcher, _) => RegisterMoves(s.memory, watcher);
    case DoEdit(id, edit, now, _) => EditMoves(s.memory, id, edit, now);
    case DoWake(id, f, now, _) =>
      if id in s.memory {
        EditMoves(s.memory, id, SetSchedule(s.memory[id].schedule.(wakePending := true, lastWake := Some(f))), now);
      }
      NoWriteIsSane(s.memory, PlanOf(s, step));
    case Snapshot(_, _) => NoWriteIsSane(s.memory, PlanOf(s, step));
    case Send(_) => NoWriteIsSane(s.memory, PlanOf(s, step));
    case Restart(_) => NoWriteIsSane(s.memory, PlanOf(s, step));
  }

  lemma NoWriteIsSane(ws: Table, plan: Plan)
    ensures !plan.Write? ==> Moves(ws, plan) && Sane(ws, plan)
  {
  }

  lemma KeptTransitive(a: Table, b: Table, c: Table)
    requires TableKept(a, b) && TableKept(b, c)
    ensures TableKept(a, c)
  {
    forall id | id in a ensures id in c && Kept(a[id], c[id]) {
      assert id in b && Kept(a[id], b[id]) && Kept(b[id], c[id]);
    }
  }

  predicate Behind(s: State) {
    Keyed(s.memory) && Keyed(s.disk) && TableKept(s.memory, s.disk)
  }

  lemma ReplayIsSane(ws: Table)
    requires Keyed(ws) && Replayable(ws)
    ensures Keyed(ReplayAll(ws)) && TableKept(ws, ReplayAll(ws))
  {
    forall id | id in ws ensures Kept(ws[id], ReplayAll(ws)[id]) && ReplayAll(ws)[id].id == id {
      ReplayKeeps(ws[id]);
    }
  }

  lemma StepKeeps(s: State, step: Step)
    requires Behind(s) && Enabled(s, step)
    ensures Behind(Apply(s, step)) && TableKept(s.memory, Apply(s, step).memory)
  {
    hide PlanOf;
    PlanIsSane(s, step);
    if step.Restart? && Replayable(s.disk) {
      ReplayIsSane(s.disk);
      hide Kept, Keyed;
      KeptTransitive(s.memory, s.disk, ReplayAll(s.disk));
    }
  }

  /** Over any run a multiplexer target stays one, and an attached session stays that session. */
  lemma {:induction false} NothingIsLost(s: State, steps: seq<Step>)
    requires Behind(s) && Runs(s, steps)
    ensures Behind(End(s, steps)) && TableKept(s.memory, End(s, steps).memory)
    decreases |steps|
  {
    hide Apply, Enabled, Kept;
    if steps == [] {
      SelfKept(s.memory);
    } else {
      var next := Apply(s, steps[0]);
      StepKeeps(s, steps[0]);
      NothingIsLost(next, steps[1..]);
      KeptTransitive(s.memory, next.memory, End(next, steps[1..]).memory);
    }
  }

  lemma SelfKept(ws: Table)
    ensures TableKept(ws, ws)
  {
  }

  // ----- one watcher per process

  predicate Retargets(step: Step) {
    step.DoEdit? && step.edit.Retarget?
  }

  lemma ReplayKeepsUnique(ws: Table)
    requires Unique(ws) && Replayable(ws)
    ensures Unique(ReplayAll(ws))
  {
    forall id | id in ws ensures ReplayAll(ws)[id].target == ws[id].target {
      ReplayKeeps(ws[id]);
    }
  }

  lemma EditKeepsUnique(ws: Table, id: string, edit: Edit, now: nat)
    requires Keyed(ws) && Unique(ws) && !edit.Retarget?
    ensures PlanEdit(ws, id, edit, now).Write? ==> Unique(PlanEdit(ws, id, edit, now).next)
  {
    EditMoves(ws, id, edit, now);
    hide Proposed;
  }

  lemma PlanKeepsUnique(s: State, step: Step)
    requires Keyed(s.memory) && Unique(s.memory) && !Retargets(step)
    ensures PlanOf(s, step).Write? ==> Unique(PlanOf(s, step).next)
  {
    hide Unique, Keyed, PlanRegister, PlanEdit;
    match step
    case DoRegister(watcher, _) => RegisterKeepsUnique(s.memory, watcher);
    case DoEdit(id, edit, now, _) => EditKeepsUnique(s.memory, id, edit, now);
    case DoWake(id, f, now, _) =>
      if id in s.memory {
        EditKeepsUnique(s.memory, id, SetSchedule(s.memory[id].schedule.(wakePending := true, lastWake := Some(f))), now);
      }
    case _ =>
  }

  /** Without a retarget, no two watchers ever share a process. */
  lemma {:induction false} OneWatcherPerProcess(s: State, steps: seq<Step>)
    requires Behind(s) && Unique(s.memory) && Unique(s.disk) && Runs(s, steps)
    requires forall i :: 0 <= i < |steps| ==> !Retargets(steps[i])
    ensures Unique(End(s, steps).memory)
    decreases |steps|
  {
    hide Unique, PlanOf, Keyed, TableKept, Replayable;
    if steps != [] {
      assert !Retargets(steps[0]);
      StepKeeps(s, steps[0]);
      PlanKeepsUnique(s, steps[0]);
      if steps[0].Restart? && Replayable(s.disk) {
        ReplayKeepsUnique(s.disk);
      }
      OneWatcherPerProcess(Apply(s, steps[0]), steps[1..]);
    }
  }

  // ----- tokens

  predicate MutatedSince(log: seq<Note>, i: nat, id: string) {
    exists k :: i < k < |log| && log[k] == Mutated(id)
  }

  /** The send at `j` used a token taken earlier, with nothing committed for its watcher in between. */
  predicate Backed(log: seq<Note>, j: nat)
    requires j < |log| && log[j].Sent?
  {
    exists i :: 0 <= i < j && log[i] == Taken(log[j].tid, log[j].id) && !MutatedSince(log[..j], i, log[j].id)
  }

  predicate TokenOk(t: Token, tid: nat, memory: Table, log: seq<Note>) {
    && t.at < |log| && log[t.at] == Taken(tid, t.image.id)
    && t.image.id in memory && t.image.revision <= memory[t.image.id].revision
    && (MutatedSince(log, t.at, t.image.id) ==> t.image.revision < memory[t.image.id].revision)
  }

  predicate AllBacked(log: seq<Note>) {
    forall j :: 0 <= j < |log| && log[j].Sent? ==> Backed(log, j)
  }

  predicate Guarded(s: State) {
    && (forall tid :: tid in s.tokens ==> TokenOk(s.tokens[tid], tid, s.memory, s.log))
    && AllBacked(s.log)
  }

  lemma MutatedSinceAppend(log: seq<Note>, note: Note, i: nat, id: string)
    requires i < |log|
    ensures MutatedSince(log + [note], i, id) <==> MutatedSince(log, i, id) || note == Mutated(id)
  {
    var more := log + [note];
    if MutatedSince(log, i, id) {
      var k :| i < k < |log| && log[k] == Mutated(id);
      assert more[k] == Mutated(id);
    }
    if note == Mutated(id) {
      assert more[|log|] == Mutated(id);
    }
  }

  lemma BackedAppend(log: seq<Note>, note: Note)
    requires AllBacked(log) && (note.Sent? ==> Backed(log + [note], |log|))
    ensures AllBacked(log + [note])
  {
    var more := log + [note];
    forall j | 0 <= j < |more| && more[j].Sent? ensures Backed(more, j) {
      if j < |log| {
        assert more[..j] == log[..j] && Backed(log, j);
        var i :| 0 <= i < j && log[i] == Taken(log[j].tid, log[j].id) && !MutatedSince(log[..j], i, log[j].id);
        assert more[i] == Taken(more[j].tid, more[j].id);
      }
    }
  }

  lemma PersistIsGuarded(s: State, plan: Plan, w: Protocol.Write)
    requires Guarded(s) && Moves(s.memory, plan)
    ensures Guarded(Persist(s, plan, w))
  {
    if plan.Write? && w.Durable? {
      var next := Persist(s, plan, w);
      BackedAppend(s.log, Mutated(plan.id));
      forall tid | tid in s.tokens ensures TokenOk(s.tokens[tid], tid, next.memory, next.log) {
        var t := s.tokens[tid];
        assert TokenOk(t, tid, s.memory, s.log);
        MutatedSinceAppend(s.log, Mutated(plan.id), t.at, t.image.id);
      }
    }
  }

  lemma SnapshotIsGuarded(s: State, tid: nat, id: string)
    requires Guarded(s) && Keyed(s.memory) && Enabled(s, Snapshot(tid, id))
    ensures Guarded(Apply(s, Snapshot(tid, id)))
  {
    var next := Apply(s, Snapshot(tid, id));
    var note := Taken(tid, s.memory[id].id);
    BackedAppend(s.log, note);
    forall u | u in next.tokens ensures TokenOk(next.tokens[u], u, next.memory, next.log) {
      if u != tid {
        assert TokenOk(s.tokens[u], u, s.memory, s.log);
        MutatedSinceAppend(s.log, note, s.tokens[u].at, s.tokens[u].image.id);
      }
    }
  }

  lemma SendIsGuarded(s: State, tid: nat)
    requires Guarded(s) && Enabled(s, Send(tid))
    ensures Guarded(Apply(s, Send(tid)))
  {
    var t := s.tokens[tid];
    var note := Sent(tid, t.image.id);
    var more := s.log + [note];
    assert TokenOk(t, tid, s.memory, s.log);
    assert more[..|s.log|] == s.log;
    assert more[t.at] == Taken(tid, t.image.id) && !MutatedSince(s.log, t.at, t.image.id);
    assert Backed(more, |s.log|);
    BackedAppend(s.log, note);
    forall u | u in s.tokens ensures TokenOk(s.tokens[u], u, s.memory, more) {
      assert TokenOk(s.tokens[u], u, s.memory, s.log);
      MutatedSinceAppend(s.log, note, s.tokens[u].at, s.tokens[u].image.id);
    }
  }

  lemma StepIsGuarded(s: State, step: Step)
    requires Behind(s) && Guarded(s) && Enabled(s, step)
    ensures Guarded(Apply(s, step))
  {
    PlanIsSane(s, step);
    hide PlanOf, Moves, Sane, TableKept, AllBacked, TokenOk, Persist;
    match step
    case Snapshot(tid, id) => SnapshotIsGuarded(s, tid, id);
    case Send(tid) => SendIsGuarded(s, tid);
    case Restart(_) =>
    case DoRegister(_, w) => PersistIsGuarded(s, PlanOf(s, step), w);
    case DoEdit(_, _, _, w) => PersistIsGuarded(s, PlanOf(s, step), w);
    case DoWake(_, _, _, w) => PersistIsGuarded(s, PlanOf(s, step), w);
  }

  lemma {:induction false} RunIsGuarded(s: State, steps: seq<Step>)
    requires Behind(s) && Guarded(s) && Runs(s, steps)
    ensures Guarded(End(s, steps))
    decreases |steps|
  {
    hide Apply, Enabled, Behind, Guarded;
    if steps != [] {
      StepKeeps(s, steps[0]);
      StepIsGuarded(s, steps[0]);
      RunIsGuarded(Apply(s, steps[0]), steps[1..]);
    }
  }

  /**
   In every interleaving a send happens only if no pause, stop, retarget, observation or
   other change was committed for its watcher between the snapshot and the send.
   */
  lemma SendsAreFresh(s: State, steps: seq<Step>, j: nat)
    requires Initial(s) && Runs(s, steps)
    requires j < |End(s, steps).log| && End(s, steps).log[j].Sent?
    ensures Backed(End(s, steps).log, j)
  {
    assert Behind(s) && Guarded(s);
    RunIsGuarded(s, steps);
  }
}
