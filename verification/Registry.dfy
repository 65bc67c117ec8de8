/**
 The registry: all watchers, replaced as one table after each write. The `Plan`s say what
 an operation would store; the class carries the operations out.
 */
module Registry {
  import opened Wrappers
  import opened Model
  import opened Watchers
  import opened Evidence
  import SM = StateMachine
  import Protocol

  type Table = map<string, Watcher>

  datatype Reply = Added(id: string) | Existing(id: string) | Revalidated(id: string) | Changed(id: string)

  /** An operation answers without writing, is refused, or asks for a new table that differs at `id`. */
  datatype Plan = Answer(reply: Reply) | Write(next: Table, id: string, reply: Reply) | Refuse(why: Refusal)

  // ----- the first match in key order

  lemma {:induction false} LexTotal(a: string, b: string)
    ensures a == b || LexLess(a, b) || LexLess(b, a)
  {
    if a != "" && b != "" && a[0] == b[0] {
      LexTotal(a[1..], b[1..]);
      assert a == [a[0]] + a[1..] && b == [b[0]] + b[1..];
    }
  }

  lemma {:induction false} LexTransitive(a: string, b: string, c: string)
    requires LexLess(a, b) && LexLess(b, c)
    ensures LexLess(a, c)
  {
    if a != "" && a[0] == b[0] && b[0] == c[0] {
      LexTransitive(a[1..], b[1..], c[1..]);
    }
  }

  lemma {:induction false} LexAsymmetric(a: string, b: string)
    requires LexLess(a, b)
    ensures !LexLess(b, a)
  {
    if a != "" && a[0] == b[0] {
      LexAsymmetric(a[1..], b[1..]);
    }
  }

  predicate IsFirst(x: string, ids: set<string>) {
    x in ids && forall y :: y in ids ==> y == x || LexLess(x, y)
  }

  method FindFirst(ids: set<string>) returns (x: string)
    requires ids != {}
    ensures IsFirst(x, ids)
  {
    hide LexLess;
    x :| x in ids;
    var rest := ids - {x};
    while rest != {}
      invariant rest <= ids && IsFirst(x, ids - rest)
    {
      var y :| y in rest;
      LexTotal(x, y);
      if y != x && !LexLess(x, y) {
        forall z | z in ids - rest ensures z == y || LexLess(y, z) {
          if z != x {
            LexTransitive(y, x, z);
          }
        }
        x := y;
      }
      rest := rest - {y};
    }
    assert ids - rest == ids;
  }

  lemma {:induction false} FirstExists(ids: set<string>)
    requires ids != {}
    ensures exists x :: IsFirst(x, ids)
    decreases |ids|
  {
    hide LexLess;
    var y :| y in ids;
    var rest := ids - {y};
    if rest == {} {
      assert ids == {y};
      assert IsFirst(y, ids);
    } else {
      FirstExists(rest);
      var x :| IsFirst(x, rest);
      LexTotal(x, y);
      if LexLess(y, x) {
        forall z | z in rest && z != x ensures LexLess(y, z) {
          LexTransitive(y, x, z);
        }
        assert IsFirst(y, ids);
      } else {
        assert IsFirst(x, ids);
      }
    }
  }

  ghost function First(ids: set<string>): (x: string)
    requires ids != {}
    ensures IsFirst(x, ids)
  {
    FirstExists(ids);
    var x :| IsFirst(x, ids);
    x
  }

  lemma FirstUnique(ids: set<string>, x: string, y: string)
    requires IsFirst(x, ids) && IsFirst(y, ids)
    ensures x == y
  {
    hide LexLess;
    if x != y {
      LexAsymmetric(x, y);
    }
  }

  // ----- plans

  function SameTargets(ws: Table, t: Target): set<string> {
    set id | id in ws && SameTarget(ws[id].target, t)
  }

  function SameProcesses(ws: Table, t: Target): set<string> {
    set id | id in ws && SameProcess(ws[id].target, t)
  }

  function PlanRefresh(ws: Table, id: string, anew: Watcher): Plan
    requires id in ws
  {
    var was := ws[id];
    if !Attachable(was, anew) then Refuse(IdCollision)
    else if !WorthRefreshing(was, anew) then Answer(Existing(id))
    else
      var w := Raised(Refreshed(was, anew), anew.updatedAt);
      if w.Err? then Refuse(w.error)
      else Write(ws[id := w.value], id, if Promotes(was, anew) || Replayed(was) then Revalidated(id) else Existing(id))
  }

  ghost function PlanRegister(ws: Table, w: Watcher): Plan {
    if w.id in ws then
      if SameTarget(ws[w.id].target, w.target) then PlanRefresh(ws, w.id, w) else Refuse(IdCollision)
    else if SameTargets(ws, w.target) != {} then PlanRefresh(ws, First(SameTargets(ws, w.target)), w)
    else if SameProcesses(ws, w.target) != {} then
      var id := First(SameProcesses(ws, w.target));
      if Richer(ws[id].target, w.target) then PlanRefresh(ws, id, w)
      else if Richer(w.target, ws[id].target) then Answer(Existing(id))
      else Refuse(IdCollision)
    else Write(ws[w.id := w], w.id, Added(w.id))
  }

  function PlanEdit(ws: Table, id: string, edit: Edit, now: nat): Plan {
    if id !in ws then Refuse(Unknown)
    else
      var w := Proposed(ws[id], edit, now);
      if w.Err? then Refuse(w.error) else Write(ws[id := w.value], id, Changed(id))
  }

  predicate HexDigit(c: char) {
    '0' <= c <= '9' || 'a' <= c <= 'f' || 'A' <= c <= 'F'
  }

  predicate WakeFingerprint(f: string) {
    16 <= |f| <= 128 && forall i :: 0 <= i < |f| ==> HexDigit(f[i])
  }

  function PlanWake(ws: Table, id: string, f: string, now: nat): Plan {
    if !WakeFingerprint(f) then Refuse(BadFingerprint)
    else if id !in ws then Refuse(Unknown)
    else
      var s := ws[id].schedule;
      if s.wakePending
         || (s.lastWake == Some(f) && s.lastWakeDone.Some?
             && now < Min(s.lastWakeDone.value + WAKE_COOLDOWN_MS, U64_MAX)) then
        Answer(Existing(id))
      else PlanEdit(ws, id, SetSchedule(s.(wakePending := true, lastWake := Some(f))), now)
  }

  /** A dispatch token is good while the watcher is exactly the image it was taken from. */
  predicate MatchesSnapshot(ws: Table, token: Watcher) {
    token.id in ws && ws[token.id] == token
  }

  // ----- starting again

  const DEFAULT_BUDGET := SM.Budget(3, 300 * SM.NANOS, 0, 60 * SM.NANOS)

  predicate Settled(l: Lifecycle) {
    l.Stopped? || l.TargetTerminated? || l.NeedsHuman?
  }

  /** A watcher as the daemon finds it when it starts: its machine and its target must be looked at again. */
  function Replay(w: Watcher): Result<Watcher, Refusal> {
    var machine := if NeedsRevalidation(w.target) && w.recovery.None? then Some(SM.Fresh(DEFAULT_BUDGET)) else w.recovery;
    var restored := if machine.None? then Ok(w) else
      var m := Tell(machine.value, SM.Restart);
      if m.Err? then Err(m.error) else Ok(w.(recovery := Some(m.value)));
    if restored.Err? || Settled(w.lifecycle) then restored
    else if w.revision >= U64_MAX then Err(RevisionOverflow)
    else Ok(restored.value.(lifecycle := NeedsHuman(RestartRevalidation), revision := w.revision + 1))
  }

  predicate Replayable(ws: Table) {
    forall id :: id in ws ==> Replay(ws[id]).Ok?
  }

  function ReplayAll(ws: Table): Table
    requires Replayable(ws)
  {
    map id | id in ws :: Replay(ws[id]).value
  }

  // ----- what plans keep

  predicate Keyed(ws: Table) {
    forall id :: id in ws ==> ws[id].id == id
  }

  predicate Unique(ws: Table) {
    forall a, b :: a in ws && b in ws && SameProcess(ws[a].target, ws[b].target) ==> a == b
  }

  predicate TableKept(a: Table, b: Table) {
    forall id :: id in a ==> id in b && Kept(a[id], b[id])
  }

  /** Each written table differs from the old one at one watcher, which is new or has a higher revision. */
  predicate Moves(ws: Table, plan: Plan) {
    plan.Write? ==>
      && plan.id in plan.next
      && plan.next == ws[plan.id := plan.next[plan.id]]
      && (plan.id in ws ==> plan.next[plan.id].revision == ws[plan.id].revision + 1)
  }

  predicate Sane(ws: Table, plan: Plan) {
    plan.Write? ==> Keyed(plan.next) && TableKept(ws, plan.next)
  }

  lemma EditMoves(ws: Table, id: string, edit: Edit, now: nat)
    requires Keyed(ws)
    ensures Moves(ws, PlanEdit(ws, id, edit, now)) && Sane(ws, PlanEdit(ws, id, edit, now))
    ensures PlanEdit(ws, id, edit, now).Write? && !edit.Retarget? ==>
      PlanEdit(ws, id, edit, now).next[id].target == ws[id].target
  {
    if id in ws && Proposed(ws[id], edit, now).Ok? {
      EditKeeps(ws[id], edit, now);
      hide Proposed;
    }
  }

  lemma RefreshMoves(ws: Table, id: string, anew: Watcher)
    requires Keyed(ws) && id in ws
    requires SameTarget(ws[id].target, anew.target)
      || (SameProcess(ws[id].target, anew.target) && Richer(ws[id].target, anew.target))
    ensures Moves(ws, PlanRefresh(ws, id, anew)) && Sane(ws, PlanRefresh(ws, id, anew))
    ensures PlanRefresh(ws, id, anew).Write? ==>
      && PlanRefresh(ws, id, anew).id == id
      && SameProcess(PlanRefresh(ws, id, anew).next[id].target, ws[id].target)
  {
    if Attachable(ws[id], anew) {
      RefreshKeeps(ws[id], anew);
      hide Refreshed;
    }
  }

  /** Registering leaves every process it knew where it was, and adds only one it did not know. */
  lemma RegisterMoves(ws: Table, w: Watcher)
    requires Keyed(ws)
    ensures Moves(ws, PlanRegister(ws, w)) && Sane(ws, PlanRegister(ws, w))
    ensures var plan := PlanRegister(ws, w);
      plan.Write? ==>
        if plan.id in ws then SameProcess(plan.next[plan.id].target, ws[plan.id].target)
        else plan.next[plan.id] == w && SameProcesses(ws, w.target) == {}
  {
    hide PlanRefresh, Richer, SameTarget, SameProcess;
    if w.id in ws {
      if SameTarget(ws[w.id].target, w.target) {
        RefreshMoves(ws, w.id, w);
      }
    } else if SameTargets(ws, w.target) != {} {
      RefreshMoves(ws, First(SameTargets(ws, w.target)), w);
    } else if SameProcesses(ws, w.target) != {} {
      var id := First(SameProcesses(ws, w.target));
      if Richer(ws[id].target, w.target) {
        RefreshMoves(ws, id, w);
      }
    }
  }

  lemma RegisterKeepsUnique(ws: Table, w: Watcher)
    requires Keyed(ws) && Unique(ws)
    ensures PlanRegister(ws, w).Write? ==> Unique(PlanRegister(ws, w).next)
  {
    RegisterMoves(ws, w);
    hide PlanRegister;
    var plan := PlanRegister(ws, w);
    if plan.Write? && plan.id !in ws {
      forall id | id in ws ensures !SameProcess(ws[id].target, w.target) {
        assert id !in SameProcesses(ws, w.target);
      }
    }
  }

  lemma ReplayKeeps(w: Watcher)
    requires Replay(w).Ok?
    ensures Kept(w, Replay(w).value) && Replay(w).value.target == w.target
  {
  }

  // ----- the registry as the daemon keeps it

  class RegistryStore {
    var watchers: Table
    var disk: Table

    constructor (disk: Table)
      ensures watchers == disk && this.disk == disk
    {
      watchers := disk;
      this.disk := disk;
    }

    /** The table is replaced only after the store took it; a lost write may still be on disk. */
    twostate predicate Performs(plan: Plan, w: Protocol.Write)
      reads this
    {
      && watchers == (if plan.Write? && w.Durable? then plan.next else old(watchers))
      && disk == (if plan.Write? && !w.LostAbsent? then plan.next else old(disk))
    }

    function Said(plan: Plan, w: Protocol.Write): Result<Reply, Refusal> {
      match plan
      case Answer(reply) => Ok(reply)
      case Write(_, _, reply) => if w.Durable? then Ok(reply) else Err(WriteFailed)
      case Refuse(why) => Err(why)
    }

    method Replace(updated: Table, w: Protocol.Write) returns (ok: bool)
      modifies this
      ensures ok == w.Durable?
      ensures watchers == if ok then updated else old(watchers)
      ensures disk == if w.LostAbsent? then old(disk) else updated
    {
      if !w.LostAbsent? {
        disk := updated;
      }
      ok := w.Durable?;
      if ok {
        watchers := updated;
      }
    }

    method EditWatcher(id: string, edit: Edit, now: nat, w: Protocol.Write) returns (r: Result<Reply, Refusal>)
      modifies this
      ensures Performs(PlanEdit(old(watchers), id, edit, now), w)
      ensures r == Said(PlanEdit(old(watchers), id, edit, now), w)
    {
      hide Proposed;
      if id !in watchers {
        return Err(Unknown);
      }
      var next := Proposed(watchers[id], edit, now);
      if next.Err? {
        return Err(next.error);
      }
      var ok := Replace(watchers[id := next.value], w);
      r := if ok then Ok(Changed(id)) else Err(WriteFailed);
    }

    /** Commit one observation: the schedule, then what the event does to the machine, then the event. */
    method CommitObserved(id: string, schedule: Schedule, seen: Option<Event>, now: nat, w: Protocol.Write)
      returns (r: Result<Reply, Refusal>)
      modifies this
      ensures Performs(PlanEdit(old(watchers), id, CommitObservation(schedule, seen), now), w)
      ensures r == Said(PlanEdit(old(watchers), id, CommitObservation(schedule, seen), now), w)
    {
      if id !in watchers {
        return Err(Unknown);
      }
      var watcher := watchers[id];
      var next := schedule;
      if next.wakePending {
        next := next.(lastWakeDone := Some(now));
      }
      next := next.(wakePending := false);
      watcher := watcher.(schedule := next);
      if seen.Some? {
        if watcher.recovery.Some? {
          AbsorbAccepts(watcher, watcher.recovery.value, seen.value);
          watcher := Observe(watcher, watcher.recovery.value, seen.value);
        }
        watcher := watcher.(lastObservation := seen);
      }
      hide Absorb;
      if watcher.revision >= U64_MAX {
        return Err(RevisionOverflow);
      }
      watcher := watcher.(revision := watcher.revision + 1, updatedAt := now);
      var ok := Replace(watchers[id := watcher], w);
      r := if ok then Ok(Changed(id)) else Err(WriteFailed);
    }

    method Observe(watcher: Watcher, was: SM.Machine, event: Event) returns (next: Watcher)
      requires watcher.recovery == Some(was)
      ensures Absorb(watcher, was, event) == Ok(next)
    {
      var machine := was;
      next := watcher;
      if machine.state == SM.NeedsRevalidation {
        machine := SM.Advance(machine, SM.Revalidated);
        next := next.(lifecycle := Observing);
      }
      var limit := FreshLimitAfterMenu(machine, event);
      if machine.state == SM.Recovered
         && ((next.lifecycle.Waiting? && (event.Flagged(ClaudeResume) || event.Flagged(CodexResume))) || limit) {
        machine := SM.Advance(machine, SM.RearmAfterWait);
      }
      var stable := !event.source.kind.ScreenDetection? || next.schedule.screenCount >= 2;
      if IsActionable(event.category) && stable && machine.state == SM.Observing {
        machine := SM.Advance(machine, SM.Confirm(event.fingerprint));
      }
      next := next.(recovery := Some(machine));
    }

    method Rebuild(was: Watcher, anew: Watcher, promoted: bool, replayed: bool) returns (next: Watcher)
      requires promoted == Promotes(was, anew) && replayed == Replayed(was)
      ensures next == Refreshed(was, anew)
    {
      next := was.(target := anew.target);
      if promoted {
        next := next.(lifecycle := Registered, recovery := None, lastObservation := None);
        next := next.(schedule := next.schedule.(wakePending := true));
        if anew.codex.Some? {
          next := next.(codex := anew.codex);
        }
        if anew.claude.Some? {
          next := next.(claude := anew.claude);
        }
      } else if replayed {
        next := next.(lifecycle := Registered, recovery := anew.recovery);
      }
    }

    method Refresh(id: string, anew: Watcher, w: Protocol.Write) returns (r: Result<Reply, Refusal>)
      requires id in watchers
      modifies this
      ensures Performs(PlanRefresh(old(watchers), id, anew), w)
      ensures r == Said(PlanRefresh(old(watchers), id, anew), w)
    {
      var was := watchers[id];
      var promoted := Richer(was.target, anew.target);
      var upgraded := NeedsRevalidation(was.target) && !NeedsRevalidation(anew.target);
      var replayed := was.lifecycle == NeedsHuman(RestartRevalidation);
      var attached := (was.codex.None? && anew.codex.Some?) || (was.claude.None? && anew.claude.Some?);
      if !Compatible(was.codex, anew.codex) || !Compatible(was.claude, anew.claude) {
        return Err(IdCollision);
      }
      if !promoted && !upgraded && !replayed && !attached {
        return Ok(Existing(id));
      }
      var next := Rebuild(was, anew, promoted || attached, replayed);
      hide Refreshed;
      if next.revision >= U64_MAX {
        return Err(RevisionOverflow);
      }
      next := next.(revision := next.revision + 1, updatedAt := anew.updatedAt);
      var ok := Replace(watchers[id := next], w);
      r := if !ok then Err(WriteFailed)
           else if promoted || attached || replayed then Ok(Revalidated(id)) else Ok(Existing(id));
    }

    method Register(watcher: Watcher, w: Protocol.Write) returns (r: Result<Reply, Refusal>)
      modifies this
      ensures Performs(PlanRegister(old(watchers), watcher), w)
      ensures r == Said(PlanRegister(old(watchers), watcher), w)
    {
      hide PlanRefresh, IsFirst, SameTarget, SameProcess, Richer;
      if watcher.id in watchers {
        if SameTarget(watchers[watcher.id].target, watcher.target) {
          r := Refresh(watcher.id, watcher, w);
          return;
        }
        return Err(IdCollision);
      }
      var same := SameTargets(watchers, watcher.target);
      if same != {} {
        var id := FindFirst(same);
        FirstUnique(same, id, First(same));
        FirstIsMember(id, same);
        r := Refresh(id, watcher, w);
        return;
      }
      var running := SameProcesses(watchers, watcher.target);
      if running != {} {
        var id := FindFirst(running);
        FirstUnique(running, id, First(running));
        FirstIsMember(id, running);
        if Richer(watchers[id].target, watcher.target) {
          r := Refresh(id, watcher, w);
          return;
        }
        if Richer(watcher.target, watchers[id].target) {
          return Ok(Existing(id));
        }
        return Err(IdCollision);
      }
      var ok := Replace(watchers[watcher.id := watcher], w);
      r := if ok then Ok(Added(watcher.id)) else Err(WriteFailed);
    }
  }

  lemma FirstIsMember(x: string, ids: set<string>)
    requires IsFirst(x, ids)
    ensures x in ids
  {
  }
}
