/** What the monitoring task guarantees over runs in which the registry keeps changing under it. */
module LifecycleRuns {
  import opened Wrappers
  import opened Watchers
  import opened Registry
  import opened Lifecycle
  import Protocol
  import Dispatch

  // ----- monitor and registry agree on the process

  datatype World = World(registry: Dispatch.State, monitors: map<string, Monitor>)

  datatype Step =
    | Visit(id: string, host: Host, now: nat, write: Protocol.Write)
    | Operate(step: Dispatch.Step)

  /** Only the monitor retargets; a restart begins with no monitors. */
  ghost predicate Enabled(s: World, step: Step) {
    match step
    case Visit(id, _, _, _) => s.registry.up && id in s.registry.memory
    case Operate(op) => Dispatch.Enabled(s.registry, op) && !Dispatch.Retargets(op)
  }

  function Asked(s: World, id: string, host: Host, now: nat): Option<Edit>
    requires id in s.registry.memory
  {
    var w := s.registry.memory[id];
    if Over(w.lifecycle) then None else Wanted(Decide(MonitorFor(MonitorOf(s.monitors, id), w), host, now))
  }

  function WithMonitor(ms: map<string, Monitor>, id: string, m: Option<Monitor>): map<string, Monitor> {
    if m.Some? then ms[id := m.value] else ms - {id}
  }

  ghost function Apply(s: World, step: Step): World
    requires Enabled(s, step)
  {
    match step
    case Visit(id, host, now, write) =>
      var w := s.registry.memory[id];
      var asked := Asked(s, id, host, now);
      World(if asked.None? then s.registry
            else Dispatch.Apply(s.registry, Dispatch.DoEdit(id, asked.value, now, write)),
            WithMonitor(s.monitors, id, MonitorAfter(w, MonitorOf(s.monitors, id), host, now, write)))
    case Operate(op) =>
      World(Dispatch.Apply(s.registry, op), if op.Restart? then map[] else s.monitors)
  }

  ghost predicate Runs(s: World, steps: seq<Step>)
    decreases |steps|
  {
    steps == [] || (Enabled(s, steps[0]) && Runs(Apply(s, steps[0]), steps[1..]))
  }

  ghost function End(s: World, steps: seq<Step>): World
    requires Runs(s, steps)
    decreases |steps|
  {
    if steps == [] then s else End(Apply(s, steps[0]), steps[1..])
  }

  predicate Agrees(m: Monitor, w: Watcher) {
    m.identity.pid == w.target.process.pid && m.identity.startTime == w.target.process.startTime
  }

  predicate AllAgree(memory: Table, monitors: map<string, Monitor>) {
    forall id :: id in monitors ==> id in memory && Agrees(monitors[id], memory[id])
  }

  predicate Sound(s: World) {
    Dispatch.Behind(s.registry) && AllAgree(s.registry.memory, s.monitors)
  }

  /** A visit leaves the pair agreeing, whether or not its write got through. */
  lemma VisitAgrees(w: Watcher, m: Option<Monitor>, host: Host, now: nat, write: Protocol.Write)
    requires m.Some? ==> Agrees(m.value, w)
    ensures var m' := MonitorAfter(w, m, host, now, write);
      m'.Some? ==> Agrees(m'.value, WatcherAfter(w, m, host, now, write))
  {
    hide Decide;
    if !Over(w.lifecycle) {
      var d := Decide(MonitorFor(m, w), host, now);
      if Wanted(d).Some? && Proposed(w, Wanted(d).value, now).Ok? {
        EditKeeps(w, Wanted(d).value, now);
      }
    }
  }

  lemma VisitStores(s: World, id: string, host: Host, now: nat, write: Protocol.Write)
    requires Enabled(s, Visit(id, host, now, write))
    ensures Apply(s, Visit(id, host, now, write)).registry.memory
      == s.registry.memory[id := WatcherAfter(s.registry.memory[id], MonitorOf(s.monitors, id), host, now, write)]
  {
    hide Decide, Proposed, MonitorAfter;
  }

  /** Registering again and every edit but a retarget leave a watcher's process alone. */
  lemma OperateKeepsProcess(s: Dispatch.State, op: Dispatch.Step, id: string)
    requires Dispatch.Behind(s) && Dispatch.Enabled(s, op) && !Dispatch.Retargets(op) && !op.Restart? && id in s.memory
    ensures id in Dispatch.Apply(s, op).memory
    ensures SameProcess(s.memory[id].target, Dispatch.Apply(s, op).memory[id].target)
  {
    hide PlanRegister, Proposed;
    match op
    case DoRegister(watcher, _) => RegisterMoves(s.memory, watcher);
    case DoEdit(at, edit, now, _) => EditMoves(s.memory, at, edit, now);
    case DoWake(at, f, now, _) =>
      if at in s.memory {
        EditMoves(s.memory, at, SetSchedule(s.memory[at].schedule.(wakePending := true, lastWake := Some(f))), now);
      }
    case Snapshot(_, _) =>
    case Send(_) =>
  }

  lemma VisitIsSound(s: World, id: string, host: Host, now: nat, write: Protocol.Write)
    requires Sound(s) && Enabled(s, Visit(id, host, now, write))
    ensures Sound(Apply(s, Visit(id, host, now, write)))
  {
    hide Dispatch.Apply, Dispatch.Behind, WatcherAfter, MonitorAfter, Asked, Agrees, TableKept;
    VisitStores(s, id, host, now, write);
    VisitAgrees(s.registry.memory[id], MonitorOf(s.monitors, id), host, now, write);
    var asked := Asked(s, id, host, now);
    if asked.Some? {
      Dispatch.StepKeeps(s.registry, Dispatch.DoEdit(id, asked.value, now, write));
    }
  }

  lemma OperateIsSound(s: World, op: Dispatch.Step)
    requires Sound(s) && Enabled(s, Operate(op))
    ensures Sound(Apply(s, Operate(op)))
  {
    hide Dispatch.Behind, Dispatch.Apply, Dispatch.Enabled, Agrees, TableKept;
    Dispatch.StepKeeps(s.registry, op);
    if !op.Restart? {
      forall id | id in s.monitors
        ensures id in Dispatch.Apply(s.registry, op).memory
          && Agrees(s.monitors[id], Dispatch.Apply(s.registry, op).memory[id])
      {
        OperateAgrees(s, op, id);
      }
    }
  }

  lemma StepAgrees(s: World, step: Step)
    requires Sound(s) && Enabled(s, step)
    ensures Sound(Apply(s, step))
  {
    hide Sound, Enabled, Apply;
    match step
    case Visit(id, host, now, write) => VisitIsSound(s, id, host, now, write);
    case Operate(op) => OperateIsSound(s, op);
  }

  lemma OperateAgrees(s: World, op: Dispatch.Step, id: string)
    requires Sound(s) && Enabled(s, Operate(op)) && !op.Restart? && id in s.monitors
    ensures id in Dispatch.Apply(s.registry, op).memory
    ensures Agrees(s.monitors[id], Dispatch.Apply(s.registry, op).memory[id])
  {
    OperateKeepsProcess(s.registry, op, id);
    hide Dispatch.Apply, Dispatch.Behind;
  }

  /** In every run, lost writes and restarts included, each monitor watches the process its watcher names. */
  lemma {:induction false} MonitorsFollowRegistry(s: World, steps: seq<Step>)
    requires Sound(s) && Runs(s, steps)
    ensures AllAgree(End(s, steps).registry.memory, End(s, steps).monitors)
    decreases |steps|
  {
    hide Apply, Enabled;
    if steps != [] {
      StepAgrees(s, steps[0]);
      MonitorsFollowRegistry(Apply(s, steps[0]), steps[1..]);
    }
  }

  // ----- absence beyond the grace

  /** A tick as one monitor sees it, and whether the registry stored an adoption. */
  datatype Sight = Sight(host: Host, now: nat, stored: bool)

  function Seen(m: Monitor, s: Sight): Monitor {
    var d := Decide(m, s.host, s.now);
    var noted := Noted(m, s.host, s.now);
    if d.Reexec? && s.stored then Adopted(noted, d.process) else noted
  }

  function After(m: Monitor, sights: seq<Sight>): Monitor
    decreases |sights|
  {
    if sights == [] then m else After(Seen(m, sights[0]), sights[1..])
  }

  predicate FindsGone(m: Monitor, host: Host) {
    host.inspect(m.identity.pid).Gone?
  }

  /** A tick that finds the process gone terminates exactly when the first absence is too long ago. */
  lemma GoneTickTerminates(m: Monitor, host: Host, now: nat)
    requires m.grace > 0 && FindsGone(m, host)
    ensures Decide(m, host, now).Terminate? <==> m.missingSince.Some? && now > m.missingSince.value + m.grace
  {
  }

  /** Once absence has outlasted the grace, a clock that does not go back keeps it so: no successor is adopted. */
  lemma {:induction false} OverdueStays(m: Monitor, since: nat, start: nat, sights: seq<Sight>, host: Host, now: nat)
    requires m.grace > 0 && m.missingSince == Some(since) && start > since + m.grace && now >= start
    requires forall i :: 0 <= i < |sights| ==> sights[i].now >= start
    ensures After(m, sights) == m
    ensures FindsGone(m, host) ==> Decide(After(m, sights), host, now).Terminate?
    decreases |sights|
  {
    if sights != [] {
      assert Seen(m, sights[0]) == m;
      OverdueStays(m, since, start, sights[1..], host, now);
    }
  }

  /** With a clock set back, a tick adopts a successor after an earlier tick had given up. */
  lemma ClockBackReprieves(m: Monitor, host: Host, since: nat)
    requires m.grace > 0 && m.missingSince == Some(since) && FindsGone(m, host) && Successor(host, m.identity).Reexec?
    ensures Decide(m, host, since + m.grace + 1).Terminate?
    ensures Decide(m, host, since + m.grace).Reexec?
    ensures Seen(m, Sight(host, since + m.grace + 1, false)) == m
  {
  }
}
