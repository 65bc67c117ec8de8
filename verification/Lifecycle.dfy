/** Watching the watched processes: when one is gone, when its successor is adopted, when a watcher ends. */
module Lifecycle {
  import opened Wrappers
  import opened Watchers
  import opened Registry
  import Protocol

  datatype Look = Running(process: Process) | Gone | Unreadable

  /** What the operating system answers during one tick, and which agent an executable is. */
  datatype Host = Host(inspect: nat -> Look, onTty: string -> Option<seq<Process>>, agent: string -> Option<string>)

  datatype Decision = Alive | Grace | Reexec(process: Process) | Terminate

  const REEXEC_GRACE_MS := 2_000

  datatype Monitor = Monitor(identity: Process, grace: nat, missingSince: Option<nat>)

  predicate Same(identity: Process, p: Process) {
    identity.pid == p.pid && identity.startTime == p.startTime && identity.executable == p.executable
  }

  predicate Contradict(a: Option<nat>, b: Option<nat>) {
    a.Some? && b.Some? && a != b
  }

  predicate Continues(identity: Process, p: Process) {
    && !Contradict(identity.group, p.group) && !Contradict(identity.leader, p.leader)
    && ((identity.group.Some? && identity.group == p.group) || (identity.leader.Some? && identity.leader == p.leader))
  }

  function AgentOf(host: Host, p: Process): Option<string> {
    if p.executable.None? then None else host.agent(p.executable.value)
  }

  predicate StrongMatch(host: Host, identity: Process, p: Process) {
    && identity.tty.Some? && identity.tty == p.tty
    && identity.uid.Some? && identity.uid == p.uid
    && Continues(identity, p)
    && AgentOf(host, identity).Some? && AgentOf(host, identity) == AgentOf(host, p)
  }

  /** The processes of a list that could be the lost one's successor. */
  function Candidates(host: Host, identity: Process, ps: seq<Process>): (r: seq<Process>)
    ensures forall p :: p in r <==> p in ps && StrongMatch(host, identity, p)
  {
    if ps == [] then []
    else (if StrongMatch(host, identity, ps[0]) then [ps[0]] else []) + Candidates(host, identity, ps[1..])
  }

  function Since(m: Monitor, now: nat): nat {
    if m.missingSince.Some? then m.missingSince.value else now
  }

  predicate Overdue(m: Monitor, now: nat) {
    SaturatingSub(now, Since(m, now)) > m.grace
  }

  /** The decision while the process is gone and the grace has not run out. */
  function Successor(host: Host, identity: Process): Decision {
    if identity.tty.None? then Grace
    else
      var ps := host.onTty(identity.tty.value);
      if ps.None? then Grace
      else
        var found := Candidates(host, identity, ps.value);
        if |found| == 1 then Reexec(found[0].(parentDigest := None)) else Grace
  }

  function Decide(m: Monitor, host: Host, now: nat): Decision {
    match host.inspect(m.identity.pid)
    case Running(p) => if Same(m.identity, p) then Alive else Terminate
    case Gone => if m.grace == 0 || Overdue(m, now) then Terminate else Successor(host, m.identity)
    case Unreadable => Terminate
  }

  /** The first absence is remembered; seeing the process again does not forget it. */
  function Noted(m: Monitor, host: Host, now: nat): Monitor {
    if host.inspect(m.identity.pid).Gone? && m.grace > 0 then m.(missingSince := Some(Since(m, now))) else m
  }

  function Adopted(m: Monitor, p: Process): Monitor {
    m.(identity := p, missingSince := None)
  }

  // ----- the tick

  predicate Over(l: Lifecycle) {
    l.Stopped? || l.TargetTerminated?
  }

  function MonitorFor(m: Option<Monitor>, w: Watcher): Monitor {
    if m.Some? then m.value else Monitor(w.target.process, REEXEC_GRACE_MS, None)
  }

  /** The change a decision asks the registry for. */
  function Wanted(d: Decision): Option<Edit> {
    match d
    case Reexec(p) => Some(Retarget(p))
    case Terminate => Some(Transition(TargetTerminated))
    case _ => None
  }

  predicate Stored(w: Watcher, d: Decision, now: nat, write: Protocol.Write) {
    Wanted(d).Some? && Proposed(w, Wanted(d).value, now).Ok? && write.Durable?
  }

  function WatcherAfter(w: Watcher, m: Option<Monitor>, host: Host, now: nat, write: Protocol.Write): Watcher {
    if Over(w.lifecycle) then w
    else
      var d := Decide(MonitorFor(m, w), host, now);
      if Stored(w, d, now, write) then Proposed(w, Wanted(d).value, now).value else w
  }

  function MonitorAfter(w: Watcher, m: Option<Monitor>, host: Host, now: nat, write: Protocol.Write): Option<Monitor> {
    if Over(w.lifecycle) then None
    else
      var monitor := MonitorFor(m, w);
      var d := Decide(monitor, host, now);
      var noted := Noted(monitor, host, now);
      if !Stored(w, d, now, write) then Some(noted)
      else if d.Terminate? then None
      else if d.Reexec? then Some(Adopted(noted, d.process))
      else Some(noted)
  }

  function MonitorOf(ms: map<string, Monitor>, id: string): Option<Monitor> {
    if id in ms then Some(ms[id]) else None
  }

  /** A monitor as the daemon keeps it. */
  class LifecycleMonitor {
    var identity: Process
    const grace: nat
    var missingSince: Option<nat>

    constructor (m: Monitor)
      ensures View() == m
    {
      identity, grace, missingSince := m.identity, m.grace, m.missingSince;
    }

    function View(): Monitor
      reads this
    {
      Monitor(identity, grace, missingSince)
    }

    method Observe(host: Host, now: nat) returns (d: Decision)
      modifies this
      ensures d == Decide(old(View()), host, now) && View() == Noted(old(View()), host, now)
    {
      match host.inspect(identity.pid)
      case Running(p) =>
        d := if Same(identity, p) then Alive else Terminate;
      case Gone =>
        if grace > 0 {
          d := ObserveMissing(host, now);
        } else {
          d := Terminate;
        }
      case Unreadable =>
        d := Terminate;
    }

    method ObserveMissing(host: Host, now: nat) returns (d: Decision)
      modifies this
      ensures View() == old(View()).(missingSince := Some(Since(old(View()), now)))
      ensures d == if Overdue(old(View()), now) then Terminate else Successor(host, old(identity))
    {
      if missingSince.None? {
        missingSince := Some(now);
      }
      if SaturatingSub(now, missingSince.value) > grace {
        return Terminate;
      }
      if identity.tty.None? {
        return Grace;
      }
      var processes := host.onTty(identity.tty.value);
      if processes.None? {
        return Grace;
      }
      var matches := Candidates(host, identity, processes.value);
      if |matches| != 1 {
        return Grace;
      }
      d := Reexec(matches[0].(parentDigest := None));
    }

    method CommitReexec(p: Process)
      modifies this
      ensures View() == Adopted(old(View()), p)
    {
      identity := p;
      missingSince := None;
    }
  }

  /** The monitoring task: one monitor per watcher that is still going. */
  class MonitorTask {
    var monitors: map<string, Monitor>

    constructor ()
      ensures monitors == map[]
    {
      monitors := map[];
    }

    method Visit(registry: RegistryStore, id: string, host: Host, now: nat, write: Protocol.Write)
      requires id in registry.watchers
      modifies this, registry
      ensures registry.watchers == old(registry.watchers)[id := WatcherAfter(
        old(registry.watchers)[id], MonitorOf(old(monitors), id), host, now, write)]
      ensures MonitorOf(monitors, id) == MonitorAfter(
        old(registry.watchers)[id], MonitorOf(old(monitors), id), host, now, write)
      ensures monitors - {id} == old(monitors) - {id}
    {
      hide Decide, Proposed, Noted;
      var watcher := registry.watchers[id];
      if Over(watcher.lifecycle) {
        monitors := monitors - {id};
        return;
      }
      var monitor := new LifecycleMonitor(MonitorFor(MonitorOf(monitors, id), watcher));
      var d := monitor.Observe(host, now);
      monitors := monitors[id := monitor.View()];
      match d
      case Alive =>
      case Grace =>
      case Reexec(p) =>
        var r := registry.EditWatcher(id, Retarget(p), now, write);
        if r.Ok? {
          monitor.CommitReexec(p);
          monitors := monitors[id := monitor.View()];
        }
      case Terminate =>
        var r := registry.EditWatcher(id, Transition(TargetTerminated), now, write);
        if r.Ok? {
          monitors := monitors - {id};
        }
    }

    /** One tick over every watcher; `writes` is how the store treats each of them. */
    method Tick(registry: RegistryStore, host: Host, now: nat, writes: string -> Protocol.Write)
      modifies this, registry
      ensures registry.watchers.Keys == old(registry.watchers).Keys
      ensures forall id :: id in registry.watchers ==>
        Visited(id, old(registry.watchers), old(monitors), registry.watchers, monitors, host, now, writes(id))
      ensures forall id :: id !in registry.watchers ==> MonitorOf(monitors, id) == MonitorOf(old(monitors), id)
    {
      hide WatcherAfter, MonitorAfter;
      var rest := registry.watchers.Keys;
      ghost var ws, ms := registry.watchers, monitors;
      while rest != {}
        invariant rest <= ws.Keys && registry.watchers.Keys == ws.Keys
        invariant forall id :: id in ws && id !in rest ==>
          Visited(id, ws, ms, registry.watchers, monitors, host, now, writes(id))
        invariant forall id :: id in rest ==> registry.watchers[id] == ws[id]
        invariant forall id :: id in rest || id !in ws ==> MonitorOf(monitors, id) == MonitorOf(ms, id)
      {
        var id :| id in rest;
        ghost var before := monitors;
        Visit(registry, id, host, now, writes(id));
        OthersUnchanged(before, monitors, id);
        rest := rest - {id};
      }
    }
  }

  lemma OthersUnchanged(a: map<string, Monitor>, b: map<string, Monitor>, id: string)
    requires a - {id} == b - {id}
    ensures forall other :: other != id ==> MonitorOf(a, other) == MonitorOf(b, other)
  {
    forall other | other != id ensures MonitorOf(a, other) == MonitorOf(b, other) {
      assert other in a <==> other in (a - {id});
      assert other in b <==> other in (b - {id});
      if other in a {
        assert (a - {id})[other] == a[other] && (b - {id})[other] == b[other];
      }
    }
  }

  predicate Visited(id: string, ws: Table, ms: map<string, Monitor>, ws': Table, ms': map<string, Monitor>,
                    host: Host, now: nat, write: Protocol.Write)
  {
    && id in ws && id in ws'
    && ws'[id] == WatcherAfter(ws[id], MonitorOf(ms, id), host, now, write)
    && MonitorOf(ms', id) == MonitorAfter(ws[id], MonitorOf(ms, id), host, now, write)
  }
}
