/** When the process monitor decides what, and what a visit then changes, over what the system shows. */
module LifecycleDecisions {
  import opened Wrappers
  import opened Watchers
  import opened Lifecycle
  import Protocol

  /** The same process: not another one that was given its number. */
  predicate ThatOne(identity: Process, p: Process) {
    p.pid == identity.pid && p.startTime == identity.startTime && p.executable == identity.executable
  }

  /** Two known numbers that differ speak against, two that agree speak for. */
  predicate Against(a: Option<nat>, b: Option<nat>) {
    a.Some? && b.Some? && a.value != b.value
  }

  predicate For(a: Option<nat>, b: Option<nat>) {
    a.Some? && b.Some? && a.value == b.value
  }

  /** One user's agent of one kind on one terminal, in one session or process group. */
  predicate Kin(host: Host, lost: Process, p: Process) {
    && lost.tty.Some? && p.tty == lost.tty
    && lost.uid.Some? && p.uid == lost.uid
    && !Against(lost.group, p.group) && !Against(lost.leader, p.leader)
    && (For(lost.group, p.group) || For(lost.leader, p.leader))
    && lost.executable.Some? && p.executable.Some?
    && host.agent(lost.executable.value).Some?
    && host.agent(lost.executable.value) == host.agent(p.executable.value)
  }

  lemma KinExactly(host: Host, lost: Process, p: Process)
    ensures StrongMatch(host, lost, p) <==> Kin(host, lost, p)
  {
  }

  /** Place `i` holds the only process of the list that is kin. */
  predicate OnlyKin(host: Host, lost: Process, ps: seq<Process>, i: nat) {
    i < |ps| && forall j :: 0 <= j < |ps| ==> (Kin(host, lost, ps[j]) <==> j == i)
  }

  lemma {:induction false} FoundExactly(host: Host, lost: Process, ps: seq<Process>)
    ensures |Candidates(host, lost, ps)| == 0 <==> forall j :: 0 <= j < |ps| ==> !Kin(host, lost, ps[j])
    ensures |Candidates(host, lost, ps)| == 1 <==> exists i :: 0 <= i < |ps| && OnlyKin(host, lost, ps, i)
    ensures forall i :: 0 <= i < |ps| && OnlyKin(host, lost, ps, i) ==> Candidates(host, lost, ps) == [ps[i]]
  {
    hide Kin, StrongMatch;
    if ps != [] {
      var rest := ps[1..];
      FoundExactly(host, lost, rest);
      KinExactly(host, lost, ps[0]);
      assert forall j :: 0 < j < |ps| ==> ps[j] == rest[j - 1];
      if Kin(host, lost, ps[0]) {
        FirstIsKin(host, lost, ps);
      } else {
        FirstIsNone(host, lost, ps);
      }
    }
  }

  lemma FirstIsKin(host: Host, lost: Process, ps: seq<Process>)
    requires ps != [] && Kin(host, lost, ps[0])
    ensures forall i :: 0 <= i < |ps| && OnlyKin(host, lost, ps, i) ==> i == 0
    ensures OnlyKin(host, lost, ps, 0) <==> forall j :: 0 <= j < |ps[1..]| ==> !Kin(host, lost, ps[1..][j])
  {
    hide Kin;
    assert forall j :: 0 < j < |ps| ==> ps[j] == ps[1..][j - 1];
  }

  lemma FirstIsNone(host: Host, lost: Process, ps: seq<Process>)
    requires ps != [] && !Kin(host, lost, ps[0])
    ensures forall i :: 0 <= i < |ps| && OnlyKin(host, lost, ps, i) ==> i > 0 && OnlyKin(host, lost, ps[1..], i - 1)
    ensures forall i :: 0 <= i < |ps[1..]| && OnlyKin(host, lost, ps[1..], i) ==> OnlyKin(host, lost, ps, i + 1)
  {
    hide Kin;
    var rest := ps[1..];
    assert forall j :: 0 < j < |ps| ==> ps[j] == rest[j - 1];
    forall i | 0 <= i < |rest| && OnlyKin(host, lost, rest, i) ensures OnlyKin(host, lost, ps, i + 1) {
      forall j | 0 <= j < |ps| ensures Kin(host, lost, ps[j]) <==> j == i + 1 {
        if j > 0 {
          assert ps[j] == rest[j - 1];
        }
      }
    }
  }

  // ----- the decision

  /** The process has been gone for longer than the grace allows. */
  predicate TooLong(m: Monitor, now: nat) {
    m.grace == 0 || (m.missingSince.Some? && now > m.missingSince.value + m.grace)
  }

  /** The only process on the lost one's terminal that is kin to it. */
  predicate Succeeds(host: Host, lost: Process, q: Process) {
    && lost.tty.Some? && host.onTty(lost.tty.value).Some?
    && var ps := host.onTty(lost.tty.value).value;
       exists i :: 0 <= i < |ps| && OnlyKin(host, lost, ps, i) && q == ps[i].(parentDigest := None)
  }

  lemma SuccessorExactly(host: Host, lost: Process, q: Process)
    ensures Successor(host, lost) == Reexec(q) <==> Succeeds(host, lost, q)
    ensures Successor(host, lost).Reexec? || Successor(host, lost).Grace?
  {
    hide Candidates, OnlyKin;
    if lost.tty.Some? && host.onTty(lost.tty.value).Some? {
      FoundExactly(host, lost, host.onTty(lost.tty.value).value);
    }
  }

  /** Each decision, exactly when it is made. */
  lemma DecidesExactly(m: Monitor, host: Host, now: nat, q: Process)
    ensures var look, d := host.inspect(m.identity.pid), Decide(m, host, now);
      && (d == Alive <==> look.Running? && ThatOne(m.identity, look.process))
      && (d == Terminate <==>
            || look.Unreadable?
            || (look.Running? && !ThatOne(m.identity, look.process))
            || (look.Gone? && TooLong(m, now)))
      && (d == Reexec(q) <==> look.Gone? && !TooLong(m, now) && Succeeds(host, m.identity, q))
      && (d.Reexec? || d.Grace? ==> look.Gone? && !TooLong(m, now))
  {
    SuccessorExactly(host, m.identity, q);
    hide Successor, Succeeds;
  }

  /** The first absence is noted while there is a grace, and kept until a successor is adopted. */
  lemma NotesExactly(m: Monitor, host: Host, now: nat)
    ensures var after := Noted(m, host, now);
      && after.identity == m.identity && after.grace == m.grace
      && after.missingSince == (if host.inspect(m.identity.pid).Gone? && m.grace > 0 && m.missingSince.None?
                                then Some(now) else m.missingSince)
  {
  }

  // ----- the visit

  predicate Ended(l: Watchers.Lifecycle) {
    l.TargetTerminated? || l.Stopped?
  }

  /** The watcher with its lifecycle or its process replaced, one revision later. */
  predicate Replaced(was: Watcher, now: Watcher, at: nat, lifecycle: Watchers.Lifecycle, process: Process) {
    && now.lifecycle == lifecycle && now.target == was.target.(process := process)
    && now.revision == was.revision + 1 && now.updatedAt == at
    && now == was.(lifecycle := now.lifecycle, target := now.target, revision := now.revision, updatedAt := now.updatedAt)
  }

  /** What one visit does, by its decision and by whether the registry could store it. */
  lemma VisitExactly(w: Watcher, m: Option<Monitor>, host: Host, now: nat, write: Protocol.Write)
    ensures var w', m' := WatcherAfter(w, m, host, now, write), MonitorAfter(w, m, host, now, write);
      if Ended(w.lifecycle) then w' == w && m' == None
      else
        var monitor := if m.Some? then m.value else Monitor(w.target.process, 2_000, None);
        var d := Decide(monitor, host, now);
        var storable := write.Durable? && w.revision < 18_446_744_073_709_551_615;
        if d.Terminate? && storable then Replaced(w, w', now, TargetTerminated, w.target.process) && m' == None
        else if d.Reexec? && storable then
          Replaced(w, w', now, w.lifecycle, d.process) && m' == Some(Monitor(d.process, monitor.grace, None))
        else w' == w && m' == Some(Noted(monitor, host, now))
  {
    hide Decide;
  }
}
