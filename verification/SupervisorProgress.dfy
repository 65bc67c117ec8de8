/**
 The supervisor gets somewhere: while it accepts, a job handed to it is run and listed; and
 from every state it can be in, shutdown can be brought to its acknowledgement.
 */
module SupervisorProgress {
  import opened Supervisor

  // ----- what else every run keeps

  /** Whoever holds the lock is at work under it, and every handle is of a job that was spawned. */
  predicate Busy(s: State) {
    && (s.lock.HeldBy? ==> s.lock.tid in s.callers && Inside(s.callers[s.lock.tid]))
    && (forall job :: job in s.jobs ==> job in s.spawned)
    && (forall tid :: tid in s.callers && s.callers[tid].Pushing? ==> s.callers[tid].job in s.spawned)
    && (s.stop.Joining? ==> forall job :: job in s.stop.rest ==> job in s.spawned)
  }

  lemma StepIsBusy(s: State, step: Step)
    requires Exclusive(s) && Busy(s) && Enabled(s, step)
    ensures Busy(Apply(s, step))
  {
  }

  predicate Alive(s: State) {
    Exclusive(s) && Flags(s) && Busy(s)
  }

  lemma StepIsAlive(s: State, step: Step)
    requires Alive(s) && Enabled(s, step)
    ensures Alive(Apply(s, step))
  {
    StepExclusive(s, step);
    StepIsBusy(s, step);
    hide Busy, Exclusive;
  }

  lemma {:induction false} RunIsAlive(s: State, steps: seq<Step>)
    requires Alive(s) && Runs(s, steps)
    ensures Alive(End(s, steps))
    decreases |steps|
  {
    hide Alive, Apply, Enabled;
    if steps != [] {
      StepIsAlive(s, steps[0]);
      RunIsAlive(Apply(s, steps[0]), steps[1..]);
    }
  }

  lemma {:induction false} RunsJoin(s: State, first: seq<Step>, second: seq<Step>)
    requires Runs(s, first) && Runs(End(s, first), second)
    ensures Runs(s, first + second) && End(s, first + second) == End(End(s, first), second)
    decreases |first|
  {
    hide Apply, Enabled;
    if first == [] {
      assert first + second == second;
    } else {
      assert (first + second)[0] == first[0] && (first + second)[1..] == first[1..] + second;
      RunsJoin(Apply(s, first[0]), first[1..], second);
    }
  }

  lemma OneStep(s: State, step: Step)
    requires Enabled(s, step)
    ensures Runs(s, [step]) && End(s, [step]) == Apply(s, step)
  {
    hide Enabled, Apply;
    assert [step][1..] == [];
  }

  lemma Then(s: State, first: seq<Step>, step: Step)
    requires Runs(s, first) && Enabled(End(s, first), step)
    ensures Runs(s, first + [step]) && End(s, first + [step]) == Apply(End(s, first), step)
  {
    hide Enabled, Apply, Runs, End;
    OneStep(End(s, first), step);
    RunsJoin(s, first, [step]);
  }

  // ----- a job handed over is run

  /** While the supervisor accepts and its lock is free, any new job can be handed to it: it runs, and is listed with those unfinished. */
  lemma ScheduleRuns(s: State, tid: nat, job: nat) returns (steps: seq<Step>)
    requires s.accepting && s.lock.Free? && tid !in s.callers && job !in s.spawned
    ensures Runs(s, steps)
    ensures var end := End(s, steps);
      && job in end.spawned && job in end.jobs && end.callers == s.callers[tid := Returned]
      && end.lock.Free? && end.accepting && end.stop == s.stop && end.finished == s.finished
      && (forall j :: j in end.jobs <==> j == job || (j in s.jobs && j !in s.finished))
  {
    var s1 := Apply(s, Call(tid));
    var s2 := Apply(s1, Acquire(tid));
    var s3 := Apply(s2, Load(tid));
    var s4 := Apply(s3, Retain(tid));
    var s5 := Apply(s4, Spawn(tid, job));
    var s6 := Apply(s5, Push(tid));
    assert s6.callers == s.callers[tid := Returned];
    OneStep(s, Call(tid));
    steps := [Call(tid)];
    assert Enabled(s1, Acquire(tid)) && Enabled(s2, Load(tid)) && Enabled(s3, Retain(tid))
      && Enabled(s4, Spawn(tid, job)) && Enabled(s5, Push(tid));
    hide Enabled, Apply, Runs, End;
    Then(s, steps, Acquire(tid));
    steps := steps + [Acquire(tid)];
    Then(s, steps, Load(tid));
    steps := steps + [Load(tid)];
    Then(s, steps, Retain(tid));
    steps := steps + [Retain(tid)];
    Then(s, steps, Spawn(tid, job));
    steps := steps + [Spawn(tid, job)];
    Then(s, steps, Push(tid));
    steps := steps + [Push(tid)];
  }

  /** A caller that looks after the flag was cleared goes away without a job. */
  lemma LateCallersAreRefused(s: State, tid: nat)
    requires Enabled(s, Load(tid)) && !s.accepting
    ensures Apply(s, Load(tid)) == s.(callers := s.callers[tid := Returned], lock := Free)
  {
  }

  // ----- shutdown completes

  lemma FreshJob(used: set<nat>) returns (job: nat)
    ensures job !in used && forall j :: j in used ==> j < job
    decreases |used|
  {
    if used == {} {
      job := 0;
    } else {
      var j :| j in used;
      var k := FreshJob(used - {j});
      job := if j < k then k else j + 1;
      assert forall i :: i in used ==> i == j || i in used - {j};
    }
  }

  function Depth(pc: Caller): nat {
    match pc
    case Loading => 4
    case Retaining => 3
    case Spawning => 2
    case Pushing(_) => 1
    case _ => 0
  }

  /** Whatever the holder of the lock is at, it can finish. */
  lemma {:induction false} LockIsReleased(s: State) returns (steps: seq<Step>)
    requires Alive(s) && s.lock.HeldBy?
    ensures Runs(s, steps) && End(s, steps).lock.Free? && End(s, steps).stop == s.stop
    decreases Depth(s.callers[s.lock.tid])
  {
    var tid := s.lock.tid;
    var step;
    match s.callers[tid] {
      case Loading => step := Load(tid);
      case Retaining => step := Retain(tid);
      case Spawning => { var job := FreshJob(s.spawned); step := Spawn(tid, job); }
      case Pushing(_) => step := Push(tid);
    }
    assert Enabled(s, step);
    var next := Apply(s, step);
    assert next.stop == s.stop;
    StepIsAlive(s, step);
    OneStep(s, step);
    steps := [step];
    if !next.lock.Free? {
      assert next.lock == s.lock && Depth(next.callers[tid]) < Depth(s.callers[tid]);
      var more := LockIsReleased(next);
      RunsJoin(s, [step], more);
      steps := [step] + more;
    }
  }

  /** The join loop waits for one job after the other, each of which can finish. */
  lemma {:induction false} JoinsComplete(s: State) returns (steps: seq<Step>)
    requires Alive(s) && s.stop.Joining?
    ensures Runs(s, steps) && End(s, steps).stop.Acknowledged?
    decreases |s.stop.rest|
  {
    if s.stop.rest == [] {
      OneStep(s, Acknowledge);
      steps := [Acknowledge];
    } else {
      var job := s.stop.rest[0];
      assert job in s.spawned;
      var s1 := Apply(s, Finish(job));
      var s2 := Apply(s1, Join);
      StepIsAlive(s, Finish(job));
      StepIsAlive(s1, Join);
      OneStep(s, Finish(job));
      Then(s, [Finish(job)], Join);
      hide Alive, Enabled, Runs, End;
      var more := JoinsComplete(s2);
      RunsJoin(s, [Finish(job)] + [Join], more);
      steps := [Finish(job)] + [Join] + more;
    }
  }

  /** One stage of shutdown, once nobody but shutdown itself is at the list. */
  function NextStage(s: State): Step
    requires !s.stop.Joining? && !s.stop.Acknowledged?
  {
    match s.stop
    case Running => ClearAccepting
    case Refusing => SetCancelled
    case Cancelling => LockForTake
    case Taking => Take
  }

  function Remaining(stop: Stop): nat {
    match stop
    case Running => 4
    case Refusing => 3
    case Cancelling => 2
    case Taking => 1
    case _ => 0
  }

  lemma {:induction false} StagesComplete(s: State) returns (steps: seq<Step>)
    requires Alive(s) && !s.stop.Acknowledged? && !s.lock.HeldBy?
    ensures Runs(s, steps) && End(s, steps).stop.Acknowledged?
    decreases Remaining(s.stop)
  {
    if s.stop.Joining? {
      steps := JoinsComplete(s);
    } else {
      var step := NextStage(s);
      assert Enabled(s, step);
      var next := Apply(s, step);
      assert Remaining(next.stop) < Remaining(s.stop) && !next.stop.Acknowledged? && !next.lock.HeldBy?;
      StepIsAlive(s, step);
      OneStep(s, step);
      hide Alive, Enabled, Apply, Runs, End;
      var more := StagesComplete(next);
      RunsJoin(s, [step], more);
      steps := [step] + more;
    }
  }

  /** From whatever state a run has reached, it can go on to the acknowledgement of shutdown. */
  lemma ShutdownCompletes(s: State, steps: seq<Step>) returns (more: seq<Step>)
    requires Initial(s) && Runs(s, steps)
    ensures Runs(End(s, steps), more) && End(End(s, steps), more).stop.Acknowledged?
  {
    RunIsAlive(s, steps);
    var now := End(s, steps);
    hide Alive, Enabled, Apply;
    if now.stop.Acknowledged? {
      more := [];
    } else if now.lock.HeldBy? {
      var first := LockIsReleased(now);
      RunIsAlive(now, first);
      var second := StagesComplete(End(now, first));
      RunsJoin(now, first, second);
      more := first + second;
    } else {
      more := StagesComplete(now);
    }
  }
}
