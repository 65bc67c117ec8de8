/**
 Shutting down without losing a job. Any number of callers schedule recovery jobs while
 the daemon stops accepting, takes the job list and joins it; one mutex guards the list,
 the flags are plain atomics.
 */
module Supervisor {
  datatype Caller =
    | Waiting                // for the lock
    | Loading                // holds the lock, has not read the flag
    | Retaining              // holds the lock, saw the flag set
    | Spawning
    | Pushing(job: nat)
    | Returned

  datatype Stop =
    | Running
    | Refusing               // accepting cleared, cancellation not yet set
    | Cancelling             // both flags written
    | Taking                 // holds the lock
    | Joining(rest: seq<nat>)
    | Acknowledged

  datatype Holder = Free | HeldBy(tid: nat) | HeldByStop

  datatype State = State(
    accepting: bool,
    cancelled: bool,
    lock: Holder,
    jobs: seq<nat>,
    callers: map<nat, Caller>,
    stop: Stop,
    spawned: set<nat>,
    finished: set<nat>)

  datatype Step =
    | Call(tid: nat) | Acquire(tid: nat) | Load(tid: nat) | Retain(tid: nat)
    | Spawn(tid: nat, job: nat) | Push(tid: nat)
    | Finish(job: nat)
    | ClearAccepting | SetCancelled | LockForTake | Take | Join | Acknowledge

  predicate At(s: State, tid: nat, pc: Caller) {
    tid in s.callers && s.callers[tid] == pc
  }

  predicate Enabled(s: State, step: Step) {
    match step
    case Call(tid) => tid !in s.callers
    case Acquire(tid) => At(s, tid, Waiting) && s.lock.Free?
    case Load(tid) => At(s, tid, Loading)
    case Retain(tid) => At(s, tid, Retaining)
    case Spawn(tid, job) => At(s, tid, Spawning) && job !in s.spawned
    case Push(tid) => tid in s.callers && s.callers[tid].Pushing?
    case Finish(job) => job in s.spawned
    case ClearAccepting => s.stop.Running?
    case SetCancelled => s.stop.Refusing?
    case LockForTake => s.stop.Cancelling? && s.lock.Free?
    case Take => s.stop.Taking?
    case Join => s.stop.Joining? && s.stop.rest != [] && s.stop.rest[0] in s.finished
    case Acknowledge => s.stop.Joining? && s.stop.rest == []
  }

  /** Drop the handles of jobs that are done. */
  function Unfinished(jobs: seq<nat>, finished: set<nat>): (r: seq<nat>)
    ensures forall j :: j in r <==> j in jobs && j !in finished
  {
    if jobs == [] then []
    else (if jobs[0] in finished then [] else [jobs[0]]) + Unfinished(jobs[1..], finished)
  }

  function SetCaller(s: State, tid: nat, pc: Caller): State {
    s.(callers := s.callers[tid := pc])
  }

  function Apply(s: State, step: Step): State
    requires Enabled(s, step)
  {
    match step
    case Call(tid) => SetCaller(s, tid, Waiting)
    case Acquire(tid) => SetCaller(s, tid, Loading).(lock := HeldBy(tid))
    case Load(tid) =>
      if s.accepting then SetCaller(s, tid, Retaining) else SetCaller(s, tid, Returned).(lock := Free)
    case Retain(tid) => SetCaller(s, tid, Spawning).(jobs := Unfinished(s.jobs, s.finished))
    case Spawn(tid, job) => SetCaller(s, tid, Pushing(job)).(spawned := s.spawned + {job})
    case Push(tid) => SetCaller(s, tid, Returned).(lock := Free, jobs := s.jobs + [s.callers[tid].job])
    case Finish(job) => s.(finished := s.finished + {job})
    case ClearAccepting => s.(stop := Refusing, accepting := false)
    case SetCancelled => s.(stop := Cancelling, cancelled := true)
    case LockForTake => s.(stop := Taking, lock := HeldByStop)
    case Take => s.(stop := Joining(s.jobs), jobs := [], lock := Free)
    case Join => s.(stop := Joining(s.stop.rest[1..]))
    case Acknowledge => s.(stop := Acknowledged)
  }

  predicate Initial(s: State) {
    s == State(true, false, Free, [], map[], Running, {}, {})
  }

  predicate Runs(s: State, steps: seq<Step>)
    decreases |steps|
  {
    steps == [] || (Enabled(s, steps[0]) && Runs(Apply(s, steps[0]), steps[1..]))
  }

  function End(s: State, steps: seq<Step>): State
    requires Runs(s, steps)
    decreases |steps|
  {
    if steps == [] then s else End(Apply(s, steps[0]), steps[1..])
  }

  // ----- the invariant

  predicate Inside(pc: Caller) {
    !pc.Waiting? && !pc.Returned?
  }

  predicate ListTaken(stop: Stop) {
    stop.Joining? || stop.Acknowledged?
  }

  /** Someone will wait for this job: the list, the join loop, or the caller about to push it. */
  predicate Owned(s: State, job: nat) {
    || job in s.jobs
    || (s.stop.Joining? && job in s.stop.rest)
    || (s.lock.HeldBy? && At(s, s.lock.tid, Pushing(job)))
  }

  predicate Exclusive(s: State) {
    && (forall tid :: tid in s.callers && Inside(s.callers[tid]) ==> s.lock == HeldBy(tid))
    && (s.stop.Taking? <==> s.lock.HeldByStop?)
  }

  predicate Flags(s: State) {
    && (s.accepting <==> s.stop.Running?)
    && (s.cancelled <==> !s.stop.Running? && !s.stop.Refusing?)
  }

  predicate Accounted(s: State) {
    forall job :: job in s.spawned && job !in s.finished ==> Owned(s, job)
  }

  /** After the list is taken it stays empty, and no caller can be past the flag. */
  predicate Closed(s: State) {
    ListTaken(s.stop) ==>
      && s.jobs == []
      && forall tid :: tid in s.callers && Inside(s.callers[tid]) ==> s.callers[tid].Loading?
  }

  predicate Sound(s: State) {
    Exclusive(s) && Flags(s) && Accounted(s) && Closed(s)
  }

  lemma StepExclusive(s: State, step: Step)
    requires Exclusive(s) && Enabled(s, step)
    ensures Exclusive(Apply(s, step))
  {
  }

  lemma StepClosed(s: State, step: Step)
    requires Sound(s) && Enabled(s, step)
    ensures Closed(Apply(s, step)) && Flags(Apply(s, step))
  {
    hide Accounted;
  }

  lemma StepAccounted(s: State, step: Step)
    requires Sound(s) && Enabled(s, step)
    ensures Accounted(Apply(s, step))
  {
    var next := Apply(s, step);
    forall job | job in next.spawned && job !in next.finished ensures Owned(next, job) {
      if step.Spawn? && job == step.job {
        assert At(next, step.tid, Pushing(job)) && s.lock == HeldBy(step.tid);
      } else {
        assert Owned(s, job);
        JobStaysOwned(s, step, job);
      }
    }
  }

  lemma JobStaysOwned(s: State, step: Step, job: nat)
    requires Exclusive(s) && Enabled(s, step) && Owned(s, job)
    requires job !in s.finished && (step.Finish? ==> job != step.job)
    ensures Owned(Apply(s, step), job)
  {
  }

  lemma {:induction false} RunIsSound(s: State, steps: seq<Step>)
    requires Sound(s) && Runs(s, steps)
    ensures Sound(End(s, steps))
    decreases |steps|
  {
    hide Apply, Enabled, Exclusive, Flags, Accounted, Closed;
    if steps != [] {
      StepExclusive(s, steps[0]);
      StepClosed(s, steps[0]);
      StepAccounted(s, steps[0]);
      RunIsSound(Apply(s, steps[0]), steps[1..]);
    }
  }

  /** When shutdown is acknowledged every job that was ever spawned has finished. */
  lemma NoJobOutlivesShutdown(s: State, steps: seq<Step>)
    requires Initial(s) && Runs(s, steps) && End(s, steps).stop.Acknowledged?
    ensures End(s, steps).spawned <= End(s, steps).finished && End(s, steps).cancelled
  {
    RunIsSound(s, steps);
    var end := End(s, steps);
    forall job | job in end.spawned ensures job in end.finished {
      assert !Owned(end, job);
    }
  }

  lemma {:induction false} NoSpawnAfterTake(s: State, steps: seq<Step>)
    requires Sound(s) && ListTaken(s.stop) && Runs(s, steps)
    ensures End(s, steps).spawned == s.spawned && ListTaken(End(s, steps).stop)
    decreases |steps|
  {
    if steps != [] {
      StepExclusive(s, steps[0]);
      StepClosed(s, steps[0]);
      StepAccounted(s, steps[0]);
      hide Exclusive, Flags, Accounted;
      NoSpawnAfterTake(Apply(s, steps[0]), steps[1..]);
    }
  }

  lemma {:induction false} RunsSplit(s: State, first: seq<Step>, second: seq<Step>)
    requires Runs(s, first + second)
    ensures Runs(s, first) && Runs(End(s, first), second) && End(s, first + second) == End(End(s, first), second)
    decreases |first|
  {
    hide Apply, Enabled;
    if first == [] {
      assert first + second == second;
    } else {
      assert (first + second)[0] == first[0] && (first + second)[1..] == first[1..] + second;
      RunsSplit(Apply(s, first[0]), first[1..], second);
    }
  }

  /** Once the list is taken, no continuation of the run spawns another job. */
  lemma TakenListIsFinal(s: State, first: seq<Step>, second: seq<Step>)
    requires Initial(s) && Runs(s, first + second)
    ensures Runs(s, first)
    ensures ListTaken(End(s, first).stop) ==> End(s, first + second).spawned == End(s, first).spawned
  {
    RunsSplit(s, first, second);
    RunIsSound(s, first);
    if ListTaken(End(s, first).stop) {
      NoSpawnAfterTake(End(s, first), second);
    }
  }
}
