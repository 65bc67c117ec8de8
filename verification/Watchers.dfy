/** Watchers: the targets they watch, and the edits the registry makes to one of them. */
module Watchers {
  import opened Wrappers
  import opened Model
  import SM = StateMachine

  datatype Process = Process(
    pid: nat,
    startTime: nat,
    executable: Option<string>,
    argvDigest: Option<string>,
    uid: Option<nat>,
    group: Option<nat>,
    leader: Option<nat>,
    tty: Option<string>,
    parentDigest: Option<string>)

  datatype Target =
    | OnProcess(process: Process)
    | OnMultiplexer(provider: string, server: string, pane: string, process: Process,
                    session: Option<string>, context: Option<string>, chrome: Option<string>,
                    needsRevalidation: bool)

  datatype Grounds = RestartRevalidation | Other(text: string)

  datatype Lifecycle =
    | Registered | Observing | Paused | Recovering(fingerprint: string)
    | Waiting(until: nat, reason: string) | NeedsHuman(grounds: Grounds)
    | TargetTerminated | Stopped(reason: string)

  datatype Schedule = Schedule(
    nextDue: nat,
    lastCheck: Option<nat>,
    wakePending: bool,
    sequence: nat,
    lastWake: Option<string>,
    lastWakeDone: Option<nat>,
    herdrAfter: nat,
    screenFingerprint: Option<string>,
    screenCount: nat)

  const DEFAULT_SCHEDULE := Schedule(0, None, false, 0, None, None, 0, None, 0)

  datatype Watcher = Watcher(
    id: string,
    target: Target,
    lifecycle: Lifecycle,
    revision: nat,
    updatedAt: nat,
    recovery: Option<SM.Machine>,
    schedule: Schedule,
    lastObservation: Option<Event>,
    claude: Option<string>,
    codex: Option<string>)

  const U64_MAX := 18_446_744_073_709_551_615
  const U8_MAX := 255
  const WAKE_COOLDOWN_MS := 60_000

  datatype Refusal =
    | Unknown | IdCollision | RevisionOverflow | MissingRecovery | BadCommand(verdict: SM.Verdict)
    | BadFingerprint | WriteFailed

  // ----- comparing targets

  predicate NeedsRevalidation(t: Target) {
    t.OnMultiplexer? && t.needsRevalidation
  }

  predicate SameProcess(a: Target, b: Target) {
    a.process.pid == b.process.pid && a.process.startTime == b.process.startTime
  }

  predicate SameTarget(a: Target, b: Target) {
    && SameProcess(a, b)
    && a.OnProcess? == b.OnProcess?
    && (a.OnMultiplexer? && b.OnMultiplexer? ==>
          a.provider == b.provider && a.server == b.server && a.pane == b.pane)
  }

  predicate Richer(was: Target, anew: Target) {
    was.OnProcess? && anew.OnMultiplexer? && anew.context.Some? && !anew.needsRevalidation
  }

  predicate Compatible(was: Option<string>, anew: Option<string>) {
    was.None? || anew.None? || was == anew
  }

  // ----- edits to one watcher

  datatype Edit =
    | Transition(lifecycle: Lifecycle)
    | Retarget(process: Process)
    | SetRecovery(machine: SM.Machine)
    | Recover(command: SM.Command)
    | SetSchedule(schedule: Schedule)
    | SetEvent(event: Event)
    | CompleteObservation(seen: Option<Event>)
    | CommitObservation(schedule: Schedule, seen: Option<Event>)

  function Woken(s: Schedule, now: nat): Schedule {
    s.(lastWakeDone := if s.wakePending then Some(now) else s.lastWakeDone, wakePending := false)
  }

  /** A Claude limit reported by a hook after the menu it answers was already handled. */
  predicate FreshLimitAfterMenu(m: SM.Machine, e: Event) {
    && m.state.Recovered?
    && e.source.kind.Hook? && e.source.sourceId.ClaudeStopFailure?
    && e.policyHint.WaitAllowed? && ClaudeResetAt in e.metadata
    && m.current != Some(e.fingerprint)
  }

  predicate Rearms(m: SM.Machine, lifecycle: Lifecycle, e: Event) {
    && m.state.Recovered?
    && ((lifecycle.Waiting? && (e.Flagged(ClaudeResume) || e.Flagged(CodexResume)))
        || FreshLimitAfterMenu(m, e))
  }

  predicate ScreenStable(s: Schedule, e: Event) {
    !e.source.kind.ScreenDetection? || s.screenCount >= 2
  }

  predicate Confirms(m: SM.Machine, s: Schedule, e: Event) {
    IsActionable(e.category) && ScreenStable(s, e) && m.state.Observing?
  }

  function Tell(m: SM.Machine, c: SM.Command): Result<SM.Machine, Refusal> {
    if SM.Judge(m, c).Accepted? then Ok(SM.Advance(m, c)) else Err(BadCommand(SM.Judge(m, c)))
  }

  /** What a committed event does to a watcher's machine and lifecycle. */
  function Absorb(w: Watcher, m: SM.Machine, e: Event): Result<Watcher, Refusal> {
    var first := if m.state.NeedsRevalidation? then Tell(m, SM.Revalidated) else Ok(m);
    if first.Err? then Err(first.error)
    else
      var lifecycle := if m.state.NeedsRevalidation? then Observing else w.lifecycle;
      var second := if Rearms(first.value, lifecycle, e) then Tell(first.value, SM.RearmAfterWait) else first;
      if second.Err? then Err(second.error)
      else
        var third := if Confirms(second.value, w.schedule, e) then Tell(second.value, SM.Confirm(e.fingerprint))
                     else second;
        if third.Err? then Err(third.error)
        else Ok(w.(recovery := Some(third.value), lifecycle := lifecycle))
  }

  /** The edited watcher, before its revision is raised. */
  function Edited(w: Watcher, edit: Edit, now: nat): Result<Watcher, Refusal> {
    match edit
    case Transition(lifecycle) => Ok(w.(lifecycle := lifecycle))
    case Retarget(process) => Ok(w.(target := w.target.(process := process)))
    case SetRecovery(machine) => Ok(w.(recovery := Some(machine)))
    case Recover(command) =>
      if w.recovery.None? then Err(MissingRecovery)
      else
        var m := Tell(w.recovery.value, command);
        if m.Ok? then Ok(w.(recovery := Some(m.value))) else Err(m.error)
    case SetSchedule(schedule) => Ok(w.(schedule := schedule))
    case SetEvent(event) => Ok(w.(lastObservation := Some(event)))
    case CompleteObservation(seen) =>
      Ok(w.(lastObservation := if seen.Some? then seen else w.lastObservation, schedule := Woken(w.schedule, now)))
    case CommitObservation(schedule, seen) =>
      var scheduled := w.(schedule := Woken(schedule, now));
      if seen.None? then Ok(scheduled)
      else if w.recovery.None? then Ok(scheduled.(lastObservation := seen))
      else
        var absorbed := Absorb(scheduled, w.recovery.value, seen.value);
        if absorbed.Ok? then Ok(absorbed.value.(lastObservation := seen)) else absorbed
  }

  function Raised(w: Watcher, now: nat): Result<Watcher, Refusal> {
    if w.revision >= U64_MAX then Err(RevisionOverflow) else Ok(w.(revision := w.revision + 1, updatedAt := now))
  }

  /** The watcher an edit asks the store to write. */
  function Proposed(w: Watcher, edit: Edit, now: nat): Result<Watcher, Refusal> {
    var edited := Edited(w, edit, now);
    if edited.Err? then edited else Raised(edited.value, now)
  }

  // ----- registering again

  predicate Upgrades(was: Watcher, anew: Watcher) {
    || (was.codex.None? && anew.codex.Some?)
    || (was.claude.None? && anew.claude.Some?)
  }

  predicate Replayed(w: Watcher) {
    w.lifecycle == NeedsHuman(RestartRevalidation)
  }

  predicate Promotes(was: Watcher, anew: Watcher) {
    Richer(was.target, anew.target) || Upgrades(was, anew)
  }

  predicate WorthRefreshing(was: Watcher, anew: Watcher) {
    || Promotes(was, anew)
    || (NeedsRevalidation(was.target) && !NeedsRevalidation(anew.target))
    || Replayed(was)
  }

  predicate Attachable(was: Watcher, anew: Watcher) {
    Compatible(was.codex, anew.codex) && Compatible(was.claude, anew.claude)
  }

  function Refreshed(was: Watcher, anew: Watcher): Watcher {
    var moved := was.(target := anew.target);
    if Promotes(was, anew) then
      moved.(lifecycle := Registered, recovery := None, lastObservation := None,
             schedule := was.schedule.(wakePending := true),
             codex := if anew.codex.Some? then anew.codex else was.codex,
             claude := if anew.claude.Some? then anew.claude else was.claude)
    else if Replayed(was) then moved.(lifecycle := Registered, recovery := anew.recovery)
    else moved
  }

  // ----- what edits keep

  /** A multiplexer target stays one, attachments stay what they are, the revision does not fall. */
  predicate Kept(a: Watcher, b: Watcher) {
    && a.id == b.id
    && (a.target.OnMultiplexer? ==> b.target.OnMultiplexer?)
    && (a.codex.Some? ==> b.codex == a.codex)
    && (a.claude.Some? ==> b.claude == a.claude)
    && a.revision <= b.revision
  }

  lemma AbsorbAccepts(w: Watcher, m: SM.Machine, e: Event)
    ensures Absorb(w, m, e).Ok?
    ensures var after := Absorb(w, m, e).value;
      && after.recovery.Some?
      && after == w.(recovery := after.recovery, lifecycle := after.lifecycle)
      && (after.recovery.value.state.Confirmed? && !m.state.Confirmed? ==>
            after.recovery.value.current == Some(e.fingerprint)
            && IsActionable(e.category) && ScreenStable(w.schedule, e))
  {
  }

  /** Committing an observation is refused only when the revision counter is full. */
  lemma CommitNeverIllegal(w: Watcher, schedule: Schedule, seen: Option<Event>, now: nat)
    ensures var p := Proposed(w, CommitObservation(schedule, seen), now);
      if w.revision < U64_MAX then p.Ok? else p == Err(RevisionOverflow)
  {
    if seen.Some? && w.recovery.Some? {
      AbsorbAccepts(w.(schedule := Woken(schedule, now)), w.recovery.value, seen.value);
      hide Absorb;
    }
  }

  /** A machine a commit confirms holds the committed event's fingerprint, on stable evidence. */
  lemma CommitConfirmsItsEvent(w: Watcher, schedule: Schedule, seen: Option<Event>, now: nat)
    requires Proposed(w, CommitObservation(schedule, seen), now).Ok?
    requires w.recovery.Some? && !w.recovery.value.state.Confirmed?
    ensures var after := Proposed(w, CommitObservation(schedule, seen), now).value;
      after.recovery.Some? && (after.recovery.value.state.Confirmed? ==>
        && seen.Some? && after.lastObservation == seen
        && after.recovery.value.current == Some(seen.value.fingerprint)
        && IsActionable(seen.value.category) && ScreenStable(schedule, seen.value))
  {
    if seen.Some? {
      AbsorbAccepts(w.(schedule := Woken(schedule, now)), w.recovery.value, seen.value);
      hide Absorb;
    }
  }

  lemma EditKeeps(w: Watcher, edit: Edit, now: nat)
    requires Proposed(w, edit, now).Ok?
    ensures var after := Proposed(w, edit, now).value;
      && Kept(w, after) && after.revision == w.revision + 1
      && (!edit.Retarget? ==> after.target == w.target)
  {
    if edit.CommitObservation? && edit.seen.Some? && w.recovery.Some? {
      AbsorbAccepts(w.(schedule := Woken(edit.schedule, now)), w.recovery.value, edit.seen.value);
      hide Absorb;
    }
  }

  lemma RefreshKeeps(was: Watcher, anew: Watcher)
    requires Attachable(was, anew)
    requires SameTarget(was.target, anew.target) || (SameProcess(was.target, anew.target) && Richer(was.target, anew.target))
    ensures Kept(was, Refreshed(was, anew)) && SameProcess(was.target, Refreshed(was, anew).target)
    ensures Refreshed(was, anew).revision == was.revision
  {
  }
}
