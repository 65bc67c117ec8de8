/** Screen evidence must be seen twice: the observation loop's counter against the events it committed. */
module Debounce {
  import opened Wrappers
  import opened Model
  import opened Watchers
  import opened Registry
  import Edits
  import Restarts
  import Protocol
  import SM = StateMachine

  predicate IsScreen(seen: Option<Event>) {
    seen.Some? && seen.value.source.kind.ScreenDetection?
  }

  /** The schedule the loop commits with an event it observed. */
  function Counted(s: Schedule, seen: Option<Event>): Schedule {
    if !IsScreen(seen) then s
    else if !IsActionable(seen.value.category) then s.(screenFingerprint := None, screenCount := 0)
    else if s.screenFingerprint == Some(seen.value.fingerprint) then
      s.(screenCount := Min(s.screenCount + 1, U8_MAX))
    else s.(screenFingerprint := Some(seen.value.fingerprint), screenCount := 1)
  }

  // ----- what the counter should say

  /** How many of the last events in a row are actionable and show `f`. */
  function Streak(screens: seq<Event>, f: string): nat
    decreases |screens|
  {
    if screens == [] then 0
    else
      var last := screens[|screens| - 1];
      if IsActionable(last.category) && last.fingerprint == f then 1 + Streak(screens[..|screens| - 1], f) else 0
  }

  predicate CountsStreak(s: Schedule, screens: seq<Event>) {
    if screens == [] || !IsActionable(screens[|screens| - 1].category) then
      s.screenFingerprint.None? && s.screenCount == 0
    else
      var f := screens[|screens| - 1].fingerprint;
      s.screenFingerprint == Some(f) && s.screenCount == Min(Streak(screens, f), U8_MAX)
  }

  lemma CountedCounts(s: Schedule, screens: seq<Event>, seen: Option<Event>)
    requires CountsStreak(s, screens) && IsScreen(seen)
    ensures CountsStreak(Counted(s, seen), screens + [seen.value])
  {
    var more := screens + [seen.value];
    var f := seen.value.fingerprint;
    assert more[..|more| - 1] == screens;
    if screens != [] && screens[|screens| - 1].fingerprint != f {
      assert Streak(screens, f) == 0;
    }
  }

  // ----- runs of the loop for one watcher, with lost writes and restarts that may not come up

  /** The watcher and the screen events committed for it, in memory or on disk. */
  datatype Side = Side(watcher: Watcher, screens: seq<Event>)

  datatype Loop = Loop(memory: Side, disk: Side, up: bool)

  datatype Tick =
    /** The loop re-times the schedule, observes and commits. */
    | Observe(seen: Option<Event>, timing: Schedule, now: nat, w: Protocol.Write)
    | Elsewhere(edit: Edit, now: nat, w: Protocol.Write)
    | Promote(anew: Watcher, w: Protocol.Write)
    | Restart(w: Protocol.Write)

  predicate SameScreen(a: Schedule, b: Schedule) {
    a.screenFingerprint == b.screenFingerprint && a.screenCount == b.screenCount
  }

  /** Only the loop itself counts screens; a wake rewrites the other fields. */
  predicate Possible(l: Loop, t: Tick) {
    match t
    case Observe(_, timing, _, _) => l.up && SameScreen(timing, l.memory.watcher.schedule)
    case Elsewhere(edit, _, _) =>
      l.up && !edit.CommitObservation? && (edit.SetSchedule? ==> SameScreen(edit.schedule, l.memory.watcher.schedule))
    case Promote(_, _) => l.up
    case Restart(_) => true
  }

  function Offer(l: Loop, t: Tick): Result<Side, Refusal> {
    var m := l.memory;
    match t
    case Observe(seen, timing, now, _) =>
      var next := Proposed(m.watcher, CommitObservation(Counted(timing, seen), seen), now);
      if next.Err? then Err(next.error)
      else Ok(Side(next.value, if IsScreen(seen) then m.screens + [seen.value] else m.screens))
    case Elsewhere(edit, now, _) =>
      var next := Proposed(m.watcher, edit, now);
      if next.Err? then Err(next.error) else Ok(m.(watcher := next.value))
    case Promote(anew, _) =>
      var next := Raised(Refreshed(m.watcher, anew), anew.updatedAt);
      if next.Err? then Err(next.error) else Ok(m.(watcher := next.value))
    case Restart(_) =>
      var next := Replay(l.disk.watcher);
      if next.Err? then Err(next.error) else Ok(l.disk.(watcher := next.value))
  }

  function Apply(l: Loop, t: Tick): Loop {
    var offer := Offer(l, t);
    if offer.Err? then l.(up := l.up && !t.Restart?)
    else if t.Restart? then
      var found := if t.w.LostAbsent? then l.disk else offer.value;
      Loop(found, found, t.w.Durable?)
    else
      l.(memory := if t.w.Durable? then offer.value else l.memory,
         disk := if t.w.LostAbsent? then l.disk else offer.value)
  }

  predicate Runs(l: Loop, ts: seq<Tick>)
    decreases |ts|
  {
    ts == [] || (Possible(l, ts[0]) && Runs(Apply(l, ts[0]), ts[1..]))
  }

  function End(l: Loop, ts: seq<Tick>): Loop
    decreases |ts|
  {
    if ts == [] then l else End(Apply(l, ts[0]), ts[1..])
  }

  predicate Counts(l: Loop) {
    && CountsStreak(l.memory.watcher.schedule, l.memory.screens)
    && CountsStreak(l.disk.watcher.schedule, l.disk.screens)
  }

  lemma CommitStores(w: Watcher, schedule: Schedule, seen: Option<Event>, now: nat)
    requires Proposed(w, CommitObservation(schedule, seen), now).Ok?
    ensures Proposed(w, CommitObservation(schedule, seen), now).value.schedule == Woken(schedule, now)
  {
    if seen.Some? && w.recovery.Some? {
      AbsorbAccepts(w.(schedule := Woken(schedule, now)), w.recovery.value, seen.value);
      hide Absorb;
    }
  }

  lemma OtherEditsLeaveScreen(w: Watcher, edit: Edit, now: nat)
    requires !edit.CommitObservation? && (edit.SetSchedule? ==> SameScreen(edit.schedule, w.schedule))
    requires Proposed(w, edit, now).Ok?
    ensures SameScreen(Proposed(w, edit, now).value.schedule, w.schedule)
  {
  }

  lemma OfferCounts(l: Loop, t: Tick)
    requires Counts(l) && Possible(l, t) && Offer(l, t).Ok?
    ensures CountsStreak(Offer(l, t).value.watcher.schedule, Offer(l, t).value.screens)
  {
    hide Streak;
    match t
    case Observe(seen, timing, now, _) =>
      CommitStores(l.memory.watcher, Counted(timing, seen), seen, now);
      if IsScreen(seen) {
        CountedCounts(timing, l.memory.screens, seen);
      }
      hide Proposed, Counted;
    case Elsewhere(edit, now, _) =>
      OtherEditsLeaveScreen(l.memory.watcher, edit, now);
      hide Proposed;
    case Promote(_, _) =>
    case Restart(_) =>
  }

  lemma {:induction false} RunCounts(l: Loop, ts: seq<Tick>)
    requires Counts(l) && Runs(l, ts)
    ensures Counts(End(l, ts))
    decreases |ts|
  {
    hide CountsStreak, Offer, Possible;
    if ts != [] {
      if Offer(l, ts[0]).Ok? {
        OfferCounts(l, ts[0]);
      }
      RunCounts(Apply(l, ts[0]), ts[1..]);
    }
  }

  predicate Starts(l: Loop) {
    && l.memory == l.disk && l.memory.screens == []
    && SameScreen(l.memory.watcher.schedule, DEFAULT_SCHEDULE)
  }

  /** The counter always equals the run of equal actionable screens at the end of what was committed. */
  lemma CounterIsTheStreak(l: Loop, ts: seq<Tick>)
    requires Starts(l) && Runs(l, ts)
    ensures CountsStreak(End(l, ts).memory.watcher.schedule, End(l, ts).memory.screens)
  {
    RunCounts(l, ts);
  }

  /** The last two committed screen events are actionable and show `f`. */
  predicate SeenTwice(screens: seq<Event>, f: string) {
    && |screens| >= 2
    && (forall i :: |screens| - 2 <= i < |screens| ==> IsActionable(screens[i].category) && screens[i].fingerprint == f)
  }

  lemma StreakOfTwo(screens: seq<Event>, f: string)
    requires Streak(screens, f) >= 2
    ensures SeenTwice(screens, f)
  {
    var n := |screens|;
    assert Streak(screens[..n - 1], f) >= 1;
    assert screens[..n - 1][n - 2] == screens[n - 2];
  }

  /** A screen event confirms recovery only if the last two committed screens agree on it. */
  lemma ScreenConfirmsOnlyTwice(l: Loop, ts: seq<Tick>, t: Tick)
    requires Starts(l) && Runs(l, ts)
    requires t.Observe? && Possible(End(l, ts), t) && IsScreen(t.seen)
    requires var m := End(l, ts).memory.watcher.recovery; m.Some? && !m.value.state.Confirmed?
    requires Offer(End(l, ts), t).Ok?
    ensures var after := Offer(End(l, ts), t).value;
      after.watcher.recovery.Some? && (after.watcher.recovery.value.state.Confirmed? ==>
        && after.watcher.recovery.value.current == Some(t.seen.value.fingerprint)
        && SeenTwice(after.screens, t.seen.value.fingerprint))
  {
    var now := End(l, ts);
    RunCounts(l, ts);
    var schedule := Counted(t.timing, t.seen);
    CommitConfirmsItsEvent(now.memory.watcher, schedule, t.seen, t.now);
    CountedCounts(t.timing, now.memory.screens, t.seen);
    var after := Offer(now, t).value;
    hide Proposed, Counted, Streak, Runs, End;
    if after.watcher.recovery.value.state.Confirmed? {
      StreakOfTwo(after.screens, t.seen.value.fingerprint);
    }
  }

  /** And it does confirm: the second equal screen in a row, once stored, on a machine that is watching. */
  lemma SecondScreenConfirms(l: Loop, ts: seq<Tick>, t: Tick)
    requires Starts(l) && Runs(l, ts)
    requires t.Observe? && Possible(End(l, ts), t) && IsScreen(t.seen) && t.w.Durable?
    requires var w := End(l, ts).memory.watcher;
      w.revision < U64_MAX && w.recovery.Some? && w.recovery.value.state in {SM.Observing, SM.NeedsRevalidation}
    requires SeenTwice(End(l, ts).memory.screens + [t.seen.value], t.seen.value.fingerprint)
    ensures var after := Apply(End(l, ts), t);
      && after.memory == after.disk && after.memory.screens == End(l, ts).memory.screens + [t.seen.value]
      && after.memory.watcher.recovery.Some?
      && after.memory.watcher.recovery.value.state == SM.Confirmed
      && after.memory.watcher.recovery.value.current == Some(t.seen.value.fingerprint)
  {
    var now := End(l, ts);
    RunCounts(l, ts);
    var screens, f := now.memory.screens, t.seen.value.fingerprint;
    var more, schedule := screens + [t.seen.value], Counted(t.timing, t.seen);
    CountedCounts(t.timing, screens, t.seen);
    TwoIsAStreak(more, f);
    Edits.CommitExactly(now.memory.watcher, schedule, t.seen, t.now);
    hide Proposed, Counted, Streak, Runs, End;
  }

  lemma TwoIsAStreak(screens: seq<Event>, f: string)
    requires SeenTwice(screens, f)
    ensures Streak(screens, f) >= 2
  {
    var n := |screens|;
    assert screens[..n - 1][n - 2] == screens[n - 2];
    assert Streak(screens[..n - 1], f) >= 1;
  }

  /** What a tick leaves in memory and on disk, by how its write fared. */
  lemma TickExactly(l: Loop, t: Tick)
    ensures var after, offer := Apply(l, t), Offer(l, t);
      if offer.Err? then after.memory == l.memory && after.disk == l.disk && (after.up <==> l.up && !t.Restart?)
      else
        match t.w
        case Durable => after.memory == offer.value && after.disk == offer.value && (after.up <==> l.up || t.Restart?)
        case LostPresent =>
          && after.disk == offer.value && after.memory == (if t.Restart? then offer.value else l.memory)
          && (after.up <==> l.up && !t.Restart?)
        case LostAbsent =>
          && after.disk == l.disk && after.memory == (if t.Restart? then l.disk else l.memory)
          && (after.up <==> l.up && !t.Restart?)
  {
    hide Offer;
  }

  /** Only an observed screen is added to the screens; a restart goes back to those on disk, a renewal forgets none. */
  lemma OfferExactly(l: Loop, t: Tick)
    requires Offer(l, t).Ok?
    ensures var offer := Offer(l, t).value;
      && offer.screens == (if t.Restart? then l.disk.screens
                           else l.memory.screens + if t.Observe? && IsScreen(t.seen) then [t.seen.value] else [])
      && (t.Restart? ==> Restarts.Replays(l.disk.watcher, offer.watcher))
      && (t.Promote? && Attachable(l.memory.watcher, t.anew) ==> Edits.Renewed(l.memory.watcher, t.anew, offer.watcher))
      && (t.Elsewhere? ==> Proposed(l.memory.watcher, t.edit, t.now) == Ok(offer.watcher))
  {
    match t
    case Observe(_, _, _, _) => hide Proposed;
    case Elsewhere(_, _, _) => hide Proposed;
    case Promote(_, _) =>
    case Restart(_) =>
      Restarts.ReplayExactly(l.disk.watcher);
      hide Replay;
  }

  /** While it is up the loop can observe anything at any time, and the daemon can restart whenever it likes. */
  lemma PossibleExactly(l: Loop, t: Tick)
    ensures t.Observe? ==>
      (Possible(l, t) <==>
         && l.up
         && t.timing.screenFingerprint == l.memory.watcher.schedule.screenFingerprint
         && t.timing.screenCount == l.memory.watcher.schedule.screenCount)
    ensures t.Restart? ==> Possible(l, t)
    ensures t.Promote? ==> (Possible(l, t) <==> l.up)
  {
  }
}
