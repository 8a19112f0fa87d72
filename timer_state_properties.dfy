/**
 * What `advanceTimerBySeconds` and `applySkipTransition` promise: idle
 * snapshots are fixed points, a replay settles in one of three ways,
 * replaying in pieces is replaying at once, and the snapshot invariant is
 * kept by both operations.
 */
module TimerStateProperties {
  import opened JsValues
  import opened TimerConfigs
  import opened TimerState

  /**
   * How a replay ends: still running (with no pending transition and no
   * negative time), held at a boundary whose flag is off (with the transition
   * that boundary leads to), or finished.
   */
  ghost predicate Settled(c: TimerConfig, r: TimerSnapshot) {
    || (r.status == Running && r.pending.None? && r.remaining >= 0)
    || (r.status == Holding && r.pending.Some? && r.remaining <= 0
        && CrossBoundary(c, r.phase, r.setIndex) == Hold(r.pending.value))
    || r == Finished(r.setIndex)
  }

  lemma {:induction false} ReplaySettles(c: TimerConfig, phase: Phase, setIndex: int, remaining: int, left: int)
    requires left > 0
    ensures var r := Replay(c, phase, setIndex, remaining, left);
      && Settled(c, r)
      && setIndex <= r.setIndex
      && (setIndex <= c.sets ==> r.setIndex <= c.sets)
      && (r.status in {Running, Holding} ==> r.phase in {phase, Exercise, Rest})
      && (IsValidConfig(c) && remaining >= 0 ==> r.remaining >= 0)
    decreases left, Rank(c, phase, setIndex), 1
  {
    if remaining > 0 && left <= remaining {
    } else if remaining > 0 {
      ResolveSettles(c, phase, setIndex, 0, left - remaining);
    } else {
      ResolveSettles(c, phase, setIndex, remaining, left);
    }
  }

  lemma {:induction false} ResolveSettles(c: TimerConfig, phase: Phase, setIndex: int, remaining: int, left: int)
    requires left > 0 && remaining <= 0
    ensures var r := Resolve(c, phase, setIndex, remaining, left);
      && Settled(c, r)
      && setIndex <= r.setIndex
      && (setIndex <= c.sets ==> r.setIndex <= c.sets)
      && (r.status == Running ==> r.phase in {Exercise, Rest})
      && (r.status == Holding ==> r.phase in {phase, Exercise, Rest})
      && (IsValidConfig(c) && remaining == 0 ==> r.remaining >= 0)
    decreases left, Rank(c, phase, setIndex), 0
  {
    match CrossBoundary(c, phase, setIndex)
    case Finish =>
    case Hold(next) =>
    case Proceed(next) =>
      ReplaySettles(c, next.phase, next.setIndex, next.remaining, left);
  }

  /**
   * One call of `advanceTimerBySeconds` that acts (time elapsed, timer
   * running) ends running, holding or done; a pending transition is present
   * exactly when it holds; the set index never goes back and does not pass
   * the number of sets if it started within it.
   */
  lemma AdvanceSettles(s: TimerSnapshot, c: TimerConfig, elapsed: int)
    requires elapsed > 0 && s.status == Running
    ensures var r := Advance(s, c, elapsed);
      && Settled(c, r)
      && (r.pending.Some? <==> r.status == Holding)
      && s.setIndex <= r.setIndex
      && (s.setIndex <= c.sets ==> r.setIndex <= c.sets)
  {
    ReplaySettles(c, s.phase, s.setIndex, if s.remaining < 0 then 0 else s.remaining, elapsed);
  }

  /** A snapshot that is not running, or no elapsed time, is left exactly as it is. */
  lemma AdvanceIdleIsIdentity(s: TimerSnapshot, c: TimerConfig, elapsed: int)
    requires elapsed <= 0 || s.status != Running
    ensures Advance(s, c, elapsed) == s
  {
  }

  /**
   * Within one phase: a budget short of the remaining time only counts it
   * down; a budget equal to it stops at zero, still running, with the
   * boundary not yet resolved.
   */
  lemma AdvanceWithinPhase(s: TimerSnapshot, c: TimerConfig, elapsed: int)
    requires s.status == Running && 0 < elapsed <= s.remaining
    ensures Advance(s, c, elapsed) ==
      TimerSnapshot(s.phase, s.setIndex, s.remaining - elapsed, Running, None)
    ensures elapsed == s.remaining ==> Advance(s, c, elapsed).remaining == 0
  {
  }

  /**
   * Past the end of the last exercise, or of the rest after the last set,
   * the replay finishes the workout; past an exercise or rest whose
   * auto-advance flag is off it holds with the next phase pending, and the
   * seconds it did not use are dropped. Otherwise the seconds left over go on
   * into the next phase: the exercise after prep, the same set's rest after
   * an exercise (the next set's exercise when there are no rests), and the
   * next set's exercise after a rest.
   */
  lemma AdvancePastBoundary(s: TimerSnapshot, c: TimerConfig, elapsed: int)
    requires s.status == Running && s.remaining >= 0 && elapsed > s.remaining
    ensures s.phase == Prep ==>
      Advance(s, c, elapsed) == Replay(c, Exercise, s.setIndex, c.exerciseSeconds, elapsed - s.remaining)
    ensures s.phase == Exercise && s.setIndex < c.sets && c.exerciseAutoAdvance ==>
      Advance(s, c, elapsed) ==
        if c.restSeconds > 0 then Replay(c, Rest, s.setIndex, c.restSeconds, elapsed - s.remaining)
        else Replay(c, Exercise, s.setIndex + 1, c.exerciseSeconds, elapsed - s.remaining)
    ensures s.phase == Rest && s.setIndex + 1 <= c.sets && c.restAutoAdvance ==>
      Advance(s, c, elapsed) == Replay(c, Exercise, s.setIndex + 1, c.exerciseSeconds, elapsed - s.remaining)
    ensures s.phase == Exercise && s.setIndex >= c.sets ==> Advance(s, c, elapsed) == Finished(s.setIndex)
    ensures s.phase == Rest && s.setIndex + 1 > c.sets ==> Advance(s, c, elapsed) == Finished(s.setIndex)
    ensures s.phase == Exercise && s.setIndex < c.sets && !c.exerciseAutoAdvance ==>
      Advance(s, c, elapsed) == TimerSnapshot(Exercise, s.setIndex, 0, Holding, Some(AfterExercise(c, s.setIndex)))
    ensures s.phase == Rest && s.setIndex + 1 <= c.sets && !c.restAutoAdvance ==>
      Advance(s, c, elapsed) ==
        TimerSnapshot(Rest, s.setIndex, 0, Holding, Some(PendingTransition(Exercise, s.setIndex + 1, c.exerciseSeconds)))
  {
    assert Advance(s, c, elapsed) == Resolve(c, s.phase, s.setIndex, 0, elapsed - s.remaining);
  }

  // ---------------------------------------------------------------------
  // Replaying in pieces

  lemma {:induction false} ReplayAdditive(c: TimerConfig, phase: Phase, setIndex: int, remaining: int, a: int, b: int)
    requires a > 0 && b >= 0
    ensures Advance(Replay(c, phase, setIndex, remaining, a), c, b) == Replay(c, phase, setIndex, remaining, a + b)
    decreases a, Rank(c, phase, setIndex), 1
  {
    if remaining > 0 && a <= remaining {
      if b > 0 {
        var r := Replay(c, phase, setIndex, remaining, a);
        assert Advance(r, c, b) == Replay(c, phase, setIndex, remaining - a, b);
      }
    } else if remaining > 0 {
      ResolveAdditive(c, phase, setIndex, 0, a - remaining, b);
    } else {
      ResolveAdditive(c, phase, setIndex, remaining, a, b);
    }
  }

  lemma {:induction false} ResolveAdditive(c: TimerConfig, phase: Phase, setIndex: int, remaining: int, a: int, b: int)
    requires a > 0 && b >= 0 && remaining <= 0
    ensures Advance(Resolve(c, phase, setIndex, remaining, a), c, b) == Resolve(c, phase, setIndex, remaining, a + b)
    decreases a, Rank(c, phase, setIndex), 0
  {
    match CrossBoundary(c, phase, setIndex)
    case Finish =>
    case Hold(next) =>
    case Proceed(next) =>
      ReplayAdditive(c, next.phase, next.setIndex, next.remaining, a, b);
  }

  /**
   * Replaying `a` seconds and then `b` seconds is replaying `a + b` seconds:
   * the clock can be sampled at any granularity, in the foreground or by a
   * background replay, without changing where the timer ends up.
   */
  lemma AdvanceAdditive(s: TimerSnapshot, c: TimerConfig, a: int, b: int)
    requires a >= 0 && b >= 0
    ensures Advance(Advance(s, c, a), c, b) == Advance(s, c, a + b)
  {
    if a > 0 && s.status == Running {
      ReplayAdditive(c, s.phase, s.setIndex, if s.remaining < 0 then 0 else s.remaining, a, b);
    }
  }

  // ---------------------------------------------------------------------
  // The snapshot invariant

  /** Replaying elapsed time keeps the snapshot invariant, with or without a finished timer's zero. */
  lemma AdvancePreservesWellFormed(s: TimerSnapshot, c: TimerConfig, elapsed: int)
    ensures Consistent(s, c) ==> Consistent(Advance(s, c, elapsed), c)
    ensures WellFormed(s, c) ==> WellFormed(Advance(s, c, elapsed), c)
  {
    if elapsed > 0 && s.status == Running {
      ReplaySettles(c, s.phase, s.setIndex, if s.remaining < 0 then 0 else s.remaining, elapsed);
    }
  }

  /** Skipping keeps the snapshot invariant, and never produces a hold. */
  lemma SkipPreservesWellFormed(s: TimerSnapshot, c: TimerConfig)
    requires WellFormed(s, c)
    ensures WellFormed(Skip(s, c), c)
    ensures Skip(s, c).status in {Running, Status.Done}
  {
  }

  /**
   * From a rest, and from an exercise that is not the last one (or when there
   * are no rests), skipping is crossing the boundary with both auto-advance
   * flags forced on.
   */
  lemma SkipIsForcedBoundary(s: TimerSnapshot, c: TimerConfig)
    requires s.status != Status.Done
    requires s.phase == Rest || (s.phase == Exercise && (s.setIndex < c.sets || c.restSeconds <= 0))
    ensures var forced := c.(exerciseAutoAdvance := true, restAutoAdvance := true);
      Skip(s, c) ==
        match CrossBoundary(forced, s.phase, s.setIndex)
        case Finish => Finished(s.setIndex)
        case Proceed(n) => TimerSnapshot(n.phase, n.setIndex, n.remaining, Running, None)
        case Hold(n) => s
  {
  }

  /**
   * The one place where skipping and the clock disagree: skipping the last
   * set's exercise enters a rest that the clock never reaches, since the
   * workout ends at that exercise's end.
   */
  lemma SkipLastExerciseEntersRest(s: TimerSnapshot, c: TimerConfig)
    requires s.status == Running && s.phase == Exercise && s.setIndex >= c.sets && c.restSeconds > 0
    requires s.remaining >= 0
    ensures Skip(s, c) == TimerSnapshot(Rest, s.setIndex, c.restSeconds, Running, None)
    ensures Advance(s, c, s.remaining + 1) == Finished(s.setIndex)
  {
    AdvancePastBoundary(s, c, s.remaining + 1);
  }

  // ---------------------------------------------------------------------
  // Worked examples

  /**
   * Three sets of 10 s work and 5 s rest, all auto-advancing: 100 s from the
   * start of the first exercise is well past the 40 s the workout lasts.
   */
  lemma CascadingReplayExample()
    ensures var c := TimerConfig(3, 10, 5, true, true);
      Advance(TimerSnapshot(Exercise, 1, 10, Running, None), c, 100) == Finished(3)
  {
    var c := TimerConfig(3, 10, 5, true, true);
    assert Resolve(c, Exercise, 3, 0, 60) == Finished(3);
    assert Replay(c, Exercise, 3, 10, 70) == Finished(3);
    assert Resolve(c, Rest, 2, 0, 70) == Finished(3);
    assert Replay(c, Rest, 2, 5, 75) == Finished(3);
    assert Resolve(c, Exercise, 2, 0, 75) == Finished(3);
    assert Replay(c, Exercise, 2, 10, 85) == Finished(3);
    assert Resolve(c, Rest, 1, 0, 85) == Finished(3);
    assert Replay(c, Rest, 1, 5, 90) == Finished(3);
    assert Resolve(c, Exercise, 1, 0, 90) == Finished(3);
  }

  /**
   * The same workout with exercise auto-advance off: 5 s with 1 s of exercise
   * left holds at the exercise's end with the rest pending; the other 4 s are
   * dropped.
   */
  lemma HoldTruncationExample()
    ensures var c := TimerConfig(3, 10, 5, false, true);
      Advance(TimerSnapshot(Exercise, 1, 1, Running, None), c, 5) ==
        TimerSnapshot(Exercise, 1, 0, Holding, Some(PendingTransition(Rest, 1, 5)))
  {
  }
}
