/**
 * The interval timer's state machine: a snapshot evolved against a
 * configuration, either by replaying elapsed whole seconds
 * (`advanceTimerBySeconds`) or by forcing the next phase (`applySkipTransition`).
 */
module TimerState {
  import opened JsValues
  import opened TimerConfigs

  /** A segment of the workout. Stored records may carry any other name, kept as `OtherPhase`. */
  datatype Phase = Prep | Exercise | Rest | Done | OtherPhase(name: string)

  /** Whether the clock advances. Stored records may carry any other name, kept as `OtherStatus`. */
  datatype Status = Running | Paused | Holding | Done | OtherStatus(name: string)

  /** What a held timer moves to when the user continues. */
  datatype PendingTransition = PendingTransition(phase: Phase, setIndex: int, remaining: int)

  datatype TimerSnapshot = TimerSnapshot(
    phase: Phase,
    setIndex: int,
    remaining: int,
    status: Status,
    pending: Option<PendingTransition>)

  /** The terminal snapshot reached from set `setIndex`. */
  function Finished(setIndex: int): TimerSnapshot {
    TimerSnapshot(Phase.Done, setIndex, 0, Status.Done, None)
  }

  /**
   * The invariant of every snapshot the timer produces from a valid
   * configuration, except that a finished snapshot's remaining time is left
   * free (see `WellFormed`).
   */
  ghost predicate Consistent(s: TimerSnapshot, c: TimerConfig) {
    && IsValidConfig(c)
    && 1 <= s.setIndex <= c.sets
    && s.remaining >= 0
    && !s.phase.OtherPhase?
    && !s.status.OtherStatus?
    && (s.pending.Some? <==> s.status == Holding)
    && (s.pending.Some? ==>
          && s.pending.value.phase in {Exercise, Rest}
          && 1 <= s.pending.value.setIndex <= c.sets
          && s.pending.value.remaining >= 1)
    && (s.phase == Phase.Done <==> s.status == Status.Done)
    && (s.status == Holding ==> s.phase in {Exercise, Rest})
  }

  /** `Consistent`, and a finished timer shows no time left. */
  ghost predicate WellFormed(s: TimerSnapshot, c: TimerConfig) {
    Consistent(s, c) && (s.status == Status.Done ==> s.remaining == 0)
  }

  // ---------------------------------------------------------------------
  // Phase boundaries

  /** What a boundary leads to: the end of the workout, the next phase now, or a hold before it. */
  datatype Boundary = Finish | Proceed(next: PendingTransition) | Hold(next: PendingTransition)

  /** The phase after an exercise that is not the last one: its rest, or the next set when there is no rest. */
  function AfterExercise(c: TimerConfig, setIndex: int): PendingTransition {
    if c.restSeconds > 0 then PendingTransition(Rest, setIndex, c.restSeconds)
    else PendingTransition(Exercise, setIndex + 1, c.exerciseSeconds)
  }

  /** How far a phase is from the end of the workout, counted in boundaries (three per set). */
  function Rank(c: TimerConfig, phase: Phase, setIndex: int): nat {
    var setsLeft := if c.sets - setIndex > 0 then c.sets - setIndex else 0;
    match phase
    case Prep => 3 * setsLeft + 2
    case Exercise => 3 * setsLeft + 1
    case Rest => 3 * setsLeft
    case _ => 0
  }

  /**
   * The boundary step shared by the replay loop and the screen's boundary
   * effect: prep always moves on to exercise; an exercise ends the workout
   * on the last set and otherwise leads to `AfterExercise`; a rest leads to
   * the next set's exercise unless that set does not exist; any other phase
   * ends the workout. The phase's auto-advance flag decides between moving on
   * and holding.
   */
  function CrossBoundary(c: TimerConfig, phase: Phase, setIndex: int): (b: Boundary)
    ensures b.Finish? <==>
      || (phase == Exercise && setIndex >= c.sets)
      || (phase == Rest && setIndex + 1 > c.sets)
      || phase !in {Prep, Exercise, Rest}
    ensures b.Hold? <==>
      || (phase == Exercise && setIndex < c.sets && !c.exerciseAutoAdvance)
      || (phase == Rest && setIndex + 1 <= c.sets && !c.restAutoAdvance)
    ensures !b.Finish? ==>
      && b.next.phase in {Exercise, Rest}
      && setIndex <= b.next.setIndex
      && (setIndex <= c.sets ==> b.next.setIndex <= c.sets)
      && Rank(c, b.next.phase, b.next.setIndex) < Rank(c, phase, setIndex)
      && (b.next.phase == Rest ==> b.next.setIndex == setIndex && b.next.remaining == c.restSeconds > 0)
      && (b.next.phase == Exercise ==> b.next.remaining == c.exerciseSeconds)
    ensures phase == Prep ==> b == Proceed(PendingTransition(Exercise, setIndex, c.exerciseSeconds))
    ensures phase == Exercise && setIndex < c.sets ==>
      && !b.Finish?
      && b.next == (if c.restSeconds > 0 then PendingTransition(Rest, setIndex, c.restSeconds)
                    else PendingTransition(Exercise, setIndex + 1, c.exerciseSeconds))
    ensures phase == Rest && setIndex + 1 <= c.sets ==>
      !b.Finish? && b.next == PendingTransition(Exercise, setIndex + 1, c.exerciseSeconds)
  {
    match phase
    case Prep => Proceed(PendingTransition(Exercise, setIndex, c.exerciseSeconds))
    case Exercise =>
      if setIndex >= c.sets then Finish
      else if c.exerciseAutoAdvance then Proceed(AfterExercise(c, setIndex))
      else Hold(AfterExercise(c, setIndex))
    case Rest =>
      var nextSet := setIndex + 1;
      if nextSet > c.sets then Finish
      else if c.restAutoAdvance then Proceed(PendingTransition(Exercise, nextSet, c.exerciseSeconds))
      else Hold(PendingTransition(Exercise, nextSet, c.exerciseSeconds))
    case _ => Finish
  }

  // ---------------------------------------------------------------------
  // Replaying elapsed seconds

  /**
   * The loop of `advanceTimerBySeconds` from a running state with `left > 0`
   * seconds still to consume: the current phase absorbs what it can; the
   * seconds that are left past its end are carried across the boundary.
   */
  function Replay(c: TimerConfig, phase: Phase, setIndex: int, remaining: int, left: int): TimerSnapshot
    requires left > 0
    decreases left, Rank(c, phase, setIndex), 1
  {
    if remaining > 0 && left <= remaining then TimerSnapshot(phase, setIndex, remaining - left, Running, None)
    else if remaining > 0 then Resolve(c, phase, setIndex, 0, left - remaining)
    else Resolve(c, phase, setIndex, remaining, left)
  }

  /** A boundary reached with `left > 0` seconds still to consume. */
  function Resolve(c: TimerConfig, phase: Phase, setIndex: int, remaining: int, left: int): TimerSnapshot
    requires left > 0 && remaining <= 0
    decreases left, Rank(c, phase, setIndex), 0
  {
    match CrossBoundary(c, phase, setIndex)
    case Finish => Finished(setIndex)
    case Hold(next) => TimerSnapshot(phase, setIndex, remaining, Holding, Some(next))
    case Proceed(next) => Replay(c, next.phase, next.setIndex, next.remaining, left)
  }

  /**
   * `advanceTimerBySeconds(snapshot, config, elapsedSeconds)`: nothing happens
   * without elapsed time or when the timer is not running; otherwise any
   * pending transition is dropped, a negative remaining time counts as zero
   * and the seconds are replayed.
   */
  function Advance(s: TimerSnapshot, c: TimerConfig, elapsed: int): TimerSnapshot {
    if elapsed <= 0 || s.status != Running then s
    else Replay(c, s.phase, s.setIndex, if s.remaining < 0 then 0 else s.remaining, elapsed)
  }

  /** `advanceTimerBySeconds`, the loop as the source runs it. */
  method AdvanceBySeconds(snapshot: TimerSnapshot, config: TimerConfig, elapsedSeconds: int)
    returns (r: TimerSnapshot)
    ensures r == Advance(snapshot, config, elapsedSeconds)
  {
    if elapsedSeconds <= 0 { return snapshot; }
    if snapshot.status != Running { return snapshot; }

    var phase, setIndex, remaining := snapshot.phase, snapshot.setIndex, snapshot.remaining;
    var status := snapshot.status;
    var pending := snapshot.pending;
    var secondsLeft := elapsedSeconds;

    if pending.Some? { pending := None; }
    if remaining < 0 { remaining := 0; }

    while secondsLeft > 0 && status == Running
      invariant secondsLeft > 0 && status == Running && pending.None?
      invariant Replay(config, phase, setIndex, remaining, secondsLeft) == Advance(snapshot, config, elapsedSeconds)
      decreases secondsLeft, Rank(config, phase, setIndex)
    {
      if remaining > 0 {
        if secondsLeft < remaining {
          remaining := remaining - secondsLeft;
          secondsLeft := 0;
          break;
        }
        secondsLeft := secondsLeft - remaining;
        remaining := 0;
        if secondsLeft == 0 { break; }
      }

      if phase == Prep {
        phase := Exercise;
        remaining := config.exerciseSeconds;
        continue;
      }

      if phase == Exercise {
        if setIndex >= config.sets {
          phase, status, pending, remaining := Phase.Done, Status.Done, None, 0;
          break;
        }
        var nextPhase :=
          if config.restSeconds > 0 then PendingTransition(Rest, setIndex, config.restSeconds)
          else PendingTransition(Exercise, setIndex + 1, config.exerciseSeconds);
        if config.exerciseAutoAdvance {
          phase, setIndex, remaining := nextPhase.phase, nextPhase.setIndex, nextPhase.remaining;
          continue;
        }
        pending := Some(nextPhase);
        status := Holding;
        break;
      }

      if phase == Rest {
        var nextSet := setIndex + 1;
        if nextSet > config.sets {
          phase, status, pending, remaining := Phase.Done, Status.Done, None, 0;
          break;
        }
        var nextPhase := PendingTransition(Exercise, nextSet, config.exerciseSeconds);
        if config.restAutoAdvance {
          phase, setIndex, remaining := nextPhase.phase, nextPhase.setIndex, nextPhase.remaining;
          continue;
        }
        pending := Some(nextPhase);
        status := Holding;
        break;
      }

      phase, status, pending, remaining := Phase.Done, Status.Done, None, 0;
      break;
    }

    return TimerSnapshot(phase, setIndex, remaining, status, pending);
  }

  // ---------------------------------------------------------------------
  // Skipping

  /**
   * `applySkipTransition`: force the next phase regardless of the
   * auto-advance flags. Prep skips to the first set's exercise; an exercise
   * skips to its rest when rests exist, otherwise like a rest to the next
   * set's exercise or to the end; a finished timer stays as it is.
   */
  function Skip(s: TimerSnapshot, c: TimerConfig): (r: TimerSnapshot)
    ensures s.status == Status.Done ==> r == s
    ensures s.status != Status.Done ==>
      && r.pending.None?
      && (r.status == Running || r == Finished(s.setIndex))
      && (r.status == Running ==> r.phase in {Exercise, Rest})
    ensures s.status != Status.Done && s.phase == Prep ==>
      r == TimerSnapshot(Exercise, 1, c.exerciseSeconds, Running, None)
    ensures s.status != Status.Done && s.phase != Prep ==> r.setIndex >= s.setIndex
  {
    if s.status == Status.Done then s
    else if s.phase == Prep then TimerSnapshot(Exercise, 1, c.exerciseSeconds, Running, None)
    else if s.phase == Exercise && c.restSeconds > 0 then
      TimerSnapshot(Rest, s.setIndex, c.restSeconds, Running, None)
    else
      var nextSet := s.setIndex + 1;
      if nextSet > c.sets then TimerSnapshot(Phase.Done, s.setIndex, 0, Status.Done, None)
      else TimerSnapshot(Exercise, nextSet, c.exerciseSeconds, Running, None)
  }

  /** `isSameConfig`: field-by-field comparison is equality of configurations. */
  function IsSameConfig(a: TimerConfig, b: TimerConfig): (r: bool)
    ensures r <==> a == b
  {
    && a.sets == b.sets
    && a.exerciseSeconds == b.exerciseSeconds
    && a.restSeconds == b.restSeconds
    && a.exerciseAutoAdvance == b.exerciseAutoAdvance
    && a.restAutoAdvance == b.restAutoAdvance
  }
}
