/**
 * The timer screen: the state cells and refs of the screen component, its
 * user commands, the one-second tick that replays wall-clock time, and the
 * effects that resolve a boundary and play beep cues.
 */
module TimerScreen {
  import opened JsValues
  import opened TimerConfigs
  import opened TimerState
  import TimerStateProperties
  import TimerNotifications

  /** Length of the preparation countdown the screen starts with. */
  const PREP_SECONDS: int := 5

  // ---------------------------------------------------------------------
  // The drift-free tick

  /**
   * One tick against the clock anchor `last`: a clock that went backwards
   * only re-anchors; less than a second changes nothing; otherwise the whole
   * seconds are replayed and the anchor moves by exactly those seconds, so
   * the part of a second not yet replayed is carried to the next tick.
   * Returns the new snapshot and the new anchor.
   */
  function TickStep(s: TimerSnapshot, c: TimerConfig, last: int, now: int): (r: (TimerSnapshot, int))
    ensures now < last ==> r == (s, now)
    ensures now >= last ==>
      && last <= r.1 <= now < r.1 + 1000
      && (r.1 - last) % 1000 == 0
      && r.0 == Advance(s, c, (r.1 - last) / 1000)
  {
    var elapsed := now - last;
    if elapsed < 0 then (s, now)
    else if elapsed < 1000 then (s, last)
    else
      var seconds := elapsed / 1000;
      (Advance(s, c, seconds), last + seconds * 1000)
  }

  /** A run of ticks at the instants `times`, from the anchor `last`. */
  function RunTicks(s: TimerSnapshot, c: TimerConfig, last: int, times: seq<int>): (TimerSnapshot, int)
    decreases |times|
  {
    if times == [] then (s, last)
    else
      var step := TickStep(s, c, last, times[0]);
      RunTicks(step.0, c, step.1, times[1..])
  }

  lemma WholeSecondsSplit(total: int, k: int)
    requires total >= 0 && 0 <= k * 1000 <= total
    ensures (total - k * 1000) / 1000 == total / 1000 - k
  {
  }

  /**
   * However the ticks fall, as long as the clock does not go backwards the
   * timer replays exactly the whole seconds between the first anchor and the
   * last tick, and the anchor stays on the first anchor's millisecond grid:
   * no tick loses or double-counts a fraction of a second.
   */
  lemma {:induction false} TicksAreDriftFree(s: TimerSnapshot, c: TimerConfig, last: int, times: seq<int>)
    requires |times| > 0
    requires forall i :: 0 <= i < |times| ==> last <= times[i]
    requires forall i, j :: 0 <= i < j < |times| ==> times[i] <= times[j]
    ensures var k := (times[|times| - 1] - last) / 1000;
      RunTicks(s, c, last, times) == (Advance(s, c, k), last + k * 1000)
    decreases |times|
  {
    var step := TickStep(s, c, last, times[0]);
    var k1 := (step.1 - last) / 1000;
    var total := times[|times| - 1] - last;
    assert step.1 - last == k1 * 1000;
    if |times| == 1 {
      assert total == times[0] - last;
    } else {
      var rest := times[1..];
      assert rest[|rest| - 1] == times[|times| - 1];
      TicksAreDriftFree(step.0, c, step.1, rest);
      var k2 := (rest[|rest| - 1] - step.1) / 1000;
      WholeSecondsSplit(total, k1);
      assert k2 == total / 1000 - k1;
      TimerStateProperties.AdvanceAdditive(s, c, k1, k2);
    }
  }

  // ---------------------------------------------------------------------
  // The boundary effect and the beep cue, as functions of the state

  /**
   * The boundary effect: a running timer at or below zero in prep, exercise
   * or rest takes the boundary step the replay loop takes, except that
   * finishing leaves the remaining time as it is. Anything else is left alone.
   */
  function BoundaryStep(s: TimerSnapshot, c: TimerConfig): (r: TimerSnapshot)
    ensures s.status != Running || s.remaining > 0 || s.phase !in {Prep, Exercise, Rest} ==> r == s
  {
    if s.status != Running || s.remaining > 0 || s.phase !in {Prep, Exercise, Rest} then s
    else match CrossBoundary(c, s.phase, s.setIndex)
      case Finish => s.(phase := Phase.Done, status := Status.Done, pending := None)
      case Proceed(next) => s.(phase := next.phase, setIndex := next.setIndex, remaining := next.remaining)
      case Hold(next) => s.(status := Holding, pending := Some(next))
  }

  /**
   * The effect resolves a boundary the way the replay loop does: from a
   * running snapshot at zero, taking the boundary step and then replaying
   * `k` seconds ends where replaying the `k` seconds directly ends.
   */
  lemma BoundaryEffectAgreesWithReplay(s: TimerSnapshot, c: TimerConfig, k: int)
    requires s.status == Running && s.remaining == 0 && s.phase in {Prep, Exercise, Rest}
    requires IsValidConfig(c) && k > 0
    ensures Advance(BoundaryStep(s, c), c, k) == Advance(s, c, k)
  {
    assert Advance(s, c, k) == Resolve(c, s.phase, s.setIndex, 0, k);
  }

  /**
   * The screen's beep rule: no cue in prep or done or while paused; the
   * countdown cues of a rest and an exercise; a cue with time still left
   * needs a running timer, but a zero cue also plays while holding.
   */
  function ScreenBeepKind(s: TimerSnapshot): (r: Option<TimerNotifications.BeepKind>)
    ensures s.phase in {Prep, Phase.Done} || s.status == Paused ==> r == None
    ensures r.Some? && s.remaining > 0 ==> s.status == Running
  {
    if s.phase == Prep || s.phase == Phase.Done || s.status == Paused then None
    else
      var kind: Option<TimerNotifications.BeepKind> :=
        if s.phase == Rest && (s.remaining == 2 || s.remaining == 1 || s.remaining == 0) then Some(TimerNotifications.Short)
        else if s.phase == Exercise && (s.remaining == 2 || s.remaining == 1) then Some(TimerNotifications.Short)
        else if s.phase == Exercise && s.remaining == 0 then Some(TimerNotifications.Long)
        else None;
      if kind.None? then None
      else if s.remaining > 0 && s.status != Running then None
      else kind
  }

  /**
   * The screen and the background service cue the same beeps while the
   * timer runs; they differ only at zero while holding (and in any unknown
   * status), where the screen still plays its cue.
   */
  lemma BeepRulesAgreeWhileRunning(s: TimerSnapshot)
    ensures s.status == Running ==> ScreenBeepKind(s) == TimerNotifications.GetBeepKind(s)
    ensures s.status == Holding && s.phase == Exercise && s.remaining == 0 ==>
      ScreenBeepKind(s) == Some(TimerNotifications.Long) && TimerNotifications.GetBeepKind(s) == None
  {
  }

  /**
   * The state of the timer screen. `lastTickAt` is the tick clock's anchor
   * (`None` when unset), `lastBeepKey` and `previousRemaining` are the beep
   * effect's memory, and `beeps` records the cues played so far.
   */
  class Screen {
    const config: TimerConfig
    var phase: Phase
    var setIndex: int
    var remaining: int
    var status: Status
    var pending: Option<PendingTransition>
    var lastTickAt: Option<int>
    var lastBeepKey: Option<string>
    var previousRemaining: int
    var beeps: seq<TimerNotifications.BeepKind>

    function Snapshot(): TimerSnapshot
      reads this
    {
      TimerSnapshot(phase, setIndex, remaining, status, pending)
    }

    /** The screen's state is a consistent snapshot of its validated configuration. */
    ghost predicate Valid()
      reads this
    {
      Consistent(Snapshot(), config)
    }

    /**
     * The screen as first shown for a validated configuration at time `now`:
     * preparation countdown of set 1, running, with the tick clock anchored
     * at `now` by the mount effects.
     */
    constructor (config: TimerConfig, now: int)
      requires IsValidConfig(config)
      ensures Valid() && this.config == config
      ensures Snapshot() == TimerSnapshot(Prep, 1, PREP_SECONDS, Running, None)
      ensures lastTickAt == Some(now) && lastBeepKey == None && previousRemaining == PREP_SECONDS && beeps == []
    {
      this.config := config;
      phase := Prep;
      setIndex := 1;
      remaining := PREP_SECONDS;
      status := Running;
      pending := None;
      lastTickAt := Some(now);
      lastBeepKey := None;
      previousRemaining := PREP_SECONDS;
      beeps := [];
    }

    /** `resetTimer`: back to the preparation countdown of set 1, running, clock anchored at `now`. */
    method ResetTimer(now: int)
      requires Valid()
      modifies this
      ensures Valid()
      ensures Snapshot() == TimerSnapshot(Prep, 1, PREP_SECONDS, Running, None)
      ensures lastTickAt == Some(now)
      ensures lastBeepKey == old(lastBeepKey) && previousRemaining == old(previousRemaining) && beeps == old(beeps)
    {
      phase := Prep;
      setIndex := 1;
      remaining := PREP_SECONDS;
      status := Running;
      pending := None;
      lastTickAt := Some(now);
    }

    /** `resetSet`: restart the current set's exercise, running, clock anchored at `now`. */
    method ResetSet(now: int)
      requires Valid()
      modifies this
      ensures Valid()
      ensures Snapshot() == TimerSnapshot(Exercise, old(setIndex), config.exerciseSeconds, Running, None)
      ensures lastTickAt == Some(now)
      ensures lastBeepKey == old(lastBeepKey) && previousRemaining == old(previousRemaining) && beeps == old(beeps)
    {
      phase := Exercise;
      remaining := config.exerciseSeconds;
      status := Running;
      pending := None;
      lastTickAt := Some(now);
    }

    /**
     * `skipSet`: the same move as `applySkipTransition`, except that on
     * reaching the end the remaining time is left as it was. The clock is
     * re-anchored at `now` whenever the timer keeps running.
     */
    method SkipSet(now: int)
      requires Valid()
      modifies this
      ensures Valid()
      ensures var skipped := Skip(old(Snapshot()), config);
        Snapshot() == (if old(status) != Status.Done && skipped.status == Status.Done
                       then skipped.(remaining := old(remaining)) else skipped)
      ensures lastTickAt == (if Snapshot().status == Running then Some(now) else old(lastTickAt))
      ensures lastBeepKey == old(lastBeepKey) && previousRemaining == old(previousRemaining) && beeps == old(beeps)
    {
      if status == Status.Done { return; }

      if phase == Prep {
        phase := Exercise;
        setIndex := 1;
        remaining := config.exerciseSeconds;
        status := Running;
        pending := None;
        lastTickAt := Some(now);
        return;
      }

      if phase == Exercise {
        if config.restSeconds > 0 {
          phase := Rest;
          remaining := config.restSeconds;
          status := Running;
          pending := None;
          lastTickAt := Some(now);
          return;
        }

        var nextSet := setIndex + 1;
        if nextSet > config.sets {
          phase := Phase.Done;
          status := Status.Done;
          pending := None;
          return;
        }

        phase := Exercise;
        setIndex := nextSet;
        remaining := config.exerciseSeconds;
        status := Running;
        pending := None;
        lastTickAt := Some(now);
        return;
      }

      var nextSet := setIndex + 1;
      if nextSet > config.sets {
        phase := Phase.Done;
        status := Status.Done;
        pending := None;
        return;
      }

      phase := Exercise;
      setIndex := nextSet;
      remaining := config.exerciseSeconds;
      status := Running;
      pending := None;
      lastTickAt := Some(now);
    }

    /** `pauseTimer`: only a running timer pauses; a holding one is left as it is. */
    method PauseTimer()
      requires Valid()
      modifies this
      ensures Valid()
      ensures Snapshot() == (if old(status) == Running then old(Snapshot()).(status := Paused) else old(Snapshot()))
      ensures lastTickAt == old(lastTickAt)
      ensures lastBeepKey == old(lastBeepKey) && previousRemaining == old(previousRemaining) && beeps == old(beeps)
    {
      if status == Running {
        status := Paused;
      }
    }

    /** `resumeTimer`: only a paused timer resumes, with the clock anchored at `now`. */
    method ResumeTimer(now: int)
      requires Valid()
      modifies this
      ensures Valid()
      ensures old(status) == Paused ==> Snapshot() == old(Snapshot()).(status := Running) && lastTickAt == Some(now)
      ensures old(status) != Paused ==> Snapshot() == old(Snapshot()) && lastTickAt == old(lastTickAt)
      ensures lastBeepKey == old(lastBeepKey) && previousRemaining == old(previousRemaining) && beeps == old(beeps)
    {
      if status != Paused { return; }
      status := Running;
      lastTickAt := Some(now);
    }

    /** `continueTimer`: a holding timer with a pending transition adopts it and runs; nothing else changes. */
    method ContinueTimer(now: int)
      requires Valid()
      modifies this
      ensures Valid()
      ensures old(status) == Holding && old(pending).Some? ==>
        var p := old(pending).value;
        && Snapshot() == TimerSnapshot(p.phase, p.setIndex, p.remaining, Running, None)
        && lastTickAt == Some(now)
      ensures !(old(status) == Holding && old(pending).Some?) ==>
        Snapshot() == old(Snapshot()) && lastTickAt == old(lastTickAt)
      ensures lastBeepKey == old(lastBeepKey) && previousRemaining == old(previousRemaining) && beeps == old(beeps)
    {
      if status != Holding || pending.None? { return; }
      var p := pending.value;
      phase := p.phase;
      setIndex := p.setIndex;
      remaining := p.remaining;
      pending := None;
      status := Running;
      lastTickAt := Some(now);
    }

    /** The notification-response listener: PAUSE pauses, SKIP skips, any other action is ignored. */
    method HandleNotificationResponse(actionId: string, now: int)
      requires Valid()
      modifies this
      ensures Valid()
      ensures actionId == TimerNotifications.PAUSE_ACTION ==>
        Snapshot() == (if old(status) == Running then old(Snapshot()).(status := Paused) else old(Snapshot()))
      ensures actionId == TimerNotifications.SKIP_ACTION ==>
        var skipped := Skip(old(Snapshot()), config);
        Snapshot() == (if old(status) != Status.Done && skipped.status == Status.Done
                       then skipped.(remaining := old(remaining)) else skipped)
      ensures actionId != TimerNotifications.PAUSE_ACTION && actionId != TimerNotifications.SKIP_ACTION ==>
        Snapshot() == old(Snapshot()) && lastTickAt == old(lastTickAt)
      ensures lastBeepKey == old(lastBeepKey) && previousRemaining == old(previousRemaining) && beeps == old(beeps)
    {
      if actionId == TimerNotifications.PAUSE_ACTION {
        PauseTimer();
        return;
      }
      if actionId == TimerNotifications.SKIP_ACTION {
        SkipSet(now);
      }
    }

    /**
     * The status effect: a running timer whose clock is unset (or at the
     * instant 0, which reads as unset) is anchored at `now`; any other status
     * clears the clock.
     */
    method SyncTickClock(now: int)
      modifies this
      ensures status == Running && (old(lastTickAt) == None || old(lastTickAt) == Some(0)) ==> lastTickAt == Some(now)
      ensures status == Running && old(lastTickAt) != None && old(lastTickAt) != Some(0) ==> lastTickAt == old(lastTickAt)
      ensures status != Running ==> lastTickAt == None
      ensures Snapshot() == old(Snapshot())
      ensures lastBeepKey == old(lastBeepKey) && previousRemaining == old(previousRemaining) && beeps == old(beeps)
    {
      if status == Running {
        if lastTickAt == None || lastTickAt == Some(0) {
          lastTickAt := Some(now);
        }
        return;
      }
      lastTickAt := None;
    }

    /**
     * One interval tick at time `now`: only a running timer with its clock
     * set moves; the snapshot and the anchor become those of `TickStep`.
     */
    method Tick(now: int)
      requires Valid()
      modifies this
      ensures Valid()
      ensures old(status) == Running && old(lastTickAt).Some? ==>
        var step := TickStep(old(Snapshot()), config, old(lastTickAt).value, now);
        Snapshot() == step.0 && lastTickAt == Some(step.1)
      ensures !(old(status) == Running && old(lastTickAt).Some?) ==>
        Snapshot() == old(Snapshot()) && lastTickAt == old(lastTickAt)
      ensures lastBeepKey == old(lastBeepKey) && previousRemaining == old(previousRemaining) && beeps == old(beeps)
    {
      var current := Snapshot();
      if current.status != Running { return; }
      var lastTick := if lastTickAt.Some? then lastTickAt.value else now;
      var elapsedMs := now - lastTick;
      if elapsedMs < 0 {
        lastTickAt := Some(now);
        return;
      }
      if elapsedMs < 1000 { return; }
      var elapsedSeconds := elapsedMs / 1000;
      lastTickAt := Some(lastTick + elapsedSeconds * 1000);
      var nextState := AdvanceBySeconds(current, config, elapsedSeconds);
      TimerStateProperties.AdvancePreservesWellFormed(current, config, elapsedSeconds);
      if nextState == current { return; }
      phase := nextState.phase;
      setIndex := nextState.setIndex;
      remaining := nextState.remaining;
      status := nextState.status;
      pending := nextState.pending;
    }

    /** The boundary effect, in place: the state becomes `BoundaryStep` of the state. */
    method BoundaryEffect()
      requires Valid()
      modifies this
      ensures Valid()
      ensures Snapshot() == BoundaryStep(old(Snapshot()), config)
      ensures lastTickAt == old(lastTickAt)
      ensures lastBeepKey == old(lastBeepKey) && previousRemaining == old(previousRemaining) && beeps == old(beeps)
    {
      if status != Running { return; }
      if remaining > 0 { return; }

      if phase == Prep {
        phase := Exercise;
        remaining := config.exerciseSeconds;
        return;
      }

      if phase == Exercise {
        if setIndex >= config.sets {
          phase := Phase.Done;
          status := Status.Done;
          pending := None;
          return;
        }

        var nextPhase :=
          if config.restSeconds > 0 then PendingTransition(Rest, setIndex, config.restSeconds)
          else PendingTransition(Exercise, setIndex + 1, config.exerciseSeconds);

        if config.exerciseAutoAdvance {
          phase := nextPhase.phase;
          setIndex := nextPhase.setIndex;
          remaining := nextPhase.remaining;
        } else {
          pending := Some(nextPhase);
          status := Holding;
        }
        return;
      }

      if phase == Rest {
        var nextSet := setIndex + 1;
        if nextSet > config.sets {
          phase := Phase.Done;
          status := Status.Done;
          pending := None;
          return;
        }

        var nextPhase := PendingTransition(Exercise, nextSet, config.exerciseSeconds);
        if config.restAutoAdvance {
          phase := nextPhase.phase;
          setIndex := nextPhase.setIndex;
          remaining := nextPhase.remaining;
        } else {
          pending := Some(nextPhase);
          status := Holding;
        }
      }
    }

    /** The remaining-time effect: time going up (a new phase) forgets the last cue played. */
    method RemainingEffect()
      modifies this
      ensures lastBeepKey == (if old(remaining) > old(previousRemaining) then None else old(lastBeepKey))
      ensures previousRemaining == remaining
      ensures Snapshot() == old(Snapshot()) && lastTickAt == old(lastTickAt) && beeps == old(beeps)
    {
      if remaining > previousRemaining {
        lastBeepKey := None;
      }
      previousRemaining := remaining;
    }

    /**
     * The beep effect: the cue of `ScreenBeepKind` plays unless its key
     * (phase, remaining time and kind) is the last key played; playing it
     * makes it the last key, so a cue plays once until the key is forgotten.
     */
    method BeepEffect()
      modifies this
      ensures var kind := ScreenBeepKind(old(Snapshot()));
        var fires := kind.Some? && old(lastBeepKey) != Some(TimerNotifications.BeepKey(old(Snapshot()), kind.value));
        && beeps == old(beeps) + (if fires then [kind.value] else [])
        && lastBeepKey == (if fires then Some(TimerNotifications.BeepKey(old(Snapshot()), kind.value)) else old(lastBeepKey))
        && (kind.Some? && !fires ==> lastBeepKey == old(lastBeepKey) && beeps == old(beeps))
      ensures Snapshot() == old(Snapshot()) && lastTickAt == old(lastTickAt) && previousRemaining == old(previousRemaining)
    {
      if phase == Prep || phase == Phase.Done { return; }
      if status == Paused { return; }

      var beepKind: Option<TimerNotifications.BeepKind> := None;
      if phase == Rest && (remaining == 2 || remaining == 1 || remaining == 0) {
        beepKind := Some(TimerNotifications.Short);
      } else if phase == Exercise {
        if remaining == 2 || remaining == 1 { beepKind := Some(TimerNotifications.Short); }
        if remaining == 0 { beepKind := Some(TimerNotifications.Long); }
      }

      if beepKind.None? { return; }
      if remaining > 0 && status != Running { return; }

      var key := TimerNotifications.BeepKey(Snapshot(), beepKind.value);
      if lastBeepKey == Some(key) { return; }
      lastBeepKey := Some(key);
      beeps := beeps + [beepKind.value];
    }
  }
}
