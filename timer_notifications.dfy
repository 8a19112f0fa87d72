/**
 * The background side of the timer: the persisted record and its decoder,
 * the replay of the wall-clock time since the record was written, the two
 * notification actions, the texts of the ongoing notification and the beep
 * alerts of the foreground-service loop.
 */
module TimerNotifications {
  import opened JsValues
  import opened TimerConfigs
  import opened TimerState
  import TimerStateProperties

  const PAUSE_ACTION: string := "timer.pause"
  const SKIP_ACTION: string := "timer.skip"

  /** The storage key of the one persisted record. */
  const STORAGE_KEY: string := "intervalTimer.timerState.v2"

  /** What is persisted: the configuration, a snapshot, and when (in ms) that snapshot was current. */
  datatype StoredTimerState = StoredTimerState(config: TimerConfig, snapshot: TimerSnapshot, updatedAt: int)

  // ---------------------------------------------------------------------
  // Names of phases and statuses as stored

  function PhaseName(p: Phase): string {
    match p
    case Prep => "prep"
    case Exercise => "exercise"
    case Rest => "rest"
    case Done => "done"
    case OtherPhase(name) => name
  }

  /** A stored phase string read back: every string is accepted, unknown ones as `OtherPhase`. */
  function PhaseFromName(name: string): (p: Phase)
    ensures PhaseName(p) == name
  {
    if name == "prep" then Prep
    else if name == "exercise" then Exercise
    else if name == "rest" then Rest
    else if name == "done" then Phase.Done
    else OtherPhase(name)
  }

  /** An `OtherPhase` never carries one of the four known names. */
  predicate WellNamedPhase(p: Phase) {
    p.OtherPhase? ==> p.name !in {"prep", "exercise", "rest", "done"}
  }

  function StatusName(s: Status): string {
    match s
    case Running => "running"
    case Paused => "paused"
    case Holding => "holding"
    case Done => "done"
    case OtherStatus(name) => name
  }

  function StatusFromName(name: string): (s: Status)
    ensures StatusName(s) == name
  {
    if name == "running" then Running
    else if name == "paused" then Paused
    else if name == "holding" then Holding
    else if name == "done" then Status.Done
    else OtherStatus(name)
  }

  predicate WellNamedStatus(s: Status) {
    s.OtherStatus? ==> s.name !in {"running", "paused", "holding", "done"}
  }

  lemma PhaseNamesRoundTrip(p: Phase, name: string)
    ensures WellNamedPhase(p) ==> PhaseFromName(PhaseName(p)) == p
    ensures WellNamedPhase(PhaseFromName(name))
  {
  }

  lemma StatusNamesRoundTrip(s: Status, name: string)
    ensures WellNamedStatus(s) ==> StatusFromName(StatusName(s)) == s
    ensures WellNamedStatus(StatusFromName(name))
  {
  }

  /** Every enumerated field of the record is well named. */
  predicate WellNamedState(st: StoredTimerState) {
    && WellNamedPhase(st.snapshot.phase)
    && WellNamedStatus(st.snapshot.status)
    && (st.snapshot.pending.Some? ==> WellNamedPhase(st.snapshot.pending.value.phase))
  }

  // ---------------------------------------------------------------------
  // The record's shape checks

  /** `isValidConfig`: an object whose three counts are numbers and whose two flags are booleans. */
  predicate IsValidStoredConfig(v: JsValue) {
    && IsObjectLike(v)
    && Get(v, "sets").Number?
    && Get(v, "exerciseSeconds").Number?
    && Get(v, "restSeconds").Number?
    && Get(v, "exerciseAutoAdvance").Bool?
    && Get(v, "restAutoAdvance").Bool?
  }

  /** The `pending` part of `isValidSnapshot`: `null`, or an object with a string phase and numeric set and time. */
  predicate IsValidPending(v: JsValue) {
    || v.Null?
    || (&& IsObjectLike(v)
        && Get(v, "phase").Str?
        && Get(v, "setIndex").Number?
        && Get(v, "remaining").Number?)
  }

  /** `isValidSnapshot`: field types only, so any phase or status string passes. */
  predicate IsValidStoredSnapshot(v: JsValue) {
    && IsObjectLike(v)
    && Get(v, "phase").Str?
    && Get(v, "setIndex").Number?
    && Get(v, "remaining").Number?
    && Get(v, "status").Str?
    && IsValidPending(Get(v, "pending"))
  }

  /** The record checks of `parseStoredState` once the text is parsed. */
  predicate IsValidStoredRecord(v: JsValue) {
    && IsObjectLike(v)
    && IsValidStoredConfig(Get(v, "config"))
    && IsValidStoredSnapshot(Get(v, "snapshot"))
    && Get(v, "updatedAt").Number?
  }

  predicate IsIntNumber(v: JsValue) {
    v.Number? && v.n.Int?
  }

  /** `config` as a configuration, when its checks pass and its numbers are integers. */
  function DecodeConfig(v: JsValue): (r: Option<TimerConfig>)
    ensures r.Some? <==>
      && IsValidStoredConfig(v)
      && IsIntNumber(Get(v, "sets")) && IsIntNumber(Get(v, "exerciseSeconds")) && IsIntNumber(Get(v, "restSeconds"))
  {
    if !IsValidStoredConfig(v) then None
    else
      var sets, exercise, rest := Get(v, "sets"), Get(v, "exerciseSeconds"), Get(v, "restSeconds");
      if !IsIntNumber(sets) || !IsIntNumber(exercise) || !IsIntNumber(rest) then None
      else Some(TimerConfig(sets.n.value, exercise.n.value, rest.n.value,
        Get(v, "exerciseAutoAdvance").b, Get(v, "restAutoAdvance").b))
  }

  /** `pending` as an optional transition: `Some(None)` for `null`. */
  function DecodePending(v: JsValue): (r: Option<Option<PendingTransition>>)
    ensures r.Some? <==>
      IsValidPending(v) && (v.Null? || (IsIntNumber(Get(v, "setIndex")) && IsIntNumber(Get(v, "remaining"))))
    ensures r.Some? && r.value.Some? ==> WellNamedPhase(r.value.value.phase)
  {
    if v.Null? then Some(None)
    else if !IsValidPending(v) then None
    else
      var setIndex, remaining := Get(v, "setIndex"), Get(v, "remaining");
      if !IsIntNumber(setIndex) || !IsIntNumber(remaining) then None
      else
        var phase := PhaseFromName(Get(v, "phase").s);
        PhaseNamesRoundTrip(phase, Get(v, "phase").s);
        Some(Some(PendingTransition(phase, setIndex.n.value, remaining.n.value)))
  }

  /** `snapshot` as a snapshot, when its checks pass and its numbers are integers. */
  function DecodeSnapshot(v: JsValue): (r: Option<TimerSnapshot>)
    ensures r.Some? <==>
      && IsValidStoredSnapshot(v)
      && IsIntNumber(Get(v, "setIndex")) && IsIntNumber(Get(v, "remaining"))
      && DecodePending(Get(v, "pending")).Some?
    ensures r.Some? ==> WellNamedPhase(r.value.phase) && WellNamedStatus(r.value.status)
    ensures r.Some? && r.value.pending.Some? ==> WellNamedPhase(r.value.pending.value.phase)
  {
    if !IsValidStoredSnapshot(v) then None
    else
      var setIndex, remaining := Get(v, "setIndex"), Get(v, "remaining");
      var pending := DecodePending(Get(v, "pending"));
      if !IsIntNumber(setIndex) || !IsIntNumber(remaining) || pending.None? then None
      else
        var phase := PhaseFromName(Get(v, "phase").s);
        var status := StatusFromName(Get(v, "status").s);
        PhaseNamesRoundTrip(phase, Get(v, "phase").s);
        StatusNamesRoundTrip(status, Get(v, "status").s);
        Some(TimerSnapshot(phase, setIndex.n.value, remaining.n.value, status, pending.value))
  }

  /**
   * The parsed value as a record: `None` exactly when a check of
   * `parseStoredState` fails, or when one of its numbers is not an integer.
   */
  function DecodeStored(v: JsValue): (r: Option<StoredTimerState>)
    ensures r.Some? ==> IsValidStoredRecord(v)
    ensures IsValidStoredRecord(v) ==>
      (r.Some? <==> DecodeConfig(Get(v, "config")).Some? && DecodeSnapshot(Get(v, "snapshot")).Some?
                    && IsIntNumber(Get(v, "updatedAt")))
    ensures r.Some? ==> WellNamedState(r.value)
  {
    if !IsObjectLike(v) then None
    else
      var config := DecodeConfig(Get(v, "config"));
      var snapshot := DecodeSnapshot(Get(v, "snapshot"));
      var updatedAt := Get(v, "updatedAt");
      if config.None? || snapshot.None? || !IsIntNumber(updatedAt) then None
      else Some(StoredTimerState(config.value, snapshot.value, updatedAt.n.value))
  }

  /**
   * `parseStoredState`: no text or empty text, text that does not parse, and
   * a value that fails the record checks all give `None`; it never fails
   * otherwise. `JSON.parse` is a parameter (`None` when it throws).
   */
  function ParseStoredState(raw: Option<string>, parseJson: string -> Option<JsValue>): (r: Option<StoredTimerState>)
    ensures raw == None || raw == Some("") ==> r == None
    ensures r.Some? ==>
      && raw.Some? && raw.value != ""
      && parseJson(raw.value).Some?
      && IsValidStoredRecord(parseJson(raw.value).value)
    ensures raw.Some? && raw.value != "" && parseJson(raw.value).Some? ==> r == DecodeStored(parseJson(raw.value).value)
  {
    if raw == None || raw.value == "" then None
    else match parseJson(raw.value)
      case None => None
      case Some(v) => DecodeStored(v)
  }

  // ---------------------------------------------------------------------
  // Encoding, as `JSON.stringify` sees the record

  function EncodeConfig(c: TimerConfig): JsValue {
    Obj(map[
      "sets" := Number(Int(c.sets)),
      "exerciseSeconds" := Number(Int(c.exerciseSeconds)),
      "restSeconds" := Number(Int(c.restSeconds)),
      "exerciseAutoAdvance" := Bool(c.exerciseAutoAdvance),
      "restAutoAdvance" := Bool(c.restAutoAdvance)])
  }

  function EncodePending(p: Option<PendingTransition>): JsValue {
    match p
    case None => Null
    case Some(t) => Obj(map[
      "phase" := Str(PhaseName(t.phase)),
      "setIndex" := Number(Int(t.setIndex)),
      "remaining" := Number(Int(t.remaining))])
  }

  function EncodeSnapshot(s: TimerSnapshot): JsValue {
    Obj(map[
      "phase" := Str(PhaseName(s.phase)),
      "setIndex" := Number(Int(s.setIndex)),
      "remaining" := Number(Int(s.remaining)),
      "status" := Str(StatusName(s.status)),
      "pending" := EncodePending(s.pending)])
  }

  function EncodeStored(st: StoredTimerState): (v: JsValue) {
    Obj(map[
      "config" := EncodeConfig(st.config),
      "snapshot" := EncodeSnapshot(st.snapshot),
      "updatedAt" := Number(Int(st.updatedAt))])
  }

  lemma ConfigRoundTrip(c: TimerConfig)
    ensures DecodeConfig(EncodeConfig(c)) == Some(c)
  {
  }

  lemma PendingRoundTrip(p: Option<PendingTransition>)
    requires p.Some? ==> WellNamedPhase(p.value.phase)
    ensures DecodePending(EncodePending(p)) == Some(p)
  {
    if p.Some? {
      PhaseNamesRoundTrip(p.value.phase, "");
    }
  }

  lemma SnapshotRoundTrip(s: TimerSnapshot)
    requires WellNamedPhase(s.phase) && WellNamedStatus(s.status)
    requires s.pending.Some? ==> WellNamedPhase(s.pending.value.phase)
    ensures DecodeSnapshot(EncodeSnapshot(s)) == Some(s)
  {
    PendingRoundTrip(s.pending);
    PhaseNamesRoundTrip(s.phase, "");
    StatusNamesRoundTrip(s.status, "");
    var v := EncodeSnapshot(s);
    assert Get(v, "pending") == EncodePending(s.pending);
  }

  /**
   * Decoding an encoded record gives it back, because the checks look only
   * at field types, which the encoding keeps; every encoded record passes
   * the checks of `parseStoredState`.
   */
  lemma StoredRoundTrip(st: StoredTimerState)
    requires WellNamedState(st)
    ensures IsValidStoredRecord(EncodeStored(st))
    ensures DecodeStored(EncodeStored(st)) == Some(st)
  {
    ConfigRoundTrip(st.config);
    SnapshotRoundTrip(st.snapshot);
    var v := EncodeStored(st);
    assert Get(v, "config") == EncodeConfig(st.config);
    assert Get(v, "snapshot") == EncodeSnapshot(st.snapshot);
  }

  /** A decoded record is one the encoding reproduces: decode, encode and decode again is the same record. */
  lemma DecodedRecordsReencode(v: JsValue)
    requires DecodeStored(v).Some?
    ensures DecodeStored(EncodeStored(DecodeStored(v).value)) == DecodeStored(v)
  {
    StoredRoundTrip(DecodeStored(v).value);
  }

  /** The same round trip at the level of text, for any text that `JSON.parse` reads as the encoding. */
  lemma StoredTextRoundTrip(st: StoredTimerState, text: string, parseJson: string -> Option<JsValue>)
    requires WellNamedState(st)
    requires text != "" && parseJson(text) == Some(EncodeStored(st))
    ensures ParseStoredState(Some(text), parseJson) == Some(st)
  {
    StoredRoundTrip(st);
  }

  // ---------------------------------------------------------------------
  // The live snapshot

  /** `elapsedMs > 0 ? Math.floor(elapsedMs / 1000) : 0` */
  function ElapsedSeconds(elapsedMs: int): (r: nat)
    ensures elapsedMs <= 0 ==> r == 0
    ensures elapsedMs > 0 ==> r * 1000 <= elapsedMs < (r + 1) * 1000
  {
    if elapsedMs > 0 then elapsedMs / 1000 else 0
  }

  /** `getCurrentTimerSnapshot`: the stored snapshot with the whole seconds since `updatedAt` replayed. */
  function CurrentSnapshot(stored: StoredTimerState, now: int): (r: TimerSnapshot)
    ensures now - stored.updatedAt < 1000 ==> r == stored.snapshot
    ensures r == Advance(stored.snapshot, stored.config, ElapsedSeconds(now - stored.updatedAt))
  {
    Advance(stored.snapshot, stored.config, ElapsedSeconds(now - stored.updatedAt))
  }

  /**
   * Reading the record twice never goes backwards: the later reading is the
   * earlier one replayed by the seconds in between (give or take the one
   * second that the two floors can split).
   */
  lemma LaterReadingExtendsEarlier(stored: StoredTimerState, t1: int, t2: int)
    requires t1 <= t2
    ensures var d := ElapsedSeconds(t2 - stored.updatedAt) - ElapsedSeconds(t1 - stored.updatedAt);
      d >= 0 && CurrentSnapshot(stored, t2) == Advance(CurrentSnapshot(stored, t1), stored.config, d)
  {
    var e1 := ElapsedSeconds(t1 - stored.updatedAt);
    var e2 := ElapsedSeconds(t2 - stored.updatedAt);
    TimerStateProperties.AdvanceAdditive(stored.snapshot, stored.config, e1, e2 - e1);
  }

  /**
   * Re-stamping the record with the live snapshot at `t1` (as an action does)
   * replays the same timeline, except that the part of a second elapsed
   * before `t1` is dropped: later readings lag by at most one second.
   */
  lemma RestampLagsByUnderASecond(stored: StoredTimerState, t1: int, t2: int)
    requires stored.updatedAt <= t1 <= t2
    ensures var restamped := StoredTimerState(stored.config, CurrentSnapshot(stored, t1), t1);
      var lag := ElapsedSeconds(t2 - stored.updatedAt) - ElapsedSeconds(t1 - stored.updatedAt) - ElapsedSeconds(t2 - t1);
      && 0 <= lag <= 1
      && Advance(CurrentSnapshot(restamped, t2), stored.config, lag) == CurrentSnapshot(stored, t2)
  {
    var e1 := ElapsedSeconds(t1 - stored.updatedAt);
    var e2 := ElapsedSeconds(t2 - stored.updatedAt);
    var e12 := ElapsedSeconds(t2 - t1);
    TimerStateProperties.AdvanceAdditive(stored.snapshot, stored.config, e1, e12);
    TimerStateProperties.AdvanceAdditive(stored.snapshot, stored.config, e1 + e12, e2 - e1 - e12);
  }

  // ---------------------------------------------------------------------
  // Texts

  /** `getPhaseLabel`: unknown phase names fall back to "Intervalo". */
  function PhaseLabel(p: Phase): (r: string)
    ensures r == "Intervalo" <==> p.OtherPhase?
  {
    match p
    case Prep => "Preparacion"
    case Exercise => "Ejercicio"
    case Rest => "Descanso"
    case Done => "Completado"
    case OtherPhase(_) => "Intervalo"
  }

  /** `getStatusTitle`: a running timer and any unknown status read as an interval in progress. */
  function StatusTitle(s: TimerSnapshot): (r: string)
    ensures r == "Intervalo en curso" <==> s.status.Running? || s.status.OtherStatus?
  {
    match s.status
    case Holding => "Listo para continuar"
    case Paused => "Temporizador pausado"
    case Done => "Entreno completado"
    case _ => "Intervalo en curso"
  }

  function Min(a: int, b: int): int {
    if a <= b then a else b
  }

  /** One line of the body: a lead-in, the phase label, the formatted time and the set counter. */
  function DescribePhase(lead: string, phase: Phase, setIndex: int, remaining: int, sets: int,
                         formatTime: int -> string): string
  {
    lead + PhaseDetails(phase, setIndex, remaining, sets, formatTime)
  }

  function PhaseDetails(phase: Phase, setIndex: int, remaining: int, sets: int, formatTime: int -> string): string {
    PhaseLabel(phase) + " - Tiempo restante: " + formatTime(remaining)
      + " - Set " + IntToString(Min(setIndex, sets)) + " / " + IntToString(sets)
  }

  lemma DescriptionStartsWithLead(lead: string, phase: Phase, setIndex: int, remaining: int, sets: int,
                                  formatTime: int -> string)
    ensures var r := DescribePhase(lead, phase, setIndex, remaining, sets, formatTime);
      |lead| <= |r| && r[..|lead|] == lead
  {
    var details := PhaseDetails(phase, setIndex, remaining, sets, formatTime);
    assert (lead + details)[..|lead|] == lead;
  }

  /**
   * `buildStatusBody`: a holding timer with a pending transition announces
   * what comes next, anything else describes the current phase. The set
   * counter shows the set index, capped at the number of sets. `formatTime`
   * is a parameter.
   */
  function BuildStatusBody(s: TimerSnapshot, c: TimerConfig, formatTime: int -> string): (r: string)
    ensures s.status == Holding && s.pending.Some? ==>
      r == DescribePhase("Siguiente: ", s.pending.value.phase, s.pending.value.setIndex,
        s.pending.value.remaining, c.sets, formatTime)
    ensures !(s.status == Holding && s.pending.Some?) ==>
      r == DescribePhase("Fase: ", s.phase, s.setIndex, s.remaining, c.sets, formatTime)
  {
    if s.status == Holding && s.pending.Some? then
      var p := s.pending.value;
      DescribePhase("Siguiente: ", p.phase, p.setIndex, p.remaining, c.sets, formatTime)
    else
      DescribePhase("Fase: ", s.phase, s.setIndex, s.remaining, c.sets, formatTime)
  }

  /** The body starts "Siguiente: " for a held timer with a pending transition and "Fase: " otherwise. */
  lemma StatusBodyLeadIn(s: TimerSnapshot, c: TimerConfig, formatTime: int -> string)
    ensures var r := BuildStatusBody(s, c, formatTime);
      && (s.status == Holding && s.pending.Some? <==> |r| >= 11 && r[..11] == "Siguiente: ")
      && (!(s.status == Holding && s.pending.Some?) <==> |r| >= 6 && r[..6] == "Fase: ")
  {
    var r := BuildStatusBody(s, c, formatTime);
    if s.status == Holding && s.pending.Some? {
      var p := s.pending.value;
      DescriptionStartsWithLead("Siguiente: ", p.phase, p.setIndex, p.remaining, c.sets, formatTime);
    } else {
      DescriptionStartsWithLead("Fase: ", s.phase, s.setIndex, s.remaining, c.sets, formatTime);
    }
    LeadInsDiffer(r);
  }

  /** No text starts with both lead-ins. */
  lemma LeadInsDiffer(r: string)
    ensures |r| >= 11 && r[..11] == "Siguiente: " ==> !(|r| >= 6 && r[..6] == "Fase: ")
  {
    if |r| >= 11 && r[..11] == "Siguiente: " {
      assert r[0] == r[..11][0] == 'S';
      assert |r| >= 6 ==> r[..6][0] == 'S';
    }
  }

  // ---------------------------------------------------------------------
  // Beeps

  datatype BeepKind = Short | Long

  function BeepKindName(k: BeepKind): string {
    match k
    case Short => "short"
    case Long => "long"
  }

  /**
   * `getBeepKind`: only a running timer beeps; short beeps count down the
   * last two seconds of an exercise and the last three of a rest, a long beep
   * marks an exercise's zero.
   */
  function GetBeepKind(s: TimerSnapshot): (r: Option<BeepKind>)
    ensures r.Some? ==> s.status == Running && s.phase in {Exercise, Rest} && 0 <= s.remaining <= 2
    ensures r == Some(Long) <==> s.status == Running && s.phase == Exercise && s.remaining == 0
    ensures r == Some(Short) <==>
      && s.status == Running
      && ((s.phase == Rest && 0 <= s.remaining <= 2) || (s.phase == Exercise && 1 <= s.remaining <= 2))
  {
    if s.status != Running then None
    else if s.phase == Rest && (s.remaining == 2 || s.remaining == 1 || s.remaining == 0) then Some(Short)
    else if s.phase == Exercise && (s.remaining == 2 || s.remaining == 1) then Some(Short)
    else if s.phase == Exercise && s.remaining == 0 then Some(Long)
    else None
  }

  /** `${phase}:${remaining}:${kind}` */
  function BeepKey(s: TimerSnapshot, k: BeepKind): string {
    PhaseName(s.phase) + ":" + IntToString(s.remaining) + ":" + BeepKindName(k)
  }

  /** Two beeping snapshots have the same key exactly when they beep for the same phase, second and kind. */
  lemma BeepKeyIdentifiesBeep(s: TimerSnapshot, t: TimerSnapshot)
    requires GetBeepKind(s).Some? && GetBeepKind(t).Some?
    ensures BeepKey(s, GetBeepKind(s).value) == BeepKey(t, GetBeepKind(t).value) <==>
      s.phase == t.phase && s.remaining == t.remaining
  {
    var ks, kt := BeepKey(s, GetBeepKind(s).value), BeepKey(t, GetBeepKind(t).value);
    var ps, pt := PhaseName(s.phase), PhaseName(t.phase);
    assert IntToString(s.remaining) == [DigitChar(s.remaining)];
    assert IntToString(t.remaining) == [DigitChar(t.remaining)];
    if s.phase == t.phase && s.remaining == t.remaining {
      assert GetBeepKind(s) == GetBeepKind(t);
    } else if s.phase != t.phase {
      assert ks[0] == ps[0] && kt[0] == pt[0];
    } else {
      assert ks[|ps| + 1] == DigitChar(s.remaining);
      assert kt[|pt| + 1] == DigitChar(t.remaining);
    }
  }

  /** What an alert shows: a title for the beep's kind and the phase with its time. */
  datatype Alert = Alert(title: string, body: string)

  /**
   * `showBeepNotification`'s title and body: the phase label and the time,
   * where zero seconds always read "00:00" whatever `formatTime` makes of
   * them. `formatTime` is a parameter.
   */
  function BeepAlert(s: TimerSnapshot, k: BeepKind, formatTime: int -> string): (a: Alert)
    ensures a.title == (if k == Long then "Fin de fase" else "Aviso")
    ensures s.remaining == 0 ==> a.body == PhaseLabel(s.phase) + " - 00:00"
    ensures s.remaining != 0 ==> a.body == PhaseLabel(s.phase) + " - " + formatTime(s.remaining)
  {
    Alert(if k == Long then "Fin de fase" else "Aviso",
      PhaseLabel(s.phase) + " - " + (if s.remaining == 0 then "00:00" else formatTime(s.remaining)))
  }

  /**
   * The alert for the beep a snapshot calls for: the phase-end title exactly
   * at an exercise's zero, and then the body reads "Ejercicio - 00:00";
   * every other beep is a plain notice.
   */
  lemma BeepAlertForBeep(s: TimerSnapshot, formatTime: int -> string)
    requires GetBeepKind(s).Some?
    ensures var a := BeepAlert(s, GetBeepKind(s).value, formatTime);
      && (a.title == "Fin de fase" <==> s.status == Running && s.phase == Exercise && s.remaining == 0)
      && (a.title == "Aviso" <==> a.title != "Fin de fase")
      && (a.title == "Fin de fase" ==> a.body == PhaseLabel(Exercise) + " - 00:00")
  {
    var a := BeepAlert(s, GetBeepKind(s).value, formatTime);
    assert "Aviso"[0] != "Fin de fase"[0];
  }

  /**
   * The de-duplication of the foreground-service loop: a beeping snapshot
   * fires when its key differs from the last key that fired, and then
   * becomes the last key. Returns the new last key and whether it fired.
   */
  function BeepStep(lastKey: Option<string>, s: TimerSnapshot): (r: (Option<string>, bool))
    ensures r.1 <==> GetBeepKind(s).Some? && lastKey != Some(BeepKey(s, GetBeepKind(s).value))
    ensures r.0 == (if r.1 then Some(BeepKey(s, GetBeepKind(s).value)) else lastKey)
  {
    match GetBeepKind(s)
    case None => (lastKey, false)
    case Some(k) =>
      var key := BeepKey(s, k);
      if lastKey != Some(key) then (Some(key), true) else (lastKey, false)
  }

  /** The keys that fire over a run of loop iterations, starting from `lastKey`. */
  function FiredKeys(lastKey: Option<string>, snapshots: seq<TimerSnapshot>): seq<string>
    decreases |snapshots|
  {
    if snapshots == [] then []
    else
      var step := BeepStep(lastKey, snapshots[0]);
      (if step.1 then [step.0.value] else []) + FiredKeys(step.0, snapshots[1..])
  }

  /** The last key after a run of iterations, and whether any fired. */
  function LastKeyAfter(lastKey: Option<string>, snapshots: seq<TimerSnapshot>): Option<string>
    decreases |snapshots|
  {
    if snapshots == [] then lastKey else LastKeyAfter(BeepStep(lastKey, snapshots[0]).0, snapshots[1..])
  }

  /**
   * No key fires twice in a row: each fired key differs from the one fired
   * before it, and the first differs from the key the run started with.
   */
  lemma {:induction false} FiredKeysNeverRepeat(lastKey: Option<string>, snapshots: seq<TimerSnapshot>)
    ensures var keys := FiredKeys(lastKey, snapshots);
      && (|keys| > 0 ==> lastKey != Some(keys[0]))
      && (forall i :: 0 <= i < |keys| - 1 ==> keys[i] != keys[i + 1])
      && (|keys| > 0 ==> LastKeyAfter(lastKey, snapshots) == Some(keys[|keys| - 1]))
      && (|keys| == 0 ==> LastKeyAfter(lastKey, snapshots) == lastKey)
    decreases |snapshots|
  {
    if snapshots != [] {
      var step := BeepStep(lastKey, snapshots[0]);
      FiredKeysNeverRepeat(step.0, snapshots[1..]);
    }
  }

  /** A snapshot the loop sees again and again beeps at most once. */
  lemma {:induction false} RepeatedSnapshotFiresOnce(lastKey: Option<string>, s: TimerSnapshot, n: nat)
    ensures |FiredKeys(lastKey, seq(n, _ => s))| <= 1
    decreases n
  {
    if n > 0 {
      var step := BeepStep(lastKey, s);
      assert seq(n, _ => s)[1..] == seq(n - 1, _ => s);
      if GetBeepKind(s).Some? {
        SameKeyIsSilent(step.0, s, n - 1);
      } else {
        RepeatedSnapshotFiresOnce(step.0, s, n - 1);
      }
    }
  }

  lemma {:induction false} SameKeyIsSilent(lastKey: Option<string>, s: TimerSnapshot, n: nat)
    requires GetBeepKind(s).Some? && lastKey == Some(BeepKey(s, GetBeepKind(s).value))
    ensures FiredKeys(lastKey, seq(n, _ => s)) == []
    decreases n
  {
    if n > 0 {
      assert seq(n, _ => s)[1..] == seq(n - 1, _ => s);
      SameKeyIsSilent(lastKey, s, n - 1);
    }
  }

  // ---------------------------------------------------------------------
  // Notification actions

  /**
   * The command part of `handleTimerNotificationAction`, applied to the live
   * snapshot: PAUSE pauses a running or holding timer and leaves any other
   * as it is; SKIP forces the next phase.
   */
  function ApplyAction(actionId: string, current: TimerSnapshot, c: TimerConfig): (r: TimerSnapshot)
    requires actionId == PAUSE_ACTION || actionId == SKIP_ACTION
    ensures actionId == PAUSE_ACTION && current.status in {Running, Holding} ==>
      r == current.(status := Paused)
    ensures actionId == PAUSE_ACTION && current.status !in {Running, Holding} ==> r == current
    ensures actionId == SKIP_ACTION ==> r == Skip(current, c)
  {
    if actionId == PAUSE_ACTION then
      if current.status == Running || current.status == Holding then current.(status := Paused) else current
    else
      Skip(current, c)
  }

  /**
   * The record an action writes: the live snapshot at `now` with the command
   * applied, stamped `now`, under the same configuration.
   */
  function ActionRecord(actionId: string, stored: StoredTimerState, now: int): (r: StoredTimerState)
    requires actionId == PAUSE_ACTION || actionId == SKIP_ACTION
    ensures r.config == stored.config && r.updatedAt == now
  {
    StoredTimerState(stored.config, ApplyAction(actionId, CurrentSnapshot(stored, now), stored.config), now)
  }

  /** A record written by PAUSE reads the same at every later time: the clock does not move a paused timer. */
  lemma PausedRecordIsFrozen(stored: StoredTimerState, now: int, later: int)
    requires ActionRecord(PAUSE_ACTION, stored, now).snapshot.status == Paused
    ensures var r := ActionRecord(PAUSE_ACTION, stored, now);
      CurrentSnapshot(r, later) == r.snapshot
  {
  }

  /** SKIP keeps the snapshot invariant of a well-formed record. */
  lemma SkipActionPreservesWellFormed(stored: StoredTimerState, now: int)
    requires WellFormed(stored.snapshot, stored.config)
    ensures WellFormed(ActionRecord(SKIP_ACTION, stored, now).snapshot, stored.config)
  {
    TimerStateProperties.AdvancePreservesWellFormed(stored.snapshot, stored.config, ElapsedSeconds(now - stored.updatedAt));
    TimerStateProperties.SkipPreservesWellFormed(CurrentSnapshot(stored, now), stored.config);
  }

  /**
   * PAUSE on a holding timer keeps its pending transition: the record it
   * writes is paused with a transition pending, a pair no other operation
   * produces. The screen's own pause leaves a holding timer alone instead.
   */
  lemma PauseFromHoldingKeepsPending(stored: StoredTimerState, now: int)
    requires stored.snapshot.status == Holding && stored.snapshot.pending.Some?
    ensures var r := ActionRecord(PAUSE_ACTION, stored, now).snapshot;
      && r.status == Paused && r.pending == stored.snapshot.pending
      && !Consistent(r, stored.config)
  {
  }

  /** A notification as shown: title and body. */
  datatype Notice = Notice(title: string, body: string)

  function StatusNotice(s: TimerSnapshot, c: TimerConfig, formatTime: int -> string): Notice {
    Notice(StatusTitle(s), BuildStatusBody(s, c, formatTime))
  }

  /**
   * The Android side of the notifications: the key-value store, the ongoing
   * notification of the foreground service (absent once the service stops),
   * the alerts shown so far, and the state of the service's polling loop.
   */
  class NotificationService {
    var storage: map<string, JsValue>
    var foreground: Option<Notice>
    var alerts: seq<Alert>
    var lastBeepKey: Option<string>
    var stopped: bool

    /** The loop as `registerTimerForegroundService` starts it. */
    constructor (storage: map<string, JsValue>)
      ensures this.storage == storage && foreground == None && alerts == []
      ensures lastBeepKey == None && !stopped
    {
      this.storage := storage;
      foreground := None;
      alerts := [];
      lastBeepKey := None;
      stopped := false;
    }

    /** `readStoredTimerState`: the record under the key, if any and if it decodes. */
    function ReadStored(): (r: Option<StoredTimerState>)
      reads this
      ensures STORAGE_KEY !in storage ==> r == None
      ensures r.Some? ==> IsValidStoredRecord(storage[STORAGE_KEY]) && WellNamedState(r.value)
    {
      if STORAGE_KEY in storage then DecodeStored(storage[STORAGE_KEY]) else None
    }

    /** `persistTimerState` */
    method Persist(state: StoredTimerState)
      modifies this
      ensures storage == old(storage)[STORAGE_KEY := EncodeStored(state)]
      ensures foreground == old(foreground) && alerts == old(alerts)
      ensures lastBeepKey == old(lastBeepKey) && stopped == old(stopped)
      ensures WellNamedState(state) ==> ReadStored() == Some(state)
    {
      storage := storage[STORAGE_KEY := EncodeStored(state)];
      if WellNamedState(state) {
        StoredRoundTrip(state);
      }
    }

    /** `clearStoredTimerState` */
    method Clear()
      modifies this
      ensures storage == old(storage) - {STORAGE_KEY} && ReadStored() == None
      ensures foreground == old(foreground) && alerts == old(alerts)
      ensures lastBeepKey == old(lastBeepKey) && stopped == old(stopped)
    {
      storage := storage - {STORAGE_KEY};
    }

    /** `stopTimerForegroundService`: the service stops and its notification goes away. */
    method StopForeground()
      modifies this
      ensures foreground == None
      ensures storage == old(storage) && alerts == old(alerts)
      ensures lastBeepKey == old(lastBeepKey) && stopped == old(stopped)
    {
      foreground := None;
    }

    /** `startTimerForegroundService`: persist the record, then show the live snapshot at `now`. */
    method StartForeground(state: StoredTimerState, now: int, formatTime: int -> string)
      modifies this
      ensures storage == old(storage)[STORAGE_KEY := EncodeStored(state)]
      ensures foreground == Some(StatusNotice(CurrentSnapshot(state, now), state.config, formatTime))
      ensures alerts == old(alerts) && lastBeepKey == old(lastBeepKey) && stopped == old(stopped)
    {
      Persist(state);
      var snapshot := CurrentSnapshot(state, now);
      foreground := Some(StatusNotice(snapshot, state.config, formatTime));
    }

    /**
     * `handleTimerNotificationAction(actionId)` at time `now`: other action
     * ids, and a missing or unreadable record, change nothing. Otherwise the
     * record is replayed to `now`, the command applied, the result written
     * back stamped `now`, and the service stops exactly when the new status
     * is paused or done (else its notification shows the new snapshot).
     */
    method HandleAction(actionId: string, now: int, formatTime: int -> string)
      modifies this
      ensures (actionId != PAUSE_ACTION && actionId != SKIP_ACTION) || old(ReadStored()).None? ==>
        && storage == old(storage) && foreground == old(foreground)
      ensures (actionId == PAUSE_ACTION || actionId == SKIP_ACTION) && old(ReadStored()).Some? ==>
        var record := ActionRecord(actionId, old(ReadStored()).value, now);
        && storage == old(storage)[STORAGE_KEY := EncodeStored(record)]
        && foreground == (if record.snapshot.status in {Paused, Status.Done} then None
                          else Some(StatusNotice(record.snapshot, record.config, formatTime)))
      ensures alerts == old(alerts) && lastBeepKey == old(lastBeepKey) && stopped == old(stopped)
    {
      if actionId != PAUSE_ACTION && actionId != SKIP_ACTION { return; }

      var stored := ReadStored();
      if stored.None? { return; }

      var current := CurrentSnapshot(stored.value, now);
      var next := current;

      if actionId == PAUSE_ACTION {
        if current.status == Running || current.status == Holding {
          next := current.(status := Paused);
        }
      }

      if actionId == SKIP_ACTION {
        next := Skip(current, stored.value.config);
      }

      Persist(StoredTimerState(stored.value.config, next, now));

      if next.status == Paused || next.status == Status.Done {
        StopForeground();
        return;
      }

      foreground := Some(StatusNotice(next, stored.value.config, formatTime));
    }

    /**
     * One iteration of the foreground-service loop at time `now`. A stopped
     * loop does nothing. A missing record, or a live snapshot that is paused
     * or done, stops the loop and the service. Otherwise the notification
     * shows the live snapshot and a beep alert is added when `BeepStep`
     * says so.
     */
    method ServiceTick(now: int, formatTime: int -> string)
      modifies this
      ensures old(stopped) ==>
        && storage == old(storage) && foreground == old(foreground) && alerts == old(alerts)
        && lastBeepKey == old(lastBeepKey) && stopped
      ensures !old(stopped) && (old(ReadStored()).None?
                                || CurrentSnapshot(old(ReadStored()).value, now).status in {Paused, Status.Done}) ==>
        && stopped && foreground == None
        && alerts == old(alerts) && lastBeepKey == old(lastBeepKey)
      ensures !old(stopped) && old(ReadStored()).Some?
              && CurrentSnapshot(old(ReadStored()).value, now).status !in {Paused, Status.Done} ==>
        var stored := old(ReadStored()).value;
        var live := CurrentSnapshot(stored, now);
        var step := BeepStep(old(lastBeepKey), live);
        && !stopped
        && foreground == Some(StatusNotice(live, stored.config, formatTime))
        && lastBeepKey == step.0
        && alerts == old(alerts) + (if step.1 then [BeepAlert(live, GetBeepKind(live).value, formatTime)] else [])
      ensures storage == old(storage)
    {
      if stopped { return; }

      var stored := ReadStored();
      if stored.None? {
        stopped := true;
        StopForeground();
        return;
      }

      var snapshot := CurrentSnapshot(stored.value, now);
      if snapshot.status == Paused || snapshot.status == Status.Done {
        stopped := true;
        StopForeground();
        return;
      }

      foreground := Some(StatusNotice(snapshot, stored.value.config, formatTime));

      var beepKind := GetBeepKind(snapshot);
      if beepKind.Some? {
        var key := BeepKey(snapshot, beepKind.value);
        if lastBeepKey != Some(key) {
          lastBeepKey := Some(key);
          alerts := alerts + [BeepAlert(snapshot, beepKind.value, formatTime)];
        }
      }
    }
  }
}
