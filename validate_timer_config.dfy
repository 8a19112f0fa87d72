/**
 * The workout configuration and its guard `validateTimerConfig`, which either
 * rejects the candidate with the first violated bound or hands it back as is.
 */
module TimerConfigs {
  import opened JsValues

  /** A workout: number of sets, phase lengths in seconds and the two auto-advance flags. */
  datatype TimerConfig = TimerConfig(
    sets: int,
    exerciseSeconds: int,
    restSeconds: int,
    exerciseAutoAdvance: bool,
    restAutoAdvance: bool)

  /** The bounds a validated configuration satisfies. */
  predicate IsValidConfig(c: TimerConfig) {
    c.sets >= 1 && c.exerciseSeconds >= 1 && c.restSeconds >= 0
  }

  /** The object handed to the validator, before anything is known about its fields. */
  datatype ConfigCandidate = ConfigCandidate(
    sets: JsValue,
    exerciseSeconds: JsValue,
    restSeconds: JsValue,
    exerciseAutoAdvance: JsValue,
    restAutoAdvance: JsValue)

  /** The validators' failures, one per check, each with the message it is thrown with. */
  datatype ValidationError =
    | EmptyName
    | BadSets
    | BadExerciseSeconds
    | BadRestSeconds
    | BadExerciseAutoAdvance
    | BadRestAutoAdvance
  {
    function Message(): string {
      match this
      case EmptyName => "El nombre no puede estar vac\U{00ED}o."
      case BadSets => "Sets debe ser un entero >= 1."
      case BadExerciseSeconds => "Ejercicio debe ser >= 1 segundo."
      case BadRestSeconds => "Descanso debe ser >= 0 segundos."
      case BadExerciseAutoAdvance => "Auto avance de ejercicio invalido."
      case BadRestAutoAdvance => "Auto avance de descanso invalido."
    }
  }

  /** The JavaScript object a configuration is. */
  function AsCandidate(c: TimerConfig): ConfigCandidate {
    ConfigCandidate(Number(Int(c.sets)), Number(Int(c.exerciseSeconds)), Number(Int(c.restSeconds)),
      Bool(c.exerciseAutoAdvance), Bool(c.restAutoAdvance))
  }

  /**
   * `validateTimerConfig`: the checks run in a fixed order and the first one
   * that fails decides the error; on success the input itself is returned.
   */
  function ValidateTimerConfig(input: ConfigCandidate): (r: Result<TimerConfig, ValidationError>)
    ensures r.Ok? <==>
      && IsIntAtLeast(input.sets, 1)
      && IsIntAtLeast(input.exerciseSeconds, 1)
      && IsIntAtLeast(input.restSeconds, 0)
      && input.exerciseAutoAdvance.Bool?
      && input.restAutoAdvance.Bool?
    ensures r.Ok? ==> IsValidConfig(r.value) && AsCandidate(r.value) == input
    ensures r == Err(BadSets) <==> !IsIntAtLeast(input.sets, 1)
    ensures r == Err(BadExerciseSeconds) <==>
      IsIntAtLeast(input.sets, 1) && !IsIntAtLeast(input.exerciseSeconds, 1)
    ensures r == Err(BadRestSeconds) <==>
      IsIntAtLeast(input.sets, 1) && IsIntAtLeast(input.exerciseSeconds, 1) && !IsIntAtLeast(input.restSeconds, 0)
    ensures r == Err(BadExerciseAutoAdvance) <==>
      IsIntAtLeast(input.sets, 1) && IsIntAtLeast(input.exerciseSeconds, 1) && IsIntAtLeast(input.restSeconds, 0)
      && !input.exerciseAutoAdvance.Bool?
    ensures r.Err? ==> r.error != EmptyName
  {
    if !IsIntAtLeast(input.sets, 1) then Err(BadSets)
    else if !IsIntAtLeast(input.exerciseSeconds, 1) then Err(BadExerciseSeconds)
    else if !IsIntAtLeast(input.restSeconds, 0) then Err(BadRestSeconds)
    else if !input.exerciseAutoAdvance.Bool? then Err(BadExerciseAutoAdvance)
    else if !input.restAutoAdvance.Bool? then Err(BadRestAutoAdvance)
    else Ok(TimerConfig(input.sets.n.value, input.exerciseSeconds.n.value, input.restSeconds.n.value,
      input.exerciseAutoAdvance.b, input.restAutoAdvance.b))
  }

  /** Every valid configuration passes the guard unchanged, and nothing else does. */
  lemma ValidConfigsPass(c: TimerConfig)
    ensures ValidateTimerConfig(AsCandidate(c)) == (if IsValidConfig(c) then Ok(c) else
      Err(if c.sets < 1 then BadSets else if c.exerciseSeconds < 1 then BadExerciseSeconds else BadRestSeconds))
  {
  }
}
