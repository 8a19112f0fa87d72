/**
 * `validatePreset` of the domain layer: trim the name, reject an empty one,
 * then delegate every numeric and flag check to `validateTimerConfig`.
 */
module PresetValidation {
  import opened JsValues
  import opened TimerConfigs

  /** A preset as entered by the user: a name and the configuration fields. */
  datatype PresetInput = PresetInput(
    name: string,
    sets: JsValue,
    exerciseSeconds: JsValue,
    restSeconds: JsValue,
    exerciseAutoAdvance: JsValue,
    restAutoAdvance: JsValue)

  /** The validated preset `{ ...config, name }`. */
  datatype ValidPreset = ValidPreset(name: string, config: TimerConfig)

  function CandidateOf(input: PresetInput): ConfigCandidate {
    ConfigCandidate(input.sets, input.exerciseSeconds, input.restSeconds,
      input.exerciseAutoAdvance, input.restAutoAdvance)
  }

  /** The input a validated preset reads as, when it is validated again. */
  function AsInput(p: ValidPreset): PresetInput {
    var c := AsCandidate(p.config);
    PresetInput(p.name, c.sets, c.exerciseSeconds, c.restSeconds, c.exerciseAutoAdvance, c.restAutoAdvance)
  }

  function ValidatePreset(input: PresetInput): (r: Result<ValidPreset, ValidationError>)
    // the name is checked first
    ensures Trim(input.name) == [] <==> r == Err(EmptyName)
    // past the name, the outcome is exactly the configuration validator's
    ensures Trim(input.name) != [] ==>
      (r.Err? <==> ValidateTimerConfig(CandidateOf(input)).Err?)
      && (r.Err? ==> r.error == ValidateTimerConfig(CandidateOf(input)).error)
    // on success: the trimmed name and the configuration fields unchanged
    ensures r.Ok? ==>
      && r.value.name == Trim(input.name) && r.value.name != []
      && AsCandidate(r.value.config) == CandidateOf(input) && IsValidConfig(r.value.config)
  {
    var name := Trim(input.name);
    if name == [] then Err(EmptyName)
    else match ValidateTimerConfig(CandidateOf(input))
      case Err(e) => Err(e)
      case Ok(config) => Ok(ValidPreset(name, config))
  }

  /** Validating a validated preset again gives the same preset: trimming is idempotent. */
  lemma RevalidateIsIdentity(input: PresetInput)
    requires ValidatePreset(input).Ok?
    ensures ValidatePreset(AsInput(ValidatePreset(input).value)) == ValidatePreset(input)
  {
    var p := ValidatePreset(input).value;
    TrimIdempotent(input.name);
    assert Trim(AsInput(p).name) == p.name;
    assert CandidateOf(AsInput(p)) == AsCandidate(p.config);
    ValidConfigsPass(p.config);
  }
}
