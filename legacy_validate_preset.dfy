/**
 * The older `validatePreset` (under `src/`): trim the name, reject an empty
 * one, check the three numeric bounds itself and return the input with only
 * the name replaced. This preset shape has no auto-advance flags.
 */
module LegacyPresetValidation {
  import opened JsValues
  import opened TimerConfigs
  import PresetValidation

  datatype LegacyPresetInput = LegacyPresetInput(
    name: string,
    sets: JsValue,
    exerciseSeconds: JsValue,
    restSeconds: JsValue)

  function ValidateLegacyPreset(input: LegacyPresetInput): (r: Result<LegacyPresetInput, ValidationError>)
    ensures Trim(input.name) == [] <==> r == Err(EmptyName)
    ensures r.Ok? <==>
      && Trim(input.name) != [] && IsIntAtLeast(input.sets, 1)
      && IsIntAtLeast(input.exerciseSeconds, 1) && IsIntAtLeast(input.restSeconds, 0)
    ensures r.Ok? ==> r.value == input.(name := Trim(input.name))
    ensures r == Err(BadSets) <==> Trim(input.name) != [] && !IsIntAtLeast(input.sets, 1)
    ensures r.Err? ==> r.error in {EmptyName, BadSets, BadExerciseSeconds, BadRestSeconds}
  {
    var name := Trim(input.name);
    if name == [] then Err(EmptyName)
    else if !IsIntAtLeast(input.sets, 1) then Err(BadSets)
    else if !IsIntAtLeast(input.exerciseSeconds, 1) then Err(BadExerciseSeconds)
    else if !IsIntAtLeast(input.restSeconds, 0) then Err(BadRestSeconds)
    else Ok(input.(name := name))
  }

  /** Validating the result again gives the same result. */
  lemma RevalidateLegacyIsIdentity(input: LegacyPresetInput)
    requires ValidateLegacyPreset(input).Ok?
    ensures ValidateLegacyPreset(ValidateLegacyPreset(input).value) == ValidateLegacyPreset(input)
  {
    TrimIdempotent(input.name);
  }

  /**
   * The older validator and the domain one agree, check for check, on any
   * preset whose flags are booleans: same acceptance, same first error.
   */
  lemma AgreesWithDomainValidator(input: LegacyPresetInput, exerciseAuto: bool, restAuto: bool)
    ensures var domain := PresetValidation.ValidatePreset(PresetValidation.PresetInput(
        input.name, input.sets, input.exerciseSeconds, input.restSeconds, Bool(exerciseAuto), Bool(restAuto)));
      var legacy := ValidateLegacyPreset(input);
      && (legacy.Ok? <==> domain.Ok?)
      && (legacy.Err? ==> legacy.error == domain.error)
      && (legacy.Ok? ==> domain.value.name == legacy.value.name)
  {
  }
}
