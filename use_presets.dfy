/**
 * The saved workout presets: how a stored entry is read back (`parsePreset`),
 * how the stored list is hydrated, and the provider's list of presets with
 * its prepend and remove operations.
 */
module Presets {
  import opened JsValues
  import opened TimerConfigs

  /** The storage key of the preset list. */
  const PRESETS_STORAGE_KEY: string := "intervalTimer.presets.v1"

  /** A saved workout: identity, name, ISO timestamps and the configuration spread into it. */
  datatype WorkoutPreset = WorkoutPreset(
    id: string,
    name: string,
    createdAt: string,
    updatedAt: string,
    config: TimerConfig)

  /** The checks of `parsePreset` before any number is looked at. */
  predicate HasPresetShape(raw: JsValue) {
    && IsObjectLike(raw)
    && Get(raw, "id").Str? && Get(raw, "name").Str?
    && Get(raw, "createdAt").Str? && Get(raw, "updatedAt").Str?
    && Get(raw, "exerciseAutoAdvance").Bool? && Get(raw, "restAutoAdvance").Bool?
  }

  /** The configuration candidate `parsePreset` builds: the three counts go through `Number(...)`. */
  function CoercedCandidate(raw: JsValue): ConfigCandidate {
    ConfigCandidate(
      Number(ToNumber(Get(raw, "sets"))),
      Number(ToNumber(Get(raw, "exerciseSeconds"))),
      Number(ToNumber(Get(raw, "restSeconds"))),
      Get(raw, "exerciseAutoAdvance"),
      Get(raw, "restAutoAdvance"))
  }

  /**
   * `parsePreset`: `None` for anything that is not an object with string
   * identity, name and timestamps and boolean flags, and for counts that,
   * once coerced to numbers, fail `validateTimerConfig`. Otherwise the
   * identity, name and timestamps are kept and the validated configuration
   * is attached.
   */
  function ParsePreset(raw: JsValue): (r: Option<WorkoutPreset>)
    ensures !HasPresetShape(raw) ==> r == None
    ensures HasPresetShape(raw) ==> (r.Some? <==> ValidateTimerConfig(CoercedCandidate(raw)).Ok?)
    ensures r.Some? ==>
      && r.value.id == Get(raw, "id").s && r.value.name == Get(raw, "name").s
      && r.value.createdAt == Get(raw, "createdAt").s && r.value.updatedAt == Get(raw, "updatedAt").s
      && r.value.config == ValidateTimerConfig(CoercedCandidate(raw)).value
      && IsValidConfig(r.value.config)
  {
    if !HasPresetShape(raw) then None
    else match ValidateTimerConfig(CoercedCandidate(raw))
      case Err(_) => None
      case Ok(config) =>
        Some(WorkoutPreset(Get(raw, "id").s, Get(raw, "name").s, Get(raw, "createdAt").s, Get(raw, "updatedAt").s, config))
  }

  /** A preset as `JSON.stringify` sees it: its own fields and the configuration's, side by side. */
  function EncodePreset(p: WorkoutPreset): JsValue {
    Obj(map[
      "id" := Str(p.id),
      "name" := Str(p.name),
      "createdAt" := Str(p.createdAt),
      "updatedAt" := Str(p.updatedAt),
      "sets" := Number(Int(p.config.sets)),
      "exerciseSeconds" := Number(Int(p.config.exerciseSeconds)),
      "restSeconds" := Number(Int(p.config.restSeconds)),
      "exerciseAutoAdvance" := Bool(p.config.exerciseAutoAdvance),
      "restAutoAdvance" := Bool(p.config.restAutoAdvance)])
  }

  /** A saved preset with a valid configuration reads back as itself, and one with an invalid configuration is dropped. */
  lemma PresetRoundTrip(p: WorkoutPreset)
    ensures ParsePreset(EncodePreset(p)) == if IsValidConfig(p.config) then Some(p) else None
  {
    var raw := EncodePreset(p);
    assert CoercedCandidate(raw) == AsCandidate(p.config);
    ValidConfigsPass(p.config);
  }

  // ---------------------------------------------------------------------
  // Hydration

  /** `parsed.map(parsePreset).filter(Boolean)`: the entries that parse, in their order. */
  function Hydrate(items: seq<JsValue>): (r: seq<WorkoutPreset>)
    ensures |r| <= |items|
  {
    if items == [] then []
    else
      var first := ParsePreset(items[0]);
      (if first.Some? then [first.value] else []) + Hydrate(items[1..])
  }

  /** Hydrating a concatenation hydrates each part: no entry affects whether another is kept. */
  lemma {:induction false} HydrateDistributes(a: seq<JsValue>, b: seq<JsValue>)
    ensures Hydrate(a + b) == Hydrate(a) + Hydrate(b)
    decreases |a|
  {
    if a == [] {
      assert a + b == b;
    } else {
      var first := ParsePreset(a[0]);
      var head := if first.Some? then [first.value] else [];
      assert (a + b)[0] == a[0];
      assert (a + b)[1..] == a[1..] + b;
      assert Hydrate(a + b) == head + Hydrate(a[1..] + b);
      assert Hydrate(a) == head + Hydrate(a[1..]);
      HydrateDistributes(a[1..], b);
      assert head + (Hydrate(a[1..]) + Hydrate(b)) == (head + Hydrate(a[1..])) + Hydrate(b);
    }
  }

  /** A single entry is kept exactly when it parses. */
  lemma HydrateSingle(raw: JsValue)
    ensures Hydrate([raw]) == if ParsePreset(raw).Some? then [ParsePreset(raw).value] else []
  {
  }

  function EncodePresets(ps: seq<WorkoutPreset>): (r: seq<JsValue>)
    ensures |r| == |ps| && forall i :: 0 <= i < |ps| ==> r[i] == EncodePreset(ps[i])
  {
    if ps == [] then [] else [EncodePreset(ps[0])] + EncodePresets(ps[1..])
  }

  /** Saving a list of valid presets and hydrating it gives the list back, in order. */
  lemma {:induction false} HydrateEncoded(ps: seq<WorkoutPreset>)
    requires forall i :: 0 <= i < |ps| ==> IsValidConfig(ps[i].config)
    ensures Hydrate(EncodePresets(ps)) == ps
    decreases |ps|
  {
    if ps != [] {
      PresetRoundTrip(ps[0]);
      assert EncodePresets(ps)[1..] == EncodePresets(ps[1..]);
      HydrateEncoded(ps[1..]);
    }
  }

  /**
   * The load step: no stored text or empty text, text that does not parse
   * and a value that is not an array leave the list alone (`None`);
   * otherwise the hydrated array replaces it. `JSON.parse` is a parameter.
   */
  function LoadPresets(stored: Option<string>, parseJson: string -> Option<JsValue>): (r: Option<seq<WorkoutPreset>>)
    ensures stored == None || stored == Some("") ==> r == None
    ensures r.Some? <==>
      stored.Some? && stored.value != "" && parseJson(stored.value).Some? && parseJson(stored.value).value.Arr?
  {
    if stored == None || stored.value == "" then None
    else match parseJson(stored.value)
      case None => None
      case Some(parsed) => if parsed.Arr? then Some(Hydrate(parsed.items)) else None
  }

  /** What was saved is what is loaded, for any text that `JSON.parse` reads as the saved array. */
  lemma LoadSaved(ps: seq<WorkoutPreset>, text: string, parseJson: string -> Option<JsValue>)
    requires forall i :: 0 <= i < |ps| ==> IsValidConfig(ps[i].config)
    requires text != "" && parseJson(text) == Some(Arr(EncodePresets(ps)))
    ensures LoadPresets(Some(text), parseJson) == Some(ps)
  {
    HydrateEncoded(ps);
  }

  // ---------------------------------------------------------------------
  // Removing by id

  /** `current.filter((preset) => preset.id !== id)` */
  function RemoveById(ps: seq<WorkoutPreset>, id: string): (r: seq<WorkoutPreset>)
    ensures |r| <= |ps|
  {
    if ps == [] then []
    else (if ps[0].id != id then [ps[0]] else []) + RemoveById(ps[1..], id)
  }

  /** The presets kept are exactly the presets of the list without the id. */
  lemma {:induction false} RemoveKeepsExactlyOthers(ps: seq<WorkoutPreset>, id: string, q: WorkoutPreset)
    ensures q in RemoveById(ps, id) <==> q in ps && q.id != id
    decreases |ps|
  {
    if ps != [] {
      RemoveKeepsExactlyOthers(ps[1..], id, q);
      assert q in ps <==> q == ps[0] || q in ps[1..] by {
        assert ps == [ps[0]] + ps[1..];
      }
    }
  }

  /** Removing is done part by part, so the kept presets stay in their order. */
  lemma {:induction false} RemoveDistributes(a: seq<WorkoutPreset>, b: seq<WorkoutPreset>, id: string)
    ensures RemoveById(a + b, id) == RemoveById(a, id) + RemoveById(b, id)
    decreases |a|
  {
    if a == [] {
      assert a + b == b;
    } else {
      assert (a + b)[1..] == a[1..] + b;
      RemoveDistributes(a[1..], b, id);
    }
  }

  /** Every other preset keeps its number of occurrences. */
  lemma {:induction false} RemoveKeepsOthers(ps: seq<WorkoutPreset>, id: string, q: WorkoutPreset)
    requires q.id != id
    ensures multiset(RemoveById(ps, id))[q] == multiset(ps)[q]
    decreases |ps|
  {
    if ps != [] {
      assert ps == [ps[0]] + ps[1..];
      RemoveKeepsOthers(ps[1..], id, q);
    }
  }

  /** Removing an id that no preset has changes nothing. */
  lemma {:induction false} RemoveAbsentIsIdentity(ps: seq<WorkoutPreset>, id: string)
    requires forall i :: 0 <= i < |ps| ==> ps[i].id != id
    ensures RemoveById(ps, id) == ps
    decreases |ps|
  {
    if ps != [] {
      RemoveAbsentIsIdentity(ps[1..], id);
    }
  }

  /** No preset with the id is left. */
  lemma {:induction false} RemovedHaveOtherIds(ps: seq<WorkoutPreset>, id: string)
    ensures forall i :: 0 <= i < |RemoveById(ps, id)| ==> RemoveById(ps, id)[i].id != id
    decreases |ps|
  {
    if ps != [] {
      RemovedHaveOtherIds(ps[1..], id);
      var head: seq<WorkoutPreset> := if ps[0].id != id then [ps[0]] else [];
      var rest := RemoveById(ps[1..], id);
      assert RemoveById(ps, id) == head + rest;
      forall i | 0 <= i < |head + rest|
        ensures (head + rest)[i].id != id
      {
        if i < |head| {
          assert (head + rest)[i] == ps[0];
        } else {
          assert (head + rest)[i] == rest[i - |head|];
        }
      }
    }
  }

  /** Removing twice is removing once. */
  lemma RemoveIsIdempotent(ps: seq<WorkoutPreset>, id: string)
    ensures RemoveById(RemoveById(ps, id), id) == RemoveById(ps, id)
  {
    RemovedHaveOtherIds(ps, id);
    RemoveAbsentIsIdentity(RemoveById(ps, id), id);
  }

  /**
   * The presets provider: the list of presets and whether it has been
   * loaded. Storage calls are the provider's inputs (what was read) and
   * outputs (what to write).
   */
  class PresetsProvider {
    var presets: seq<WorkoutPreset>
    var isHydrated: bool

    constructor ()
      ensures presets == [] && !isHydrated
    {
      presets := [];
      isHydrated := false;
    }

    /**
     * `loadPresets` with the text read from storage: the list is replaced
     * when the text holds an array, and the provider is hydrated whatever
     * the outcome.
     */
    method Load(stored: Option<string>, parseJson: string -> Option<JsValue>)
      modifies this
      ensures presets == (match LoadPresets(stored, parseJson)
                          case Some(loaded) => loaded
                          case None => old(presets))
      ensures isHydrated
    {
      var loaded := LoadPresets(stored, parseJson);
      if loaded.Some? {
        presets := loaded.value;
      }
      isHydrated := true;
    }

    /** The save effect: once hydrated, the list to write under the key; nothing before. */
    method Save() returns (write: Option<JsValue>)
      ensures write == if isHydrated then Some(Arr(EncodePresets(presets))) else None
    {
      if !isHydrated { return None; }
      write := Some(Arr(EncodePresets(presets)));
    }

    /** `addPreset`: the new preset goes first. */
    method AddPreset(preset: WorkoutPreset)
      modifies this
      ensures presets == [preset] + old(presets) && isHydrated == old(isHydrated)
    {
      presets := [preset] + presets;
    }

    /** `removePreset`: every preset with the id goes, the rest stay in order. */
    method RemovePreset(id: string)
      modifies this
      ensures presets == RemoveById(old(presets), id) && isHydrated == old(isHydrated)
      ensures forall i :: 0 <= i < |presets| ==> presets[i].id != id
    {
      RemovedHaveOtherIds(presets, id);
      presets := RemoveById(presets, id);
    }
  }

  /** Adding a preset and removing its id leaves the others as they were (and drops older presets with that id). */
  lemma AddThenRemove(ps: seq<WorkoutPreset>, p: WorkoutPreset)
    ensures RemoveById([p] + ps, p.id) == RemoveById(ps, p.id)
  {
    RemoveDistributes([p], ps, p.id);
  }
}
