# Interval timer — a Dafny model of its core

The interval timer is a mobile workout timer. A workout is a configuration: a number of sets, the exercise and rest lengths in seconds, and two auto-advance flags. The flags say whether the timer moves on by itself after an exercise and after a rest, or waits for the user (it *holds*). The timer runs in this order:

- a five-second preparation countdown;
- then, for each set, an exercise followed by a rest;
- the workout ends at the last exercise, or at a rest that would lead past the last set.

This project models the parts of the app that decide what the timer does:

- **The state machine** (`TimerState`, `services/timer-state.ts`).
  - `advanceTimerBySeconds` replays elapsed wall-clock seconds across phase boundaries.
  - `applySkipTransition` is the "skip" command.
  - `isSameConfig` compares two configurations.
  - `TimerStateProperties` proves what these promise:
    - an idle timer is a fixed point;
    - a replay ends running, holding or done;
    - replaying `a` seconds and then `b` seconds is the same as replaying `a + b` (the key fact behind both the drift-free tick and the background service);
    - both operations keep the snapshot invariant;
    - skip and the clock agree everywhere except after the last exercise.
- **Validators** (`TimerConfigs`, `PresetValidation`, `LegacyPresetValidation`).
  - Each check of `validateTimerConfig` and the two `validatePreset` versions becomes an error case.
  - The validators accept exactly the valid inputs and are idempotent.
- **The Android background service** (`TimerNotifications`, `services/timer-notifications.ts`).
  - The stored record is decoded with the same type checks as `parseStoredState`. An encoder is proved to round-trip with that decoder.
  - The live snapshot is the stored one replayed by the whole seconds since it was stamped.
  - The notification texts are covered: title, body and beep alerts.
  - The beep de-duplication key fires no key twice in a row.
  - The PAUSE and SKIP actions are modelled.
  - The service's loop is a `NotificationService` class. Its storage, foreground notification, alerts, `lastBeepKey` and `stopped` flag are fields.
- **The timer screen** (`TimerScreen`, `app/timer.tsx`).
  - The screen's state cells and refs are the fields of a `Screen` class.
  - Its commands are modelled: reset, reset set, skip, pause, resume, continue, and the notification-response listener.
  - The one-second tick re-anchors the clock by whole seconds only. `TicksAreDriftFree` proves that any sequence of ticks replays exactly the whole seconds since the first anchor.
  - Also modelled: the boundary effect, the remaining-time effect that forgets the last beep key, and the beep effect.
- **Saved presets** (`Presets`, `hooks/use-presets.tsx`).
  - `parsePreset` coerces the counts with `Number(...)` and validates them.
  - The stored list is hydrated. Saving and then loading gives back the valid presets, in order.
  - The provider's prepend and remove-by-id operations are modelled.
- **The Expo config plugin** (`ManifestPlugin`, `plugins/with-notifee-foreground-service.js`).
  - The patch works in place on the parsed Android manifest.
  - It finds or adds Notifee's foreground service and marks it not exported and of type `mediaPlayback`. No other service entry changes.
  - Patching is idempotent.

Shared JavaScript semantics live in `JsValues`:

- values as `JSON.parse` produces them, plus `undefined`;
- property access;
- `String.prototype.trim`;
- `Number(...)`;
- the decimal printing of integers in template literals, with a round trip back through `Number(...)`.

Numbers are either integers or `NonInteger`, which stands for fractions, `NaN` and infinities. Every integer in the source is an unbounded `int`. The source never relies on overflow.

Where the source's copies of one rule disagree, the model keeps each copy as written and proves the disagreement:

- The screen's skip keeps the remaining time when it finishes the workout; `applySkipTransition` sets it to zero (`TimerScreen.Screen.SkipSet`).
- The screen's pause leaves a holding timer alone. The notification's PAUSE pauses it and keeps its pending transition (`TimerNotifications.PauseFromHoldingKeepsPending`).
- Skipping the last exercise enters a rest, while the clock finishes the workout there (`TimerStateProperties.SkipLastExerciseEntersRest`).
- The screen plays the end-of-exercise beep while holding. The service does not (`TimerScreen.BeepRulesAgreeWhileRunning`).
- Re-stamping the record on an action drops the part of a second already elapsed (`TimerNotifications.RestampLagsByUnderASecond`).
- The screen treats a tick anchor of `0` as unset, because it tests the anchor with `!lastTickAtRef.current` (`TimerScreen.Screen.SyncTickClock`).

`app/timer.tsx` carries its own copy of `advanceTimerBySeconds` (lines 31-118). Apart from its signature, the copy is the same text as `services/timer-state.ts:14-105`, so it is modelled once, as `TimerState.AdvanceBySeconds`.

The specification functions are:

- `TimerState.Advance`, with the mutually recursive `Replay` and `Resolve`;
- `TimerState.CrossBoundary`, the step at a phase boundary that both the replay loop and the screen's boundary effect take;
- `ManifestPlugin.Patched`;
- `Presets.Hydrate`.

The methods are proved against these functions, and the lemmas state their properties.

## Model

| member | source | states |
|---|---|---|
| JsValues.Get | services/timer-notifications.ts:27-37 | Property access yields the field of an object and `undefined` for a missing key or a non-object |
| JsValues.TrimShape | domain/validators/validatePreset.ts:6 | `trim` removes exactly the leading and trailing JavaScript white space: the result is a contiguous slice of the input with no white space at either end, and everything cut off is white space |
| JsValues.TrimIdempotent | domain/validators/validatePreset.ts:6 | Trimming a trimmed name changes nothing |
| JsValues.StringToNumber | hooks/use-presets.tsx:24-26 | `Number(s)` is 0 for a blank string and the decimal value of a trimmed string of digits |
| JsValues.ToNumber | hooks/use-presets.tsx:24-26 | `Number(v)` keeps a number, maps `null` to 0 and `undefined` to a non-integer |
| JsValues.NatToString | services/timer-notifications.ts:283 | The decimal text of a natural number is non-empty, all digits, reads back as that number and has no leading zero |
| JsValues.IntToStringRoundTrip | services/timer-notifications.ts:283 | An integer printed in a template literal reads back through `Number(...)` as the same integer |
| JsValues.IntToStringInjective | services/timer-notifications.ts:283 | Two integers with the same printed text are equal |
| TimerConfigs.ValidateTimerConfig | domain/validators/validateTimerConfig.ts:3-18 | Accepts exactly the candidates with integer sets ≥ 1, exercise ≥ 1 s, rest ≥ 0 s and boolean flags, and then returns the input unchanged. Otherwise it reports the first failing check, each error iff its check is the first to fail, and never the empty-name error |
| TimerConfigs.ValidConfigsPass | domain/validators/validateTimerConfig.ts:3-18 | A configuration passes validation iff it is valid, and then it comes back as itself |
| PresetValidation.ValidatePreset | domain/validators/validatePreset.ts:5-16 | A blank name after trimming is the first error. Otherwise the result is the configuration validator's verdict. Success carries the trimmed non-empty name and the validated configuration |
| PresetValidation.RevalidateIsIdentity | domain/validators/validatePreset.ts:5-16 | Validating an already validated preset gives the same result |
| LegacyPresetValidation.ValidateLegacyPreset | src/domain/validator/validatePreset.ts:4-11 | Blank name first, then the three count checks in order. Success iff all pass, returning the input with its name trimmed. Only these four errors can occur |
| LegacyPresetValidation.RevalidateLegacyIsIdentity | src/domain/validator/validatePreset.ts:4-11 | Validating an already validated preset gives the same result |
| LegacyPresetValidation.AgreesWithDomainValidator | src/domain/validator/validatePreset.ts:4-11 | The legacy and the current validator accept the same inputs (with boolean flags), report the same first error and produce the same trimmed name |
| TimerState.CrossBoundary | services/timer-state.ts:42-101 | At a boundary the workout finishes iff it is the last exercise, a rest past the last set, or a phase with no successor. It holds iff the phase's auto-advance flag is off. The next phase is fixed: prep leads to the same set's exercise; an exercise leads to the same set's rest when rests last more than zero seconds, and otherwise to the next set's exercise; a rest leads to the next set's exercise |
| TimerState.AdvanceBySeconds | services/timer-state.ts:14-105 | The replay loop computes `Advance`, the recursive replay across boundaries |
| TimerState.Skip | services/timer-state.ts:107-169 | A done timer is left alone. Otherwise the result is running or done with nothing pending. From prep it starts set 1's exercise, and it never moves the set index back |
| TimerState.IsSameConfig | services/timer-state.ts:171-178 | True iff the two configurations are equal |
| TimerStateProperties.ReplaySettles | services/timer-state.ts:30-102 | A replay ends settled (running with no pending transition, holding at a boundary whose flag is off with that boundary's transition pending, or finished). The set index only grows and stays within the sets. Under a valid configuration the time left is never negative |
| TimerStateProperties.ResolveSettles | services/timer-state.ts:42-101 | The same, from a phase whose time is used up |
| TimerStateProperties.AdvanceSettles | services/timer-state.ts:104 | A running timer advanced by positive time ends settled, with a pending transition iff it holds, and with a set index that never goes back or past the last set |
| TimerStateProperties.AdvanceIdleIsIdentity | services/timer-state.ts:19-20 | No elapsed time, or a timer that is not running, leaves the snapshot unchanged |
| TimerStateProperties.AdvanceWithinPhase | services/timer-state.ts:31-39 | Time within the current phase only counts it down, stopping at zero without resolving the boundary |
| TimerStateProperties.AdvancePastBoundary | services/timer-state.ts:42-95 | Past the last exercise or a rest after the last set the workout finishes. Past a phase whose flag is off the timer holds at zero with the next phase pending, and the unused seconds are dropped. Otherwise the leftover seconds are replayed from the next phase: the exercise after prep, the same set's rest (or, without rests, the next set's exercise) after an exercise, and the next set's exercise after a rest |
| TimerStateProperties.ReplayAdditive | services/timer-state.ts:30-102 | Replaying `a` seconds and then `b` equals replaying `a + b`, from inside a phase |
| TimerStateProperties.ResolveAdditive | services/timer-state.ts:42-101 | The same, from a boundary |
| TimerStateProperties.AdvanceAdditive | services/timer-state.ts:14-105 | `advanceTimerBySeconds` by `a` then by `b` equals advancing by `a + b` |
| TimerStateProperties.AdvancePreservesWellFormed | services/timer-state.ts:14-105 | Advancing keeps the snapshot invariant |
| TimerStateProperties.SkipPreservesWellFormed | services/timer-state.ts:107-169 | Skipping keeps the snapshot invariant and never produces a hold |
| TimerStateProperties.SkipIsForcedBoundary | services/timer-state.ts:107-169 | From a rest, or from an exercise that is not the last (or when there are no rests), skipping is the boundary crossing with both auto-advance flags on |
| TimerStateProperties.SkipLastExerciseEntersRest | services/timer-state.ts:120-129 | Skipping the last exercise enters a rest when rests exist, while the clock finishes the workout at the same point |
| TimerStateProperties.CascadingReplayExample | services/timer-state.ts:30-102 | 3×(10 s + 5 s) with auto-advance, advanced 100 s from set 1's exercise, is finished at set 3 |
| TimerStateProperties.HoldTruncationExample | services/timer-state.ts:62-71 | With exercise auto-advance off, 5 s with 1 s left holds at zero with set 1's rest pending |
| TimerNotifications.PhaseFromName | services/timer-notifications.ts:29 | Reading a stored phase string gives the phase that prints as that string |
| TimerNotifications.StatusFromName | services/timer-notifications.ts:32 | Reading a stored status string gives the status that prints as that string |
| TimerNotifications.PhaseNamesRoundTrip | services/timer-notifications.ts:29 | Every known phase prints and reads back as itself, and every string reads as a phase that prints as that string |
| TimerNotifications.StatusNamesRoundTrip | services/timer-notifications.ts:32 | Every known status prints and reads back as itself, and every string reads as a status that prints as that string |
| TimerNotifications.DecodeConfig | services/timer-notifications.ts:41-51 | Decodes iff the value is an object with integer counts and boolean flags |
| TimerNotifications.DecodePending | services/timer-notifications.ts:33-37 | Decodes iff the value is `null` or an object with a string phase and integer set and time |
| TimerNotifications.DecodeSnapshot | services/timer-notifications.ts:25-39 | Decodes iff the value has the snapshot's field types with integer numbers. Any phase and status string is accepted |
| TimerNotifications.DecodeStored | services/timer-notifications.ts:53-65 | Only a record passing `parseStoredState`'s shape checks decodes. Such a record decodes iff its parts hold integers |
| TimerNotifications.ParseStoredState | services/timer-notifications.ts:53-65 | No text or empty text gives nothing. A result comes only from text that parses, and it is the decoded record |
| TimerNotifications.ConfigRoundTrip | services/timer-notifications.ts:41-51 | A stored configuration decodes back to itself |
| TimerNotifications.PendingRoundTrip | services/timer-notifications.ts:33-37 | A stored pending transition decodes back to itself |
| TimerNotifications.SnapshotRoundTrip | services/timer-notifications.ts:25-39 | A stored snapshot decodes back to itself |
| TimerNotifications.StoredRoundTrip | services/timer-notifications.ts:177-184 | A persisted record passes the shape checks and reads back as itself |
| TimerNotifications.DecodedRecordsReencode | services/timer-notifications.ts:53-65 | A record that decodes re-encodes to one that decodes the same |
| TimerNotifications.StoredTextRoundTrip | services/timer-notifications.ts:177-184 | Text that parses to the persisted record reads back as the record |
| TimerNotifications.ElapsedSeconds | services/timer-notifications.ts:191-192 | Zero for no elapsed time, otherwise the floor of the milliseconds over 1000 |
| TimerNotifications.CurrentSnapshot | services/timer-notifications.ts:190-194 | The live snapshot is the stored one advanced by the whole seconds elapsed, and the stored one itself within its first second |
| TimerNotifications.LaterReadingExtendsEarlier | services/timer-notifications.ts:190-194 | A later reading is the earlier reading advanced by the difference of the whole seconds |
| TimerNotifications.RestampLagsByUnderASecond | services/timer-notifications.ts:223-237 | After an action re-stamps the record, later readings lag the unre-stamped timeline by 0 or 1 seconds |
| TimerNotifications.PhaseLabel | services/timer-notifications.ts:67-80 | The generic "Intervalo" label is shown iff the phase is unknown |
| TimerNotifications.StatusTitle | services/timer-notifications.ts:82-87 | The "in progress" title is shown iff the status is running or unknown |
| TimerNotifications.BuildStatusBody | services/timer-notifications.ts:89-100 | A holding timer with a pending transition describes that transition. Anything else describes the current phase |
| TimerNotifications.StatusBodyLeadIn | services/timer-notifications.ts:89-100 | The body starts with "Siguiente: " when it describes a pending transition, and with "Fase: " otherwise |
| TimerNotifications.GetBeepKind | services/timer-notifications.ts:102-112 | A long beep iff a running exercise is at 0. A short beep iff a running rest is at 2, 1 or 0 or a running exercise is at 2 or 1. No beep otherwise |
| TimerNotifications.BeepKeyIdentifiesBeep | services/timer-notifications.ts:283 | Two beeping snapshots have the same key iff they agree on phase, remaining time and beep kind |
| TimerNotifications.BeepAlert | services/timer-notifications.ts:152-168 | The alert title is "Fin de fase" for a long beep and "Aviso" for a short one. The body is the phase label and the time, and zero seconds read "00:00" whatever the time formatter does |
| TimerNotifications.BeepAlertForBeep | services/timer-notifications.ts:152-168 | For a beep `getBeepKind` calls for, the title is "Fin de fase" iff the timer is running at an exercise's zero, and then the body is "Ejercicio - 00:00"; every other beep is titled "Aviso" |
| TimerNotifications.BeepStep | services/timer-notifications.ts:281-288 | A beep fires iff the snapshot beeps and its key differs from the last key, and then its key becomes the last key |
| TimerNotifications.FiredKeysNeverRepeat | services/timer-notifications.ts:281-288 | Over any run of readings no key fires twice in a row, and the last key is the last fired one |
| TimerNotifications.RepeatedSnapshotFiresOnce | services/timer-notifications.ts:281-288 | A snapshot read any number of times in a row beeps at most once |
| TimerNotifications.SameKeyIsSilent | services/timer-notifications.ts:284 | A snapshot whose key is the last key never beeps again |
| TimerNotifications.ApplyAction | services/timer-notifications.ts:227-235 | PAUSE pauses a running or holding timer and leaves any other alone. SKIP is `applySkipTransition` |
| TimerNotifications.ActionRecord | services/timer-notifications.ts:237 | The persisted record keeps the configuration and is stamped with the action's time |
| TimerNotifications.PausedRecordIsFrozen | services/timer-notifications.ts:227-237 | A record paused by the action reads the same at any later time |
| TimerNotifications.SkipActionPreservesWellFormed | services/timer-notifications.ts:233-237 | The SKIP action keeps the snapshot invariant |
| TimerNotifications.PauseFromHoldingKeepsPending | services/timer-notifications.ts:227-231 | Pausing a holding timer keeps its pending transition, so "pending iff holding" no longer holds |
| TimerNotifications.NotificationService.constructor | services/timer-notifications.ts:253-254 | The loop starts with no last beep key, not stopped |
| TimerNotifications.NotificationService.ReadStored | services/timer-notifications.ts:181-184 | Nothing is read when the key is absent; a record read back passed the shape checks, and its phase and status strings decode to their own constructors |
| TimerNotifications.NotificationService.Persist | services/timer-notifications.ts:177-179 | Writes the encoded record under the storage key and nothing else. A well-named record reads back as itself |
| TimerNotifications.NotificationService.Clear | services/timer-notifications.ts:186-188 | Removes the key, after which nothing is read |
| TimerNotifications.NotificationService.StopForeground | services/timer-notifications.ts:204-214 | Removes the foreground notification and changes nothing else |
| TimerNotifications.NotificationService.StartForeground | services/timer-notifications.ts:196-202 | Persists the record and shows the live snapshot's notification |
| TimerNotifications.NotificationService.HandleAction | services/timer-notifications.ts:216-245 | Unknown actions and a missing record change nothing. Otherwise the action's record is persisted, and the notification stops on paused or done and shows the new snapshot otherwise |
| TimerNotifications.NotificationService.ServiceTick | services/timer-notifications.ts:257-292 | A stopped loop does nothing. A missing record or a paused or done live snapshot stops the loop and the notification. Otherwise the live snapshot is shown and an alert is added exactly when `BeepStep` fires. Storage is never written |
| TimerScreen.TickStep | app/timer.tsx:304-313 | A backwards clock only re-anchors. Otherwise the anchor moves by whole seconds to within a second of now, and the snapshot is advanced by exactly those seconds |
| TimerScreen.TicksAreDriftFree | app/timer.tsx:299-331 | Any non-decreasing run of ticks advances by exactly the whole seconds between the first anchor and the last tick, and leaves the anchor on the first anchor's grid |
| TimerScreen.BoundaryStep | app/timer.tsx:373-436 | Nothing changes unless the timer runs at or below zero in prep, exercise or rest |
| TimerScreen.BoundaryEffectAgreesWithReplay | app/timer.tsx:373-436 | From a running snapshot at zero, the boundary effect followed by `k` seconds equals replaying `k` seconds |
| TimerScreen.ScreenBeepKind | app/timer.tsx:352-371 | No cue in prep, done or paused, and a cue with time left only while running |
| TimerScreen.BeepRulesAgreeWhileRunning | app/timer.tsx:352-371 | While running, the screen's cue is the service's. A holding exercise at zero cues a long beep on the screen and none from the service |
| TimerScreen.Screen.constructor | app/timer.tsx:184-192 | The screen starts in set 1's preparation, running, with the configuration validated and the tick clock anchored |
| TimerScreen.Screen.ResetTimer | app/timer.tsx:438-445 | Back to set 1's preparation, running, with the clock re-anchored |
| TimerScreen.Screen.ResetSet | app/timer.tsx:447-453 | The current set's exercise restarts, running, with the clock re-anchored |
| TimerScreen.Screen.SkipSet | app/timer.tsx:455-509 | The new state is `applySkipTransition` of the old one, except that finishing keeps the remaining time. The clock is re-anchored iff the timer runs afterwards |
| TimerScreen.Screen.PauseTimer | app/timer.tsx:511-513 | Pauses a running timer only |
| TimerScreen.Screen.ResumeTimer | app/timer.tsx:515-519 | Resumes a paused timer and re-anchors the clock. Anything else is unchanged |
| TimerScreen.Screen.ContinueTimer | app/timer.tsx:521-529 | A holding timer with a pending transition enters it, running. Anything else is unchanged |
| TimerScreen.Screen.HandleNotificationResponse | app/timer.tsx:536-549 | PAUSE acts as the pause command, SKIP as the skip command, and any other action changes nothing |
| TimerScreen.Screen.SyncTickClock | app/timer.tsx:275-281 | A running timer keeps its anchor, or anchors now when it is unset or 0. Any other status clears it |
| TimerScreen.Screen.Tick | app/timer.tsx:299-331 | A running tick with an anchor takes `TickStep`, and anything else is unchanged, keeping the invariant |
| TimerScreen.Screen.BoundaryEffect | app/timer.tsx:373-436 | The new state is `BoundaryStep` of the old one, keeping the invariant |
| TimerScreen.Screen.RemainingEffect | app/timer.tsx:345-350 | Forgets the last beep key when the time went up, and records the time |
| TimerScreen.Screen.BeepEffect | app/timer.tsx:352-371 | Plays the screen's cue once per key |
| Presets.ParsePreset | hooks/use-presets.tsx:16-46 | Rejects any value without string identity, name and timestamps and boolean flags. Otherwise it succeeds iff the coerced counts validate, keeping the identity, name and timestamps and a valid configuration |
| Presets.PresetRoundTrip | hooks/use-presets.tsx:16-46 | A saved preset reads back as itself when its configuration is valid, and is dropped otherwise |
| Presets.Hydrate | hooks/use-presets.tsx:60 | Hydration never adds entries |
| Presets.HydrateDistributes | hooks/use-presets.tsx:60 | Hydrating a concatenation hydrates each part |
| Presets.HydrateSingle | hooks/use-presets.tsx:60 | A single entry is kept iff it parses |
| Presets.EncodePresets | hooks/use-presets.tsx:75 | The saved array holds each preset's encoding, in order |
| Presets.HydrateEncoded | hooks/use-presets.tsx:60 | Hydrating a saved list of valid presets gives the list back |
| Presets.LoadPresets | hooks/use-presets.tsx:54-61 | The list is replaced iff the stored text is non-empty and parses to an array |
| Presets.LoadSaved | hooks/use-presets.tsx:54-61 | What was saved is what is loaded |
| Presets.RemoveById | hooks/use-presets.tsx:82 | Removal never lengthens the list |
| Presets.RemoveKeepsExactlyOthers | hooks/use-presets.tsx:82 | A preset is in the result iff it was in the list and its id differs from the removed one |
| Presets.RemovedHaveOtherIds | hooks/use-presets.tsx:82 | No preset with the removed id is left |
| Presets.RemoveDistributes | hooks/use-presets.tsx:82 | Removal works part by part, so order is kept |
| Presets.RemoveKeepsOthers | hooks/use-presets.tsx:82 | Every other preset keeps its number of occurrences |
| Presets.RemoveAbsentIsIdentity | hooks/use-presets.tsx:82 | Removing an absent id changes nothing |
| Presets.RemoveIsIdempotent | hooks/use-presets.tsx:82 | Removing twice is removing once |
| Presets.AddThenRemove | hooks/use-presets.tsx:81-82 | Adding a preset and removing its id leaves the other presets as they were |
| Presets.PresetsProvider.constructor | hooks/use-presets.tsx:49-50 | The provider starts empty and not hydrated |
| Presets.PresetsProvider.Load | hooks/use-presets.tsx:52-71 | The list is replaced by the loaded one when there is one, and the provider is hydrated whatever the outcome |
| Presets.PresetsProvider.Save | hooks/use-presets.tsx:73-76 | Nothing is written before hydration, then the encoded list |
| Presets.PresetsProvider.AddPreset | hooks/use-presets.tsx:81 | The new preset goes first |
| Presets.PresetsProvider.RemovePreset | hooks/use-presets.tsx:82 | The list becomes `RemoveById` of the old one, and no preset with the id remains |
| ManifestPlugin.FindNotifee | plugins/with-notifee-foreground-service.js:16 | The index of the first Notifee service entry, or none if there is none |
| ManifestPlugin.AsArray | plugins/with-notifee-foreground-service.js:6-9 | A falsy value (absent or `null`) becomes the empty list, an array stays itself, and a single element becomes a list of one |
| ManifestPlugin.PatchedShape | plugins/with-notifee-foreground-service.js:11-29 | The Notifee entry is patched where it was first found, or appended. It is then not exported and of type `mediaPlayback`, and every other entry is unchanged |
| ManifestPlugin.PatchIsIdempotent | plugins/with-notifee-foreground-service.js:11-29 | Patching twice is patching once |
| ManifestPlugin.ApplyForegroundServiceType | plugins/with-notifee-foreground-service.js:11-29 | Without an application nothing changes. Otherwise the services become a list that extends the old one with the same distinct elements, and whose entries are `Patched` of the old entries |
| ManifestPlugin.PatchApplication | plugins/with-notifee-foreground-service.js:15-26 | The application's services become a list that extends the old one with distinct elements, and whose entries are `Patched` of the old entries |
| ManifestPlugin.FindOrAddNotifee | plugins/with-notifee-foreground-service.js:15-23 | The found Notifee element's index in the unchanged list, or a new Notifee element appended at the end when there is none, keeping the elements distinct. Patching that element's attributes (an empty object when missing) gives `Patched` of the old entries |
| ManifestPlugin.PatchAndStore | plugins/with-notifee-foreground-service.js:23-26 | After the attribute write and the store, the application holds the list and only the patched entry has changed |
| ManifestPlugin.StoreServices | plugins/with-notifee-foreground-service.js:26 | The application's service value becomes the list, and no service entry changes |
| ManifestPlugin.SetServiceAttrs | plugins/with-notifee-foreground-service.js:23-25 | Rewriting one element's attributes in place changes that entry alone, given that no element appears twice |

## Left out

- The React screen's rendering and layout (`app/timer.tsx` from line 551), theming and navigation are presentation only.
- Platform calls are modelled only through their effect on the model's state:
  - Notifee, AsyncStorage and expo-notifications calls;
  - notification channels and the permission request (`ensureTimerNotificationsReady`);
  - keep-awake;
  - `AppState`;
  - the screen's scheduling and cancelling of background notifications.
- The `Platform.OS` checks are left out: the Android behaviour is modelled, and other platforms return early.
- `setInterval` and `Date.now` are left out. Each loop iteration is one method call, and the current time is a parameter.
- The foreground loop's `inFlight` guard is left out. It only matters for overlapping asynchronous iterations, and the model has no concurrency.
- `JSON.parse` is a function parameter, and storage holds parsed values, so `JSON.stringify` is the encoders.
- `formatTime` is a function parameter (`utils/formatTime` is not part of this model). `createId` is also not part of this model.
- Sound feedback and its volume handling (`hooks/use-feedback.ts`) are not part of this model. The screen records which cue it plays.
- The screen reads timer states through imports whose files are not part of this model (`scheduleTimerNotifications`, `isTimerNotificationResponse` and the like).
- Not modelled in `app/timer.tsx`:
  - the route-parameter parsing (lines 142-165);
  - the effect that resets the screen when the configuration changes (lines 283-297);
  - the effect that keeps the refs in step with the state.

  The constructor starts from a validated configuration.
- The `usePresets` context error and preset creation (`domain/presets/createPreset.ts`) are outside the modelled core.
- The manifest plugin's wrapper around `withAndroidManifest` is left out, and so is any child content of a service element. Only attribute objects are modelled.
- ManifestPlugin.ApplyForegroundServiceType: requires that no service element appears twice in the list. A parsed XML document never shares an element, and aliased elements would make an in-place update of one entry change another.
- ManifestPlugin.PatchApplication, ManifestPlugin.FindOrAddNotifee, ManifestPlugin.PatchAndStore and ManifestPlugin.SetServiceAttrs carry the same requirement for the same reason.
- TimerNotifications.DecodeStored: numbers in the stored record must be integers. `parseStoredState` also accepts fractional numbers, `NaN` and infinities, which the app never writes.
- TimerNotifications.DecodeConfig: the counts must be integers, while `isValidConfig` accepts any number, for the same reason.
- TimerNotifications.DecodePending: the set index and time must be integers, while the source accepts any number, for the same reason.
- TimerNotifications.DecodeSnapshot: the set index and time must be integers, while `isValidSnapshot` accepts any number, for the same reason.
- JsValues.StringToNumber: only blank strings and optionally signed decimal digit strings become integers. Any other string becomes a non-integer, although JavaScript reads `"1.0"`, `"1e3"` or `"0x10"` as integers.
- JsValues.ToNumber: arrays and objects always become non-integers, although JavaScript reads `[5]` as 5 and `[]` as 0.
- TimerScreen.Screen.BeepEffect: records the cue it plays rather than playing a sound. The `playBeep` callback is not part of this model.
