# Mapty workout tracker — a Dafny model of its workout model and collection logic

Mapty records running and cycling workouts that the user places on a map.
This project models the part of `script.js` that is not user-interface
code: the workout entities with their derived values, the input checks of
the form, and what each user action does to the controller's ordered
workout collection and to the stored copy of it.

- `numbers.dfy` (module `Numbers`): JavaScript `undefined` as `Option`, and
  JavaScript numbers as `Num` (finite real, ±Infinity, NaN), with
  `Number.isFinite`, `> 0` and division.
- `workouts.dfy` (module `Workouts`): the `Workout` datatype, tagged by
  `Kind` (running or cycling). It also holds the two constructors with
  pace = duration / distance and speed = distance / (duration / 60), the
  description "Running on 14 March", the symbol, and `_click`.
- `validation.dfy` (module `Validation`): `_validInputs` and `_povInputs`,
  and how the running and cycling branches combine them. Cycling does not
  require a positive elevation.
- `storage.dfy` (module `Storage`): the plain records written under the
  'workouts' key and the restore that rebuilds workouts from them.
- `collection.dfy` (module `Collection`): `find` and `filter` by id over the
  collection.
- `app.dfy` (module `Controller`): the `App` class. Its fields are the
  collection (`seq<Option<Workout>>`, where `None` is an `undefined` entry),
  the editing flag, the edit target and the stored payload. Its methods are
  create, begin-edit, approve-edit, submit, delete, save and load.

The model follows the code, including where its behaviour is surprising:

- A rejected create still pushes `undefined` into the collection. The guard
  `if (!workout) return;` is commented out. The following
  `_renderMarkerToMap(undefined)` throws, so a rejected create is not saved.
  The next accepted create does save, and it writes the `null` entry too.
  From then on, loading that payload throws on `null.type`, so nothing of it
  comes back (`Storage.AbsentEntryBlocksRestore`).
- Restore does not drop records of an unknown type. Each one becomes an
  `undefined` entry at its position.
- `find` and `filter` read `w.id` on every entry they visit. Both throw when
  they reach an `undefined` entry, and the model then leaves the collection
  unchanged.
- Editing mode is switched on by the first edit and never switched off.
  After that, every submit is an edit.
- An edit takes its branch from the form's type, not from the workout's
  type. It does not recompute pace, speed or description. A running workout
  edited through the cycling form gains an `elevation` property.
- Restore runs the constructor at the current time. It overwrites id, clicks
  and date only afterwards. So the restored pace or speed is recomputed from
  the stored values, and the restored description is dated at the reload,
  not at the stored date (`Storage.RestoredDescriptionUsesReloadDate`).

## Model

| member | source | states |
|---|---|---|
| `Numbers.Quotient` | script.js:54 | division of two finite numbers is finite exactly when the divisor is non-zero, and then it multiplies back to the dividend; division by zero gives +Infinity for a positive dividend, -Infinity for a negative one and NaN for zero |
| `Validation.ValidInputs` | script.js:147-149 | true exactly when every input is a finite number |
| `Validation.PovInputs` | script.js:151-153 | true exactly when every input is greater than zero (+Infinity included, NaN excluded) |
| `Validation.RunningAccepted` | script.js:170-173 | a running form passes exactly when distance, duration and cadence are all finite and positive |
| `Validation.CyclingAccepted` | script.js:185-188 | a cycling form passes exactly when all three values are finite and distance and duration are positive; elevation may be zero or negative |
| `Validation.CyclingAcceptsWhatRunningRejects` | script.js:170-188 | with values the cycling rule accepts, the running rule accepts as well exactly when the metric is positive |
| `Workouts.Tag` | script.js:44 | the `type` field is 'running' exactly for running workouts, otherwise 'cycling' |
| `Workouts.DecimalText` | script.js:33 | the day of the month is written as a non-empty string of decimal digits, one digit exactly below 10 |
| `Workouts.DecimalRoundTrip` | script.js:33 | reading back the decimal text of a day gives the day |
| `Workouts.DecimalTextInjective` | script.js:33 | different days are written differently |
| `Workouts.MonthNamesDistinct` | script.js:17-30 | the twelve month names of the table are pairwise distinct |
| `Workouts.Heading` | script.js:31-33 | the description `Describe` gives (`_setDescription`) begins "Running on " for running workouts and "Cycling on " for cycling ones (type with its first letter upper-cased, then " on ") |
| `Workouts.DescribeInjective` | script.js:31-33 | equal results of `Describe` have the same kind, day of month and month: the label is the type, the day and `months[getMonth()]`, and the month index is always within the table |
| `Workouts.SymbolOf` | script.js:35-37 | the symbol is the runner glyph exactly when the type is 'running', the cyclist glyph otherwise |
| `Workouts.NewRunning` | script.js:43-56 | a new running workout keeps distance, duration, coords and cadence, starts with 0 clicks, has pace = duration / distance (non-finite for a zero distance), the runner symbol and the description of its creation date |
| `Workouts.NewCycling` | script.js:59-72 | a new cycling workout keeps distance, duration, coords and elevation, starts with 0 clicks, has speed = distance / (duration / 60) (non-finite for a zero duration), the cyclist symbol and the description of its creation date |
| `Workouts.Click` | script.js:38-40 | clicks grow by exactly one and no other field changes |
| `Workouts.DerivedMetricExamples` | script.js:53-72 | 5 km in 30 min gives pace 6; 10 km in 40 min gives speed 15 |
| `Storage.Serialise` | script.js:322-324 | the stored payload has one entry per collection entry, in order: the workout's record (`ToRecord`, every field with the type tag), or null for an undefined entry |
| `Storage.RestoreRecord` | script.js:329-349 | a record is rebuilt exactly when its type is 'running' or 'cycling', with its stored type, id, clicks, date, distance, duration, coords and metric, its kind's symbol, a pace (running) or speed (cycling) recomputed from the stored distance and duration with the other metric absent, and a description made at the reload time |
| `Storage.RestoreAll` | script.js:329 | the restored list has the payload's length and rebuilds each record at its own position |
| `Storage.Restored` | script.js:326-349 | the collection is replaced exactly when a payload is stored and none of its entries is null, by the record-by-record restore of the payload: a list of the same length whose defined entries are exactly those with a known type |
| `Storage.RoundTrip` | script.js:322-349 | saving a collection without undefined entries (`Serialise`, `ToRecord`) and loading it back gives a list of the same length in which every workout keeps its kind, id, clicks, date, distance, duration, coords and metric |
| `Storage.AbsentEntryBlocksRestore` | script.js:329-330 | a saved collection holding an undefined entry cannot be restored at all |
| `Storage.RestoredDescriptionUsesReloadDate` | script.js:331-334 | when the reload falls on another calendar day than the stored date, the restored description differs from the saved one |
| `Collection.Find` | script.js:306-310 | lookup returns the first entry with the id, with every earlier entry defined and carrying another id; no match exactly when all entries are defined and none has the id; a throw exactly when an undefined entry is reached first |
| `Collection.FindInPresent` | script.js:308 | lookup on a collection without undefined entries never throws |
| `Collection.FindAfterReplace` | script.js:381-383 | overwriting a workout's fields without touching its id changes no lookup |
| `Collection.WithoutId` | script.js:422 | delete leaves no entry with the id, keeps every entry with another id and nothing else, shortens the list by the number of entries with the id, and changes nothing when no entry has it |
| `Collection.WithoutIdSplit` | script.js:422 | delete works piecewise over any split of the list, so the kept entries stay in their original relative order |
| `Collection.WithoutIdIdempotent` | script.js:422 | deleting the same id again changes nothing |
| `Controller.Built` | script.js:160-194 | a workout is built exactly when the form is a running form passing the running rule or a cycling form passing the cycling rule; it has the form's type, values and metric, the fresh id and date, 0 clicks, its pace or speed, and no metric of the other kind |
| `Controller.CreateExamples` | script.js:167-194 | distance 0, duration 0 or cadence -1 reject a run; 5 km, 30 min and cadence 150 give pace 6; a ride with elevation -50 is accepted with speed 15 |
| `Controller.Edited` | script.js:369-405 | an accepted running form overwrites only distance, duration and cadence, and an accepted cycling form only distance, duration and elevation, whatever the workout's own kind; id, date, clicks, coords, description, symbol, pace and speed never change; a rejected form changes nothing |
| `Controller.EditLeavesPaceStale` | script.js:381-383 | after an accepted edit that changes the ratio of duration to distance, the stored pace no longer equals duration / distance |
| `Controller.ReloadRefreshesStalePace` | script.js:330-335 | saving and reloading an edited running workout gives it the pace of its edited duration over its edited distance |
| `Controller.EditById` | script.js:366-405 | an edit changes only the first entry with the target id, keeps the length, the defined entries and every id, and changes nothing when no entry has the id |
| `Controller.EditByIdKeepsShape` | script.js:381-383 | an edit keeps every workout well formed and changes no lookup |
| `Controller.WithoutIdKeepsShape` | script.js:422 | a delete keeps every workout well formed and leaves a list on which lookup never throws |
| `Controller.App.constructor` | script.js:92-123 | the app starts with an empty collection, not editing, and then loads storage |
| `Controller.App.Save` | script.js:322-324 | the stored payload becomes the serialised collection |
| `Controller.App.LoadStorage` | script.js:326-353 | the collection becomes the restored payload, or stays as it was when nothing is stored or an entry is null |
| `Controller.App.NewWorkout` | script.js:155-207 | every create appends exactly one entry, undefined exactly when the form is rejected; only an accepted create saves |
| `Controller.App.BeginEdit` | script.js:355-362 | editing mode is on afterwards; the edit target is the workout found by id, or undefined when none matches, and is unchanged when the lookup throws |
| `Controller.App.ApproveEdit` | script.js:364-415 | with a target, looking it up does not throw, and the collection becomes the edit of its first entry with the target's id and is saved; without one, nothing changes |
| `Controller.App.Submit` | script.js:102-110 | outside editing mode a submit appends the built workout, or undefined for a rejected form, and saves only an accepted one; in editing mode with a target it applies the edit to the target's first entry and saves, and without a target it changes nothing |
| `Controller.App.Delete` | script.js:417-425 | when lookup finds the workout and no entry is undefined, every entry with its id is removed and the collection saved; otherwise nothing changes |

## Left out

- The Leaflet map is not modelled. This covers loading it, the tile layer,
  markers, popups, `flyTo` and the `#markers` table (`_loadMap`,
  `_renderMarkerToMap`, `_goToPopup`). These are calls into a library that
  is not part of this model.
- Geolocation (`_getPosition`) is not modelled. It is an asynchronous
  browser service.
- DOM reading and writing are not modelled. This covers the list HTML,
  `_toggleElevationForm`, `_fillInputsFields`, `_showForm`, `_hideForm` and
  its timer, `_activateMap` and element removal. The form arrives as a
  `Form` value. The click position arrives as `Coords`.
- The `+input.value` text-to-number coercion is not modelled. For example,
  an empty field reads as 0. The form already holds the coerced numbers.
- `localStorage` and JSON text are not modelled. The payload is a sequence
  of records. `None` means the key is unset; a `None` entry is `null`. Not
  modelled: unparseable text (on which `JSON.parse` throws), records whose
  numbers or coords are missing or not numbers, and JSON writing non-finite
  numbers as `null`. Restore recomputes the derived values and never reads
  the stored ones.
- Ids from `Date.now()` and the clock from `new Date()` are parameters. One
  clock reading serves a whole restore. The calendar computation behind
  `getMonth()` and `getDate()` is not modelled. A `Date` carries the month
  and day it yields, within their ranges. Its ISO text form is not
  modelled; it is treated as read back unchanged.
- IEEE-754 rounding, signed zero and `toFixed(1)` display rounding are not
  modelled. Finite numbers are exact reals.
- `toUpperCase` is modelled on ASCII letters only, which is all the two type
  tags use.
- `alert` and `console.log` are not modelled.
- The edit form holds a reference to the workout object. The model keeps the
  id of the workout found instead. This gives the same collection. Editing
  mode is never switched off, so no create can follow the edit. A delete
  removes every entry with an id or throws. So the object is still the first
  entry with its id, or it has left the collection. `App.Valid` keeps, as an invariant
  every method preserves, that every workout is well formed and that
  looking the target up never throws; `App.ApproveEdit` relies on the
  latter.
- An edited object that has left the collection is not modelled. The model
  does not track it; only the collection and the stored payload are
  modelled.
- `_click` is modelled on its own. The app never calls it.
- Not modelled: the throw from rendering an `undefined` entry after restore
  has installed the collection. That throw comes after the collection is
  set.
