# Mapty workouts in Dafny

Mapty is a small browser app. The user clicks a spot on a map and logs a run or
a ride there. Each workout is rendered as a map marker and as an entry in a
list, and the list is kept in the browser's `localStorage`. This project models
the workout domain of `script.js` and the list bookkeeping that `App` does
around it:

- the `Workout` class and its two variants, `Running` and `Cycling`. This covers
  the fields, the derived `pace` and `speed`, the generated id, the description
  label and the click counter;
- the form validation in `_newWorkout`, and the append of the new workout and
  its marker;
- the marker filter of `_clearMarker`;
- the rebuilding of typed workouts from the stored records in
  `_getLocalStorage`, and the record list `_setLocalStorage` writes;
- the `find` plus `click` of the list's click handler `_moveToPopup`, and the
  marker clearing of `_removeWorkout`.

Modules, one per file:

- `Numbers` (`numbers.dfy`): a JavaScript number is an exact real, or one of
  `Infinity`, `-Infinity` and `NaN`. The file gives `Number.isFinite`, `> 0`
  and `/`, and the `validInputs` and `allPositives` predicates of the form.
- `Ids` (`ids.dfy`): `_guid`. The eight `Math.random()` draws are taken as the
  eight 16-bit values `Math.floor((1 + r) * 0x10000) - 0x10000`. The file gives
  the hexadecimal rendering, `s4`, and the 8-4-4-4-12 id.
- `Text` (`text.dfy`): the string that `_setDescription` builds, with decimal
  rendering of the day and capitalisation of the first letter.
- `Workouts` (`workouts.dfy`): the value of a workout, and the `Workout`
  class. The class has two constructors, one per variant; the variant is the
  `Metrics` value it carries. `id` and `clicks` are mutable; every other field
  is fixed at construction.
- `Markers` (`markers.dfy`): the marker list as `(workout id, layer)` pairs,
  and the filter of `_clearMarker`.
- `Storage` (`storage.dfy`): the parsed records in the `workout` slot, their
  rebuilding into workouts, and the save/load round trip.
- `Mapty` (`app.dfy`): the `App` class. Its fields are `#workouts` (a sequence
  of `Workout` objects) and `#markers`. Its methods are `_newWorkout`,
  `_renderWorkoutMarker`, `_clearMarker`, `_getLocalStorage` (called from the
  constructor), `_moveToPopup` and `_removeWorkout`.

The model follows the code in these points:

- A workout rebuilt from storage always starts with zero clicks, because
  `clicks` is not copied from the record. Saving and then loading therefore
  gives back every workout except its click count (`Storage.LoadSaved`).
- `_removeWorkout` clears the workout's markers but leaves `#workouts` as it
  was.
- Nothing checks that ids are distinct, and nothing requires cadence to be
  an integer.

## Model

| member | source | states |
|---|---|---|
| `Numbers.IsFinite` | script.js:162 | `Number.isFinite`: true exactly for a finite number. Its consequences are stated by `Mapty.RunningAcceptance` and `Mapty.CyclingAcceptance`. |
| `Numbers.IsPositive` | script.js:166 | `x > 0`: true for a finite positive number and for `Infinity`, false for NaN. Stated through the two acceptance lemmas. |
| `Numbers.ValidInputs` | script.js:161-163 | `validInputs(...)`: every input is finite. Unfolded by the two acceptance lemmas. |
| `Numbers.AllPositives` | script.js:165-167 | `allPositives(...)`: every input is greater than 0. Unfolded by the two acceptance lemmas. |
| `Numbers.Div` | script.js:60 | The JS `/` operator. With finite operands and a nonzero divisor, the quotient is finite and times the divisor gives the dividend. A NaN operand gives NaN. |
| `Ids.HexString` | script.js:26-27 | `toString(16)` of a natural number: a nonempty string of lowercase hexadecimal digits. |
| `Ids.HexStringValue` | script.js:26-27 | Reading `toString(16)` back as hexadecimal gives the number again. |
| `Ids.S4IsHex4` | script.js:25-29 | `s4` is exactly four hex digits: the 16-bit value zero-padded, with the most significant digit first. |
| `Ids.S4Shape` | script.js:25-29 | `s4` has length 4, is all hex digits, and its hexadecimal value is the drawn 16-bit value. |
| `Ids.S4` | script.js:25-29 | `s4()` for one draw: the hex rendering of `0x10000 + n` without its leading `1`. Specified by `Ids.S4IsHex4` and `Ids.S4Shape`. |
| `Ids.Guid` | script.js:24-33 | `_guid()` for eight draws. Specified by `Ids.GuidShape`, `Ids.GuidGroups` and `Ids.GuidInjective`. |
| `Ids.GuidShape` | script.js:30-32 | The id has 36 characters: `-` at positions 8, 13, 18 and 23, and a lowercase hex digit everywhere else (the 8-4-4-4-12 format). |
| `Ids.GuidGroups` | script.js:32 | The id splits at its dashes into the eight `s4` pieces, in draw order. |
| `Ids.GuidInjective` | script.js:24-33 | Two ids are equal exactly when their eight draws are equal. |
| `Text.Upper` | script.js:39 | `toUpperCase` of one character: a lowercase ASCII letter becomes the uppercase letter 32 code points below it; any other character is unchanged. |
| `Text.Capitalize` | script.js:39 | `type[0].toUpperCase() + type.slice(1)`: the same length, the first character is `Upper` of the old one, and the tail is unchanged. |
| `Text.DecimalString` | script.js:41 | The day as rendered by the template: a nonempty string of decimal digits, with no leading zero. |
| `Text.DecimalRoundTrip` | script.js:41 | Reading the rendered day back as decimal gives the day. |
| `Text.DecimalInjective` | script.js:41 | Different days render differently. |
| `Text.Description` | script.js:35-42 | The label: the capitalised type, ` on `, the entry of the `months` table for the 0-based month, a space, and the day. Specified by `Text.DescriptionSplit`, `Text.DescriptionDeterminesDate` and `Workouts.RunningOnApril14`. |
| `Text.DescriptionSplit` | script.js:39-41 | The label is a prefix fixed by the type, followed by the part that names the date. |
| `Text.DescriptionDeterminesDate` | script.js:35-42 | For one type name, two descriptions are equal exactly when the month index and the day are equal. |
| `Workouts.TypeName` | script.js:50 | The `type` of each variant (`running`, `cycling`) is a nonempty string. |
| `Workouts.Pace` | script.js:59-62 | `calcPace()`, duration / distance. With a finite nonzero distance, the pace is finite and times the distance gives the duration. A NaN input gives NaN. |
| `Workouts.Speed` | script.js:75-78 | `calcSpeed()`, distance / (duration / 60). With a finite nonzero duration, the speed is finite and times the duration gives 60 × distance. A NaN input gives NaN. |
| `Workouts.DescriptionOf` | script.js:35-42 | `_setDescription()` for a workout's type and date. Specified by `Workouts.DescriptionDeterminesKindAndDate` and `Workouts.RunningOnApril14`. |
| `Workouts.RunningValue` | script.js:49-62 | A new running workout carries the given id, coords, distance, duration, date and cadence. It has zero clicks, well-formed derived fields (`pace` = duration / distance and the description of type `running` on its date), and kind running. |
| `Workouts.CyclingValue` | script.js:65-78 | A new cycling workout carries the given id, coords, distance, duration, date and elevation. It has zero clicks, well-formed derived fields (`speed` = distance / (duration / 60) and the description of type `cycling` on its date), and kind cycling. |
| `Workouts.Workout.Running` | script.js:49-62 | Constructing a `Running` (which runs the base constructor of script.js:14-22) sets the given coords, distance, duration, cadence and date, computes pace and description, sets `clicks` to 0, and sets `id` to the `_guid()` of the draws. |
| `Workouts.Workout.Cycling` | script.js:65-73 | Constructing a `Cycling` does the same with elevation and speed. |
| `Workouts.Workout.Click` | script.js:44-46 | `click()` adds exactly one to `clicks` and changes no other field. |
| `Workouts.PaceOfValidInputs` | script.js:59-62 | For a positive distance and duration, `pace` is finite and positive, equals duration / distance, and times distance gives duration. |
| `Workouts.SpeedOfValidInputs` | script.js:75-78 | For a positive distance and duration, `speed` is finite and positive, equals distance / (duration / 60), and times duration equals 60 × distance. |
| `Workouts.DescriptionDeterminesKindAndDate` | script.js:35-42 | Two workouts have the same description exactly when they have the same type, month and day. |
| `Workouts.RunningOnApril14` | script.js:35-42 | A running workout on day 14 of month 3 is labelled `Running on April 14`. |
| `Markers.KeepOthers` | script.js:231-240 | The markers `_clearMarker(id)` keeps: no longer than the old list, and none of them carries `id`. Specified in full by the lemmas below. |
| `Markers.Matching` | script.js:234-236 | The markers handed to `removeLayer`: no longer than the old list, and every one carries `id`. |
| `Markers.KeepOthersMembers` | script.js:231-240 | A marker survives `_clearMarker(id)` exactly when it was in the list and its `_id` differs from `id`. |
| `Markers.MatchingMembers` | script.js:234-236 | A marker is handed to `removeLayer` exactly when it was in the list and its `_id` is `id`. |
| `Markers.KeepOthersPartition` | script.js:231-240 | The kept and the removed markers together are the old list as a multiset: none is lost and none is duplicated. |
| `Markers.KeepOthersAppend` | script.js:231-240 | The filter distributes over concatenation, so the kept markers keep their relative order. |
| `Markers.KeepOthersNoMatch` | script.js:231-240 | Clearing an id that no marker carries changes nothing. |
| `Markers.KeepOthersIdempotent` | script.js:231-240 | Clearing the same id twice is the same as clearing it once. |
| `Storage.ToRecord` | script.js:372 | The record `JSON.stringify` writes for one workout carries its id, type, coords, distance, duration, date and clicks. |
| `Storage.Save` | script.js:371-373 | `_setLocalStorage` writes one record per workout, in list order, each with that workout's id and type. |
| `Storage.Rebuild` | script.js:382-413 | A record of type `running` or `cycling` gives one well-formed workout. It carries the stored id, coords, distance, duration, date and cadence or elevation, and zero clicks. Any other record gives nothing. |
| `Storage.RestoreAll` | script.js:382-413 | The workouts `data.forEach` appends: at most one per record, each with zero clicks. Specified in full by the lemmas below. |
| `Storage.Restore` | script.js:375-413 | `_getLocalStorage()`: nothing for an empty slot, and otherwise at most one workout per record. |
| `Storage.RestoreAppend` | script.js:382-413 | Rebuilding two runs of records one after the other appends the two results, in order. |
| `Storage.RestoreSkipsUnknown` | script.js:384-412 | Records of other types are skipped: rebuilding all records is the same as rebuilding only those of a known type. |
| `Storage.RestoreEach` | script.js:382-413 | When every record has a known type, workout `i` is rebuilt from record `i`. |
| `Storage.RebuildRecord` | script.js:375-413 | Loading the record of a well-formed workout gives that workout back with its clicks reset to 0. |
| `Storage.LoadSaved` | script.js:371-413 | Loading what `_setLocalStorage` saved gives back every workout, in order, with all fields except `clicks`, which restarts at 0. |
| `Storage.CyclingRecordExample` | script.js:399-412 | A stored 10 km, 30 minute ride with 2 clicks loads with its stored id, at 20 km/h, with 0 clicks. |
| `Mapty.Accepts` | script.js:178-194 | The test applied before a workout is built. Specified by `Mapty.RunningAcceptance` and `Mapty.CyclingAcceptance`. |
| `Mapty.Created` | script.js:175-197 | The workout `_newWorkout` builds has the submitted type, coords, distance and duration, and the submitted cadence (running) or elevation (cycling); today's date; zero clicks; the fresh id; and well-formed derived fields. |
| `Mapty.RunningAcceptance` | script.js:161-183 | A running input is accepted exactly when distance, duration and cadence are all finite and all greater than 0. |
| `Mapty.CyclingAcceptance` | script.js:188-194 | A cycling input is accepted exactly when distance, duration and elevation are all finite and distance and duration are greater than 0. |
| `Mapty.AcceptedMetricIsPositive` | script.js:175-197 | An accepted input gives a finite, positive pace or speed, with the formula of its variant. |
| `Mapty.ZeroCadenceRefusedZeroElevationAccepted` | script.js:178-194 | A cadence of 0 is refused; a ride with 0 elevation gain is accepted. |
| `Mapty.FindById` | script.js:313-315 | `find` returns the first workout with the id, or nothing when no workout has it. |
| `Mapty.ClickFirst` | script.js:313-323 | The list after a click on a workout's element keeps its length. Specified in full by `Mapty.ClickFirstEffect`. |
| `Mapty.ClickFirstEffect` | script.js:313-323 | A click on a listed workout adds one to the clicks of exactly the first workout with that id. The list keeps its length, and every other field of every workout stays the same. |
| `Mapty.App.constructor` | script.js:89-99 | A new `App` holds exactly the workouts rebuilt from the stored records, none when the slot is empty, and no markers. |
| `Mapty.App.Push` | script.js:199 | `#workouts.push` appends the workout and keeps every listed object distinct and well-formed. |
| `Mapty.App.RestoreRecord` | script.js:382-413 | One `forEach` step appends what `Rebuild` gives for the record: the new typed workout with its id overwritten. |
| `Mapty.App.GetLocalStorage` | script.js:375-420 | Empty storage leaves the list unchanged. Otherwise the rebuilt workouts are appended in record order. |
| `Mapty.App.RenderWorkoutMarker` | script.js:210-229 | The new marker carries the workout's id and is appended to `#markers`. |
| `Mapty.App.NewWorkout` | script.js:158-208 | `accepted` is the validation result. A refused input changes neither list and writes nothing. An accepted one appends the created workout and its marker, then writes the whole new list to storage. |
| `Mapty.App.ClearMarker` | script.js:231-240 | `#markers` becomes the old list without the markers of `id`, in order; exactly those markers are handed to `removeLayer`. |
| `Mapty.App.MoveToPopup` | script.js:310-324 | Clicking a workout's element increments the clicks of the first workout with that id and leaves every other field unchanged. If no workout has that id, nothing changes. |
| `Mapty.App.RemoveWorkout` | script.js:355-369 | `#workouts` is unchanged. If a workout has the id, its markers are cleared as by `_clearMarker`. If none has it, nothing changes. |

## Left out

- The page is not modelled: DOM access, the form and its show/hide, `setTimeout`, the input-type toggle, and the HTML of `_renderWorkout`.
- Leaflet and geolocation are not modelled: `_getPosition`, `_loadMap` (including its loop that renders a marker per workout), `setView` and popups. A marker's layer is an opaque number, and `removeLayer` is the returned list of removed markers.
- `localStorage` and the JSON text are not modelled. The slot holds the parsed records or nothing, so malformed JSON (which makes `JSON.parse` throw) is not modelled. `JSON.stringify` writing non-finite numbers as `null` is also not modelled.
- The derived keys (`pace`, `speed`, `description`) are not modelled in a stored record: `_getLocalStorage` never reads them.
- The `Date` object is a (month 0 to 11, day 1 to 31) pair, and its string round trip through storage is not modelled. Neither is a stored date that parses as `Invalid Date`.
- The unary `+` conversion of form strings is not modelled: the inputs are already numbers, possibly non-finite.
- IEEE rounding, signed zero and `toFixed(1)` are not modelled: arithmetic on finite numbers is exact.
- `Math.random` is taken as the eight 16-bit draws, passed in as parameters. The rare draw where `1 + r` rounds up to 2 is not modelled.
- `Mapty.App.GetLocalStorage`: one set of draws stands for the `_guid()` calls of every record. Those ids are overwritten with the stored ones, so nothing observable depends on them.
- `Mapty.App.NewWorkout`: the form's `type` is one of the two options of its select. The code path for any other value, which pushes `undefined` and then fails, is not modelled.
- `Mapty.App.MoveToPopup`: the dispatch of the Edit and Remove buttons, and the early return on a click outside any workout element, are decided by the page and not modelled. The Remove path is `Mapty.App.RemoveWorkout`.
- `Mapty.App.MoveToPopup`: assumes the map has loaded. If geolocation failed, the map never loads, `setView` throws before `workout.click()`, and the click count is not incremented. The model always increments it.
- `_editWorkout` is not modelled: it is unfinished, computes a list it never uses, and writes nothing.
- `reset` is not modelled: it clears storage and reloads the page.
- The DOM element removal of `_removeWorkout` is not modelled.
- `Text.Capitalize`: `toUpperCase` is modelled for ASCII letters only. The two type names are ASCII.
- `Storage.Rebuild`: a missing `cadence` or `elevation` key reads as `undefined`, modelled as NaN. Only those two keys may be missing from a record.
