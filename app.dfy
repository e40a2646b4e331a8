/** The bookkeeping of the `App` class: validating a submitted form and adding
    the workout, clearing the markers of a workout, counting clicks on a
    workout, and rebuilding the workout list from storage when the page
    loads. The map, the form and the list on the page are not modelled; what
    a call hands to them is returned instead. */
module Mapty {
  import opened Numbers
  import opened Ids
  import opened Workouts
  import opened Storage
  import opened Markers

  /** What `_newWorkout` reads from the form and the last map click:
      `inputType.value`, `#mapEvent.latlng`, and the numeric fields after the
      unary `+` has converted them. */
  datatype WorkoutInput = WorkoutInput(
    kind: Kind,
    lat: real,
    lng: real,
    distance: Num,
    duration: Num,
    cadence: Num,
    elevation: Num)

  /** The test `_newWorkout` applies before building a workout. A running
      workout needs all three numbers finite and positive; a cycling workout
      needs all three finite and only distance and duration positive. */
  predicate Accepts(input: WorkoutInput) {
    match input.kind
    case Running =>
      ValidInputs([input.distance, input.duration, input.cadence]) &&
      AllPositives([input.distance, input.duration, input.cadence])
    case Cycling =>
      ValidInputs([input.distance, input.duration, input.elevation]) &&
      AllPositives([input.distance, input.duration])
  }

  /** The workout `_newWorkout` builds from an accepted input, dated `now`
      and identified by `id`. */
  function Created(input: WorkoutInput, now: Date, id: string): (w: WorkoutValue)
    ensures WellFormed(w) && w.Kind() == input.kind && w.clicks == 0 && w.id == id
    ensures w.coords == Coords(input.lat, input.lng) && w.date == now
    ensures w.distance == input.distance && w.duration == input.duration
    ensures input.kind == Running ==> w.metrics.cadence == input.cadence
    ensures input.kind == Cycling ==> w.metrics.elevation == input.elevation
  {
    match input.kind
    case Running =>
      RunningValue(Coords(input.lat, input.lng), input.distance, input.duration, input.cadence, now, id)
    case Cycling =>
      CyclingValue(Coords(input.lat, input.lng), input.distance, input.duration, input.elevation, now, id)
  }

  /** A running input is accepted exactly when distance, duration and
      cadence are all finite and greater than zero. */
  lemma RunningAcceptance(input: WorkoutInput)
    requires input.kind == Running
    ensures Accepts(input) <==>
      input.distance.Finite? && input.duration.Finite? && input.cadence.Finite? &&
      input.distance.v > 0.0 && input.duration.v > 0.0 && input.cadence.v > 0.0
  {
    var three := [input.distance, input.duration, input.cadence];
    assert three[0] == input.distance && three[1] == input.duration && three[2] == input.cadence;
  }

  /** A cycling input is accepted exactly when distance, duration and
      elevation are all finite and distance and duration are greater than
      zero; the elevation may be zero or negative. */
  lemma CyclingAcceptance(input: WorkoutInput)
    requires input.kind == Cycling
    ensures Accepts(input) <==>
      input.distance.Finite? && input.duration.Finite? && input.elevation.Finite? &&
      input.distance.v > 0.0 && input.duration.v > 0.0
  {
    var three := [input.distance, input.duration, input.elevation];
    var two := [input.distance, input.duration];
    assert three[0] == input.distance && three[1] == input.duration && three[2] == input.elevation;
    assert two[0] == input.distance && two[1] == input.duration;
  }

  /** An accepted input yields a workout whose derived metric is a finite,
      positive number: the pace for running, the speed for cycling. */
  lemma AcceptedMetricIsPositive(input: WorkoutInput, now: Date, id: string)
    requires Accepts(input)
    ensures var w := Created(input, now, id);
      match w.metrics
      case RunningMetrics(_, pace) =>
        IsFinite(pace) && pace.v > 0.0 && pace.v == w.duration.v / w.distance.v
      case CyclingMetrics(_, speed) =>
        IsFinite(speed) && speed.v > 0.0 && speed.v == w.distance.v / (w.duration.v / 60.0)
  {
    match input.kind
    case Running =>
      RunningAcceptance(input);
      PaceOfValidInputs(input.distance, input.duration);
    case Cycling =>
      CyclingAcceptance(input);
      SpeedOfValidInputs(input.distance, input.duration);
  }

  /** A cadence of zero is refused, while a cycling workout with zero
      elevation gain is accepted. */
  lemma ZeroCadenceRefusedZeroElevationAccepted(lat: real, lng: real)
    ensures !Accepts(WorkoutInput(Running, lat, lng, Finite(5.0), Finite(30.0), Finite(0.0), NaN))
    ensures Accepts(WorkoutInput(Cycling, lat, lng, Finite(5.0), Finite(30.0), NaN, Finite(0.0)))
  {
    RunningAcceptance(WorkoutInput(Running, lat, lng, Finite(5.0), Finite(30.0), Finite(0.0), NaN));
    CyclingAcceptance(WorkoutInput(Cycling, lat, lng, Finite(5.0), Finite(30.0), NaN, Finite(0.0)));
  }

  /** `#workouts.find(work => work.id === id)`: the index of the first
      workout with that id, if any. */
  function FindById(ws: seq<WorkoutValue>, id: string): (r: Option<nat>)
    ensures r.Some? ==> r.value < |ws| && ws[r.value].id == id
    ensures r.Some? ==> forall j :: 0 <= j < r.value ==> ws[j].id != id
    ensures r.None? ==> forall j :: 0 <= j < |ws| ==> ws[j].id != id
  {
    if ws == [] then None
    else if ws[0].id == id then Some(0)
    else match FindById(ws[1..], id)
      case None => None
      case Some(k) => Some(k + 1)
  }

  /** The list after a click on the workout with id `id` in the list on the
      page: the first workout with that id has one more click. */
  function ClickFirst(ws: seq<WorkoutValue>, id: string): (r: seq<WorkoutValue>)
    ensures |r| == |ws|
  {
    match FindById(ws, id)
    case None => ws
    case Some(i) => ws[i := ws[i].(clicks := ws[i].clicks + 1)]
  }

  /** A click adds one to the clicks of exactly the first workout with the
      clicked id and leaves every other field of every workout as it was. */
  lemma ClickFirstEffect(ws: seq<WorkoutValue>, id: string)
    ensures |ClickFirst(ws, id)| == |ws|
    ensures forall j :: 0 <= j < |ws| ==> ClickFirst(ws, id)[j].(clicks := ws[j].clicks) == ws[j]
    ensures forall j :: 0 <= j < |ws| ==>
      ClickFirst(ws, id)[j].clicks == ws[j].clicks + (if FindById(ws, id) == Some(j) then 1 else 0)
    ensures (forall j :: 0 <= j < |ws| ==> ws[j].id != id) ==> ClickFirst(ws, id) == ws
  {
  }

  /** The fields of the workouts `ws`, in order. */
  function Values(ws: seq<Workout>): seq<WorkoutValue>
    reads ws
  {
    seq(|ws|, i reads ws requires 0 <= i < |ws| => ws[i].Value())
  }

  class App {
    /** `#workouts` */
    var workouts: seq<Workout>
    /** `#markers` */
    var markers: seq<Marker>

    /** Every workout in the list is its own object, with its derived fields
        in agreement with the others. */
    ghost predicate Valid()
      reads this`workouts
    {
      (forall i, j :: 0 <= i < j < |workouts| ==> workouts[i] != workouts[j]) &&
      (forall i :: 0 <= i < |workouts| ==> workouts[i].Valid())
    }

    /** The fields of the listed workouts, in list order. */
    function Snapshot(): seq<WorkoutValue>
      reads this`workouts, workouts
    {
      Values(workouts)
    }

    /** `new App()` on a page whose storage slot holds `stored`: the list is
        what `_getLocalStorage` rebuilds, and there are no markers yet (they
        are added once the map has loaded). */
    constructor(stored: Option<seq<StoredRecord>>, seed: GuidSeed)
      ensures Valid()
      ensures Snapshot() == Restore(stored)
      ensures markers == []
    {
      workouts := [];
      markers := [];
      new;
      GetLocalStorage(stored, seed);
    }

    /** `#workouts.push(workout)` for a workout not yet in the list. */
    method Push(w: Workout)
      requires Valid() && w.Valid()
      requires forall k :: 0 <= k < |workouts| ==> workouts[k] != w
      modifies this`workouts
      ensures Valid()
      ensures workouts == old(workouts) + [w]
      ensures Snapshot() == old(Snapshot()) + [w.Value()]
    {
      workouts := workouts + [w];
    }

    /** The `data.forEach` callback of `_getLocalStorage`: a record of type
        `running` or `cycling` becomes a new workout of that variant whose id
        is then overwritten with the stored one; other records are skipped.
        `seed` stands for the draws of the overwritten `_guid()` call. */
    method RestoreRecord(obj: StoredRecord, seed: GuidSeed)
      requires Valid()
      modifies this`workouts
      ensures Valid()
      ensures Snapshot() == old(Snapshot()) + Rebuild(obj)
    {
      if obj.kind == "running" {
        var workout := new Workout.Running(obj.coords, obj.distance, obj.duration, OrNaN(obj.cadence), obj.date, seed);
        workout.id := obj.id;
        Push(workout);
      }
      if obj.kind == "cycling" {
        var workout := new Workout.Cycling(obj.coords, obj.distance, obj.duration, OrNaN(obj.elevation), obj.date, seed);
        workout.id := obj.id;
        Push(workout);
      }
    }

    /** `_getLocalStorage()`: nothing when the slot is empty; otherwise the
        workouts rebuilt from the records are appended in record order. */
    method GetLocalStorage(data: Option<seq<StoredRecord>>, seed: GuidSeed)
      requires Valid()
      modifies this`workouts
      ensures Valid()
      ensures Snapshot() == old(Snapshot()) + Restore(data)
    {
      if data.None? {
        return;
      }
      var d := data.value;
      ghost var before := Snapshot();
      ghost var restored: seq<WorkoutValue> := [];
      var i := 0;
      while i < |d|
        invariant 0 <= i <= |d|
        invariant Valid()
        invariant restored == RestoreAll(d[..i])
        invariant Snapshot() == before + restored
      {
        RestorePrefix(d, i);
        RestoreRecord(d[i], seed);
        restored := restored + Rebuild(d[i]);
        i := i + 1;
      }
      assert d[..|d|] == d;
    }

    /** `_renderWorkoutMarker(workout)`: the new marker `layer` carries the
        workout's id and joins the list. */
    method RenderWorkoutMarker(w: Workout, layer: nat)
      modifies this`markers
      ensures markers == old(markers) + [Marker(w.id, layer)]
    {
      markers := markers + [Marker(w.id, layer)];
    }

    /** `_newWorkout(e)`: an accepted input appends the new workout and its
        marker and writes the whole list to storage (`written`); a refused
        one changes nothing. `now` is the date of `new Date()`, `seed` the
        draws of `_guid()`, `layer` the new Leaflet marker. */
    method NewWorkout(input: WorkoutInput, now: Date, seed: GuidSeed, layer: nat)
      returns (accepted: bool, written: Option<seq<StoredRecord>>)
      requires Valid()
      modifies this`workouts, this`markers
      ensures Valid()
      ensures accepted == Accepts(input)
      ensures !accepted ==> workouts == old(workouts) && markers == old(markers) && written == None
      ensures accepted ==> Snapshot() == old(Snapshot()) + [Created(input, now, Guid(seed))]
      ensures accepted ==> markers == old(markers) + [Marker(Guid(seed), layer)]
      ensures accepted ==> written == Some(Save(Snapshot()))
    {
      var workout: Workout;
      if input.kind == Running {
        var cadence := input.cadence;
        if !ValidInputs([input.distance, input.duration, cadence]) ||
           !AllPositives([input.distance, input.duration, cadence]) {
          return false, None;
        }
        workout := new Workout.Running(Coords(input.lat, input.lng), input.distance, input.duration, cadence, now, seed);
        assert workout.Value() == Created(input, now, Guid(seed));
      } else {
        var elevation := input.elevation;
        if !ValidInputs([input.distance, input.duration, elevation]) ||
           !AllPositives([input.distance, input.duration]) {
          return false, None;
        }
        workout := new Workout.Cycling(Coords(input.lat, input.lng), input.distance, input.duration, elevation, now, seed);
        assert workout.Value() == Created(input, now, Guid(seed));
      }
      assert Accepts(input);
      Push(workout);
      RenderWorkoutMarker(workout, layer);
      accepted := true;
      written := Some(Save(Snapshot()));
    }

    /** `_clearMarker(id)`: keep the markers of other workouts, in order, and
        hand the others to `removeLayer` (returned as `removed`). */
    method ClearMarker(id: string) returns (removed: seq<Marker>)
      modifies this`markers
      ensures markers == KeepOthers(old(markers), id)
      ensures removed == Matching(old(markers), id)
    {
      var newMarkers := [];
      removed := [];
      var i := 0;
      while i < |markers|
        invariant 0 <= i <= |markers|
        invariant newMarkers == KeepOthers(markers[..i], id)
        invariant removed == Matching(markers[..i], id)
      {
        var marker := markers[i];
        assert markers[..i + 1][..i] == markers[..i];
        if marker.id == id {
          removed := removed + [marker];
        } else {
          newMarkers := newMarkers + [marker];
        }
        i := i + 1;
      }
      assert markers[..|markers|] == markers;
      markers := newMarkers;
    }

    /** The click handler of the list on the page, for a click on a workout
        whose element carries `id`: the first workout with that id gets one
        more click. When none has it, the handler stops at
        `workout.coords` with a TypeError and changes nothing. */
    method MoveToPopup(id: string) returns (found: bool)
      requires Valid()
      modifies workouts
      ensures Valid()
      ensures found == FindById(old(Snapshot()), id).Some?
      ensures Snapshot() == ClickFirst(old(Snapshot()), id)
    {
      ghost var before := Snapshot();
      var k := FindById(Snapshot(), id);
      if k.None? {
        return false;
      }
      var w := workouts[k.value];
      w.Click();
      ghost var after := ClickFirst(before, id);
      forall j | 0 <= j < |workouts| ensures Snapshot()[j] == after[j] {
        if j != k.value {
          assert workouts[j] != w;
        }
      }
      found := true;
    }

    /** `_removeWorkout(e)` for the Remove button of the workout `id`: its
        markers are cleared; the workout stays in `#workouts`. When no
        workout has that id the handler stops with a TypeError first. */
    method RemoveWorkout(id: string) returns (removed: seq<Marker>)
      requires Valid()
      modifies this`markers
      ensures Valid()
      ensures workouts == old(workouts) && Snapshot() == old(Snapshot())
      ensures FindById(Snapshot(), id).Some? ==>
        markers == KeepOthers(old(markers), id) && removed == Matching(old(markers), id)
      ensures FindById(Snapshot(), id).None? ==> markers == old(markers) && removed == []
    {
      var k := FindById(Snapshot(), id);
      if k.None? {
        return [];
      }
      var workout := workouts[k.value];
      removed := ClearMarker(workout.id);
    }
  }
}
