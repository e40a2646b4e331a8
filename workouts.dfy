/** The workout entities: `Workout` with its two variants `Running` and
    `Cycling`. One class stands for all three; the variant is the `Metrics`
    value it carries, which holds the variant's own input (cadence or
    elevation) and its derived metric (pace or speed). */
module Workouts {
  import opened Numbers
  import opened Ids
  import opened Text

  /** The `type` field each variant sets. */
  datatype Kind = Running | Cycling

  function TypeName(k: Kind): (s: string)
    ensures |s| > 0
  {
    match k
    case Running => "running"
    case Cycling => "cycling"
  }

  /** `[lat, lng]` */
  datatype Coords = Coords(lat: real, lng: real)

  /** A `Date` as far as the workout code reads it: `getMonth()` (0 to 11) and
      `getDate()` (1 to 31). */
  datatype CalendarDate = CalendarDate(month: nat, day: nat)

  type Date = d: CalendarDate | d.month < 12 && 1 <= d.day <= 31 witness CalendarDate(0, 1)

  /** The variant-specific fields: `cadence` and `pace` of a `Running`,
      `elevation` and `speed` of a `Cycling`. */
  datatype Metrics = RunningMetrics(cadence: Num, pace: Num) | CyclingMetrics(elevation: Num, speed: Num)
  {
    function Kind(): Kind {
      if RunningMetrics? then Running else Cycling
    }
  }

  /** `calcPace()`: minutes per kilometre. */
  function Pace(distance: Num, duration: Num): (r: Num)
    ensures IsFinite(distance) && IsFinite(duration) && distance.v != 0.0 ==>
      r.Finite? && r.v * distance.v == duration.v
    ensures distance.NaN? || duration.NaN? ==> r.NaN?
  {
    Div(duration, distance)
  }

  /** `calcSpeed()`: kilometres per hour, the duration being in minutes. */
  function Speed(distance: Num, duration: Num): (r: Num)
    ensures IsFinite(distance) && IsFinite(duration) && duration.v != 0.0 ==>
      r.Finite? && r.v * duration.v == 60.0 * distance.v
    ensures distance.NaN? || duration.NaN? ==> r.NaN?
  {
    Div(distance, Div(duration, Finite(60.0)))
  }

  /** `_setDescription()` for a workout of kind `k` dated `date`. */
  function DescriptionOf(k: Kind, date: Date): string {
    Description(TypeName(k), date.month, date.day)
  }

  /** The fields of one workout at one moment. */
  datatype WorkoutValue = WorkoutValue(
    id: string,
    coords: Coords,
    distance: Num,
    duration: Num,
    date: Date,
    clicks: nat,
    metrics: Metrics,
    description: string)
  {
    function Kind(): Kind {
      metrics.Kind()
    }
  }

  /** The derived fields are what the constructors compute from the others:
      the metric of the variant and the description. */
  predicate DerivedAgree(distance: Num, duration: Num, date: Date, metrics: Metrics, description: string) {
    description == DescriptionOf(metrics.Kind(), date) &&
    match metrics
    case RunningMetrics(_, pace) => pace == Pace(distance, duration)
    case CyclingMetrics(_, speed) => speed == Speed(distance, duration)
  }

  predicate WellFormed(w: WorkoutValue) {
    DerivedAgree(w.distance, w.duration, w.date, w.metrics, w.description)
  }

  /** What `new Running(coords, distance, duration, cadence, date)` holds once
      its id is `id`. */
  function RunningValue(coords: Coords, distance: Num, duration: Num, cadence: Num, date: Date, id: string): (w: WorkoutValue)
    ensures WellFormed(w) && w.Kind() == Running && w.metrics.cadence == cadence
    ensures w.id == id && w.coords == coords && w.distance == distance && w.duration == duration
    ensures w.date == date && w.clicks == 0
  {
    WorkoutValue(id, coords, distance, duration, date, 0,
      RunningMetrics(cadence, Pace(distance, duration)), DescriptionOf(Running, date))
  }

  /** What `new Cycling(coords, distance, duration, elevation, date)` holds
      once its id is `id`. */
  function CyclingValue(coords: Coords, distance: Num, duration: Num, elevation: Num, date: Date, id: string): (w: WorkoutValue)
    ensures WellFormed(w) && w.Kind() == Cycling && w.metrics.elevation == elevation
    ensures w.id == id && w.coords == coords && w.distance == distance && w.duration == duration
    ensures w.date == date && w.clicks == 0
  {
    WorkoutValue(id, coords, distance, duration, date, 0,
      CyclingMetrics(elevation, Speed(distance, duration)), DescriptionOf(Cycling, date))
  }

  class Workout {
    var id: string
    var clicks: nat
    const coords: Coords
    const distance: Num
    const duration: Num
    const date: Date
    const metrics: Metrics
    const description: string

    /** The derived fields agree with the others; they never change after
        construction. */
    predicate Valid() {
      DerivedAgree(distance, duration, date, metrics, description)
    }

    function Value(): WorkoutValue
      reads this
    {
      WorkoutValue(id, coords, distance, duration, date, clicks, metrics, description)
    }

    /** `new Running(coords, distance, duration, cadence, date)`; `seed` are
        the random draws of the `_guid()` call that sets `id`. */
    constructor Running(coords: Coords, distance: Num, duration: Num, cadence: Num, date: Date, seed: GuidSeed)
      ensures Valid()
      ensures Value() == RunningValue(coords, distance, duration, cadence, date, Guid(seed))
      ensures clicks == 0
    {
      id := Guid(seed);
      clicks := 0;
      this.coords := coords;
      this.distance := distance;
      this.duration := duration;
      this.date := date;
      metrics := RunningMetrics(cadence, Pace(distance, duration));
      description := DescriptionOf(Kind.Running, date);
    }

    /** `new Cycling(coords, distance, duration, elevation, date)` */
    constructor Cycling(coords: Coords, distance: Num, duration: Num, elevation: Num, date: Date, seed: GuidSeed)
      ensures Valid()
      ensures Value() == CyclingValue(coords, distance, duration, elevation, date, Guid(seed))
      ensures clicks == 0
    {
      id := Guid(seed);
      clicks := 0;
      this.coords := coords;
      this.distance := distance;
      this.duration := duration;
      this.date := date;
      metrics := CyclingMetrics(elevation, Speed(distance, duration));
      description := DescriptionOf(Kind.Cycling, date);
    }

    /** `click()`: one more click, nothing else changes. */
    method Click()
      modifies this`clicks
      ensures clicks == old(clicks) + 1
      ensures Value() == old(Value()).(clicks := old(clicks) + 1)
    {
      clicks := clicks + 1;
    }
  }

  /** For a positive distance and duration the pace is the finite, positive
      number of minutes per kilometre: pace times distance is the duration. */
  lemma PaceOfValidInputs(distance: Num, duration: Num)
    requires IsFinite(distance) && IsFinite(duration)
    requires distance.v > 0.0 && duration.v > 0.0
    ensures IsFinite(Pace(distance, duration)) && Pace(distance, duration).v > 0.0
    ensures Pace(distance, duration).v == duration.v / distance.v
    ensures Pace(distance, duration).v * distance.v == duration.v
  {
  }

  /** For a positive distance and duration the speed is the finite, positive
      number of kilometres per hour: speed times the duration in hours is the
      distance. */
  lemma SpeedOfValidInputs(distance: Num, duration: Num)
    requires IsFinite(distance) && IsFinite(duration)
    requires distance.v > 0.0 && duration.v > 0.0
    ensures IsFinite(Speed(distance, duration)) && Speed(distance, duration).v > 0.0
    ensures Speed(distance, duration).v == distance.v / (duration.v / 60.0)
    ensures Speed(distance, duration).v * duration.v == 60.0 * distance.v
  {
    var hours := Div(duration, Finite(60.0));
    assert hours.v * 60.0 == duration.v;
    var s := Speed(distance, duration);
    assert s.v * hours.v == distance.v;
    calc {
      s.v * duration.v;
      s.v * (hours.v * 60.0);
      (s.v * hours.v) * 60.0;
      60.0 * distance.v;
    }
  }

  /** The description tells the kind and the date apart: two workouts have
      the same description exactly when they have the same kind, month and
      day. */
  lemma DescriptionDeterminesKindAndDate(k1: Kind, d1: Date, k2: Kind, d2: Date)
    ensures DescriptionOf(k1, d1) == DescriptionOf(k2, d2) <==> k1 == k2 && d1 == d2
  {
    if DescriptionOf(k1, d1) == DescriptionOf(k2, d2) {
      assert DescriptionOf(k1, d1)[0] == Upper(TypeName(k1)[0]);
      assert DescriptionOf(k2, d2)[0] == Upper(TypeName(k2)[0]);
      assert k1 == k2;
      DescriptionDeterminesDate(TypeName(k1), d1.month, d1.day, d2.month, d2.day);
    }
  }

  /** A run dated 14 April is labelled `Running on April 14`. */
  lemma RunningOnApril14()
    ensures DescriptionOf(Running, CalendarDate(3, 14)) == "Running on April 14"
  {
  }
}
