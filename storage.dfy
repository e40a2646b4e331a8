/** The `workout` slot of `localStorage`: `_setLocalStorage` writes the list
    of workouts as records, `_getLocalStorage` rebuilds typed workouts from
    them. The JSON text itself is not modelled; the slot holds the parsed
    records, or nothing. */
module Storage {
  import opened Numbers
  import opened Workouts

  datatype Option<+T> = None | Some(value: T)

  /** One parsed record, with the keys `_getLocalStorage` reads and `clicks`
      (`kind` is the `type` key). A `cadence` or `elevation` key may be
      absent. */
  datatype StoredRecord = StoredRecord(
    id: string,
    kind: string,
    coords: Coords,
    distance: Num,
    duration: Num,
    date: Date,
    clicks: int,
    cadence: Option<Num>,
    elevation: Option<Num>)

  /** Reading an absent key gives `undefined`, which no comparison or
      arithmetic treats as a number: NaN here. */
  function OrNaN(x: Option<Num>): Num {
    if x.Some? then x.value else NaN
  }

  /** The record `JSON.stringify` writes for a workout (keys `_getLocalStorage`
      never reads are not kept). */
  function ToRecord(w: WorkoutValue): (r: StoredRecord)
    ensures r.id == w.id && r.kind == TypeName(w.Kind()) && r.clicks == w.clicks
    ensures r.coords == w.coords && r.distance == w.distance && r.duration == w.duration && r.date == w.date
  {
    match w.metrics
    case RunningMetrics(cadence, _) =>
      StoredRecord(w.id, "running", w.coords, w.distance, w.duration, w.date, w.clicks, Some(cadence), None)
    case CyclingMetrics(elevation, _) =>
      StoredRecord(w.id, "cycling", w.coords, w.distance, w.duration, w.date, w.clicks, None, Some(elevation))
  }

  /** `_setLocalStorage()`: the records of all workouts, in list order. */
  function Save(ws: seq<WorkoutValue>): (d: seq<StoredRecord>)
    ensures |d| == |ws|
    ensures forall i :: 0 <= i < |ws| ==> d[i].id == ws[i].id && d[i].kind == TypeName(ws[i].Kind())
  {
    seq(|ws|, i requires 0 <= i < |ws| => ToRecord(ws[i]))
  }

  /** The two types `_getLocalStorage` rebuilds. */
  predicate KnownType(t: string) {
    t == "running" || t == "cycling"
  }

  /** `w` is the workout rebuilt from record `r`: the stored id, type,
      coords, distance, duration, date and variant input, and no clicks. */
  predicate RebuiltFrom(w: WorkoutValue, r: StoredRecord) {
    w.id == r.id && w.coords == r.coords && w.distance == r.distance &&
    w.duration == r.duration && w.date == r.date && w.clicks == 0 &&
    TypeName(w.Kind()) == r.kind &&
    match w.metrics
    case RunningMetrics(cadence, _) => cadence == OrNaN(r.cadence)
    case CyclingMetrics(elevation, _) => elevation == OrNaN(r.elevation)
  }

  /** The body of the `data.forEach` callback: a record of a known type gives
      one workout, whose fresh id is then overwritten by the stored one; any
      other record gives none. */
  function Rebuild(r: StoredRecord): (ws: seq<WorkoutValue>)
    ensures |ws| == (if KnownType(r.kind) then 1 else 0)
    ensures forall i :: 0 <= i < |ws| ==> RebuiltFrom(ws[i], r) && WellFormed(ws[i])
  {
    if r.kind == "running" then
      [RunningValue(r.coords, r.distance, r.duration, OrNaN(r.cadence), r.date, r.id)]
    else if r.kind == "cycling" then
      [CyclingValue(r.coords, r.distance, r.duration, OrNaN(r.elevation), r.date, r.id)]
    else
      []
  }

  /** The workouts `data.forEach` appends, in record order. */
  function RestoreAll(d: seq<StoredRecord>): (ws: seq<WorkoutValue>)
    ensures |ws| <= |d|
    ensures forall i :: 0 <= i < |ws| ==> ws[i].clicks == 0
  {
    if d == [] then [] else RestoreAll(d[..|d| - 1]) + Rebuild(d[|d| - 1])
  }

  /** `_getLocalStorage()`: nothing when the slot is empty (`!data`). */
  function Restore(data: Option<seq<StoredRecord>>): (ws: seq<WorkoutValue>)
    ensures data.None? ==> ws == []
    ensures data.Some? ==> |ws| <= |data.value|
  {
    match data
    case None => []
    case Some(d) => RestoreAll(d)
  }

  /** One more record appends what it rebuilds to. */
  lemma RestoreSnoc(d: seq<StoredRecord>, r: StoredRecord)
    ensures RestoreAll(d + [r]) == RestoreAll(d) + Rebuild(r)
  {
    assert (d + [r])[..|d|] == d;
  }

  /** One more record of a prefix appends what it rebuilds to. */
  lemma RestorePrefix(d: seq<StoredRecord>, i: nat)
    requires i < |d|
    ensures RestoreAll(d[..i + 1]) == RestoreAll(d[..i]) + Rebuild(d[i])
  {
    assert d[..i + 1] == d[..i] + [d[i]];
    RestoreSnoc(d[..i], d[i]);
  }

  /** Rebuilding a concatenation appends the two rebuilt lists. */
  lemma {:induction false} RestoreAppend(a: seq<StoredRecord>, b: seq<StoredRecord>)
    ensures RestoreAll(a + b) == RestoreAll(a) + RestoreAll(b)
    decreases |b|
  {
    if b == [] {
      assert a + b == a;
    } else {
      var b' := b[..|b| - 1];
      assert (a + b)[..|a + b| - 1] == a + b';
      assert (a + b)[|a + b| - 1] == b[|b| - 1];
      RestoreAppend(a, b');
    }
  }

  /** The records of a known type, in order. */
  function KnownRecords(d: seq<StoredRecord>): (k: seq<StoredRecord>)
    ensures forall i :: 0 <= i < |k| ==> KnownType(k[i].kind)
  {
    if d == [] then []
    else KnownRecords(d[..|d| - 1]) + (if KnownType(d[|d| - 1].kind) then [d[|d| - 1]] else [])
  }

  /** Records of other types are skipped: rebuilding all records is
      rebuilding the known ones. */
  lemma {:induction false} RestoreSkipsUnknown(d: seq<StoredRecord>)
    ensures RestoreAll(d) == RestoreAll(KnownRecords(d))
  {
    if d != [] {
      var p := d[..|d| - 1];
      var r := d[|d| - 1];
      RestoreSkipsUnknown(p);
      assert RestoreAll(d) == RestoreAll(p) + Rebuild(r);
      if KnownType(r.kind) {
        assert KnownRecords(d) == KnownRecords(p) + [r];
        RestoreAppend(KnownRecords(p), [r]);
        assert [r][..0] == [];
        assert RestoreAll([r]) == Rebuild(r);
      } else {
        assert KnownRecords(d) == KnownRecords(p) + [];
        assert |Rebuild(r)| == 0;
        assert KnownRecords(p) + [] == KnownRecords(p);
        assert RestoreAll(p) + Rebuild(r) == RestoreAll(p);
      }
    }
  }

  /** Workout `i` of `ws` is rebuilt from record `i` of `d`. */
  predicate PairwiseRebuilt(ws: seq<WorkoutValue>, d: seq<StoredRecord>) {
    |ws| == |d| && forall i :: 0 <= i < |d| ==> RebuiltFrom(ws[i], d[i])
  }

  lemma PairwiseRebuiltSnoc(ws: seq<WorkoutValue>, d: seq<StoredRecord>, w: WorkoutValue, r: StoredRecord)
    requires PairwiseRebuilt(ws, d) && RebuiltFrom(w, r)
    ensures PairwiseRebuilt(ws + [w], d + [r])
  {
    assert forall i :: 0 <= i < |d| ==> (ws + [w])[i] == ws[i] && (d + [r])[i] == d[i];
  }

  /** When every record has a known type, record `i` becomes workout `i`. */
  lemma {:induction false} RestoreEach(d: seq<StoredRecord>)
    requires forall i :: 0 <= i < |d| ==> KnownType(d[i].kind)
    ensures PairwiseRebuilt(RestoreAll(d), d)
  {
    if d != [] {
      var p := d[..|d| - 1];
      var r := d[|d| - 1];
      assert forall i :: 0 <= i < |p| ==> p[i] == d[i];
      RestoreEach(p);
      var ws := Rebuild(r);
      assert |ws| == 1 && RebuiltFrom(ws[0], r);
      assert ws == [ws[0]];
      assert d == p + [r];
      RestoreSnoc(p, r);
      PairwiseRebuiltSnoc(RestoreAll(p), p, ws[0], r);
    }
  }

  /** A well-formed workout survives being written and read back, except
      that its clicks are not restored. */
  lemma RebuildRecord(w: WorkoutValue)
    requires WellFormed(w)
    ensures Rebuild(ToRecord(w)) == [w.(clicks := 0)]
  {
  }

  /** Every workout without its clicks. */
  function WithoutClicks(ws: seq<WorkoutValue>): (r: seq<WorkoutValue>)
    ensures |r| == |ws|
    ensures forall i :: 0 <= i < |ws| ==> r[i] == ws[i].(clicks := 0)
  {
    seq(|ws|, i requires 0 <= i < |ws| => ws[i].(clicks := 0))
  }

  lemma SaveSnoc(ws: seq<WorkoutValue>)
    requires ws != []
    ensures Save(ws) == Save(ws[..|ws| - 1]) + [ToRecord(ws[|ws| - 1])]
  {
    var d := Save(ws);
    assert d[..|ws| - 1] == Save(ws[..|ws| - 1]);
    assert d == d[..|ws| - 1] + [d[|ws| - 1]];
  }

  lemma WithoutClicksSnoc(ws: seq<WorkoutValue>)
    requires ws != []
    ensures WithoutClicks(ws) == WithoutClicks(ws[..|ws| - 1]) + [ws[|ws| - 1].(clicks := 0)]
  {
  }

  /** Round trip: loading what was saved gives back every workout, in order,
      with all fields but `clicks`, which restarts at zero. */
  lemma {:induction false} LoadSaved(ws: seq<WorkoutValue>)
    requires forall i :: 0 <= i < |ws| ==> WellFormed(ws[i])
    ensures Restore(Some(Save(ws))) == WithoutClicks(ws)
  {
    if ws != [] {
      var p := ws[..|ws| - 1];
      var w := ws[|ws| - 1];
      var d := Save(ws);
      SaveSnoc(ws);
      WithoutClicksSnoc(ws);
      assert forall i :: 0 <= i < |p| ==> p[i] == ws[i];
      LoadSaved(p);
      RebuildRecord(w);
      RestoreSnoc(Save(p), ToRecord(w));
    }
  }

  /** A stored cycling record of 10 km in 30 minutes loads as one cycling
      workout at 20 km/h with the stored id; its two clicks are dropped. */
  lemma CyclingRecordExample()
    ensures var r := StoredRecord("x", "cycling", Coords(1.0, 2.0), Finite(10.0), Finite(30.0),
                                  CalendarDate(0, 1), 2, None, Some(Finite(-50.0)));
            var ws := Restore(Some([r]));
            |ws| == 1 && ws[0].id == "x" && ws[0].clicks == 0 &&
            ws[0].metrics == CyclingMetrics(Finite(-50.0), Finite(20.0))
  {
    var r := StoredRecord("x", "cycling", Coords(1.0, 2.0), Finite(10.0), Finite(30.0),
                          CalendarDate(0, 1), 2, None, Some(Finite(-50.0)));
    assert [r][..0] == [];
  }
}
