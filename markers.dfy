/** The map markers `App` keeps in `#markers`. A Leaflet marker is an opaque
    layer; the only property the workout code gives it is `_id`, the id of
    the workout it shows. */
module Markers {

  /** A marker: the workout id stored in `_id` and the Leaflet layer it is. */
  datatype Marker = Marker(id: string, layer: nat)

  /** The markers `_clearMarker(id)` keeps, in their order. */
  function KeepOthers(ms: seq<Marker>, id: string): (r: seq<Marker>)
    ensures |r| <= |ms|
    ensures forall i :: 0 <= i < |r| ==> r[i].id != id
  {
    if ms == [] then []
    else KeepOthers(ms[..|ms| - 1], id) + (if ms[|ms| - 1].id == id then [] else [ms[|ms| - 1]])
  }

  /** The markers `_clearMarker(id)` hands to `removeLayer`, in their order. */
  function Matching(ms: seq<Marker>, id: string): (r: seq<Marker>)
    ensures |r| <= |ms|
    ensures forall i :: 0 <= i < |r| ==> r[i].id == id
  {
    if ms == [] then []
    else Matching(ms[..|ms| - 1], id) + (if ms[|ms| - 1].id == id then [ms[|ms| - 1]] else [])
  }

  /** A marker is kept exactly when it was there and shows another workout. */
  lemma {:induction false} KeepOthersMembers(ms: seq<Marker>, id: string)
    ensures forall m :: m in KeepOthers(ms, id) <==> m in ms && m.id != id
  {
    if ms != [] {
      KeepOthersMembers(ms[..|ms| - 1], id);
      assert ms == ms[..|ms| - 1] + [ms[|ms| - 1]];
    }
  }

  /** A marker is removed exactly when it was there and shows workout `id`. */
  lemma {:induction false} MatchingMembers(ms: seq<Marker>, id: string)
    ensures forall m :: m in Matching(ms, id) <==> m in ms && m.id == id
  {
    if ms != [] {
      MatchingMembers(ms[..|ms| - 1], id);
      assert ms == ms[..|ms| - 1] + [ms[|ms| - 1]];
    }
  }

  /** Kept and removed markers together are the old list: nothing is lost or
      duplicated. */
  lemma {:induction false} KeepOthersPartition(ms: seq<Marker>, id: string)
    ensures multiset(KeepOthers(ms, id)) + multiset(Matching(ms, id)) == multiset(ms)
    ensures |KeepOthers(ms, id)| + |Matching(ms, id)| == |ms|
  {
    if ms != [] {
      var p := ms[..|ms| - 1];
      var m := ms[|ms| - 1];
      KeepOthersPartition(p, id);
      assert ms == p + [m];
      assert multiset(ms) == multiset(p) + multiset{m};
      if m.id == id {
        assert KeepOthers(ms, id) == KeepOthers(p, id) + [];
        assert Matching(ms, id) == Matching(p, id) + [m];
      } else {
        assert KeepOthers(ms, id) == KeepOthers(p, id) + [m];
        assert Matching(ms, id) == Matching(p, id) + [];
      }
    }
  }

  /** Filtering distributes over concatenation, so the kept markers stay in
      their relative order. */
  lemma {:induction false} KeepOthersAppend(a: seq<Marker>, b: seq<Marker>, id: string)
    ensures KeepOthers(a + b, id) == KeepOthers(a, id) + KeepOthers(b, id)
    decreases |b|
  {
    if b == [] {
      assert a + b == a;
    } else {
      var b' := b[..|b| - 1];
      assert (a + b)[..|a + b| - 1] == a + b';
      assert (a + b)[|a + b| - 1] == b[|b| - 1];
      KeepOthersAppend(a, b', id);
    }
  }

  /** Clearing the markers of a workout that has none changes nothing. */
  lemma {:induction false} KeepOthersNoMatch(ms: seq<Marker>, id: string)
    requires forall i :: 0 <= i < |ms| ==> ms[i].id != id
    ensures KeepOthers(ms, id) == ms
  {
    if ms != [] {
      var p := ms[..|ms| - 1];
      assert forall i :: 0 <= i < |p| ==> p[i] == ms[i];
      KeepOthersNoMatch(p, id);
      assert ms == p + [ms[|ms| - 1]];
    }
  }

  /** Clearing twice is clearing once. */
  lemma KeepOthersIdempotent(ms: seq<Marker>, id: string)
    ensures KeepOthers(KeepOthers(ms, id), id) == KeepOthers(ms, id)
  {
    var k := KeepOthers(ms, id);
    KeepOthersMembers(ms, id);
    assert forall i :: 0 <= i < |k| ==> k[i] in k;
    KeepOthersNoMatch(k, id);
  }
}
