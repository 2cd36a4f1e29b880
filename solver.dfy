/**
 * The geometry stage's merge of a solution into its spec (`solver.py`):
 * `solve_spec` checks the spec's type, plans and scales the points, and then
 * writes the points as float lists, the scale, the status and a timestamp
 * into the very dict it was given; `solve_spec_file` loads a spec, solves it
 * and saves it back unless told not to overwrite.
 *
 * The clock is a parameter: `now` is what `datetime.utcnow().isoformat()` returns.
 */
module Solver {
  import opened Outcomes
  import opened PyText
  import opened Numerics
  import opened PyValue
  import opened Geom
  import opened Templates
  import opened Planner

  const TypeMessage: string := "spec.type must be defined before geo_compute can run"

  /** `DEFAULT_BOX`: the frame from (-6, -3) to (6, 3) with margin 0.2. */
  function DefaultBox(): (b: Value)
    ensures b.Dict? && Lookup(b.entries, "min") == Some(List([Num(-6.0), Num(-3.0)]))
    ensures Lookup(b.entries, "max") == Some(List([Num(6.0), Num(3.0)]))
    ensures Lookup(b.entries, "margin") == Some(Num(0.2))
  {
    var t2 := Prepend("margin", Num(0.2), []);
    var t1 := Prepend("max", List([Num(6.0), Num(3.0)]), t2);
    LookupPrepend("margin", Num(0.2), []);
    LookupPrepend("max", List([Num(6.0), Num(3.0)]), t2);
    LookupPrepend("min", List([Num(-6.0), Num(-3.0)]), t1);
    Dict(Prepend("min", List([Num(-6.0), Num(-3.0)]), t1))
  }

  // ---------------------------------------------------------- _normalise_points

  function PointMessage(key: string): string {
    "Cannot serialise coordinates for point '" + key + "'"
  }

  /** `[float(c) for c in value]` as a JSON list. */
  function FloatList(cs: seq<real>): (v: Value)
    ensures v.List? && |v.items| == |cs|
    ensures forall i :: 0 <= i < |cs| ==> v.items[i] == Num(cs[i])
  {
    List(seq(|cs|, i requires 0 <= i < |cs| => Num(cs[i])))
  }

  /** A value `_normalise_points` cannot turn into a float list. */
  predicate Bad(h: Host, v: Value) {
    !v.Null? && Coords(h, v).Err?
  }

  /** What `_normalise_points` does with the first `|pts|` items, in order. */
  function Normalised(h: Host, pts: Entries): Result<Entries>
    decreases |pts|
  {
    if pts == [] then Ok([])
    else
      var prev :- Normalised(h, pts[..|pts| - 1]);
      var (key, value) := pts[|pts| - 1];
      if value.Null? then Ok(prev)
      else match Coords(h, value)
        case Err(_) => Err(ValueError(PointMessage(key)))
        case Ok(cs) => Ok(Put(prev, key, FloatList(cs)))
  }

  /** `_normalise_points(points)`. */
  method NormalisePoints(h: Host, points: Entries) returns (r: Result<Entries>)
    ensures r == Normalised(h, points)
  {
    var serialised: Entries := [];
    for i := 0 to |points|
      invariant Normalised(h, points[..i]) == Ok(serialised)
    {
      assert points[..i + 1][..i] == points[..i];
      var (key, value) := points[i];
      if value.Null? {
        continue;
      }
      var coords := Coords(h, value);
      if coords.Err? {
        NormalisedStops(h, points, i + 1);
        return Err(ValueError(PointMessage(key)));
      }
      serialised := Put(serialised, key, FloatList(coords.value));
    }
    assert points[..|points|] == points;
    return Ok(serialised);
  }

  /** Once a coordinate fails to convert, the later items do not matter. */
  lemma {:induction false} NormalisedStops(h: Host, pts: Entries, i: nat)
    requires i <= |pts| && Normalised(h, pts[..i]).Err?
    ensures Normalised(h, pts) == Normalised(h, pts[..i])
    decreases |pts| - i
  {
    if i < |pts| {
      var next := pts[..i + 1];
      assert next[..|next| - 1] == pts[..i];
      NormalisedStops(h, pts, i + 1);
    } else {
      assert pts[..i] == pts;
    }
  }

  /** It raises exactly when some value other than None has coordinates that
      do not convert, and then names the first such key. */
  lemma {:induction false} NormalisedFails(h: Host, pts: Entries)
    ensures Normalised(h, pts).Err? <==> exists i :: 0 <= i < |pts| && Bad(h, pts[i].1)
    ensures forall j :: 0 <= j < |pts| && Bad(h, pts[j].1) && (forall i :: 0 <= i < j ==> !Bad(h, pts[i].1)) ==>
              Normalised(h, pts) == Err(ValueError(PointMessage(pts[j].0)))
    decreases |pts|
  {
    if pts != [] {
      var init := pts[..|pts| - 1];
      NormalisedFails(h, init);
      assert forall i :: 0 <= i < |init| ==> init[i] == pts[i];
      if exists i :: 0 <= i < |pts| && Bad(h, pts[i].1) {
        var i :| 0 <= i < |pts| && Bad(h, pts[i].1);
        if i < |init| {
          assert Bad(h, init[i].1);
        }
      }
      forall j | 0 <= j < |pts| && Bad(h, pts[j].1) && (forall i :: 0 <= i < j ==> !Bad(h, pts[i].1))
        ensures Normalised(h, pts) == Err(ValueError(PointMessage(pts[j].0)))
      {
        if j < |init| {
          assert Bad(h, init[j].1);
        } else {
          assert !exists i :: 0 <= i < |init| && Bad(h, init[i].1);
        }
      }
    }
  }

  /** Keys of a Python dict are distinct. */
  predicate DistinctKeys(d: Entries) {
    forall i, j :: 0 <= i < j < |d| ==> d[i].0 != d[j].0
  }

  /** The items other than None, in order, each with its coordinates as floats. */
  function Kept(h: Host, pts: Entries): (r: Entries)
    requires forall i :: 0 <= i < |pts| ==> !Bad(h, pts[i].1)
    decreases |pts|
  {
    if pts == [] then []
    else
      var last := pts[|pts| - 1];
      assert !Bad(h, last.1);
      var prev := Kept(h, pts[..|pts| - 1]);
      if last.1.Null? then prev else prev + [(last.0, FloatList(Coords(h, last.1).value))]
  }

  /** Every key kept names an item of the input that is not None. */
  lemma {:induction false} KeptKeys(h: Host, pts: Entries)
    requires forall i :: 0 <= i < |pts| ==> !Bad(h, pts[i].1)
    ensures forall j :: 0 <= j < |Kept(h, pts)| ==> exists i :: 0 <= i < |pts| && Kept(h, pts)[j].0 == pts[i].0
    decreases |pts|
  {
    if pts != [] {
      var init := pts[..|pts| - 1];
      assert forall i :: 0 <= i < |init| ==> init[i] == pts[i];
      KeptKeys(h, init);
      var r := Kept(h, pts);
      var last := pts[|pts| - 1];
      assert !Bad(h, last.1);
      assert r == if last.1.Null? then Kept(h, init) else Kept(h, init) + [(last.0, FloatList(Coords(h, last.1).value))];
      forall j | 0 <= j < |r|
        ensures exists i :: 0 <= i < |pts| && r[j].0 == pts[i].0
      {
        if j < |Kept(h, init)| {
          var i :| 0 <= i < |init| && Kept(h, init)[j].0 == init[i].0;
          assert r[j] == Kept(h, init)[j] && init[i] == pts[i];
        } else {
          assert r[j].0 == pts[|pts| - 1].0;
        }
      }
    } else {
      assert Kept(h, pts) == [];
    }
  }

  /** When every coordinate converts, the result drops the None items, keeps
      the others in their order and holds their coordinates as float lists. */
  lemma {:induction false} NormalisedKeeps(h: Host, pts: Entries)
    requires DistinctKeys(pts)
    requires forall i :: 0 <= i < |pts| ==> !Bad(h, pts[i].1)
    ensures Normalised(h, pts) == Ok(Kept(h, pts))
    decreases |pts|
  {
    if pts != [] {
      var init := pts[..|pts| - 1];
      assert forall i :: 0 <= i < |init| ==> init[i] == pts[i];
      NormalisedKeeps(h, init);
      KeptKeys(h, init);
      var prev := Kept(h, init);
      var (key, value) := pts[|pts| - 1];
      if !value.Null? {
        assert !HasKey(prev, key) by {
          forall j | 0 <= j < |prev|
            ensures prev[j].0 != key
          {
            var i :| 0 <= i < |init| && prev[j].0 == init[i].0;
            assert pts[i].0 != pts[|pts| - 1].0;
          }
        }
      }
    }
  }

  /** The scaled solution always converts: numpy arrays, one float list per label. */
  lemma NormalisedArrays(h: Host, pm: PointMap)
    requires forall i, j :: 0 <= i < j < |pm| ==> pm[i].0 != pm[j].0
    ensures var r := Normalised(h, PointsValue(pm).entries);
            && r.Ok? && |r.value| == |pm|
            && forall i :: 0 <= i < |pm| ==> r.value[i] == (pm[i].0, FloatList([pm[i].1.x, pm[i].1.y, pm[i].1.z]))
  {
    var e := PointsValue(pm).entries;
    forall i | 0 <= i < |e|
      ensures !Bad(h, e[i].1) && !e[i].1.Null?
      ensures Coords(h, e[i].1) == Ok([pm[i].1.x, pm[i].1.y, pm[i].1.z])
    {
      assert e[i].1 == AsArray(pm[i].1);
    }
    assert DistinctKeys(e) by {
      forall i, j | 0 <= i < j < |e| ensures e[i].0 != e[j].0 {
        assert e[i].0 == pm[i].0 && e[j].0 == pm[j].0;
      }
    }
    NormalisedKeeps(h, e);
    KeptAll(h, e);
  }

  lemma {:induction false} KeptAll(h: Host, pts: Entries)
    requires forall i :: 0 <= i < |pts| ==> !Bad(h, pts[i].1) && !pts[i].1.Null?
    ensures |Kept(h, pts)| == |pts|
    ensures forall i :: 0 <= i < |pts| ==> Kept(h, pts)[i] == (pts[i].0, FloatList(Coords(h, pts[i].1).value))
    decreases |pts|
  {
    if pts != [] {
      var init := pts[..|pts| - 1];
      assert forall i :: 0 <= i < |init| ==> init[i] == pts[i];
      KeptAll(h, init);
    }
  }

  // ---------------------------------------------------------- _ensure_meta

  /** The spec after `_ensure_meta`: a missing `meta` is added as {} at the end,
      one that is not a dict is replaced by {} in place. */
  function WithMeta(e: Entries): Entries {
    match Lookup(e, "meta")
    case None => e + [("meta", Dict([]))]
    case Some(m) => if m.Dict? then e else Put(e, "meta", Dict([]))
  }

  /** `_ensure_meta` leaves a dict under `meta`: the old one when it was a dict,
      an empty one otherwise; every other key reads as before and the key
      order only grows by `meta` at the end. */
  lemma WithMetaProps(e: Entries)
    ensures var m := Lookup(WithMeta(e), "meta");
            && m.Some? && m.value.Dict?
            && (Lookup(e, "meta").Some? && Lookup(e, "meta").value.Dict? ==> m == Lookup(e, "meta"))
            && (Lookup(e, "meta").None? || !Lookup(e, "meta").value.Dict? ==> m == Some(Dict([])))
    ensures forall k :: k != "meta" ==> Lookup(WithMeta(e), k) == Lookup(e, k)
    ensures Keys(WithMeta(e)) == if Lookup(e, "meta").None? then Keys(e) + ["meta"] else Keys(e)
  {
    LookupSpec(e, "meta");
    match Lookup(e, "meta")
    case None =>
      forall k { LookupAppend(e, "meta", Dict([]), k); }
      assert Keys(e + [("meta", Dict([]))]) == Keys(e) + ["meta"];
    case Some(m) =>
      if !m.Dict? {
        forall k { LookupPut(e, "meta", Dict([]), k); }
        KeysPutPresent(e, "meta", Dict([]));
      }
  }

  // ---------------------------------------------------------- solve_spec

  /** `"type" not in spec or spec.get("type") in ("__TBD__", None, "")`. */
  predicate TypeUndefined(e: Entries) {
    match Lookup(e, "type")
    case None => true
    case Some(t) => t == Str("__TBD__") || t == Null || t == Str("")
  }

  /** `spec.get("box") or DEFAULT_BOX`. */
  function BoxOf(e: Entries): Value {
    match Lookup(e, "box")
    case Some(b) => if Truthy(b) then b else DefaultBox()
    case None => DefaultBox()
  }

  /** The points, scale and status written back, then the timestamp under `meta`. */
  function Stamped(e: Entries, points: Entries, scale: real, now: string): Entries {
    var e3 := Put(Put(Put(e, "points", Dict(points)), "scale", Num(scale)), "status", Str("solved"));
    var e4 := WithMeta(e3);
    WithMetaProps(e3);
    Put(e4, "meta", Dict(Put(Lookup(e4, "meta").value.entries, "solved_at", Str(now + "Z"))))
  }

  /** The spec dict after `solve_spec`, or the exception it raises. */
  function Solved(h: Host, e: Entries, now: string): (r: Result<Entries>)
    ensures TypeUndefined(e) ==> r == Err(ValueError(TypeMessage))
    ensures !TypeUndefined(e) && PlanAndSolve(h, Dict(e)).Err? ==> r == Err(PlanAndSolve(h, Dict(e)).error)
    ensures r.Ok? ==> PlanAndSolve(h, Dict(e)).Ok? && ScaleIntoBox(PlanAndSolve(h, Dict(e)).value, BoxOf(e)).Ok?
  {
    if TypeUndefined(e) then Err(ValueError(TypeMessage))
    else
      var pts :- PlanAndSolve(h, Dict(e));
      var (scaled, s) :- ScaleIntoBox(pts, BoxOf(e));
      var np :- Normalised(h, PointsValue(scaled).entries);
      Ok(Stamped(e, np, s, now))
  }

  /** Writing the solution back sets `points`, `scale` and `status`, and
      every key other than those and `meta` reads as before. */
  lemma StampedFields(e: Entries, points: Entries, scale: real, now: string)
    ensures var r := Stamped(e, points, scale, now);
            && (forall k :: k != "points" && k != "scale" && k != "status" && k != "meta" ==> Lookup(r, k) == Lookup(e, k))
            && Lookup(r, "status") == Some(Str("solved"))
            && Lookup(r, "scale") == Some(Num(scale))
            && Lookup(r, "points") == Some(Dict(points))
  {
    var e3 := Put(Put(Put(e, "points", Dict(points)), "scale", Num(scale)), "status", Str("solved"));
    SolvedPuts(e, points, scale);
    var e4 := WithMeta(e3);
    WithMetaProps(e3);
    var stamp := Dict(Put(Lookup(e4, "meta").value.entries, "solved_at", Str(now + "Z")));
    var r := Put(e4, "meta", stamp);
    assert Stamped(e, points, scale, now) == r;
    forall k | k != "meta" ensures Lookup(r, k) == Lookup(e4, k) {
      LookupPut(e4, "meta", stamp, k);
    }
    StampedKey(e3, e4, r, "status");
    StampedKey(e3, e4, r, "scale");
    StampedKey(e3, e4, r, "points");
  }

  lemma StampedKey(e3: Entries, e4: Entries, r: Entries, k: string)
    requires k != "meta"
    requires forall q :: q != "meta" ==> Lookup(e4, q) == Lookup(e3, q)
    requires forall q :: q != "meta" ==> Lookup(r, q) == Lookup(e4, q)
    ensures Lookup(r, k) == Lookup(e3, k)
  {
  }

  /** The three plain assignments `solve_spec` makes before the stamp. */
  lemma SolvedPuts(e: Entries, points: Entries, scale: real)
    ensures var e3 := Put(Put(Put(e, "points", Dict(points)), "scale", Num(scale)), "status", Str("solved"));
            && Lookup(e3, "status") == Some(Str("solved"))
            && Lookup(e3, "scale") == Some(Num(scale))
            && Lookup(e3, "points") == Some(Dict(points))
            && forall k :: k != "points" && k != "scale" && k != "status" ==> Lookup(e3, k) == Lookup(e, k)
  {
    var e1 := Put(e, "points", Dict(points));
    var e2 := Put(e1, "scale", Num(scale));
    LookupPut(e2, "status", Str("solved"), "status");
    LookupPut(e2, "status", Str("solved"), "scale");
    LookupPut(e1, "scale", Num(scale), "scale");
    LookupPut(e2, "status", Str("solved"), "points");
    LookupPut(e1, "scale", Num(scale), "points");
    LookupPut(e, "points", Dict(points), "points");
    forall k | k != "points" && k != "scale" && k != "status"
      ensures Lookup(Put(e2, "status", Str("solved")), k) == Lookup(e, k)
    {
      LookupPut(e, "points", Dict(points), k);
      LookupPut(e1, "scale", Num(scale), k);
      LookupPut(e2, "status", Str("solved"), k);
    }
  }

  /** After writing the solution back, `meta` is a dict holding the timestamp
      and, when it was a dict before, every other key it had. */
  lemma StampedMeta(e: Entries, points: Entries, scale: real, now: string)
    ensures var r := Stamped(e, points, scale, now);
            && Lookup(r, "meta").Some? && Lookup(r, "meta").value.Dict?
            && Lookup(Lookup(r, "meta").value.entries, "solved_at") == Some(Str(now + "Z"))
            && (Lookup(e, "meta").Some? && Lookup(e, "meta").value.Dict? ==>
                  forall k :: k != "solved_at" ==> Lookup(Lookup(r, "meta").value.entries, k) == Lookup(Lookup(e, "meta").value.entries, k))
  {
    var e1 := Put(e, "points", Dict(points));
    var e2 := Put(e1, "scale", Num(scale));
    var e3 := Put(e2, "status", Str("solved"));
    LookupPut(e, "points", Dict(points), "meta");
    LookupPut(e1, "scale", Num(scale), "meta");
    LookupPut(e2, "status", Str("solved"), "meta");
    var e4 := WithMeta(e3);
    WithMetaProps(e3);
    var meta := Lookup(e4, "meta").value.entries;
    var stamp := Dict(Put(meta, "solved_at", Str(now + "Z")));
    LookupPut(e4, "meta", stamp, "meta");
    forall k
      ensures Lookup(stamp.entries, k) == if k == "solved_at" then Some(Str(now + "Z")) else Lookup(meta, k)
    {
      LookupPut(meta, "solved_at", Str(now + "Z"), k);
    }
  }

  /** Writing the solution back keeps every key the spec had. */
  lemma StampedKeys(e: Entries, points: Entries, scale: real, now: string)
    ensures forall x :: x in Keys(e) ==> x in Keys(Stamped(e, points, scale, now))
  {
    var e1 := Put(e, "points", Dict(points));
    var e2 := Put(e1, "scale", Num(scale));
    var e3 := Put(e2, "status", Str("solved"));
    var e4 := WithMeta(e3);
    WithMetaProps(e3);
    var stamp := Dict(Put(Lookup(e4, "meta").value.entries, "solved_at", Str(now + "Z")));
    PutKeepsKeys(e, "points", Dict(points));
    PutKeepsKeys(e1, "scale", Num(scale));
    PutKeepsKeys(e2, "status", Str("solved"));
    PutKeepsKeys(e4, "meta", stamp);
  }

  /** A successful `solve_spec` writes the normalised scaled points, the fit's
      scale, status "solved" and the timestamp, and nothing else. */
  lemma SolvedFrame(h: Host, e: Entries, now: string)
    requires Solved(h, e, now).Ok?
    ensures var r := Solved(h, e, now).value;
            var scaled := ScaleIntoBox(PlanAndSolve(h, Dict(e)).value, BoxOf(e)).value;
            && Normalised(h, PointsValue(scaled.0).entries).Ok?
            && r == Stamped(e, Normalised(h, PointsValue(scaled.0).entries).value, scaled.1, now)
            && (forall k :: k != "points" && k != "scale" && k != "status" && k != "meta" ==> Lookup(r, k) == Lookup(e, k))
            && Lookup(r, "status") == Some(Str("solved"))
            && Lookup(r, "scale") == Some(Num(scaled.1))
            && Lookup(r, "points") == Some(Dict(Normalised(h, PointsValue(scaled.0).entries).value))
            && Lookup(r, "meta").Some? && Lookup(r, "meta").value.Dict?
            && Lookup(Lookup(r, "meta").value.entries, "solved_at") == Some(Str(now + "Z"))
  {
    var scaled := ScaleIntoBox(PlanAndSolve(h, Dict(e)).value, BoxOf(e)).value;
    var np := Normalised(h, PointsValue(scaled.0).entries).value;
    StampedFields(e, np, scaled.1, now);
    StampedMeta(e, np, scaled.1, now);
  }

  /** `d[k] = v` keeps every key already there. */
  lemma PutKeepsKeys(d: Entries, k: string, v: Value)
    ensures forall x :: x in Keys(d) ==> x in Keys(Put(d, k, v))
  {
    var r := Put(d, k, v);
    forall x | x in Keys(d)
      ensures x in Keys(r)
    {
      var i :| 0 <= i < |Keys(d)| && Keys(d)[i] == x;
      assert Keys(r)[i] == Keys(d)[i];
    }
  }

  /** The spec is scaled into its own box when it has a truthy one, and into
      `DEFAULT_BOX` when the box is missing, empty, null or otherwise falsy. */
  lemma SolvedBox(h: Host, e: Entries, now: string)
    ensures Lookup(e, "box").Some? && Truthy(Lookup(e, "box").value) ==> BoxOf(e) == Lookup(e, "box").value
    ensures Lookup(e, "box").None? || !Truthy(Lookup(e, "box").value) ==>
              && Lookup(BoxOf(e).entries, "min") == Some(List([Num(-6.0), Num(-3.0)]))
              && Lookup(BoxOf(e).entries, "max") == Some(List([Num(6.0), Num(3.0)]))
              && Lookup(BoxOf(e).entries, "margin") == Some(Num(0.2))
  {
  }

  /** A spec read from JSON is still JSON after `solve_spec`: the points are float lists. */
  lemma SolvedSerialisable(h: Host, e: Entries, now: string)
    requires Serialisable(Dict(e)) && Solved(h, e, now).Ok?
    ensures Serialisable(Dict(Solved(h, e, now).value))
  {
    SolvedFrame(h, e, now);
    var scaled := ScaleIntoBox(PlanAndSolve(h, Dict(e)).value, BoxOf(e)).value;
    NormalisedSerialisable(h, PointsValue(scaled.0).entries);
    StampedSerialisable(e, Normalised(h, PointsValue(scaled.0).entries).value, scaled.1, now);
  }

  lemma StampedSerialisable(e: Entries, points: Entries, scale: real, now: string)
    requires Serialisable(Dict(e)) && Serialisable(Dict(points))
    ensures Serialisable(Dict(Stamped(e, points, scale, now)))
  {
    var e1 := Put(e, "points", Dict(points));
    var e2 := Put(e1, "scale", Num(scale));
    var e3 := Put(e2, "status", Str("solved"));
    SerialisablePut(e, "points", Dict(points));
    SerialisablePut(e1, "scale", Num(scale));
    SerialisablePut(e2, "status", Str("solved"));
    WithMetaSerialisable(e3);
    var e4 := WithMeta(e3);
    WithMetaProps(e3);
    var meta := Lookup(e4, "meta").value;
    SerialisablePut(meta.entries, "solved_at", Str(now + "Z"));
    SerialisablePut(e4, "meta", Dict(Put(meta.entries, "solved_at", Str(now + "Z"))));
  }

  lemma WithMetaSerialisable(e: Entries)
    requires Serialisable(Dict(e))
    ensures Serialisable(Dict(WithMeta(e)))
    ensures Lookup(WithMeta(e), "meta").Some? ==> Serialisable(Lookup(WithMeta(e), "meta").value)
  {
    var e4 := WithMeta(e);
    WithMetaProps(e);
    match Lookup(e, "meta")
    case None =>
      assert e4 == e + [("meta", Dict([]))];
      forall i | 0 <= i < |e4|
        ensures Serialisable(e4[i].1)
      {
        if i < |e| {
          assert e4[i] == e[i];
        }
      }
    case Some(m) =>
      SerialisableEntry(e, "meta");
      if !m.Dict? {
        SerialisablePut(e, "meta", Dict([]));
      }
  }

  /** A value found in a serialisable dict is serialisable. */
  lemma SerialisableEntry(d: Entries, k: string)
    requires Serialisable(Dict(d)) && Lookup(d, k).Some?
    ensures Serialisable(Lookup(d, k).value)
  {
    LookupSpec(d, k);
  }

  lemma {:induction false} SerialisablePut(d: Entries, k: string, v: Value)
    requires Serialisable(Dict(d)) && Serialisable(v)
    ensures Serialisable(Dict(Put(d, k, v)))
    decreases |d|
  {
    var r := Put(d, k, v);
    if d == [] {
    } else if d[0].0 == k {
      assert r == [(k, v)] + d[1..];
      forall i | 0 <= i < |r| ensures Serialisable(r[i].1) {
        if i > 0 { assert r[i] == d[i]; }
      }
    } else {
      var tail := d[1..];
      assert Serialisable(Dict(tail)) by {
        forall i | 0 <= i < |tail| ensures Serialisable(tail[i].1) { assert tail[i] == d[i + 1]; }
      }
      SerialisablePut(tail, k, v);
      var rt := Put(tail, k, v);
      assert r == [d[0]] + rt;
      forall i | 0 <= i < |r| ensures Serialisable(r[i].1) {
        if i > 0 { assert r[i] == rt[i - 1]; }
      }
    }
  }

  lemma {:induction false} NormalisedSerialisable(h: Host, pts: Entries)
    requires Normalised(h, pts).Ok?
    ensures Serialisable(Dict(Normalised(h, pts).value))
    decreases |pts|
  {
    if pts != [] {
      NormalisedSerialisable(h, pts[..|pts| - 1]);
      var (key, value) := pts[|pts| - 1];
      if !value.Null? {
        var l := FloatList(Coords(h, value).value);
        assert Serialisable(l);
        SerialisablePut(Normalised(h, pts[..|pts| - 1]).value, key, l);
      }
    }
  }

  /** The spec dict a caller hands to `solve_spec`, which updates it in place. */
  class SpecDict {
    var entries: Entries

    constructor (e: Entries)
      ensures entries == e
    {
      entries := e;
    }

    /** `_ensure_meta(spec)`: the dict now stored under `meta`. */
    method EnsureMeta() returns (meta: Entries)
      modifies this
      ensures entries == WithMeta(old(entries))
      ensures Lookup(entries, "meta") == Some(Dict(meta))
    {
      WithMetaProps(entries);
      var (e, m) := SetDefault(entries, "meta", Dict([]));
      LookupSpec(entries, "meta");
      entries := e;
      if !m.Dict? {
        entries := Put(entries, "meta", Dict([]));
        m := Dict([]);
      }
      meta := m.entries;
    }

    /** `solve_spec(spec)`: nothing changes unless it succeeds. */
    method SolveSpec(h: Host, now: string) returns (r: Result<()>)
      modifies this
      ensures r.Err? ==> entries == old(entries) && Solved(h, old(entries), now) == Err(r.error)
      ensures r.Ok? ==> Solved(h, old(entries), now) == Ok(entries)
    {
      if TypeUndefined(entries) {
        return Err(ValueError(TypeMessage));
      }
      var solution := PlanAndSolve(h, Dict(entries));
      if solution.Err? {
        return Err(solution.error);
      }
      var scaled := ScaleIntoBox(solution.value, BoxOf(entries));
      if scaled.Err? {
        return Err(scaled.error);
      }
      var points := NormalisePoints(h, PointsValue(scaled.value.0).entries);
      if points.Err? {
        return Err(points.error);
      }
      ghost var e0 := entries;
      entries := Put(entries, "points", Dict(points.value));
      entries := Put(entries, "scale", Num(scaled.value.1));
      entries := Put(entries, "status", Str("solved"));
      var meta := EnsureMeta();
      entries := Put(entries, "meta", Dict(Put(meta, "solved_at", Str(now + "Z"))));
      assert entries == Stamped(e0, points.value, scaled.value.1, now);
      r := Ok(());
    }
  }

  // ---------------------------------------------------------- solve_spec_file

  /** `solve_spec` on a loaded document that is not a dict: `"type" not in
      spec` is a membership test (a substring test for a string) and raises
      for a number or null; when it finds "type", `spec.get` does not exist. */
  function NonDictError(v: Value): (e: Exc)
    requires !v.Dict?
  {
    match v
    case List(xs) => if Str("type") in xs then AttributeError else ValueError(TypeMessage)
    case Str(s) => if Contains(s, "type") then AttributeError else ValueError(TypeMessage)
    case _ => TypeError
  }

  /** `Path(output_path) if output_path else spec_path`. */
  function Target(specPath: string, output: Option<string>): string {
    if output.Some? && output.value != "" then output.value else specPath
  }

  /** `solve_spec_file(spec_path, overwrite=..., output_path=...)`. */
  method SolveSpecFile(h: Host, fs: Fs, specPath: string, overwrite: bool, output: Option<string>, now: string)
    returns (fs': Fs, r: Result<Value>)
    ensures specPath !in fs ==> fs' == fs && r == Err(FileNotFoundError(specPath))
    ensures specPath in fs && Load(fs, specPath).Err? ==> fs' == fs && r == Err(Load(fs, specPath).error)
    ensures Load(fs, specPath).Ok? && !Load(fs, specPath).value.Dict? ==>
              fs' == fs && r == Err(NonDictError(Load(fs, specPath).value))
    ensures Load(fs, specPath).Ok? && Load(fs, specPath).value.Dict? ==>
              var solved := Solved(h, Load(fs, specPath).value.entries, now);
              var target := Target(specPath, output);
              && (solved.Err? ==> fs' == fs && r == Err(solved.error))
              && (solved.Ok? && target in fs && !overwrite ==> fs' == fs && r == Err(FileExistsError(target)))
              && (solved.Ok? && !(target in fs && !overwrite) ==>
                    && fs' == Dump(fs, target, Dict(solved.value)).0
                    && (Serialisable(Load(fs, specPath).value) ==> r == Ok(Dict(solved.value))))
    ensures !overwrite && Target(specPath, output) == specPath ==> fs' == fs && r.Err?
    ensures r.Ok? ==> Load(fs', Target(specPath, output)) == r
  {
    if specPath !in fs {
      return fs, Err(FileNotFoundError(specPath));
    }
    var loaded := Load(fs, specPath);
    if loaded.Err? {
      return fs, Err(loaded.error);
    }
    if !loaded.value.Dict? {
      return fs, Err(NonDictError(loaded.value));
    }
    var spec := new SpecDict(loaded.value.entries);
    var solved := spec.SolveSpec(h, now);
    if solved.Err? {
      return fs, Err(solved.error);
    }
    var target := Target(specPath, output);
    if target in fs && !overwrite {
      return fs, Err(FileExistsError(target));
    }
    if Serialisable(loaded.value) {
      SolvedSerialisable(h, loaded.value.entries, now);
    }
    var dumped := Dump(fs, target, Dict(spec.entries));
    fs' := dumped.0;
    if dumped.1.Err? {
      return fs', Err(dumped.1.error);
    }
    DumpLoad(fs, target, Dict(spec.entries));
    r := Ok(Dict(spec.entries));
  }

  /** `solve_in_problem_dir(problem_dir, spec_filename=..., overwrite=...)`. */
  method SolveInProblemDir(h: Host, fs: Fs, dir: string, specFilename: string, overwrite: bool, now: string)
    returns (fs': Fs, r: Result<Value>)
    ensures Join(dir, specFilename) !in fs ==> fs' == fs && r == Err(FileNotFoundError(Join(dir, specFilename)))
    ensures !overwrite ==> fs' == fs && r.Err?
    ensures r.Ok? ==> Load(fs', Join(dir, specFilename)) == r
  {
    fs', r := SolveSpecFile(h, fs, Join(dir, specFilename), overwrite, None, now);
  }
}
