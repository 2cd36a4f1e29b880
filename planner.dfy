/**
 * The template dispatcher and the box scaling shared by the renderer and the
 * geometry stage (the two `planner.py` copies define `plan_and_solve` and
 * `scale_into_box` identically). A spec is the JSON value read from `spec.json`.
 */
module Planner {
  import opened Outcomes
  import opened Numerics
  import opened PyValue
  import opened Geom
  import opened Templates

  const QuadType: string := "quad_diag2len2ang"
  const SquareType: string := "square_with_ADE"
  const NoQuadMessage: string := "조건을 만족하는 사각형을 못 찾음"

  /** A number numpy arithmetic accepts as a scalar: a float, an int or a bool. */
  function NumericOf(v: Value): (r: Result<real>)
    ensures r.Ok? <==> (v.Num? || v.Bool?)
    ensures v.Num? ==> r == Ok(v.n)
  {
    match v
    case Num(n) => Ok(n)
    case Bool(b) => Ok(if b then 1.0 else 0.0)
    case _ => Err(TypeError)
  }

  /** The numpy arrays a solution holds, as a dict value. */
  function PointsValue(pm: PointMap): (v: Value)
    ensures v.Dict? && |v.entries| == |pm|
    ensures forall i :: 0 <= i < |pm| ==> v.entries[i] == (pm[i].0, AsArray(pm[i].1))
  {
    Dict(seq(|pm|, i requires 0 <= i < |pm| => (pm[i].0, AsArray(pm[i].1))))
  }

  /** `spec[k1][k2]`. */
  function Field2(spec: Value, k1: string, k2: string): Result<Value> {
    var inner :- Index(spec, k1);
    Index(inner, k2)
  }

  /** The quadrilateral spec fields, when all present and numeric. */
  datatype QuadInputs = QuadInputs(a: Point, d: Point, thA: real, thD: real, acLen: real, bdLen: real)

  /** The fields a quadrilateral spec is read for, in the order they are read:
      seed A and D, angles DAC and ADB, lengths AC and BD; the template's
      arithmetic then needs the four scalars to be numbers. */
  function QuadInputsOf(h: Host, spec: Value): (r: Result<QuadInputs>)
    ensures Field2(spec, "seed", "A").Err? ==> r == Err(Field2(spec, "seed", "A").error)
    ensures r.Ok? ==> Field2(spec, "seed", "A").Ok? && PointOf(h, Field2(spec, "seed", "A").value) == Ok(r.value.a)
    ensures r.Ok? ==> Field2(spec, "seed", "D").Ok? && PointOf(h, Field2(spec, "seed", "D").value) == Ok(r.value.d)
    ensures r.Ok? ==> Field2(spec, "angles", "DAC").Ok? && NumericOf(Field2(spec, "angles", "DAC").value) == Ok(r.value.thA)
    ensures r.Ok? ==> Field2(spec, "angles", "ADB").Ok? && NumericOf(Field2(spec, "angles", "ADB").value) == Ok(r.value.thD)
    ensures r.Ok? ==> Field2(spec, "lengths", "AC").Ok? && NumericOf(Field2(spec, "lengths", "AC").value) == Ok(r.value.acLen)
    ensures r.Ok? ==> Field2(spec, "lengths", "BD").Ok? && NumericOf(Field2(spec, "lengths", "BD").value) == Ok(r.value.bdLen)
  {
    var av :- Field2(spec, "seed", "A");
    var a :- PointOf(h, av);
    var dv :- Field2(spec, "seed", "D");
    var d :- PointOf(h, dv);
    var dac :- Field2(spec, "angles", "DAC");
    var adb :- Field2(spec, "angles", "ADB");
    var ac :- Field2(spec, "lengths", "AC");
    var bd :- Field2(spec, "lengths", "BD");
    var thA :- NumericOf(dac);
    var thD :- NumericOf(adb);
    var acLen :- NumericOf(ac);
    var bdLen :- NumericOf(bd);
    Ok(QuadInputs(a, d, thA, thD, acLen, bdLen))
  }

  /** The quadrilateral branch once its inputs are read. */
  function SolveQuadInputs(h: Host, qi: Result<QuadInputs>): (r: Result<PointMap>)
    ensures qi.Err? ==> r == Err(qi.error)
    ensures qi.Ok? && SolveQuad(h, qi.value.a, qi.value.d, qi.value.thA, qi.value.thD, qi.value.acLen, qi.value.bdLen).None?
            ==> r == Err(RuntimeError(NoQuadMessage))
    ensures r.Ok? ==> qi.Ok? && r.value == QuadPoints(SolveQuad(h, qi.value.a, qi.value.d, qi.value.thA, qi.value.thD, qi.value.acLen, qi.value.bdLen).value)
  {
    var q :- qi;
    match SolveQuad(h, q.a, q.d, q.thA, q.thD, q.acLen, q.bdLen)
    case None => Err(RuntimeError(NoQuadMessage))
    case Some(quad) => Ok(QuadPoints(quad))
  }

  /** `plan_and_solve(spec)`: dispatch on `spec["type"]`. */
  function PlanAndSolve(h: Host, spec: Value): (r: Result<PointMap>)
    ensures Index(spec, "type").Err? ==> r == Err(Index(spec, "type").error)
    ensures Index(spec, "type").Ok? && Index(spec, "type").value != Str(QuadType)
            && Index(spec, "type").value != Str(SquareType)
            ==> r == Err(NotImplementedError("unknown spec.type=" + Show(Index(spec, "type").value)))
    ensures r.Ok? ==> |r.value| >= 4
  {
    var t :- Index(spec, "type");
    if t == Str(QuadType) then SolveQuadInputs(h, QuadInputsOf(h, spec))
    else if t == Str(SquareType) then
      var side :- Field2(spec, "lengths", "side");
      var ade :- Field2(spec, "angles", "ADE");
      var s :- ToFloat(h, side);
      if side.Str? then Err(TypeError) else Ok(SolveSquare(h, s, ade))
    else
      Err(NotImplementedError("unknown spec.type=" + Show(t)))
  }

  /** A quadrilateral spec is answered from the fields `QuadInputsOf` reads. */
  lemma PlanQuad(h: Host, spec: Value)
    requires Index(spec, "type") == Ok(Str(QuadType))
    ensures PlanAndSolve(h, spec) == SolveQuadInputs(h, QuadInputsOf(h, spec))
  {
  }

  /** Read inputs run the four-branch search; no solution is a RuntimeError; a
      solution is labelled A, B, C, D, keeps the seeds and passes every check
      of the template. */
  lemma SolveQuadInputsSound(h: Host, qi: Result<QuadInputs>)
    requires SolveQuadInputs(h, qi).Ok?
    ensures var p := SolveQuadInputs(h, qi).value;
      && Keys(p) == ["A", "B", "C", "D"]
      && Accepted(Quad(p[0].1, p[1].1, p[2].1, p[3].1))
      && p[0].1 == qi.value.a && p[3].1 == qi.value.d
  {
    var q := qi.value;
    var sol := SolveQuad(h, q.a, q.d, q.thA, q.thD, q.acLen, q.bdLen);
    SolveQuadSound(h, q.a, q.d, q.thA, q.thD, q.acLen, q.bdLen);
    QuadPointsOf(sol.value);
  }

  /** The labelled list of a quadrilateral names its corners A to D, in order. */
  lemma QuadPointsOf(quad: Quad)
    ensures var p := QuadPoints(quad);
            && Keys(p) == ["A", "B", "C", "D"]
            && Quad(p[0].1, p[1].1, p[2].1, p[3].1) == quad
  {
    var p := QuadPoints(quad);
    assert Keys(p) == ["A", "B", "C", "D"];
  }

  /** A square spec reads `lengths.side` and then `angles.ADE`, which only has
      to exist. The template converts the side with `float` (`D=v3(side,0)`)
      and then negates it (`B=v3(0,-side)`): a number or a boolean gives the
      square, text that is no number raises the conversion's ValueError, text
      that is a number fails at the negation with TypeError, and None or a
      container is refused by `float` with TypeError. */
  lemma PlanSquare(h: Host, spec: Value)
    requires Index(spec, "type") == Ok(Str(SquareType))
    ensures Field2(spec, "lengths", "side").Err? ==> PlanAndSolve(h, spec) == Err(Field2(spec, "lengths", "side").error)
    ensures Field2(spec, "lengths", "side").Ok? && Field2(spec, "angles", "ADE").Err?
            ==> PlanAndSolve(h, spec) == Err(Field2(spec, "angles", "ADE").error)
    ensures var side := Field2(spec, "lengths", "side"); var ade := Field2(spec, "angles", "ADE");
            side.Ok? && ade.Ok? && (side.value.Num? || side.value.Bool?)
            ==> PlanAndSolve(h, spec) == Ok(SolveSquare(h, NumericOf(side.value).value, ade.value))
    ensures var side := Field2(spec, "lengths", "side"); var ade := Field2(spec, "angles", "ADE");
            side.Ok? && ade.Ok? && side.value.Str? && h.parseFloat(side.value.s).None?
            ==> PlanAndSolve(h, spec) == Err(ValueError("could not convert string to float: '" + side.value.s + "'"))
    ensures var side := Field2(spec, "lengths", "side"); var ade := Field2(spec, "angles", "ADE");
            side.Ok? && ade.Ok? && side.value.Str? && h.parseFloat(side.value.s).Some?
            ==> PlanAndSolve(h, spec) == Err(TypeError)
    ensures var side := Field2(spec, "lengths", "side"); var ade := Field2(spec, "angles", "ADE");
            side.Ok? && ade.Ok? && (side.value.Null? || side.value.List? || side.value.Dict?)
            ==> PlanAndSolve(h, spec) == Err(TypeError)
  {
  }

  // ---------------------------------------------------------- scale_into_box

  /** The items of `box[k]`: `box[k] + [0.0]` needs a list, and numpy cannot
      make a flat array of it when an item is itself a list. */
  function CornerItems(box: Value, k: string): (r: Result<seq<Value>>)
    ensures Index(box, k).Err? ==> r == Err(Index(box, k).error)
    ensures r.Ok? <==> Index(box, k).Ok? && Index(box, k).value.List?
                       && forall i :: 0 <= i < |Index(box, k).value.items| ==> !Index(box, k).value.items[i].List?
    ensures r.Ok? ==> r.value == Index(box, k).value.items
  {
    var v :- Index(box, k);
    if !v.List? then Err(TypeError)
    else if exists i | 0 <= i < |v.items| :: v.items[i].List? then
      Err(ValueError("setting an array element with a sequence"))
    else Ok(v.items)
  }

  function NumericAll(xs: seq<Value>): (r: Result<seq<real>>)
    ensures r.Ok? <==> forall i :: 0 <= i < |xs| ==> NumericOf(xs[i]).Ok?
    ensures r.Ok? ==> |r.value| == |xs| && forall i :: 0 <= i < |xs| ==> r.value[i] == NumericOf(xs[i]).value
  {
    if xs == [] then Ok([])
    else
      var x :- NumericOf(xs[0]);
      var rest := NumericAll(xs[1..]);
      assert forall i :: 1 <= i < |xs| ==> xs[i] == xs[1..][i - 1];
      if rest.Err? then Err(rest.error) else Ok([x] + rest.value)
  }

  /** Coordinate `i` of `np.array(c + [0.0])` as `fit_into_box` reads it: the
      appended 0.0 is the next axis, and the one-element array an empty list
      gives broadcasts its 0.0 to every axis. */
  function Coord(c: seq<real>, i: nat): (r: real)
    ensures i < |c| ==> r == c[i]
    ensures i >= |c| ==> r == 0.0
  {
    if i < |c| then c[i] else 0.0
  }

  /** What `fit_into_box` makes of the two corner lists and the margin once
      they are arrays: non-numeric entries fail the subtraction, lists of
      different lengths (neither empty) do not broadcast, and two empty lists
      leave no second axis for `box[1]`. */
  function BoxFrom(mnItems: seq<Value>, mxItems: seq<Value>, marginV: Value): (r: Result<(Box, real)>)
    ensures r.Ok? ==> NumericOf(marginV) == Ok(r.value.1)
    ensures r.Ok? ==> (|mnItems| > 0 || |mxItems| > 0) && (|mnItems| == |mxItems| || |mnItems| == 0 || |mxItems| == 0)
    ensures r.Ok? ==> NumericAll(mnItems).Ok? && NumericAll(mxItems).Ok?
    ensures r.Ok? ==> var mn := NumericAll(mnItems).value; var mx := NumericAll(mxItems).value;
                      r.value.0 == Box(Coord(mn, 0), Coord(mn, 1), Coord(mx, 0), Coord(mx, 1))
  {
    var mn :- NumericAll(mnItems);
    var mx :- NumericAll(mxItems);
    var margin :- NumericOf(marginV);
    if |mn| != |mx| && |mn| != 0 && |mx| != 0 then Err(ValueError("operands could not be broadcast together"))
    else if |mn| == 0 && |mx| == 0 then Err(IndexError)
    else Ok((Box(Coord(mn, 0), Coord(mn, 1), Coord(mx, 0), Coord(mx, 1)), margin))
  }

  function PointsOnly(pm: PointMap): (ps: seq<Point>)
    ensures |ps| == |pm| && forall i :: 0 <= i < |pm| ==> ps[i] == pm[i].1
  {
    seq(|pm|, i requires 0 <= i < |pm| => pm[i].1)
  }

  function Relabel(pm: PointMap, ps: seq<Point>): (r: PointMap)
    requires |ps| == |pm|
    ensures |r| == |pm| && forall i :: 0 <= i < |pm| ==> r[i] == (pm[i].0, ps[i])
  {
    seq(|pm|, i requires 0 <= i < |pm| => (pm[i].0, ps[i]))
  }

  /** `scale_into_box(points, box)`: fit the points, in key order, into the box
      and put them back under their own labels. */
  function ScaleIntoBox(points: PointMap, box: Value): (r: Result<(PointMap, real)>)
    ensures CornerItems(box, "min").Err? ==> r == Err(CornerItems(box, "min").error)
    ensures CornerItems(box, "min").Ok? && CornerItems(box, "max").Err? ==> r == Err(CornerItems(box, "max").error)
    ensures CornerItems(box, "min").Ok? && CornerItems(box, "max").Ok? && points == [] ==> r == Err(IndexError)
    ensures r.Ok? ==> |r.value.0| == |points|
  {
    var mnItems :- CornerItems(box, "min");
    var mxItems :- CornerItems(box, "max");
    if |points| == 0 then Err(IndexError)
    else
      var marginV := Get(box, "margin", Num(0.2)).value;
      var (b, margin) :- BoxFrom(mnItems, mxItems, marginV);
      var ps := PointsOnly(points);
      Ok((Relabel(points, Fit(ps, b, margin).value.0), FitScale(ps, b, margin)))
  }

  /** A scaled solution has the same labels in the same order, each point the
      fitted image of the point it had under that label, and the fit's scale. */
  lemma ScaleIntoBoxLabels(points: PointMap, box: Value)
    requires ScaleIntoBox(points, box).Ok?
    ensures box.Dict? && points != []
    ensures var mnItems := CornerItems(box, "min").value;
            var mxItems := CornerItems(box, "max").value;
            var bm := BoxFrom(mnItems, mxItems, Get(box, "margin", Num(0.2)).value);
            var out := ScaleIntoBox(points, box).value;
            && bm.Ok?
            && Fit(PointsOnly(points), bm.value.0, bm.value.1) == Ok((PointsOnly(out.0), out.1))
            && Keys(out.0) == Keys(points)
  {
    assert box.Dict?;
    var mnItems := CornerItems(box, "min").value;
    var mxItems := CornerItems(box, "max").value;
    var bm := BoxFrom(mnItems, mxItems, Get(box, "margin", Num(0.2)).value);
    var ps := PointsOnly(points);
    var fit := Fit(ps, bm.value.0, bm.value.1).value;
    var out := ScaleIntoBox(points, box).value;
    assert out == (Relabel(points, fit.0), fit.1);
    assert PointsOnly(out.0) == fit.0;
  }

  /** A box without a margin behaves as one whose margin is 0.2. */
  lemma ScaleIntoBoxDefaultMargin(points: PointMap, entries: Entries)
    requires !HasKey(entries, "margin")
    ensures ScaleIntoBox(points, Dict(entries)) == ScaleIntoBox(points, Dict(entries + [("margin", Num(0.2))]))
  {
    var e2 := entries + [("margin", Num(0.2))];
    LookupAppend(entries, "margin", Num(0.2), "min");
    LookupAppend(entries, "margin", Num(0.2), "max");
    LookupAppend(entries, "margin", Num(0.2), "margin");
    assert Index(Dict(entries), "min") == Index(Dict(e2), "min");
    assert Index(Dict(entries), "max") == Index(Dict(e2), "max");
    assert Get(Dict(entries), "margin", Num(0.2)) == Get(Dict(e2), "margin", Num(0.2));
  }

  lemma {:induction false} LookupAppend(d: Entries, k: string, v: Value, k2: string)
    requires !HasKey(d, k)
    ensures Lookup(d + [(k, v)], k2) == if k2 == k then Some(v) else Lookup(d, k2)
    decreases |d|
  {
    if d != [] {
      assert (d + [(k, v)])[1..] == d[1..] + [(k, v)];
      assert forall i :: 0 <= i < |d[1..]| ==> d[1..][i] == d[i + 1];
      LookupAppend(d[1..], k, v, k2);
    }
  }

  /** Two-number corners are used as they are: the box is (min, max) and the
      margin is the dict's, or 0.2 when it has none. */
  lemma ScaleIntoBoxCorners(points: PointMap, entries: Entries, x0: real, y0: real, x1: real, y1: real)
    requires points != []
    requires Lookup(entries, "min") == Some(List([Num(x0), Num(y0)]))
    requires Lookup(entries, "max") == Some(List([Num(x1), Num(y1)]))
    requires !HasKey(entries, "margin")
    ensures ScaleIntoBox(points, Dict(entries)).Ok?
    ensures var out := ScaleIntoBox(points, Dict(entries)).value;
            Fit(PointsOnly(points), Box(x0, y0, x1, y1), 0.2) == Ok((PointsOnly(out.0), out.1))
  {
    var box := Dict(entries);
    CornerOfPair(box, "min", x0, y0);
    CornerOfPair(box, "max", x1, y1);
    assert Get(box, "margin", Num(0.2)) == Ok(Num(0.2));
    NumericPair(x0, y0);
    NumericPair(x1, y1);
    assert BoxFrom([Num(x0), Num(y0)], [Num(x1), Num(y1)], Num(0.2)) == Ok((Box(x0, y0, x1, y1), 0.2));
    ScaleIntoBoxLabels(points, box);
  }

  /** An empty corner list counts as the origin: `min: []` scales exactly as
      `min: [0, 0]` when the other corner has two entries. */
  lemma EmptyMinIsOrigin(mxItems: seq<Value>, marginV: Value)
    requires |mxItems| == 2
    ensures BoxFrom([], mxItems, marginV) == BoxFrom([Num(0.0), Num(0.0)], mxItems, marginV)
  {
    NumericPair(0.0, 0.0);
  }

  lemma CornerOfPair(box: Value, k: string, x: real, y: real)
    requires box.Dict? && Lookup(box.entries, k) == Some(List([Num(x), Num(y)]))
    ensures CornerItems(box, k) == Ok([Num(x), Num(y)])
  {
    var items := [Num(x), Num(y)];
    assert Index(box, k) == Ok(List(items));
    assert !(exists i | 0 <= i < |items| :: items[i].List?);
  }

  lemma NumericPair(x: real, y: real)
    ensures NumericAll([Num(x), Num(y)]) == Ok([x, y])
  {
    var xs := [Num(x), Num(y)];
    var r := NumericAll(xs);
    assert NumericOf(xs[0]).Ok? && NumericOf(xs[1]).Ok?;
    assert r.value[0] == x && r.value[1] == y;
    assert r.value == [x, y];
  }
}
