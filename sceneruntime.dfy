/**
 * The value handling of the scene runner
 * (apps/d_compute/geo_compute/scene_runtime.py): how a point label's
 * placement value becomes a direction vector, and which vertex order the
 * border polygon uses. Drawing itself is not part of this model.
 */
module SceneRuntime {
  import opened Outcomes
  import opened Numerics
  import opened PyText
  import opened PyValue
  import opened Geom
  import opened Templates

  // manim's direction constants
  const Up: Point := Point(0.0, 1.0, 0.0)
  const Down: Point := Point(0.0, -1.0, 0.0)
  const Left: Point := Point(-1.0, 0.0, 0.0)
  const Right: Point := Point(1.0, 0.0, 0.0)
  const Origin: Point := Point(0.0, 0.0, 0.0)

  /** `DIR_MAP`: the direction names a label may use, in upper case. */
  const DirMap: map<string, Point> := map[
    "UP" := Up, "DOWN" := Down, "LEFT" := Left, "RIGHT" := Right,
    "UL" := Point(-1.0, 1.0, 0.0), "UR" := Point(1.0, 1.0, 0.0),
    "DL" := Point(-1.0, -1.0, 0.0), "DR" := Point(1.0, -1.0, 0.0),
    "CENTER" := Origin, "ORIGIN" := Origin
  ]

  // ------------------------------------------------- np.array(v, dtype=float)

  /** The shape numpy gives a nested value, or None when nested lists are
      ragged (numpy then refuses to build a float array). Anything that is
      not a list or an array is a scalar. */
  function Dims(v: Value): Option<seq<nat>>
    decreases v
  {
    match v
    case List(xs) =>
      if xs == [] then Some([0])
      else
        (match Dims(xs[0])
         case None => None
         case Some(d) => if SameDims(xs[1..], d) then Some([|xs|] + d) else None)
    case Array(e) => Some([|e|])
    case _ => Some([])
  }

  /** Every item has shape `d`. */
  predicate SameDims(xs: seq<Value>, d: seq<nat>)
    decreases xs
  {
    xs == [] || (Dims(xs[0]) == Some(d) && SameDims(xs[1..], d))
  }

  /** Number of elements of an array of shape `d`. */
  function Product(d: seq<nat>): nat {
    if d == [] then 1 else d[0] * Product(d[1..])
  }

  /** The flattened elements, each scalar converted with `float()`. */
  function Flat(h: Host, v: Value): Result<seq<real>>
    decreases v
  {
    match v
    case List(xs) => FlatList(h, xs)
    case Array(e) => Ok(e)
    case _ => Scalar(h, v)
  }

  /** `float(v)` as a one-element array. */
  function Scalar(h: Host, v: Value): Result<seq<real>> {
    var x :- ToFloat(h, v);
    Ok([x])
  }

  /** The items flattened one after the other; the first failure wins. */
  function FlatList(h: Host, xs: seq<Value>): Result<seq<real>>
    decreases xs
  {
    if xs == [] then Ok([])
    else
      var first :- Flat(h, xs[0]);
      var rest :- FlatList(h, xs[1..]);
      Ok(first + rest)
  }

  /** `np.array(v, dtype=float).reshape(-1)`. */
  function Flatten(h: Host, v: Value): (r: Result<seq<real>>)
    ensures r.Ok? ==> Dims(v).Some?
  {
    if Dims(v).None? then Err(ValueError("setting an array element with a sequence: inhomogeneous shape"))
    else Flat(h, v)
  }

  /** A flattened array has as many elements as its shape promises. */
  lemma {:induction false} FlatSize(h: Host, v: Value)
    requires Dims(v).Some? && Flat(h, v).Ok?
    ensures |Flat(h, v).value| == Product(Dims(v).value)
    decreases v
  {
    match v
    case List(xs) =>
      if xs != [] {
        var d := Dims(xs[0]).value;
        FlatSize(h, xs[0]);
        FlatListSize(h, xs[1..], d);
        assert FlatList(h, xs).value == Flat(h, xs[0]).value + FlatList(h, xs[1..]).value;
        assert |xs| * Product(d) == Product(d) + (|xs| - 1) * Product(d);
      }
    case Array(_) =>
    case _ =>
  }

  lemma {:induction false} FlatListSize(h: Host, xs: seq<Value>, d: seq<nat>)
    requires SameDims(xs, d) && FlatList(h, xs).Ok?
    ensures |FlatList(h, xs).value| == |xs| * Product(d)
    decreases xs
  {
    if xs != [] {
      FlatSize(h, xs[0]);
      FlatListSize(h, xs[1..], d);
      assert |xs| * Product(d) == Product(d) + (|xs| - 1) * Product(d);
    }
  }

  // ----------------------------------------------------------- resolve_dir

  /** `resolve_dir(val)`: a label placement as a direction. Names are read
      case-insensitively, sequences are flattened and give a 2D or 3D vector,
      and everything else falls back to UP. Only a list numpy cannot turn
      into a float array raises. */
  function ResolveDir(h: Host, v: Value): (r: Result<Point>)
    ensures !v.List? ==> r.Ok?
    ensures v.List? ==> (r.Ok? <==> Flatten(h, v).Ok?)
  {
    match v
    case Str(s) => Ok(if Upper(s) in DirMap then DirMap[Upper(s)] else Up)
    case List(_) => SizedDir(h, v)
    case Array(e) =>
      assert Flatten(h, v) == Ok(e);
      SizedDir(h, v)
    case _ => Ok(Up)
  }

  /** The flattened sequence read as a direction by its size. */
  function SizedDir(h: Host, v: Value): (r: Result<Point>)
    ensures r.Ok? <==> Flatten(h, v).Ok?
  {
    var arr :- Flatten(h, v);
    if |arr| == 2 then Ok(Point(arr[0], arr[1], 0.0))
    else if |arr| == 3 then Ok(Point(arr[0], arr[1], arr[2]))
    else Ok(Up)
  }

  lemma {:induction false} UpperLower(s: string)
    ensures Upper(Lower(s)) == Upper(s)
  {
    if s != [] {
      UpperLower(s[1..]);
    }
  }

  /** Label names are case-insensitive: a name reads the same in any case. */
  lemma ResolveDirCaseInsensitive(h: Host, s: string)
    ensures ResolveDir(h, Str(s)) == ResolveDir(h, Str(Lower(s)))
  {
    UpperLower(s);
  }

  /** Upper-casing leaves a string without lower-case letters alone. */
  lemma {:induction false} UpperFixed(s: string)
    requires forall i | 0 <= i < |s| :: !('a' <= s[i] <= 'z')
    ensures Upper(s) == s
  {
    if s != [] {
      UpperFixed(s[1..]);
    }
  }

  /** Table names resolve in any case: `"dl"` is down-left and `"Up"` is UP. */
  lemma ResolveDirNamed(h: Host)
    ensures ResolveDir(h, Str("dl")) == Ok(Point(-1.0, -1.0, 0.0))
    ensures ResolveDir(h, Str("Up")) == Ok(Up)
  {
    assert Upper("dl") == "DL" by { assert "dl"[1..] == "l"; assert "l"[1..] == []; }
    assert Upper("Up") == "UP" by { assert "Up"[1..] == "p"; assert "p"[1..] == []; }
  }

  /** A string that names no direction gives UP. */
  lemma ResolveDirUnknown(h: Host, s: string)
    requires Upper(s) !in DirMap
    ensures ResolveDir(h, Str(s)) == Ok(Up)
  {
  }

  /** A value whose flattening has two elements lies in the drawing plane. */
  lemma ResolveDirPair(h: Host, v: Value)
    requires v.List? || v.Array?
    requires Flatten(h, v).Ok? && |Flatten(h, v).value| == 2
    ensures ResolveDir(h, v) == Ok(Point(Flatten(h, v).value[0], Flatten(h, v).value[1], 0.0))
  {
  }

  /** A scalar has no dimensions and flattens to its float value. */
  lemma ScalarFlat(h: Host, x: real)
    ensures Dims(Num(x)) == Some([]) && Flat(h, Num(x)) == Ok([x])
  {
  }

  /** `[x, y]`, `[[x, y]]` and `[[x], [y]]` all flatten to the same pair. */
  lemma ResolveDirPairShapes(h: Host, x: real, y: real)
    ensures ResolveDir(h, List([Num(x), Num(y)])) == Ok(Point(x, y, 0.0))
    ensures ResolveDir(h, List([List([Num(x), Num(y)])])) == Ok(Point(x, y, 0.0))
    ensures ResolveDir(h, List([List([Num(x)]), List([Num(y)])])) == Ok(Point(x, y, 0.0))
  {
    ScalarFlat(h, x);
    ScalarFlat(h, y);
    var p := List([Num(x), Num(y)]);
    assert [Num(x), Num(y)][1..] == [Num(y)];
    assert SameDims([Num(y)], []) by { assert [Num(y)][1..] == []; }
    assert [2] + [] == [2];
    assert Dims(p) == Some([2]);
    assert FlatList(h, [Num(y)]) == Ok([y]) by { assert [Num(y)][1..] == []; assert [y] + [] == [y]; }
    assert [x] + [y] == [x, y];
    assert Flat(h, p) == Ok([x, y]);
    assert Dims(List([p])) == Some([1, 2]) by { assert [p][1..] == []; assert [1] + [2] == [1, 2]; }
    assert Flat(h, List([p])) == Ok([x, y]) by { assert [p][1..] == []; assert [x, y] + [] == [x, y]; }
    var px, py := List([Num(x)]), List([Num(y)]);
    assert [1] + [] == [1];
    assert Dims(px) == Some([1]) by { assert [Num(x)][1..] == []; }
    assert Dims(py) == Some([1]) by { assert [Num(y)][1..] == []; }
    assert Flat(h, px) == Ok([x]) by { assert [Num(x)][1..] == []; assert [x] + [] == [x]; }
    assert Flat(h, py) == Ok([y]) by { assert [Num(y)][1..] == []; assert [y] + [] == [y]; }
    assert [px, py][1..] == [py];
    assert SameDims([py], [1]) by { assert [py][1..] == []; }
    assert Dims(List([px, py])) == Some([2, 1]) by { assert [2] + [1] == [2, 1]; }
    assert FlatList(h, [py]) == Ok([y]) by { assert [py][1..] == []; assert [y] + [] == [y]; }
    assert [x] + [y] == [x, y];
    assert Flat(h, List([px, py])) == Ok([x, y]);
  }

  /** Three numbers are used as they are. */
  lemma ResolveDirTriple(h: Host, x: real, y: real, z: real)
    ensures ResolveDir(h, List([Num(x), Num(y), Num(z)])) == Ok(Point(x, y, z))
    ensures ResolveDir(h, Array([x, y, z])) == Ok(Point(x, y, z))
  {
    ScalarFlat(h, x);
    ScalarFlat(h, y);
    ScalarFlat(h, z);
    var v := List([Num(x), Num(y), Num(z)]);
    assert [Num(x), Num(y), Num(z)][1..] == [Num(y), Num(z)];
    assert [Num(y), Num(z)][1..] == [Num(z)];
    assert [Num(z)][1..] == [];
    assert [3] + [] == [3];
    assert [z] + [] == [z];
    assert SameDims([Num(z)], []);
    assert SameDims([Num(y), Num(z)], []);
    assert Dims(v) == Some([3]);
    assert FlatList(h, [Num(z)]) == Ok([z]);
    assert [y] + [z] == [y, z];
    assert FlatList(h, [Num(y), Num(z)]) == Ok([y, z]);
    assert [x] + [y, z] == [x, y, z];
    assert Flat(h, v) == Ok([x, y, z]);
  }

  /** A sequence of any other size falls back to UP. */
  lemma ResolveDirOtherSize(h: Host, v: Value)
    requires v.List? || v.Array?
    requires Flatten(h, v).Ok? && |Flatten(h, v).value| != 2 && |Flatten(h, v).value| != 3
    ensures ResolveDir(h, v) == Ok(Up)
  {
  }

  /** Ragged nesting is the one way a label placement makes the scene fail. */
  lemma ResolveDirRagged(h: Host, x: real, y: real)
    ensures ResolveDir(h, List([Num(x), List([Num(y)])])).Err?
  {
    ScalarFlat(h, x);
    ScalarFlat(h, y);
    assert [Num(x), List([Num(y)])][1..] == [List([Num(y)])];
    assert Dims(List([Num(y)])) == Some([1]) by { assert [Num(y)][1..] == []; assert [1] + [] == [1]; }
    assert !SameDims([List([Num(y)])], []);
    assert Dims(List([Num(x), List([Num(y)])])).None?;
  }

  // ---------------------------------------------------------- border order

  /** The labels of the default border, counter-clockwise. */
  const DefaultBorder: Value := List([Str("A"), Str("B"), Str("C"), Str("D")])

  /** `spec.get("border_order", ["A","B","C","D"])`. */
  function BorderOrder(spec: Value): (r: Result<Value>)
    ensures spec.Dict? && !HasKey(spec.entries, "border_order") ==> r == Ok(DefaultBorder)
    ensures spec.Dict? && HasKey(spec.entries, "border_order") ==> r.Ok? && Lookup(spec.entries, "border_order") == Some(r.value)
    ensures !spec.Dict? ==> r.Err?
  {
    Get(spec, "border_order", DefaultBorder)
  }

  // ------------------------------------------------------ angle extras

  /** `pts[k]` on the solved points. */
  function PointAt(pts: PointMap, k: string): (r: Result<Point>)
    ensures r.Ok? <==> k in Keys(pts)
    ensures r.Err? ==> r == Err(KeyError(k))
  {
    if pts == [] then Err(KeyError(k))
    else if pts[0].0 == k then Ok(pts[0].1)
    else PointAt(pts[1..], k)
  }

  /** `pts[ex[key]]`: the points dict is keyed by label strings, so a string
      finds its point or raises KeyError, any other hashable name (a number,
      None, a boolean) raises KeyError, and a list, dict or array name is
      unhashable and raises TypeError. */
  function ExtraPoint(pts: PointMap, ex: Value, key: string): (r: Result<Point>)
    ensures Index(ex, key).Err? ==> r == Err(Index(ex, key).error)
    ensures r.Ok? <==> Index(ex, key).Ok? && Index(ex, key).value.Str? && Index(ex, key).value.s in Keys(pts)
    ensures Index(ex, key).Ok? && Index(ex, key).value.Str? ==> r == PointAt(pts, Index(ex, key).value.s)
    ensures Index(ex, key).Ok? && Index(ex, key).value.Str? && r.Err? ==> r == Err(KeyError(Index(ex, key).value.s))
    ensures var name := Index(ex, key);
            name.Ok? && (name.value.Null? || name.value.Bool? || name.value.Num?) ==> r == Err(KeyError(Show(name.value)))
    ensures var name := Index(ex, key);
            name.Ok? && (name.value.List? || name.value.Dict? || name.value.Array?) ==> r == Err(TypeError)
  {
    var name :- Index(ex, key);
    match name
    case Str(s) => PointAt(pts, s)
    case List(_) => Err(TypeError)
    case Dict(_) => Err(TypeError)
    case Array(_) => Err(TypeError)
    case _ => Err(KeyError(Show(name)))
  }

  /** The apex and arms of an `angle` extra AS WRITTEN: the arms are read as
      `pts[ex]["p"]`, indexing the points dict with the extra itself, which is
      an unhashable dict, so Python raises TypeError. */
  function AngleArmsAsWritten(pts: PointMap, ex: Value): (r: Result<(Point, Point, Point)>)
  {
    var _ :- ExtraPoint(pts, ex, "apex");
    Err(TypeError)
  }

  /** No angle extra can ever be drawn as written. */
  lemma AngleArmsAsWrittenFails(pts: PointMap, ex: Value)
    ensures AngleArmsAsWritten(pts, ex).Err?
  {
  }

  /** The apex and arms of an `angle` extra as evidently intended:
      `pts[ex["apex"]]`, `pts[ex["p"]]`, `pts[ex["q"]]`. */
  function AngleArms(pts: PointMap, ex: Value): (r: Result<(Point, Point, Point)>)
    ensures r.Ok? <==> ExtraPoint(pts, ex, "apex").Ok? && ExtraPoint(pts, ex, "p").Ok? && ExtraPoint(pts, ex, "q").Ok?
    ensures r.Ok? ==> r.value == (ExtraPoint(pts, ex, "apex").value, ExtraPoint(pts, ex, "p").value, ExtraPoint(pts, ex, "q").value)
    ensures ExtraPoint(pts, ex, "apex").Err? ==> r == Err(ExtraPoint(pts, ex, "apex").error)
    ensures ExtraPoint(pts, ex, "apex").Ok? && ExtraPoint(pts, ex, "p").Err? ==> r == Err(ExtraPoint(pts, ex, "p").error)
  {
    var v :- ExtraPoint(pts, ex, "apex");
    var p :- ExtraPoint(pts, ex, "p");
    var q :- ExtraPoint(pts, ex, "q");
    Ok((v, p, q))
  }

  /** With the intended indexing, an extra naming three solved labels yields
      exactly those three points. */
  lemma AngleArmsNamed(pts: PointMap, a: string, p: string, q: string)
    requires a in Keys(pts) && p in Keys(pts) && q in Keys(pts)
    ensures var ex := Dict([("type", Str("angle")), ("apex", Str(a)), ("p", Str(p)), ("q", Str(q))]);
            AngleArms(pts, ex) == Ok((PointAt(pts, a).value, PointAt(pts, p).value, PointAt(pts, q).value))
  {
    var ex := Dict([("type", Str("angle")), ("apex", Str(a)), ("p", Str(p)), ("q", Str(q))]);
    assert ex.entries[1..] == [("apex", Str(a)), ("p", Str(p)), ("q", Str(q))];
    assert ex.entries[1..][1..] == [("p", Str(p)), ("q", Str(q))];
    assert ex.entries[1..][1..][1..] == [("q", Str(q))];
    assert Lookup(ex.entries, "apex") == Some(Str(a));
    assert Lookup(ex.entries[1..][1..], "p") == Some(Str(p));
    assert Lookup(ex.entries[1..], "p") == Some(Str(p));
    assert Lookup(ex.entries, "p") == Some(Str(p));
    assert Lookup(ex.entries[1..][1..][1..], "q") == Some(Str(q));
    assert Lookup(ex.entries[1..][1..], "q") == Some(Str(q));
    assert Lookup(ex.entries[1..], "q") == Some(Str(q));
    assert Lookup(ex.entries, "q") == Some(Str(q));
    assert ExtraPoint(pts, ex, "apex") == PointAt(pts, a);
    assert ExtraPoint(pts, ex, "p") == PointAt(pts, p);
    assert ExtraPoint(pts, ex, "q") == PointAt(pts, q);
  }
}
