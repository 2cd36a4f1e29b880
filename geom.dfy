/**
 * The planar geometry kernel: orientation, tolerant segment intersection,
 * the shoelace area, the counter-clockwise fix-up and the uniform
 * scale-and-translate that fits a figure into a drawing box.
 * Points are 3-vectors; every predicate looks at x and y only.
 */
module Geom {
  import opened Outcomes
  import opened Numerics
  import opened PyValue

  datatype Point = Point(x: real, y: real, z: real)

  /** The tolerance used by every geometric test. */
  const EPS: real := 0.000000001

  /** `v3(*v)`: a point from two or three coordinates, z defaulting to 0. */
  function PointOf(h: Host, v: Value): (r: Result<Point>)
    ensures r.Ok? <==> V3(h, v).Ok?
    ensures r.Ok? ==> r.value == Point(V3(h, v).value[0], V3(h, v).value[1], V3(h, v).value[2])
  {
    var c :- V3(h, v);
    Ok(Point(c[0], c[1], c[2]))
  }

  /** The numpy array a point is held in. */
  function AsArray(p: Point): Value {
    Array([p.x, p.y, p.z])
  }

  function Add(a: Point, b: Point): Point { Point(a.x + b.x, a.y + b.y, a.z + b.z) }
  function Sub(a: Point, b: Point): Point { Point(a.x - b.x, a.y - b.y, a.z - b.z) }
  function Neg(a: Point): Point { Point(-a.x, -a.y, -a.z) }
  function Scale(a: Point, k: real): Point { Point(a.x * k, a.y * k, a.z * k) }

  /** `unit(v)`: the planar direction of `v`, with the 1e-12 guard against a zero norm. */
  function Unit(h: Host, v: Point): (u: Point)
    ensures u.z == 0.0
    ensures u.x * UnitNorm(h, v) == v.x && u.y * UnitNorm(h, v) == v.y
  {
    var n := UnitNorm(h, v);
    assert (v.x / n) * n == v.x && (v.y / n) * n == v.y;
    Point(v.x / n, v.y / n, 0.0)
  }

  /** The divisor `unit` uses: the planar length plus 1e-12, so never zero. */
  function UnitNorm(h: Host, v: Point): (n: real)
    ensures n > 0.0
  {
    h.sqrt(v.x * v.x + v.y * v.y) + 0.000000000001
  }

  /** `rotate(v, a)`: rotation about the z axis by the angle whose cosine and sine the host gives. */
  function Rotate(h: Host, v: Point, ang: real): (r: Point)
    ensures r.z == v.z
    ensures r.x == h.cos(ang) * v.x - h.sin(ang) * v.y
    ensures r.y == h.sin(ang) * v.x + h.cos(ang) * v.y
  {
    var c := h.cos(ang);
    var s := h.sin(ang);
    Point(c * v.x - s * v.y, s * v.x + c * v.y, v.z)
  }

  /** Where the host's cosine and sine of the angle satisfy cos² + sin² = 1,
      a rotation keeps the planar length and the dot product with the
      unrotated vector is cos times the squared length. */
  lemma RotateIsometry(h: Host, v: Point, ang: real)
    requires h.cos(ang) * h.cos(ang) + h.sin(ang) * h.sin(ang) == 1.0
    ensures var r := Rotate(h, v, ang);
            r.x * r.x + r.y * r.y == v.x * v.x + v.y * v.y
    ensures var r := Rotate(h, v, ang);
            r.x * v.x + r.y * v.y == h.cos(ang) * (v.x * v.x + v.y * v.y)
  {
  }

  // ------------------------------------------------------------ predicates

  /** `orient2d(a, b, c)`: twice the signed area of triangle abc; positive when counter-clockwise. */
  function Orient2d(a: Point, b: Point, c: Point): real {
    (b.x - a.x) * (c.y - a.y) - (b.y - a.y) * (c.x - a.x)
  }

  /** Exchanging any two arguments negates the orientation; cycling them keeps it. */
  lemma OrientAntisymmetric(a: Point, b: Point, c: Point)
    ensures Orient2d(a, c, b) == -Orient2d(a, b, c)
    ensures Orient2d(b, a, c) == -Orient2d(a, b, c)
    ensures Orient2d(b, c, a) == Orient2d(a, b, c)
  {
  }

  /** `on_seg(a, b, p)`: p lies in the bounding box of ab grown by EPS on every side. */
  predicate OnSeg(a: Point, b: Point, p: Point) {
    && Min(a.x, b.x) - EPS <= p.x <= Max(a.x, b.x) + EPS
    && Min(a.y, b.y) - EPS <= p.y <= Max(a.y, b.y) + EPS
  }

  /** The test ignores the direction of the segment and accepts both endpoints. */
  lemma OnSegProperties(a: Point, b: Point, p: Point)
    ensures OnSeg(a, b, p) == OnSeg(b, a, p)
    ensures OnSeg(a, b, a) && OnSeg(a, b, b)
  {
  }

  /** A point on the segment's supporting line counts as on the segment
      exactly when it lies between the endpoints (up to EPS in each axis). */
  lemma OnSegBetween(a: Point, b: Point, t: real)
    requires 0.0 <= t <= 1.0
    ensures OnSeg(a, b, Add(a, Scale(Sub(b, a), t)))
  {
    var p := Add(a, Scale(Sub(b, a), t));
    assert p.x == a.x + (b.x - a.x) * t && p.y == a.y + (b.y - a.y) * t;
    BetweenEnds(a.x, b.x, b.x - a.x, t);
    BetweenEnds(a.y, b.y, b.y - a.y, t);
  }

  lemma BetweenEnds(u: real, v: real, d: real, t: real)
    requires 0.0 <= t <= 1.0 && d == v - u
    ensures Min(u, v) <= u + d * t <= Max(u, v)
  {
    if u <= v {
      MulFraction(d, t);
    } else {
      var e := -d;
      MulFraction(e, t);
      assert 0.0 <= e * t;
      assert e * t <= e;
      NegMul(e, d, t);
      assert d * t == -(e * t);
      assert Min(u, v) == v;
      assert u + d * t <= u;
      assert v <= u + d * t;
    }
  }

  lemma NegMul(a: real, b: real, t: real)
    requires b == -a
    ensures b * t == -(a * t)
  {
  }

  /** `seg_x(p1, p2, p3, p4)`: the closed segments p1p2 and p3p4 meet — a strict
      crossing, or an endpoint of one (nearly) on the other's line and inside its box. */
  predicate SegX(p1: Point, p2: Point, p3: Point, p4: Point) {
    Meets(Orient2d(p1, p2, p3), Orient2d(p1, p2, p4), Orient2d(p3, p4, p1), Orient2d(p3, p4, p2),
          OnSeg(p1, p2, p3), OnSeg(p1, p2, p4), OnSeg(p3, p4, p1), OnSeg(p3, p4, p2))
  }

  /** The decision `seg_x` makes from the four orientations and the four box tests. */
  predicate Meets(o1: real, o2: real, o3: real, o4: real, s1: bool, s2: bool, s3: bool, s4: bool) {
    || (o1 * o2 < -EPS && o3 * o4 < -EPS)
    || (Abs(o1) <= EPS && s1)
    || (Abs(o2) <= EPS && s2)
    || (Abs(o3) <= EPS && s3)
    || (Abs(o4) <= EPS && s4)
  }

  lemma MeetsSwap(o1: real, o2: real, o3: real, o4: real, s1: bool, s2: bool, s3: bool, s4: bool)
    ensures Meets(o1, o2, o3, o4, s1, s2, s3, s4) == Meets(o3, o4, o1, o2, s3, s4, s1, s2)
    ensures Meets(o1, o2, o3, o4, s1, s2, s3, s4) == Meets(-o1, -o2, o4, o3, s1, s2, s4, s3)
  {
    assert (-o1) * (-o2) == o1 * o2;
    assert o4 * o3 == o3 * o4;
  }

  /** The intersection test does not depend on which segment comes first,
      nor on the direction of either segment. */
  lemma SegXSymmetric(p1: Point, p2: Point, p3: Point, p4: Point)
    ensures SegX(p1, p2, p3, p4) == SegX(p3, p4, p1, p2)
    ensures SegX(p1, p2, p3, p4) == SegX(p2, p1, p3, p4)
    ensures SegX(p1, p2, p3, p4) == SegX(p1, p2, p4, p3)
  {
    var o1 := Orient2d(p1, p2, p3);
    var o2 := Orient2d(p1, p2, p4);
    var o3 := Orient2d(p3, p4, p1);
    var o4 := Orient2d(p3, p4, p2);
    var s1, s2, s3, s4 := OnSeg(p1, p2, p3), OnSeg(p1, p2, p4), OnSeg(p3, p4, p1), OnSeg(p3, p4, p2);
    MeetsSwap(o1, o2, o3, o4, s1, s2, s3, s4);
    MeetsSwap(o3, o4, o1, o2, s3, s4, s1, s2);
    // reversing p1p2
    OrientAntisymmetric(p1, p2, p3);
    OrientAntisymmetric(p1, p2, p4);
    assert Orient2d(p2, p1, p3) == -o1 && Orient2d(p2, p1, p4) == -o2;
    assert Orient2d(p3, p4, p2) == o4 && Orient2d(p3, p4, p1) == o3;
    OnSegProperties(p1, p2, p3);
    OnSegProperties(p1, p2, p4);
    assert SegX(p2, p1, p3, p4) == Meets(-o1, -o2, o4, o3, s1, s2, s4, s3);
    // reversing p3p4
    OrientAntisymmetric(p3, p4, p1);
    OrientAntisymmetric(p3, p4, p2);
    OnSegProperties(p3, p4, p1);
    OnSegProperties(p3, p4, p2);
    assert SegX(p1, p2, p4, p3) == Meets(o2, o1, -o3, -o4, s2, s1, s3, s4);
    MeetsSwap(o2, o1, -o3, -o4, s2, s1, s3, s4);
    MeetsSwap(-o3, -o4, o2, o1, s3, s4, s2, s1);
    assert (-(-o3)) == o3 && (-(-o4)) == o4;
  }

  /** Two segments that share an endpoint always count as intersecting. */
  lemma SegXSharedEndpoint(a: Point, b: Point, c: Point)
    ensures SegX(a, b, a, c) && SegX(a, b, c, a) && SegX(b, a, a, c) && SegX(b, a, c, a)
  {
    OnSegProperties(a, b, a);
    OnSegProperties(b, a, a);
    assert Orient2d(a, b, a) == 0.0 && Orient2d(b, a, a) == 0.0;
  }

  // ------------------------------------------------------------------ area

  function Cross(a: Point, b: Point): real {
    a.x * b.y - a.y * b.x
  }

  /** Sum of `Cross` over consecutive pairs, without closing the polygon. */
  function Chain(ps: seq<Point>): real
    decreases |ps|
  {
    if |ps| < 2 then 0.0 else Cross(ps[0], ps[1]) + Chain(ps[1..])
  }

  /** `area_signed(poly)`: half the closed shoelace sum; positive for counter-clockwise order. */
  function AreaSigned(poly: seq<Point>): real
    requires |poly| > 0
  {
    0.5 * (Chain(poly) + Cross(poly[|poly| - 1], poly[0]))
  }

  // The numpy formulation: 0.5 * (x · roll(y, -1) - y · roll(x, -1)).
  function Xs(ps: seq<Point>): (r: seq<real>)
    ensures |r| == |ps| && forall i :: 0 <= i < |ps| ==> r[i] == ps[i].x
  {
    seq(|ps|, i requires 0 <= i < |ps| => ps[i].x)
  }

  function Ys(ps: seq<Point>): (r: seq<real>)
    ensures |r| == |ps| && forall i :: 0 <= i < |ps| ==> r[i] == ps[i].y
  {
    seq(|ps|, i requires 0 <= i < |ps| => ps[i].y)
  }

  /** `np.roll(v, -1)`. */
  function RollLeft(v: seq<real>): (r: seq<real>)
    requires |v| > 0
    ensures |r| == |v|
  {
    v[1..] + [v[0]]
  }

  function Dot(a: seq<real>, b: seq<real>): real
    requires |a| == |b|
    decreases |a|
  {
    if a == [] then 0.0 else a[0] * b[0] + Dot(a[1..], b[1..])
  }

  lemma {:induction false} DotAppend(a: seq<real>, b: seq<real>, u: real, v: real)
    requires |a| == |b|
    ensures Dot(a + [u], b + [v]) == Dot(a, b) + u * v
    decreases |a|
  {
    if a != [] {
      assert (a + [u])[1..] == a[1..] + [u];
      assert (b + [v])[1..] == b[1..] + [v];
      DotAppend(a[1..], b[1..], u, v);
    }
  }

  /** The open chain equals the two shifted dot products. */
  lemma {:induction false} ChainAsDots(ps: seq<Point>)
    requires |ps| > 0
    ensures Chain(ps) == Dot(Xs(ps)[..|ps| - 1], Ys(ps)[1..]) - Dot(Ys(ps)[..|ps| - 1], Xs(ps)[1..])
    decreases |ps|
  {
    if |ps| >= 2 {
      var t := ps[1..];
      ChainAsDots(t);
      assert Xs(ps)[..|ps| - 1] == [ps[0].x] + Xs(t)[..|t| - 1];
      assert Ys(ps)[1..] == [t[0].y] + Ys(t)[1..];
      assert Ys(ps)[..|ps| - 1] == [ps[0].y] + Ys(t)[..|t| - 1];
      assert Xs(ps)[1..] == [t[0].x] + Xs(t)[1..];
      assert ([ps[0].x] + Xs(t)[..|t| - 1])[1..] == Xs(t)[..|t| - 1];
      assert ([t[0].y] + Ys(t)[1..])[1..] == Ys(t)[1..];
      assert ([ps[0].y] + Ys(t)[..|t| - 1])[1..] == Ys(t)[..|t| - 1];
      assert ([t[0].x] + Xs(t)[1..])[1..] == Xs(t)[1..];
    }
  }

  /** `AreaSigned` is the numpy expression the source evaluates. */
  lemma AreaSignedIsShoelace(poly: seq<Point>)
    requires |poly| > 0
    ensures AreaSigned(poly) == 0.5 * (Dot(Xs(poly), RollLeft(Ys(poly))) - Dot(Ys(poly), RollLeft(Xs(poly))))
  {
    var n := |poly|;
    ChainAsDots(poly);
    assert Xs(poly) == Xs(poly)[..n - 1] + [poly[n - 1].x];
    assert Ys(poly) == Ys(poly)[..n - 1] + [poly[n - 1].y];
    assert RollLeft(Ys(poly)) == Ys(poly)[1..] + [poly[0].y];
    assert RollLeft(Xs(poly)) == Xs(poly)[1..] + [poly[0].x];
    DotAppend(Xs(poly)[..n - 1], Ys(poly)[1..], poly[n - 1].x, poly[0].y);
    DotAppend(Ys(poly)[..n - 1], Xs(poly)[1..], poly[n - 1].y, poly[0].x);
  }

  lemma {:induction false} ChainAppend(ps: seq<Point>, q: Point)
    requires |ps| > 0
    ensures Chain(ps + [q]) == Chain(ps) + Cross(ps[|ps| - 1], q)
    decreases |ps|
  {
    if |ps| >= 2 {
      assert (ps + [q])[1..] == ps[1..] + [q];
      ChainAppend(ps[1..], q);
    }
  }

  function Reverse(ps: seq<Point>): (r: seq<Point>)
    ensures |r| == |ps| && forall i :: 0 <= i < |ps| ==> r[i] == ps[|ps| - 1 - i]
  {
    if ps == [] then [] else Reverse(ps[1..]) + [ps[0]]
  }

  lemma {:induction false} ChainReverse(ps: seq<Point>)
    ensures Chain(Reverse(ps)) == -Chain(ps)
    decreases |ps|
  {
    if |ps| >= 2 {
      ChainReverse(ps[1..]);
      ChainAppend(Reverse(ps[1..]), ps[0]);
    }
  }

  /** Listing the vertices in the opposite order negates the signed area. */
  lemma AreaSignedReverse(poly: seq<Point>)
    requires |poly| > 0
    ensures AreaSigned(Reverse(poly)) == -AreaSigned(poly)
  {
    var n := |poly|;
    var r := Reverse(poly);
    ChainReverse(poly);
    assert r[n - 1] == poly[0] && r[0] == poly[n - 1];
    assert Cross(r[n - 1], r[0]) == -Cross(poly[n - 1], poly[0]);
  }

  /** Starting the vertex list one place later leaves the signed area unchanged. */
  lemma AreaSignedRotate(poly: seq<Point>)
    requires |poly| > 0
    ensures AreaSigned(poly[1..] + [poly[0]]) == AreaSigned(poly)
  {
    if |poly| >= 2 {
      ChainAppend(poly[1..], poly[0]);
    }
  }

  /** The closed shoelace sum written out for a quadrilateral. */
  lemma AreaSigned4(a: Point, b: Point, c: Point, d: Point)
    ensures AreaSigned([a, b, c, d]) == 0.5 * (Cross(a, b) + Cross(b, c) + Cross(c, d) + Cross(d, a))
  {
    assert [a, b, c, d][1..] == [b, c, d];
    assert [b, c, d][1..] == [c, d];
    assert [c, d][1..] == [d];
    assert Chain([d]) == 0.0;
    assert Chain([c, d]) == Cross(c, d);
    assert Chain([b, c, d]) == Cross(b, c) + Cross(c, d);
    assert Chain([a, b, c, d]) == Cross(a, b) + Cross(b, c) + Cross(c, d);
  }

  /** The signed area of a triangle is half its orientation. */
  lemma AreaSignedTriangle(a: Point, b: Point, c: Point)
    ensures Orient2d(a, b, c) == 2.0 * AreaSigned([a, b, c])
  {
    assert [a, b, c][1..] == [b, c];
    assert [b, c][1..] == [c];
    assert Chain([c]) == 0.0;
    assert Chain([b, c]) == Cross(b, c);
    assert Chain([a, b, c]) == Cross(a, b) + Cross(b, c);
    assert AreaSigned([a, b, c]) == 0.5 * (Cross(a, b) + Cross(b, c) + Cross(c, a));
  }

  /** `ensure_ccw(*pts)`: the points unchanged when their area is positive,
      otherwise the first four in the order p0, p3, p2, p1. */
  function EnsureCcw(pts: seq<Point>): (r: Result<seq<Point>>)
    ensures |pts| == 0 ==> r == Err(IndexError)
    ensures |pts| > 0 && AreaSigned(pts) > 0.0 ==> r == Ok(pts)
    ensures |pts| > 0 && AreaSigned(pts) <= 0.0 && |pts| < 4 ==> r == Err(IndexError)
    ensures |pts| == 4 ==> r.Ok? && |r.value| == 4 && AreaSigned(r.value) == Abs(AreaSigned(pts))
    ensures |pts| == 4 ==> r.value[0] == pts[0] && multiset(r.value) == multiset(pts)
  {
    if |pts| == 0 then Err(IndexError)
    else if AreaSigned(pts) > 0.0 then Ok(pts)
    else if |pts| < 4 then Err(IndexError)
    else
      var q := [pts[0], pts[3], pts[2], pts[1]];
      if |pts| == 4 then
        ReversedQuad(pts);
        Ok(q)
      else Ok(q)
  }

  /** Visiting a quadrilateral the other way round negates its signed area. */
  lemma ReversedQuad(pts: seq<Point>)
    requires |pts| == 4
    ensures var q := [pts[0], pts[3], pts[2], pts[1]];
            && AreaSigned(q) == -AreaSigned(pts)
            && multiset(q) == multiset(pts)
  {
    var a, b, c, d := pts[0], pts[1], pts[2], pts[3];
    assert pts == [a, b, c, d];
    AreaSigned4(a, b, c, d);
    AreaSigned4(a, d, c, b);
    CrossAntisymmetric(a, b);
    CrossAntisymmetric(b, c);
    CrossAntisymmetric(c, d);
    CrossAntisymmetric(d, a);
  }

  lemma CrossAntisymmetric(a: Point, b: Point)
    ensures Cross(b, a) == -Cross(a, b)
  {
  }

  /** `diag_cross_inside(A, B, C, D)`: the diagonals AC and BD meet. */
  predicate DiagCrossInside(a: Point, b: Point, c: Point, d: Point) {
    SegX(a, c, b, d)
  }

  /** Relabelling the quadrilateral from its next vertex, or reflecting it
      through the first vertex, does not change whether the diagonals meet. */
  lemma DiagCrossRelabel(a: Point, b: Point, c: Point, d: Point)
    ensures DiagCrossInside(a, b, c, d) == DiagCrossInside(b, c, d, a)
    ensures DiagCrossInside(a, b, c, d) == DiagCrossInside(a, d, c, b)
  {
    SegXSymmetric(a, c, b, d);
    SegXSymmetric(b, d, c, a);
    SegXSymmetric(c, a, b, d);
  }

  // ----------------------------------------------------------- box fitting

  function MinX(ps: seq<Point>): (m: real)
    requires |ps| > 0
    ensures forall i :: 0 <= i < |ps| ==> m <= ps[i].x
  {
    if |ps| == 1 then ps[0].x
    else
      var r := MinX(ps[1..]);
      assert forall i :: 1 <= i < |ps| ==> ps[i] == ps[1..][i - 1];
      Min(ps[0].x, r)
  }

  function MaxX(ps: seq<Point>): (m: real)
    requires |ps| > 0
    ensures forall i :: 0 <= i < |ps| ==> m >= ps[i].x
  {
    if |ps| == 1 then ps[0].x
    else
      var r := MaxX(ps[1..]);
      assert forall i :: 1 <= i < |ps| ==> ps[i] == ps[1..][i - 1];
      Max(ps[0].x, r)
  }

  function MinY(ps: seq<Point>): (m: real)
    requires |ps| > 0
    ensures forall i :: 0 <= i < |ps| ==> m <= ps[i].y
  {
    if |ps| == 1 then ps[0].y
    else
      var r := MinY(ps[1..]);
      assert forall i :: 1 <= i < |ps| ==> ps[i] == ps[1..][i - 1];
      Min(ps[0].y, r)
  }

  function MaxY(ps: seq<Point>): (m: real)
    requires |ps| > 0
    ensures forall i :: 0 <= i < |ps| ==> m >= ps[i].y
  {
    if |ps| == 1 then ps[0].y
    else
      var r := MaxY(ps[1..]);
      assert forall i :: 1 <= i < |ps| ==> ps[i] == ps[1..][i - 1];
      Max(ps[0].y, r)
  }

  /** Each extreme is the coordinate of some point, so the bounds above are
      the tightest ones. */
  lemma {:induction false} ExtremesAttained(ps: seq<Point>)
    requires |ps| > 0
    ensures exists i :: 0 <= i < |ps| && MinX(ps) == ps[i].x
    ensures exists i :: 0 <= i < |ps| && MaxX(ps) == ps[i].x
    ensures exists i :: 0 <= i < |ps| && MinY(ps) == ps[i].y
    ensures exists i :: 0 <= i < |ps| && MaxY(ps) == ps[i].y
  {
    if |ps| > 1 {
      var rest := ps[1..];
      ExtremesAttained(rest);
      var a :| 0 <= a < |rest| && MinX(rest) == rest[a].x;
      var b :| 0 <= b < |rest| && MaxX(rest) == rest[b].x;
      var c :| 0 <= c < |rest| && MinY(rest) == rest[c].y;
      var d :| 0 <= d < |rest| && MaxY(rest) == rest[d].y;
      assert MinX(ps) == ps[0].x || MinX(ps) == ps[a + 1].x;
      assert MaxX(ps) == ps[0].x || MaxX(ps) == ps[b + 1].x;
      assert MinY(ps) == ps[0].y || MinY(ps) == ps[c + 1].y;
      assert MaxY(ps) == ps[0].y || MaxY(ps) == ps[d + 1].y;
    } else {
      assert MinX(ps) == ps[0].x && MaxX(ps) == ps[0].x && MinY(ps) == ps[0].y && MaxY(ps) == ps[0].y;
    }
  }

  /** The two corners of the target box, x and y only. */
  datatype Box = Box(minX: real, minY: real, maxX: real, maxY: real)

  /** The scale `fit_into_box` picks: the smaller of the two axis ratios of
      the margin-shrunk box to the figure, each figure extent at least EPS. */
  function FitScale(ps: seq<Point>, b: Box, margin: real): real
    requires |ps| > 0
  {
    Min((b.maxX - b.minX - margin * 2.0) / Max(MaxX(ps) - MinX(ps), EPS),
        (b.maxY - b.minY - margin * 2.0) / Max(MaxY(ps) - MinY(ps), EPS))
  }

  /** Where one point lands: shifted so the figure's lower-left corner is at
      the origin, scaled, then moved to the box corner plus the margin. */
  function Place(p: Point, minX: real, minY: real, s: real, ox: real, oy: real): Point {
    Point((p.x - minX) * s + ox, (p.y - minY) * s + oy, p.z)
  }

  function PlaceAll(ps: seq<Point>, minX: real, minY: real, s: real, ox: real, oy: real): (r: seq<Point>)
    ensures |r| == |ps|
    ensures forall i :: 0 <= i < |ps| ==> r[i] == Place(ps[i], minX, minY, s, ox, oy)
  {
    if ps == [] then [] else [Place(ps[0], minX, minY, s, ox, oy)] + PlaceAll(ps[1..], minX, minY, s, ox, oy)
  }

  /** What `fit_into_box(pts, box_min, box_max, margin)` returns: the placed
      points in input order, and the scale. No points make a one-dimensional
      empty array, which the two-axis slice `P[:, :2]` rejects. */
  function Fit(ps: seq<Point>, b: Box, margin: real): (r: Result<(seq<Point>, real)>)
    ensures r.Ok? <==> |ps| > 0
    ensures r.Ok? ==> |r.value.0| == |ps| && r.value.1 == FitScale(ps, b, margin)
  {
    if |ps| == 0 then Err(IndexError)
    else
      var s := FitScale(ps, b, margin);
      Ok((PlaceAll(ps, MinX(ps), MinY(ps), s, b.minX + margin, b.minY + margin), s))
  }

  /** `fit_into_box`: the loop over the points, building the output list. */
  method FitIntoBox(ps: seq<Point>, b: Box, margin: real) returns (r: Result<(seq<Point>, real)>)
    ensures r == Fit(ps, b, margin)
    ensures r.Ok? ==> forall i :: 0 <= i < |ps| ==> r.value.0[i].z == ps[i].z
  {
    if |ps| == 0 {
      return Err(IndexError);
    }
    var pminX := MinX(ps);
    var pminY := MinY(ps);
    var s := FitScale(ps, b, margin);
    var ox := b.minX + margin;
    var oy := b.minY + margin;
    var out: seq<Point> := [];
    for i := 0 to |ps|
      invariant |out| == i
      invariant forall j :: 0 <= j < i ==> out[j] == Place(ps[j], pminX, pminY, s, ox, oy)
    {
      out := out + [Place(ps[i], pminX, pminY, s, ox, oy)];
    }
    assert out == PlaceAll(ps, pminX, pminY, s, ox, oy);
    return Ok((out, s));
  }

  /** The figure's lower-left corner lands on the box corner plus the margin. */
  lemma FitMinCorner(ps: seq<Point>, b: Box, margin: real, i: nat)
    requires i < |ps| && ps[i].x == MinX(ps) && ps[i].y == MinY(ps)
    ensures Fit(ps, b, margin).value.0[i].x == b.minX + margin
    ensures Fit(ps, b, margin).value.0[i].y == b.minY + margin
  {
    var s := FitScale(ps, b, margin);
    var q := Place(ps[i], MinX(ps), MinY(ps), s, b.minX + margin, b.minY + margin);
    assert Fit(ps, b, margin).value.0[i] == q;
    PlaceAtOrigin(ps[i], s, b.minX + margin, b.minY + margin);
  }

  lemma PlaceAtOrigin(p: Point, s: real, ox: real, oy: real)
    ensures Place(p, p.x, p.y, s, ox, oy) == Point(ox, oy, p.z)
  {
  }

  lemma PlaceDifference(p: Point, q: Point, minX: real, minY: real, s: real, ox: real, oy: real)
    ensures Place(p, minX, minY, s, ox, oy).x - Place(q, minX, minY, s, ox, oy).x == (p.x - q.x) * s
    ensures Place(p, minX, minY, s, ox, oy).y - Place(q, minX, minY, s, ox, oy).y == (p.y - q.y) * s
  {
    assert (p.x - minX) * s - (q.x - minX) * s == (p.x - q.x) * s;
    assert (p.y - minY) * s - (q.y - minY) * s == (p.y - q.y) * s;
  }

  /** The fit is a similarity: differences between output points are the
      input differences times the scale. */
  lemma FitSimilarity(ps: seq<Point>, b: Box, margin: real, i: nat, j: nat)
    requires i < |ps| && j < |ps|
    ensures var out := Fit(ps, b, margin).value.0;
            var s := FitScale(ps, b, margin);
            out[i].x - out[j].x == (ps[i].x - ps[j].x) * s && out[i].y - out[j].y == (ps[i].y - ps[j].y) * s
  {
    var s := FitScale(ps, b, margin);
    var out := Fit(ps, b, margin).value.0;
    assert out == PlaceAll(ps, MinX(ps), MinY(ps), s, b.minX + margin, b.minY + margin);
    PlaceDifference(ps[i], ps[j], MinX(ps), MinY(ps), s, b.minX + margin, b.minY + margin);
  }

  lemma MulLe(a: real, b: real, c: real)
    requires a <= b && c >= 0.0
    ensures a * c <= b * c
  {
    MulNonNeg(b - a, c);
    assert (b - a) * c == b * c - a * c;
  }

  /** One axis of the containment argument: 0 <= d <= extent and
      0 <= s <= room / max(extent, EPS) put d * s within [0, room]. */
  lemma AxisWithin(d: real, extent: real, room: real, s: real)
    requires 0.0 <= d <= extent && room >= 0.0
    requires 0.0 <= s <= room / Max(extent, EPS)
    ensures 0.0 <= d * s <= room
  {
    var m := Max(extent, EPS);
    MulNonNeg(d, s);
    MulLe(d, m, s);
    MulLe(s, room / m, m);
    assert (room / m) * m == room;
    assert d * s <= s * m;
  }

  lemma ScaleBounds(ps: seq<Point>, b: Box, margin: real)
    requires |ps| > 0
    requires b.maxX - b.minX >= 2.0 * margin && b.maxY - b.minY >= 2.0 * margin
    ensures var s := FitScale(ps, b, margin);
            && 0.0 <= s
            && s <= (b.maxX - b.minX - margin * 2.0) / Max(MaxX(ps) - MinX(ps), EPS)
            && s <= (b.maxY - b.minY - margin * 2.0) / Max(MaxY(ps) - MinY(ps), EPS)
  {
    var ex := Max(MaxX(ps) - MinX(ps), EPS);
    var ey := Max(MaxY(ps) - MinY(ps), EPS);
    DivNonNeg(b.maxX - b.minX - margin * 2.0, ex);
    DivNonNeg(b.maxY - b.minY - margin * 2.0, ey);
  }

  lemma DivNonNeg(a: real, m: real)
    requires a >= 0.0 && m > 0.0
    ensures a / m >= 0.0
  {
  }

  lemma PlaceWithin(p: Point, minX: real, maxX: real, minY: real, maxY: real, s: real, b: Box, margin: real)
    requires minX <= p.x <= maxX && minY <= p.y <= maxY
    requires b.maxX - b.minX >= 2.0 * margin && b.maxY - b.minY >= 2.0 * margin
    requires 0.0 <= s
    requires s <= (b.maxX - b.minX - margin * 2.0) / Max(maxX - minX, EPS)
    requires s <= (b.maxY - b.minY - margin * 2.0) / Max(maxY - minY, EPS)
    ensures var q := Place(p, minX, minY, s, b.minX + margin, b.minY + margin);
            b.minX + margin <= q.x <= b.maxX - margin && b.minY + margin <= q.y <= b.maxY - margin
  {
    var ox, oy := b.minX + margin, b.minY + margin;
    PlaceWithinX(p, minX, maxX, minY, s, ox, oy, b.maxX - b.minX - margin * 2.0);
    PlaceWithinY(p, minX, minY, maxY, s, ox, oy, b.maxY - b.minY - margin * 2.0);
  }

  lemma PlaceWithinX(p: Point, minX: real, maxX: real, minY: real, s: real, ox: real, oy: real, room: real)
    requires minX <= p.x <= maxX && room >= 0.0
    requires 0.0 <= s <= room / Max(maxX - minX, EPS)
    ensures ox <= Place(p, minX, minY, s, ox, oy).x <= ox + room
  {
    AxisWithin(p.x - minX, maxX - minX, room, s);
  }

  lemma PlaceWithinY(p: Point, minX: real, minY: real, maxY: real, s: real, ox: real, oy: real, room: real)
    requires minY <= p.y <= maxY && room >= 0.0
    requires 0.0 <= s <= room / Max(maxY - minY, EPS)
    ensures oy <= Place(p, minX, minY, s, ox, oy).y <= oy + room
  {
    AxisWithin(p.y - minY, maxY - minY, room, s);
  }

  /** When the box is at least twice the margin wide and high, every fitted
      point lies inside the box shrunk by the margin. */
  lemma FitContained(ps: seq<Point>, b: Box, margin: real)
    requires |ps| > 0
    requires b.maxX - b.minX >= 2.0 * margin && b.maxY - b.minY >= 2.0 * margin
    ensures forall i :: 0 <= i < |ps| ==>
      var q := Fit(ps, b, margin).value.0[i];
      b.minX + margin <= q.x <= b.maxX - margin && b.minY + margin <= q.y <= b.maxY - margin
  {
    var s := FitScale(ps, b, margin);
    ScaleBounds(ps, b, margin);
    var out := Fit(ps, b, margin).value.0;
    assert out == PlaceAll(ps, MinX(ps), MinY(ps), s, b.minX + margin, b.minY + margin);
    forall i | 0 <= i < |ps|
      ensures b.minX + margin <= out[i].x <= b.maxX - margin && b.minY + margin <= out[i].y <= b.maxY - margin
    {
      PlaceWithin(ps[i], MinX(ps), MaxX(ps), MinY(ps), MaxY(ps), s, b, margin);
    }
  }
}
