/**
 * The construction templates: the four-branch search for a quadrilateral
 * from a base AD, two diagonal lengths and two angles; the closed-form
 * square with a point E; and the right-angle template that is only a stub.
 * A solution is the labelled point list the Python dict holds, in its key order.
 */
module Templates {
  import opened Outcomes
  import opened Numerics
  import opened Geom

  /** Labelled points in insertion order, as `dict(A=..., B=..., ...)` builds them. */
  type PointMap = seq<(string, Point)>

  datatype Quad = Quad(a: Point, b: Point, c: Point, d: Point)

  function QuadPoints(q: Quad): PointMap {
    [("A", q.a), ("B", q.b), ("C", q.c), ("D", q.d)]
  }

  /** The sign pairs (sA, sD) in the order the nested loops visit them. */
  const Branches: seq<(int, int)> := [(1, 1), (1, -1), (-1, 1), (-1, -1)]

  /** The quadrilateral one branch builds from the direction `uAD` of AD:
      C from A along `uAD` turned by sA*thA, B from D along -`uAD` turned by
      sD*thD (angles in radians). */
  function Candidate(h: Host, a: Point, d: Point, uAD: Point, thA: real, thD: real, acLen: real, bdLen: real, sA: int, sD: int): (q: Quad)
    ensures q.a == a && q.d == d
  {
    var c := Add(a, Scale(Rotate(h, uAD, sA as real * thA), acLen));
    var b := Add(d, Scale(Rotate(h, Neg(uAD), sD as real * thD), bdLen));
    Quad(a, b, c, d)
  }

  /** The three checks a branch must pass: the sides AB, CD and BC, AD do not
      meet, the signed area is positive, and the diagonals cross. */
  predicate Accepted(q: Quad) {
    && !SegX(q.a, q.b, q.c, q.d)
    && !SegX(q.b, q.c, q.a, q.d)
    && AreaSigned([q.a, q.b, q.c, q.d]) > 0.0
    && DiagCrossInside(q.a, q.b, q.c, q.d)
  }

  /** The four candidates in branch order. */
  function Candidates(h: Host, a: Point, d: Point, thA: real, thD: real, acLen: real, bdLen: real): (cs: seq<Quad>)
    ensures |cs| == |Branches|
    ensures forall k :: 0 <= k < |Branches| ==> cs[k] == Candidate(h, a, d, Unit(h, Sub(d, a)), thA, thD, acLen, bdLen, Branches[k].0, Branches[k].1)
  {
    var uAD := Unit(h, Sub(d, a));
    seq(|Branches|, k requires 0 <= k < |Branches| => Candidate(h, a, d, uAD, thA, thD, acLen, bdLen, Branches[k].0, Branches[k].1))
  }

  /** The first accepted quadrilateral of a list, if any. */
  function FirstAccepted(cs: seq<Quad>): (r: Option<Quad>)
    ensures r.None? <==> forall k :: 0 <= k < |cs| ==> !Accepted(cs[k])
    ensures r.Some? ==> exists k :: 0 <= k < |cs| && cs[k] == r.value && Accepted(cs[k])
                                  && forall j :: 0 <= j < k ==> !Accepted(cs[j])
  {
    if cs == [] then None
    else if Accepted(cs[0]) then Some(cs[0])
    else
      var r := FirstAccepted(cs[1..]);
      assert forall k :: 1 <= k < |cs| ==> cs[k] == cs[1..][k - 1];
      if r.Some? then
        var k :| 0 <= k < |cs[1..]| && cs[1..][k] == r.value && Accepted(cs[1..][k])
                 && forall j :: 0 <= j < k ==> !Accepted(cs[1..][j]);
        assert cs[k + 1] == r.value && forall j :: 0 <= j < k + 1 ==> !Accepted(cs[j]);
        r
      else r
  }

  /** What `solve_quad_diaglen_ang` returns, angles in degrees. */
  function SolveQuad(h: Host, a: Point, d: Point, thetaADeg: real, thetaDDeg: real, acLen: real, bdLen: real): Option<Quad> {
    FirstAccepted(Candidates(h, a, d, Deg2Rad(thetaADeg), Deg2Rad(thetaDDeg), acLen, bdLen))
  }

  /** `solve_quad_diaglen_ang`: the nested loop over the sign branches with its
      `continue`s and early return. */
  method SolveQuadDiaglenAng(h: Host, a: Point, d: Point, thetaADeg: real, thetaDDeg: real, acLen: real, bdLen: real)
    returns (r: Option<Quad>)
    ensures r == SolveQuad(h, a, d, thetaADeg, thetaDDeg, acLen, bdLen)
  {
    var uAD := Unit(h, Sub(d, a));
    var thA, thD := Deg2Rad(thetaADeg), Deg2Rad(thetaDDeg);
    ghost var cs := Candidates(h, a, d, thA, thD, acLen, bdLen);
    var signs := [1, -1];
    for i := 0 to 2
      invariant forall k :: 0 <= k < 2 * i ==> !Accepted(cs[k])
    {
      for j := 0 to 2
        invariant forall k :: 0 <= k < 2 * i + j ==> !Accepted(cs[k])
      {
        var sA, sD := signs[i], signs[j];
        BranchAt(i, j);
        var q := Candidate(h, a, d, uAD, thA, thD, acLen, bdLen, sA, sD);
        assert q == cs[2 * i + j];
        if SegX(q.a, q.b, q.c, q.d) || SegX(q.b, q.c, q.a, q.d) {
          Rejected(cs, 2 * i + j);
          continue;
        }
        if AreaSigned([q.a, q.b, q.c, q.d]) <= 0.0 {
          Rejected(cs, 2 * i + j);
          continue;
        }
        if !DiagCrossInside(q.a, q.b, q.c, q.d) {
          Rejected(cs, 2 * i + j);
          continue;
        }
        FirstAcceptedAt(cs, 2 * i + j);
        return Some(q);
      }
    }
    return None;
  }

  /** The nested loops over `(1, -1)` visit the branches in the listed order. */
  lemma BranchAt(i: int, j: int)
    requires 0 <= i < 2 && 0 <= j < 2
    ensures Branches[2 * i + j] == ([1, -1][i], [1, -1][j])
  {
  }

  /** One more branch fails a check. */
  lemma Rejected(cs: seq<Quad>, n: nat)
    requires n < |cs| && !Accepted(cs[n]) && forall k :: 0 <= k < n ==> !Accepted(cs[k])
    ensures forall k :: 0 <= k < n + 1 ==> !Accepted(cs[k])
  {
  }

  lemma FirstAcceptedAt(cs: seq<Quad>, k: nat)
    requires k < |cs| && Accepted(cs[k]) && forall j :: 0 <= j < k ==> !Accepted(cs[j])
    ensures FirstAccepted(cs) == Some(cs[k])
  {
    var r := FirstAccepted(cs);
    var k' :| 0 <= k' < |cs| && cs[k'] == r.value && Accepted(cs[k']) && forall j :: 0 <= j < k' ==> !Accepted(cs[j]);
    assert k' == k;
  }

  /** A solution found by the search passes every check, keeps the seeds A and D,
      is the candidate of some branch, and every earlier branch failed. */
  lemma SolveQuadSound(h: Host, a: Point, d: Point, thetaADeg: real, thetaDDeg: real, acLen: real, bdLen: real)
    requires SolveQuad(h, a, d, thetaADeg, thetaDDeg, acLen, bdLen).Some?
    ensures var q := SolveQuad(h, a, d, thetaADeg, thetaDDeg, acLen, bdLen).value;
            && Accepted(q) && q.a == a && q.d == d
            && exists k :: 0 <= k < |Branches|
                 && q == Candidate(h, a, d, Unit(h, Sub(d, a)), Deg2Rad(thetaADeg), Deg2Rad(thetaDDeg), acLen, bdLen, Branches[k].0, Branches[k].1)
                 && forall j :: 0 <= j < k ==>
                      !Accepted(Candidate(h, a, d, Unit(h, Sub(d, a)), Deg2Rad(thetaADeg), Deg2Rad(thetaDDeg), acLen, bdLen, Branches[j].0, Branches[j].1))
  {
    var cs := Candidates(h, a, d, Deg2Rad(thetaADeg), Deg2Rad(thetaDDeg), acLen, bdLen);
    var q := SolveQuad(h, a, d, thetaADeg, thetaDDeg, acLen, bdLen).value;
    var k :| 0 <= k < |cs| && cs[k] == q && Accepted(cs[k]) && forall j :: 0 <= j < k ==> !Accepted(cs[j]);
    assert q == Candidate(h, a, d, Unit(h, Sub(d, a)), Deg2Rad(thetaADeg), Deg2Rad(thetaDDeg), acLen, bdLen, Branches[k].0, Branches[k].1);
  }

  /** The search fails exactly when all four branches fail a check. */
  lemma SolveQuadNone(h: Host, a: Point, d: Point, thetaADeg: real, thetaDDeg: real, acLen: real, bdLen: real)
    ensures SolveQuad(h, a, d, thetaADeg, thetaDDeg, acLen, bdLen).None? <==>
            forall k :: 0 <= k < |Branches| ==>
              !Accepted(Candidate(h, a, d, Unit(h, Sub(d, a)), Deg2Rad(thetaADeg), Deg2Rad(thetaDDeg), acLen, bdLen, Branches[k].0, Branches[k].1))
  {
    var cs := Candidates(h, a, d, Deg2Rad(thetaADeg), Deg2Rad(thetaDDeg), acLen, bdLen);
    assert forall k :: 0 <= k < |Branches| ==>
      cs[k] == Candidate(h, a, d, Unit(h, Sub(d, a)), Deg2Rad(thetaADeg), Deg2Rad(thetaDDeg), acLen, bdLen, Branches[k].0, Branches[k].1);
  }

  /** `solve_right_at_C`: a stub that always raises. */
  function SolveRightAtC<T>(ab: T, ad: T, cd: T): (r: Result<PointMap>)
    ensures r.Err? && r.error.NotImplementedError?
  {
    Err(NotImplementedError(""))
  }

  /** `solve_square_with_ADE(side, angle)`: the square A(0,0), B(0,-s), C(s,-s),
      D(s,0) and the point E = (0.75 s, (sqrt(3)/4) s 2); the angle is not used. */
  function SolveSquare<A>(h: Host, side: real, angle: A): (r: PointMap)
    ensures |r| == 5
    ensures r[0] == ("A", Point(0.0, 0.0, 0.0)) && r[1] == ("B", Point(0.0, -side, 0.0))
    ensures r[2] == ("C", Point(side, -side, 0.0)) && r[3] == ("D", Point(side, 0.0, 0.0))
    ensures r[4].0 == "E" && r[4].1.x == 0.75 * side && r[4].1.z == 0.0
    ensures r[4].1.y == (h.sqrt(3.0) / 4.0) * side * 2.0
  {
    var s := side;
    [("A", Point(0.0, 0.0, 0.0)), ("B", Point(0.0, -s, 0.0)), ("C", Point(s, -s, 0.0)),
     ("D", Point(s, 0.0, 0.0)), ("E", Point(0.75 * s, (h.sqrt(3.0) / 4.0) * s * 2.0, 0.0))]
  }

  /** The square is listed counter-clockwise: its signed area is side squared,
      whatever angle is passed. */
  lemma SquareArea<A>(h: Host, side: real, angle: A, otherAngle: A)
    ensures var r := SolveSquare(h, side, angle);
            AreaSigned([r[0].1, r[1].1, r[2].1, r[3].1]) == side * side
    ensures SolveSquare(h, side, angle) == SolveSquare(h, side, otherAngle)
  {
    var r := SolveSquare(h, side, angle);
    AreaSigned4(r[0].1, r[1].1, r[2].1, r[3].1);
  }

  /** The host's square root of 3 squares back to 3. */
  predicate ExactSqrt3(h: Host) {
    h.sqrt(3.0) * h.sqrt(3.0) == 3.0
  }

  /** For side 8 the code puts E at (6, 4*sqrt(3)); the note beside it says
      (6, 2*sqrt(3)). With the code's E the angle AED is not a right angle:
      (A - E) . (D - E) = 36. */
  lemma SquareSideEight<A>(h: Host, angle: A)
    requires ExactSqrt3(h)
    ensures var e := SolveSquare(h, 8.0, angle)[4].1;
            && e == Point(6.0, 4.0 * h.sqrt(3.0), 0.0)
            && (0.0 - e.x) * (8.0 - e.x) + (0.0 - e.y) * (0.0 - e.y) == 36.0
  {
    var r3 := h.sqrt(3.0);
    var e := SolveSquare(h, 8.0, angle)[4].1;
    assert e.y == (r3 / 4.0) * 8.0 * 2.0;
    assert e.y == 4.0 * r3;
    assert (0.0 - e.y) * (0.0 - e.y) == 16.0 * (r3 * r3);
  }
}
