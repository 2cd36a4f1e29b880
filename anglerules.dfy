/**
 * The angle arithmetic of the scene renderer
 * (apps/d_compute/geo_compute/angle_rules.py): the counter-clockwise turn
 * between two directions, the order in which the two rays of an angle mark
 * are drawn, and the inner angle shown in the label. Directions come from
 * the host's `arctan2`; only the modular arithmetic on them is modelled.
 */
module AngleRules {
  import opened Numerics
  import opened Geom

  /** `2 * np.pi`. */
  const TwoPi: real := 2.0 * Pi

  /** `_ang(v)`: the direction of `v` in radians, `np.arctan2(v[1], v[0])`. */
  function Ang(h: Host, v: Point): real {
    h.atan2(v.y, v.x)
  }

  /** `_ccw_delta(a, b)`: the counter-clockwise turn from direction `a` to
      direction `b`, reduced into one full turn. */
  function CcwDelta(a: real, b: real): (d: real)
    ensures 0.0 <= d < TwoPi
    ensures exists k: int :: b - a == Multiple(k, TwoPi) + d
  {
    RealMod(b - a, TwoPi)
  }

  /** The remainder of a division by a positive modulus is unique. */
  lemma ModUnique(x: real, m: real, k: int, r: real)
    requires m > 0.0 && 0.0 <= r < m && x == Multiple(k, m) + r
    ensures RealMod(x, m) == r
  {
    var r' := RealMod(x, m);
    var k' :| x == Multiple(k', m) + r';
    assert (k - k') as real * m == r' - r;
    if k - k' >= 1 {
      MulMonotone(1.0, (k - k') as real, m);
      assert false;
    } else if k' - k >= 1 {
      assert (k' - k) as real * m == r - r';
      MulMonotone(1.0, (k' - k) as real, m);
      assert false;
    }
  }

  /** Turning the other way round: from `b` back to `a` is the rest of the
      full turn, or nothing when the directions agree. */
  lemma CcwDeltaSwap(a: real, b: real)
    ensures CcwDelta(b, a) == if CcwDelta(a, b) == 0.0 then 0.0 else TwoPi - CcwDelta(a, b)
  {
    var d := CcwDelta(a, b);
    var k :| b - a == Multiple(k, TwoPi) + d;
    if d == 0.0 {
      assert a - b == Multiple(-k, TwoPi) + 0.0;
      ModUnique(a - b, TwoPi, -k, 0.0);
    } else {
      assert a - b == Multiple(-k - 1, TwoPi) + (TwoPi - d);
      ModUnique(a - b, TwoPi, -k - 1, TwoPi - d);
    }
  }

  /** `inner_order(V, P, Q)`: the two arms of the angle at `V`, ordered so that
      the counter-clockwise turn from the first to the second is at most a
      half turn — the side `Angle(l1, l2)` sweeps. */
  function InnerOrder(h: Host, V: Point, P: Point, Q: Point): (r: (Point, Point))
    ensures r == (P, Q) || r == (Q, P)
    ensures CcwDelta(Ang(h, Sub(r.0, V)), Ang(h, Sub(r.1, V))) <= Pi
  {
    var aP := Ang(h, Sub(P, V));
    var aQ := Ang(h, Sub(Q, V));
    var d := CcwDelta(aP, aQ);
    if d <= Pi then (P, Q)
    else
      CcwDeltaSwap(aP, aQ);
      (Q, P)
  }

  /** Away from the two degenerate turns (none and exactly half), the order
      does not depend on which arm is named first. */
  lemma InnerOrderSymmetric(h: Host, V: Point, P: Point, Q: Point)
    requires CcwDelta(Ang(h, Sub(P, V)), Ang(h, Sub(Q, V))) != 0.0
    requires CcwDelta(Ang(h, Sub(P, V)), Ang(h, Sub(Q, V))) != Pi
    ensures InnerOrder(h, V, P, Q) == InnerOrder(h, V, Q, P)
  {
    CcwDeltaSwap(Ang(h, Sub(P, V)), Ang(h, Sub(Q, V)));
  }

  /** `measured_inner_deg(V, P, Q)`: the inner angle at `V` in degrees. */
  function MeasuredInnerDeg(h: Host, V: Point, P: Point, Q: Point): (deg: real)
    ensures 0.0 <= deg <= 180.0
  {
    var aP := Ang(h, Sub(P, V));
    var aQ := Ang(h, Sub(Q, V));
    var d := CcwDelta(aP, aQ);
    Degrees(if d <= Pi then d else TwoPi - d)
  }

  /** The measured angle is the same whichever arm comes first. */
  lemma MeasuredInnerSymmetric(h: Host, V: Point, P: Point, Q: Point)
    ensures MeasuredInnerDeg(h, V, P, Q) == MeasuredInnerDeg(h, V, Q, P)
  {
    CcwDeltaSwap(Ang(h, Sub(P, V)), Ang(h, Sub(Q, V)));
  }

  /** The label shows the turn between the arms in the order they are drawn:
      the measured angle is the counter-clockwise turn from the first arm of
      `InnerOrder` to the second, in degrees. */
  lemma MeasuredIsDrawnTurn(h: Host, V: Point, P: Point, Q: Point)
    ensures var (first, second) := InnerOrder(h, V, P, Q);
            MeasuredInnerDeg(h, V, P, Q) == Degrees(CcwDelta(Ang(h, Sub(first, V)), Ang(h, Sub(second, V))))
  {
    CcwDeltaSwap(Ang(h, Sub(P, V)), Ang(h, Sub(Q, V)));
  }
}
