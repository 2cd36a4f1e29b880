/**
 * The arithmetic of the raster vectoriser (apps/b_graphsampling/anchor_ir.py):
 * the Ramer–Douglas–Peucker simplifier, the de-duplication of arc-length
 * samples, the selection and point cap of `svg_to_polylines`, the pixel to
 * scene affine map, the SVG size attributes and the edge / crop-box logic of
 * `build_anchor_item`. Potrace, OpenCV and svgpathtools are outside: an SVG
 * path is its bounding box and length, and its arc-length samples are a
 * parameter.
 */
module AnchorIr {
  import opened Outcomes
  import opened Numerics
  import opened PyText
  import opened PyValue

  // ------------------------------------------------------------ pixel points

  /** One row of a numpy `(N, 2)` array of pixel coordinates. */
  datatype Px = Px(x: real, y: real)

  function Minus(a: Px, b: Px): Px {
    Px(a.x - b.x, a.y - b.y)
  }

  /** `np.cross` of two 2-vectors: the z component. */
  function Cross(u: Px, v: Px): real {
    u.x * v.y - u.y * v.x
  }

  /** `np.linalg.norm(v)` of a 2-vector. */
  function Norm(h: Host, v: Px): NonNegReal {
    h.hypot(v.x, v.y)
  }

  /** The host's norm is positive on every non-zero vector, as `np.linalg.norm` is. */
  ghost predicate NormPositive(h: Host) {
    forall x: real, y: real {:trigger h.hypot(x, y)} :: (x != 0.0 || y != 0.0) ==> h.hypot(x, y) > 0.0
  }

  /** `_perp_dist`: the distance from `pt` to the line through `a` and `b`, or to `a` when `a == b`. */
  function PerpDist(h: Host, pt: Px, a: Px, b: Px): (d: real)
    requires NormPositive(h)
    ensures d >= 0.0
  {
    if a == b then Norm(h, Minus(pt, a))
    else
      var n := Norm(h, Minus(b, a));
      QuotientNonNeg(Abs(Cross(Minus(b, a), Minus(a, pt))), n);
      Abs(Cross(Minus(b, a), Minus(a, pt))) / n
  }

  lemma QuotientNonNeg(a: real, b: real)
    requires a >= 0.0 && b > 0.0
    ensures a / b >= 0.0
  {
    assert (a / b) * b == a;
  }

  /** `P[keep]`. */
  function Pick(P: seq<Px>, ks: seq<nat>): (r: seq<Px>)
    requires forall k :: 0 <= k < |ks| ==> ks[k] < |P|
    ensures |r| == |ks|
    ensures forall k :: 0 <= k < |ks| ==> r[k] == P[ks[k]]
  {
    seq(|ks|, k requires 0 <= k < |ks| => P[ks[k]])
  }

  /** Indices that rise strictly: picking them gives a subsequence. */
  predicate Increasing(ks: seq<nat>) {
    forall i, j :: 0 <= i < j < |ks| ==> ks[i] < ks[j]
  }

  // ------------------------------------------------------------------- rdp

  /**
   * The scan in `_rdp` over the interior points `lo+1 .. n-1` of the chord
   * `P[lo]`–`P[hi]`: the first index of the largest distance and that
   * distance, starting from index `lo` and distance 0.0.
   */
  function Farthest(h: Host, P: seq<Px>, lo: nat, hi: nat, n: nat): (r: (nat, real))
    requires NormPositive(h)
    requires lo < hi < |P| && lo < n <= hi
    decreases n
  {
    if n == lo + 1 then (lo, 0.0)
    else
      var prev := Farthest(h, P, lo, hi, n - 1);
      var d := PerpDist(h, P[n - 1], P[lo], P[hi]);
      if d > prev.1 then (n - 1, d) else prev
  }

  /** The scan finds the first point of greatest distance, and 0.0 at index `lo` when no point is off the chord. */
  lemma {:induction false} FarthestIsFirstMax(h: Host, P: seq<Px>, lo: nat, hi: nat, n: nat)
    requires NormPositive(h)
    requires lo < hi < |P| && lo < n <= hi
    ensures var (j, m) := Farthest(h, P, lo, hi, n);
      && m >= 0.0 && lo <= j < n
      && (j == lo ==> m == 0.0)
      && (j > lo ==> m > 0.0 && m == PerpDist(h, P[j], P[lo], P[hi]))
      && (forall i :: lo < i < n ==> PerpDist(h, P[i], P[lo], P[hi]) <= m)
      && (forall i :: lo < i < j ==> PerpDist(h, P[i], P[lo], P[hi]) < m)
    decreases n
  {
    if n > lo + 1 {
      FarthestIsFirstMax(h, P, lo, hi, n - 1);
    }
  }

  /** The `for i in range(1, len(M) - 1)` scan of `_rdp`, on the chord from `lo` to `hi`. */
  method FindFarthest(h: Host, P: seq<Px>, lo: nat, hi: nat) returns (idx: nat, dmax: real)
    requires NormPositive(h)
    requires lo < hi < |P|
    ensures (idx, dmax) == Farthest(h, P, lo, hi, hi)
  {
    dmax := 0.0;
    idx := lo;
    for i := lo + 1 to hi
      invariant (idx, dmax) == Farthest(h, P, lo, hi, i)
    {
      var d := PerpDist(h, P[i], P[lo], P[hi]);
      if d > dmax {
        idx, dmax := i, d;
      }
    }
  }

  /**
   * `_rdp` applied to the slice `P[lo..hi]` (both ends included), as the
   * indices of `P` it keeps: split at the farthest point when its distance
   * exceeds `eps`, keeping the split point once, else keep the two ends.
   */
  function RdpKept(h: Host, P: seq<Px>, lo: nat, hi: nat, eps: real): (ks: seq<nat>)
    requires NormPositive(h)
    requires lo < hi < |P| && eps >= 0.0
    ensures |ks| >= 2 && ks[0] == lo && ks[|ks| - 1] == hi
    ensures forall k :: 0 <= k < |ks| ==> lo <= ks[k] <= hi
    decreases hi - lo
  {
    var (idx, dmax) := Farthest(h, P, lo, hi, hi);
    if dmax > eps then
      FarthestIsFirstMax(h, P, lo, hi, hi);
      var left := RdpKept(h, P, lo, idx, eps);
      left[..|left| - 1] + RdpKept(h, P, idx, hi, eps)
    else
      [lo, hi]
  }

  /** Every input point skipped between two consecutive kept points is within `eps` of their chord. */
  ghost predicate ChordsWithin(h: Host, P: seq<Px>, ks: seq<nat>, eps: real)
    requires NormPositive(h)
    requires forall k :: 0 <= k < |ks| ==> ks[k] < |P|
  {
    forall k, i {:trigger PerpDist(h, P[i], P[ks[k]], P[ks[k + 1]])} ::
      0 <= k < |ks| - 1 && ks[k] < i < ks[k + 1] ==> PerpDist(h, P[i], P[ks[k]], P[ks[k + 1]]) <= eps
  }

  /** The kept indices rise strictly from `lo` to `hi`, and every skipped point is within `eps` of its chord. */
  lemma {:induction false} RdpKeptChords(h: Host, P: seq<Px>, lo: nat, hi: nat, eps: real)
    requires NormPositive(h)
    requires lo < hi < |P| && eps >= 0.0
    ensures Increasing(RdpKept(h, P, lo, hi, eps)) && ChordsWithin(h, P, RdpKept(h, P, lo, hi, eps), eps)
    decreases hi - lo, 1
  {
    var (idx, dmax) := Farthest(h, P, lo, hi, hi);
    FarthestIsFirstMax(h, P, lo, hi, hi);
    var ks := RdpKept(h, P, lo, hi, eps);
    if dmax > eps {
      SplitChords(h, P, lo, idx, hi, eps);
    } else {
      assert ks == [lo, hi];
      EndsWithin(h, P, lo, hi, eps);
    }
  }

  /** The two halves of a split each keep the chord property, and so does their join. */
  lemma {:induction false} SplitChords(h: Host, P: seq<Px>, lo: nat, idx: nat, hi: nat, eps: real)
    requires NormPositive(h)
    requires lo < idx < hi < |P| && eps >= 0.0
    requires (idx, Farthest(h, P, lo, hi, hi).1) == Farthest(h, P, lo, hi, hi)
    requires Farthest(h, P, lo, hi, hi).1 > eps
    ensures Increasing(RdpKept(h, P, lo, hi, eps)) && ChordsWithin(h, P, RdpKept(h, P, lo, hi, eps), eps)
    decreases hi - lo, 0
  {
    var left := RdpKept(h, P, lo, idx, eps);
    var right := RdpKept(h, P, idx, hi, eps);
    assert RdpKept(h, P, lo, hi, eps) == left[..|left| - 1] + right;
    RdpKeptChords(h, P, lo, idx, eps);
    RdpKeptChords(h, P, idx, hi, eps);
    JoinChords(h, P, left, right, eps);
  }

  /** A chord whose interior points are all within `eps` satisfies the chord property on its own. */
  lemma EndsWithin(h: Host, P: seq<Px>, lo: nat, hi: nat, eps: real)
    requires NormPositive(h)
    requires lo < hi < |P|
    requires forall i :: lo < i < hi ==> PerpDist(h, P[i], P[lo], P[hi]) <= eps
    ensures Increasing([lo, hi]) && ChordsWithin(h, P, [lo, hi], eps)
  {
    var ks := [lo, hi];
    forall k, i | 0 <= k < |ks| - 1 && ks[k] < i < ks[k + 1]
      ensures PerpDist(h, P[i], P[ks[k]], P[ks[k + 1]]) <= eps
    {
      assert k == 0;
    }
  }

  /** Gluing two kept-index chains that share their joint keeps order, bounds and the chord property. */
  lemma JoinChords(h: Host, P: seq<Px>, left: seq<nat>, right: seq<nat>, eps: real)
    requires NormPositive(h)
    requires |left| >= 2 && |right| >= 2 && left[|left| - 1] == right[0]
    requires forall k :: 0 <= k < |left| ==> left[0] <= left[k] <= right[0]
    requires forall k :: 0 <= k < |right| ==> right[0] <= right[k] < |P|
    requires Increasing(left) && Increasing(right)
    requires ChordsWithin(h, P, left, eps) && ChordsWithin(h, P, right, eps)
    ensures var ks := left[..|left| - 1] + right;
      && Increasing(ks)
      && (forall k :: 0 <= k < |ks| ==> left[0] <= ks[k] <= right[|right| - 1])
      && ChordsWithin(h, P, ks, eps)
  {
    var ks := left[..|left| - 1] + right;
    var m := |left| - 1;
    assert forall k :: 0 <= k < m ==> ks[k] == left[k];
    assert forall k :: m <= k < |ks| ==> ks[k] == right[k - m];
    forall i, j | 0 <= i < j < |ks|
      ensures ks[i] < ks[j]
    {
      if j < m {
      } else if i < m {
        assert ks[i] == left[i] < left[m] == right[0] <= ks[j];
      }
    }
    forall k | 0 <= k < |ks|
      ensures left[0] <= ks[k] <= right[|right| - 1]
    {
      if k >= m && k - m < |right| - 1 {
        assert right[k - m] < right[|right| - 1];
      }
    }
    forall k, i | 0 <= k < |ks| - 1 && ks[k] < i < ks[k + 1]
      ensures PerpDist(h, P[i], P[ks[k]], P[ks[k + 1]]) <= eps
    {
      if k < m {
        assert ks[k] == left[k] && ks[k + 1] == left[k + 1];
        assert PerpDist(h, P[i], P[left[k]], P[left[k + 1]]) <= eps;
      } else {
        var j := k - m;
        assert ks[k] == right[j] && ks[k + 1] == right[j + 1];
        assert PerpDist(h, P[i], P[right[j]], P[right[j + 1]]) <= eps;
      }
    }
  }

  /**
   * `rdp(P, eps)`: fewer than three points come back unchanged; a negative
   * `eps` makes `_rdp` split forever (every scan beats it with 0.0 at index 0),
   * which Python ends with `RecursionError`, a `RuntimeError`.
   */
  function Rdp(h: Host, P: seq<Px>, eps: real): (r: Result<seq<Px>>)
    requires NormPositive(h)
  {
    if |P| < 3 then Ok(P)
    else if eps < 0.0 then Err(RuntimeError("maximum recursion depth exceeded"))
    else Ok(Pick(P, RdpKept(h, P, 0, |P| - 1, eps)))
  }

  /** What `rdp` promises: short inputs unchanged; otherwise the first and last point kept, a subsequence, every dropped point within `eps` of its chord. */
  lemma RdpSimplifies(h: Host, P: seq<Px>, eps: real)
    requires NormPositive(h)
    ensures |P| < 3 ==> Rdp(h, P, eps) == Ok(P)
    ensures |P| >= 3 ==> (Rdp(h, P, eps).Ok? <==> eps >= 0.0)
    ensures |P| >= 3 && eps >= 0.0 ==>
      var ks := RdpKept(h, P, 0, |P| - 1, eps);
      var Q := Rdp(h, P, eps).value;
      && Q == Pick(P, ks) && Increasing(ks)
      && Q[0] == P[0] && Q[|Q| - 1] == P[|P| - 1]
      && ChordsWithin(h, P, ks, eps)
  {
    if |P| >= 3 && eps >= 0.0 {
      RdpKeptChords(h, P, 0, |P| - 1, eps);
    }
  }

  /** A chord whose interior is within `eps` of it is kept as just its two ends. */
  lemma RdpStraight(h: Host, P: seq<Px>, eps: real)
    requires NormPositive(h)
    requires |P| >= 3 && eps >= 0.0
    requires forall i :: 0 < i < |P| - 1 ==> PerpDist(h, P[i], P[0], P[|P| - 1]) <= eps
    ensures Rdp(h, P, eps) == Ok([P[0], P[|P| - 1]])
  {
    FarthestIsFirstMax(h, P, 0, |P| - 1, |P| - 1);
    var (j, m) := Farthest(h, P, 0, |P| - 1, |P| - 1);
    assert m <= eps;
    assert RdpKept(h, P, 0, |P| - 1, eps) == [0, |P| - 1];
    assert Pick(P, [0, |P| - 1]) == [P[0], P[|P| - 1]];
  }

  // --------------------------------------------------------------- de-dup

  /** The `keep` list of `_sample_path_even_arclength` after visiting the first `n` samples. */
  function DedupKeep(h: Host, P: seq<Px>, n: nat): (keep: seq<nat>)
    requires 1 <= n <= |P|
    ensures |keep| >= 1 && keep[0] == 0
    ensures forall k :: 0 <= k < |keep| ==> keep[k] < n
  {
    if n == 1 then [0]
    else
      var keep := DedupKeep(h, P, n - 1);
      if Norm(h, Minus(P[n - 1], P[keep[|keep| - 1]])) >= 0.8 then keep + [n - 1] else keep
  }

  /** `P[keep]` after de-duplication; `P[[0]]` of an empty array raises `IndexError`. */
  function Deduped(h: Host, P: seq<Px>): (r: Result<seq<Px>>)
    ensures r.Ok? <==> |P| > 0
    ensures r.Ok? ==> |r.value| >= 1 && r.value[0] == P[0]
  {
    if |P| == 0 then Err(IndexError)
    else Ok(Pick(P, DedupKeep(h, P, |P|)))
  }

  /** Point 0 is always kept, kept indices rise, and each kept point is at least 0.8 from the previously kept one. */
  lemma {:induction false} DedupApart(h: Host, P: seq<Px>, n: nat)
    requires 1 <= n <= |P|
    ensures var keep := DedupKeep(h, P, n);
      && keep[0] == 0 && Increasing(keep)
      && (forall k :: 0 < k < |keep| ==> Norm(h, Minus(P[keep[k]], P[keep[k - 1]])) >= 0.8)
  {
    if n > 1 {
      DedupApart(h, P, n - 1);
      var prev := DedupKeep(h, P, n - 1);
      var keep := DedupKeep(h, P, n);
      if Norm(h, Minus(P[n - 1], P[prev[|prev| - 1]])) >= 0.8 {
        assert keep == prev + [n - 1];
        forall i, j | 0 <= i < j < |keep|
          ensures keep[i] < keep[j]
        {
          assert keep[i] == prev[i];
          if j < |prev| {
            assert keep[j] == prev[j];
          }
        }
        forall k | 0 < k < |keep|
          ensures Norm(h, Minus(P[keep[k]], P[keep[k - 1]])) >= 0.8
        {
          assert keep[k - 1] == prev[k - 1];
          if k < |prev| {
            assert keep[k] == prev[k];
          }
        }
      } else {
        assert keep == prev;
      }
    }
  }

  /** Every sample among the first `n` that `keep` skips is within 0.8 of the last kept sample before it. */
  ghost predicate DroppedNear(h: Host, P: seq<Px>, keep: seq<nat>, n: nat)
    requires n <= |P| && forall k :: 0 <= k < |keep| ==> keep[k] < n
  {
    forall k, i {:trigger Norm(h, Minus(P[i], P[keep[k]]))} ::
      0 <= k < |keep| && keep[k] < i < n && (k == |keep| - 1 || i < keep[k + 1]) ==>
        Norm(h, Minus(P[i], P[keep[k]])) < 0.8
  }

  /** Each dropped sample is within 0.8 of the last sample kept before it. */
  lemma {:induction false} DedupNear(h: Host, P: seq<Px>, n: nat)
    requires 1 <= n <= |P|
    ensures DroppedNear(h, P, DedupKeep(h, P, n), n)
  {
    if n > 1 {
      DedupNear(h, P, n - 1);
      var prev := DedupKeep(h, P, n - 1);
      if Norm(h, Minus(P[n - 1], P[prev[|prev| - 1]])) >= 0.8 {
        NearAfterKeeping(h, P, prev, n);
      } else {
        NearAfterDropping(h, P, prev, n);
      }
    }
  }

  lemma NearAfterKeeping(h: Host, P: seq<Px>, prev: seq<nat>, n: nat)
    requires 1 < n <= |P| && |prev| >= 1 && forall k :: 0 <= k < |prev| ==> prev[k] < n - 1
    requires DroppedNear(h, P, prev, n - 1)
    ensures DroppedNear(h, P, prev + [n - 1], n)
  {
    var keep := prev + [n - 1];
    var last := |prev| - 1;
    forall k, i | 0 <= k < |keep| && keep[k] < i < n && (k == |keep| - 1 || i < keep[k + 1])
      ensures Norm(h, Minus(P[i], P[keep[k]])) < 0.8
    {
      assert k < |prev| && keep[k] == prev[k];
      if k < last {
        assert keep[k + 1] == prev[k + 1] && prev[k + 1] < n - 1;
      }
      assert prev[k] < i < n - 1 && (k == |prev| - 1 || i < prev[k + 1]);
    }
  }

  lemma NearAfterDropping(h: Host, P: seq<Px>, prev: seq<nat>, n: nat)
    requires 1 < n <= |P| && |prev| >= 1 && forall k :: 0 <= k < |prev| ==> prev[k] < n - 1
    requires DroppedNear(h, P, prev, n - 1)
    requires Norm(h, Minus(P[n - 1], P[prev[|prev| - 1]])) < 0.8
    ensures DroppedNear(h, P, prev, n)
  {
    var last := |prev| - 1;
    forall k, i | 0 <= k < |prev| && prev[k] < i < n && (k == last || i < prev[k + 1])
      ensures Norm(h, Minus(P[i], P[prev[k]])) < 0.8
    {
      if i == n - 1 {
        assert k == last;
        assert Minus(P[i], P[prev[k]]) == Minus(P[n - 1], P[prev[last]]);
        assert Norm(h, Minus(P[i], P[prev[k]])) < 0.8;
      } else {
        assert prev[k] < i < n - 1 && (k == last || i < prev[k + 1]);
        assert Norm(h, Minus(P[i], P[prev[k]])) < 0.8;
      }
    }
  }

  /** The de-duplication loop: keep a sample when it is at least 0.8 from the last kept one. */
  method Dedup(h: Host, P: seq<Px>) returns (r: Result<seq<Px>>)
    ensures r == Deduped(h, P)
  {
    if |P| == 0 {
      return Err(IndexError);
    }
    var keep: seq<nat> := [0];
    for i := 1 to |P|
      invariant keep == DedupKeep(h, P, i)
    {
      if Norm(h, Minus(P[i], P[keep[|keep| - 1]])) >= 0.8 {
        keep := keep + [i];
      }
    }
    r := Ok(Pick(P, keep));
  }

  // ------------------------------------------------------- svg_to_polylines

  /** `p.bbox()` of an svgpathtools path: (xmin, xmax, ymin, ymax). */
  datatype Bbox = Bbox(xmin: real, xmax: real, ymin: real, ymax: real)

  /** One path of the traced SVG: its bounding box (`None` where `bbox()` raises) and `_path_len_px(p)`. */
  datatype SvgPath = SvgPath(bbox: Option<Bbox>, length: real)

  /** The keyword arguments of `svg_to_polylines`. */
  datatype Options = Options(step: real, minArea: real, minLen: real, maxPaths: int, eps: real, cap: int, quantum: real)

  const Defaults: Options := Options(3.0, 80.0, 40.0, 600, 1.2, 50000, 0.1)

  /** A candidate `(i, p, L)`: the path's position in the SVG and its length. */
  datatype Cand = Cand(index: nat, length: real)

  function BboxArea(b: Bbox): (a: real)
    ensures a >= 0.0
  {
    MulNonNeg(Max(0.0, b.xmax - b.xmin), Max(0.0, b.ymax - b.ymin));
    Max(0.0, b.xmax - b.xmin) * Max(0.0, b.ymax - b.ymin)
  }

  /** A path survives the first loop: its box can be computed and is large enough, and it is long enough. */
  predicate Admitted(p: SvgPath, o: Options) {
    p.bbox.Some? && BboxArea(p.bbox.value) >= o.minArea && p.length >= o.minLen
  }

  /** `cand` after the first loop has visited the first `n` paths. */
  function Candidates(paths: seq<SvgPath>, o: Options, n: nat): (cs: seq<Cand>)
    requires n <= |paths|
    ensures forall k :: 0 <= k < |cs| ==>
      cs[k].index < n && Admitted(paths[cs[k].index], o) && cs[k].length == paths[cs[k].index].length
  {
    if n == 0 then []
    else
      var cs := Candidates(paths, o, n - 1);
      if Admitted(paths[n - 1], o) then cs + [Cand(n - 1, paths[n - 1].length)] else cs
  }

  /** Candidates appear once each, in SVG order. */
  predicate IndicesRise(cs: seq<Cand>) {
    forall i, j :: 0 <= i < j < |cs| ==> cs[i].index < cs[j].index
  }

  /** Exactly the admitted paths become candidates, in SVG order. */
  lemma {:induction false} CandidatesExact(paths: seq<SvgPath>, o: Options, n: nat)
    requires n <= |paths|
    ensures IndicesRise(Candidates(paths, o, n))
    ensures forall i :: 0 <= i < n && Admitted(paths[i], o) ==>
      exists k :: 0 <= k < |Candidates(paths, o, n)| && Candidates(paths, o, n)[k].index == i
  {
    if n > 0 {
      CandidatesExact(paths, o, n - 1);
      var cs := Candidates(paths, o, n - 1);
      if Admitted(paths[n - 1], o) {
        var cs' := cs + [Cand(n - 1, paths[n - 1].length)];
        assert cs'[|cs|].index == n - 1;
        forall i | 0 <= i < n - 1 && Admitted(paths[i], o)
          ensures exists k :: 0 <= k < |cs'| && cs'[k].index == i
        {
          var k :| 0 <= k < |cs| && cs[k].index == i;
          assert cs'[k] == cs[k];
        }
      }
    }
  }

  /** `a` precedes `b` after `cand.sort(key=L, reverse=True)`: longer first, equal lengths in their original order (the sort is stable). */
  predicate Before(a: Cand, b: Cand) {
    a.length > b.length || (a.length == b.length && a.index < b.index)
  }

  predicate SortedByLength(cs: seq<Cand>) {
    forall i, j :: 0 <= i < j < |cs| ==> Before(cs[i], cs[j])
  }

  /** Insert `c` after every element at least as long as it. */
  function InsertByLength(c: Cand, s: seq<Cand>): (r: seq<Cand>)
    ensures multiset(r) == multiset(s) + multiset{c}
  {
    if s == [] then [c]
    else if s[0].length >= c.length then
      assert s == [s[0]] + s[1..];
      [s[0]] + InsertByLength(c, s[1..])
    else [c] + s
  }

  /** `sorted(cand, key=lambda x: x[2], reverse=True)`, as a stable insertion sort. */
  function SortByLength(cs: seq<Cand>): (r: seq<Cand>)
    ensures multiset(r) == multiset(cs)
  {
    if cs == [] then []
    else
      assert cs == cs[..|cs| - 1] + [cs[|cs| - 1]];
      InsertByLength(cs[|cs| - 1], SortByLength(cs[..|cs| - 1]))
  }

  lemma {:induction false} InsertSorted(c: Cand, s: seq<Cand>)
    requires SortedByLength(s)
    requires forall k :: 0 <= k < |s| ==> s[k].index < c.index
    ensures SortedByLength(InsertByLength(c, s))
  {
    var r := InsertByLength(c, s);
    if s != [] && s[0].length >= c.length {
      var rest := InsertByLength(c, s[1..]);
      InsertSorted(c, s[1..]);
      assert r == [s[0]] + rest;
      forall j | 0 <= j < |rest|
        ensures Before(s[0], rest[j])
      {
        assert rest[j] in multiset(s[1..]) + multiset{c};
        if rest[j] != c {
          assert rest[j] in s[1..];
          var m :| 0 <= m < |s[1..]| && s[1..][m] == rest[j];
          assert s[m + 1] == rest[j];
        }
      }
      forall i, j | 0 <= i < j < |r|
        ensures Before(r[i], r[j])
      {
        if i > 0 {
          assert r[i] == rest[i - 1] && r[j] == rest[j - 1];
        } else {
          assert r[j] == rest[j - 1];
        }
      }
    } else if s != [] {
      forall i, j | 0 <= i < j < |r|
        ensures Before(r[i], r[j])
      {
        if i == 0 {
          assert r[j] == s[j - 1];
          if j > 1 {
            assert Before(s[0], s[j - 1]);
          }
        } else {
          assert r[i] == s[i - 1] && r[j] == s[j - 1];
        }
      }
    }
  }

  /** The sort orders candidates longest first, equal lengths in SVG order, and loses or adds none. */
  lemma {:induction false} SortByLengthSorted(cs: seq<Cand>)
    requires IndicesRise(cs)
    ensures SortedByLength(SortByLength(cs)) && multiset(SortByLength(cs)) == multiset(cs)
  {
    if cs != [] {
      var init := cs[..|cs| - 1];
      var c := cs[|cs| - 1];
      assert IndicesRise(init);
      SortByLengthSorted(init);
      var s := SortByLength(init);
      forall k | 0 <= k < |s|
        ensures s[k].index < c.index
      {
        assert s[k] in multiset(init);
        var m :| 0 <= m < |init| && init[m] == s[k];
      }
      InsertSorted(c, s);
    }
  }

  /** Python's `cs[:m]`: a negative `m` drops that many from the end. */
  function Head(cs: seq<Cand>, m: int): (r: seq<Cand>)
    ensures m >= 0 ==> |r| == Min(m as real, |cs| as real) as int
    ensures m < 0 ==> |r| == if |cs| + m > 0 then |cs| + m else 0
    ensures r == cs[..|r|]
  {
    if m >= 0 then (if m <= |cs| then cs[..m] else cs)
    else if |cs| + m > 0 then cs[..|cs| + m] else []
  }

  /** `int(max(20, min(300, np.ceil(L / max(1e-6, sample_step_px)))))`. */
  function SampleCount(L: real, step: real): (n: int)
    ensures 20 <= n <= 300
    ensures 20 <= Ceil(L / Max(0.000001, step)) <= 300 ==> n == Ceil(L / Max(0.000001, step))
    ensures Ceil(L / Max(0.000001, step)) < 20 ==> n == 20
    ensures Ceil(L / Max(0.000001, step)) > 300 ==> n == 300
  {
    ClampInt(Ceil(L / Max(0.000001, step)), 20, 300)
  }

  /** `v` lies on the grid of multiples of `q`. */
  ghost predicate OnGrid(v: real, q: real) {
    exists k: int :: v == Multiple(k, q)
  }

  /** `np.round(P / q, 0) * q`: every coordinate snapped to the nearest multiple of `q` (ties to even). */
  function Quantise(P: seq<Px>, q: real): (r: seq<Px>)
    requires q > 0.0
    ensures |r| == |P|
  {
    seq(|P|, j requires 0 <= j < |P| =>
      Px(Multiple(RoundHalfEven(P[j].x / q), q), Multiple(RoundHalfEven(P[j].y / q), q)))
  }

  /** Quantised coordinates are integer multiples of the quantum. */
  lemma QuantiseOnGrid(P: seq<Px>, q: real)
    requires q > 0.0
    ensures forall j :: 0 <= j < |P| ==> OnGrid(Quantise(P, q)[j].x, q) && OnGrid(Quantise(P, q)[j].y, q)
  {
    forall j | 0 <= j < |P|
      ensures OnGrid(Quantise(P, q)[j].x, q) && OnGrid(Quantise(P, q)[j].y, q)
    {
      assert Quantise(P, q)[j].x == Multiple(RoundHalfEven(P[j].x / q), q);
      assert Quantise(P, q)[j].y == Multiple(RoundHalfEven(P[j].y / q), q);
    }
  }

  /** The samples svgpathtools and `np.interp` give for path `i` at count `n`; `None` where they raise. */
  type Sampler = (nat, nat) -> Option<seq<Px>>

  /** The loop body for one candidate: `None` where it `continue`s, else the polyline it appends; an `rdp` error propagates. */
  function Traced(h: Host, c: Cand, sample: Sampler, o: Options): (r: Result<Option<seq<Px>>>)
    requires NormPositive(h)
  {
    match sample(c.index, SampleCount(c.length, o.step))
    case None => Ok(None)
    case Some(raw) =>
      match Deduped(h, raw)
      case Err(_) => Ok(None)
      case Ok(P) =>
        if |P| == 0 then Ok(None)
        else
          match Rdp(h, P, o.eps)
          case Err(e) => Err(e)
          case Ok(Q) =>
            if |Q| == 0 then Ok(None)
            else Ok(Some(if o.quantum > 0.0 then Quantise(Q, o.quantum) else Q))
  }

  /** An emitted polyline is non-empty and, with a positive quantum, lies on its grid. */
  lemma TracedShape(h: Host, c: Cand, sample: Sampler, o: Options)
    requires NormPositive(h)
    ensures Traced(h, c, sample, o).Ok? && Traced(h, c, sample, o).value.Some? ==>
      var P := Traced(h, c, sample, o).value.value;
      && |P| > 0
      && (o.quantum > 0.0 ==> forall j :: 0 <= j < |P| ==> OnGrid(P[j].x, o.quantum) && OnGrid(P[j].y, o.quantum))
  {
    var raw := sample(c.index, SampleCount(c.length, o.step));
    if raw.Some? && Deduped(h, raw.value).Ok? {
      var P := Deduped(h, raw.value).value;
      var Q := Rdp(h, P, o.eps);
      if Q.Ok? && |Q.value| > 0 && o.quantum > 0.0 {
        QuantiseOnGrid(Q.value, o.quantum);
      }
    }
  }

  /** `f"path{i}"`. */
  function PathName(i: nat): string {
    "path" + NatToString(i)
  }

  /** The loop state: `polys`, `total_pts`, and whether the loop has left through `break`. */
  datatype Run = Run(polys: seq<(string, seq<Px>)>, total: int, stopped: bool)

  /** What the loop body gives for each candidate, in order. */
  function Traces(h: Host, cs: seq<Cand>, sample: Sampler, o: Options): (ts: seq<Result<Option<seq<Px>>>>)
    requires NormPositive(h)
    ensures |ts| == |cs|
    ensures forall i :: 0 <= i < |cs| ==> ts[i] == Traced(h, cs[i], sample, o)
  {
    seq(|cs|, i requires 0 <= i < |cs| => Traced(h, cs[i], sample, o))
  }

  /** The effect on a run that has not stopped of one candidate, named
      `name`, whose loop body gave `t`. */
  function EmitStep(run: Run, name: string, t: Result<Option<seq<Px>>>, cap: int): Result<Run> {
    match t
    case Err(e) => Err(e)
    case Ok(None) => Ok(run)
    case Ok(Some(P)) =>
      var total := run.total + |P|;
      Ok(Run(run.polys + [(name, P)], total, total > cap))
  }

  /** The second loop of `svg_to_polylines` after visiting the first `k`
      candidates, whose loop bodies gave `ts`. */
  function Emit(cs: seq<Cand>, ts: seq<Result<Option<seq<Px>>>>, cap: int, k: nat): (r: Result<Run>)
    requires k <= |cs| == |ts|
  {
    if k == 0 then Ok(Run([], 0, false))
    else
      match Emit(cs, ts, cap, k - 1)
      case Err(e) => Err(e)
      case Ok(run) =>
        if run.stopped then Ok(run)
        else EmitStep(run, PathName(cs[k - 1].index), ts[k - 1], cap)
  }

  /** One more candidate after a run that has not stopped. */
  lemma EmitNext(cs: seq<Cand>, ts: seq<Result<Option<seq<Px>>>>, cap: int, k: nat, run: Run, t: Result<Option<seq<Px>>>)
    requires k < |cs| == |ts| && Emit(cs, ts, cap, k) == Ok(run) && !run.stopped && ts[k] == t
    ensures t.Err? ==> Emit(cs, ts, cap, k + 1) == Err(t.error)
    ensures t == Ok(None) ==> Emit(cs, ts, cap, k + 1) == Ok(run)
    ensures t.Ok? && t.value.Some? ==>
      Emit(cs, ts, cap, k + 1)
      == Ok(Run(run.polys + [(PathName(cs[k].index), t.value.value)], run.total + |t.value.value|, run.total + |t.value.value| > cap))
  {
    assert Emit(cs, ts, cap, k + 1) == EmitStep(run, PathName(cs[k].index), t, cap);
  }

  /** Once the loop has broken out or raised, later candidates change nothing. */
  lemma {:induction false} EmitSettled(cs: seq<Cand>, ts: seq<Result<Option<seq<Px>>>>, cap: int, k: nat, m: nat)
    requires k <= m <= |cs| == |ts|
    requires Emit(cs, ts, cap, k).Err? || Emit(cs, ts, cap, k).value.stopped
    ensures Emit(cs, ts, cap, m) == Emit(cs, ts, cap, k)
    decreases m
  {
    if m > k {
      EmitSettled(cs, ts, cap, k, m - 1);
    }
  }

  function TotalPoints(polys: seq<(string, seq<Px>)>): nat {
    if polys == [] then 0 else TotalPoints(polys[..|polys| - 1]) + |polys[|polys| - 1].1|
  }

  /**
   * `total_pts` counts the emitted points; the loop has stopped exactly when
   * some polyline was emitted and the count exceeds the cap; so every
   * polyline but the last was emitted while the count was within the cap.
   */
  lemma {:induction false} EmitCap(cs: seq<Cand>, ts: seq<Result<Option<seq<Px>>>>, cap: int, k: nat)
    requires k <= |cs| == |ts|
    ensures Emit(cs, ts, cap, k).Ok? ==> CapKept(Emit(cs, ts, cap, k).value, cap)
  {
    if k > 0 {
      EmitCap(cs, ts, cap, k - 1);
      var prev := Emit(cs, ts, cap, k - 1);
      if prev.Ok? && !prev.value.stopped {
        var t := ts[k - 1];
        EmitNext(cs, ts, cap, k - 1, prev.value, t);
        if t.Ok? && t.value.Some? {
          EmitStepCap(prev.value, PathName(cs[k - 1].index), t.value.value, cap);
        }
      } else {
        assert Emit(cs, ts, cap, k) == prev;
      }
    } else {
      assert Emit(cs, ts, cap, 0) == Ok(Run([], 0, false));
    }
  }

  /** The facts `EmitCap` keeps about a run. */
  predicate CapKept(run: Run, cap: int) {
    && run.total == TotalPoints(run.polys)
    && (run.stopped <==> run.polys != [] && run.total > cap)
    && (|run.polys| >= 2 ==> TotalPoints(run.polys[..|run.polys| - 1]) <= cap)
  }

  lemma EmitStepCap(run: Run, name: string, P: seq<Px>, cap: int)
    requires CapKept(run, cap) && !run.stopped
    ensures CapKept(Run(run.polys + [(name, P)], run.total + |P|, run.total + |P| > cap), cap)
  {
    var polys := run.polys + [(name, P)];
    assert polys[..|polys| - 1] == run.polys;
    assert TotalPoints(polys) == run.total + |P|;
  }

  /** What `TracedShape` proves of one loop body's result. */
  ghost predicate Shaped(t: Result<Option<seq<Px>>>, o: Options) {
    t.Ok? && t.value.Some? ==>
      var P := t.value.value;
      && |P| > 0
      && (o.quantum > 0.0 ==> forall j :: 0 <= j < |P| ==> OnGrid(P[j].x, o.quantum) && OnGrid(P[j].y, o.quantum))
  }

  /** An emitted `(name, P)`: `P` non-empty and on the quantum grid when that is positive, the name that of one of the first `k` candidates. */
  ghost predicate EmittedFrom(e: (string, seq<Px>), cs: seq<Cand>, k: nat, o: Options)
    requires k <= |cs|
  {
    && |e.1| > 0
    && (exists m :: 0 <= m < k && e.0 == PathName(cs[m].index))
    && (o.quantum > 0.0 ==> forall q :: 0 <= q < |e.1| ==> OnGrid(e.1[q].x, o.quantum) && OnGrid(e.1[q].y, o.quantum))
  }

  /** Every emitted polyline is non-empty, named after a visited candidate, and on the quantum grid when that is positive. */
  lemma {:induction false} EmitShape(cs: seq<Cand>, ts: seq<Result<Option<seq<Px>>>>, o: Options, k: nat)
    requires k <= |cs| == |ts|
    requires forall i :: 0 <= i < |ts| ==> Shaped(ts[i], o)
    ensures Emit(cs, ts, o.cap, k).Ok? ==>
      forall j :: 0 <= j < |Emit(cs, ts, o.cap, k).value.polys| ==>
        EmittedFrom(Emit(cs, ts, o.cap, k).value.polys[j], cs, k, o)
  {
    if k > 0 {
      EmitShape(cs, ts, o, k - 1);
      var prev := Emit(cs, ts, o.cap, k - 1);
      if prev.Ok? {
        forall j | 0 <= j < |prev.value.polys|
          ensures EmittedFrom(prev.value.polys[j], cs, k, o)
        {
          assert EmittedFrom(prev.value.polys[j], cs, k - 1, o);
          var m :| 0 <= m < k - 1 && prev.value.polys[j].0 == PathName(cs[m].index);
        }
        if !prev.value.stopped {
          var t := ts[k - 1];
          if t.Ok? && t.value.Some? {
            assert Shaped(t, o);
            var polys := prev.value.polys + [(PathName(cs[k - 1].index), t.value.value)];
            assert EmittedFrom(polys[|polys| - 1], cs, k, o);
            forall j | 0 <= j < |polys|
              ensures EmittedFrom(polys[j], cs, k, o)
            {
              if j < |prev.value.polys| {
                assert polys[j] == prev.value.polys[j];
              }
            }
          }
        }
      }
    }
  }

  /** The candidates the second loop visits: admitted paths, longest first, cut to `max_paths`. */
  function Selected(paths: seq<SvgPath>, o: Options): seq<Cand> {
    Head(SortByLength(Candidates(paths, o, |paths|)), o.maxPaths)
  }

  /** `svg_to_polylines` on the parsed SVG: the `(f"path{i}", P)` list, or the error `rdp` raised. */
  function Polylines(h: Host, paths: seq<SvgPath>, sample: Sampler, o: Options): Result<seq<(string, seq<Px>)>>
    requires NormPositive(h)
  {
    var cs := Selected(paths, o);
    EmitPolys(cs, Traces(h, cs, sample, o), o.cap)
  }

  /** The polylines of the finished loop, or the error it raised. */
  function EmitPolys(cs: seq<Cand>, ts: seq<Result<Option<seq<Px>>>>, cap: int): Result<seq<(string, seq<Px>)>>
    requires |cs| == |ts|
  {
    match Emit(cs, ts, cap, |cs|)
    case Err(e) => Err(e)
    case Ok(run) => Ok(run.polys)
  }

  /** The candidates visited are admitted paths, longest first with ties in SVG order, and at most `max_paths` of them when that is non-negative. */
  lemma SelectedSorted(paths: seq<SvgPath>, o: Options)
    ensures var cs := Selected(paths, o);
      && SortedByLength(cs)
      && (forall k :: 0 <= k < |cs| ==> cs[k].index < |paths| && Admitted(paths[cs[k].index], o)
                                        && cs[k].length == paths[cs[k].index].length)
      && (o.maxPaths >= 0 ==> |cs| <= o.maxPaths)
  {
    var all := Candidates(paths, o, |paths|);
    CandidatesExact(paths, o, |paths|);
    SortByLengthSorted(all);
    var sorted := SortByLength(all);
    var cs := Selected(paths, o);
    assert forall k :: 0 <= k < |cs| ==> cs[k] == sorted[k];
    forall k | 0 <= k < |cs|
      ensures cs[k].index < |paths| && Admitted(paths[cs[k].index], o) && cs[k].length == paths[cs[k].index].length
    {
      assert sorted[k] in multiset(all);
    }
  }

  /** When `max_paths` is at least the number of paths, every admitted path is visited. */
  lemma SelectedComplete(paths: seq<SvgPath>, o: Options)
    requires o.maxPaths >= |paths|
    ensures var cs := Selected(paths, o);
      forall i :: 0 <= i < |paths| && Admitted(paths[i], o) ==> exists k :: 0 <= k < |cs| && cs[k].index == i
  {
    var all := Candidates(paths, o, |paths|);
    CandidatesExact(paths, o, |paths|);
    NoCut(paths, o);
    var cs := Selected(paths, o);
    forall i | 0 <= i < |paths| && Admitted(paths[i], o)
      ensures exists k :: 0 <= k < |cs| && cs[k].index == i
    {
      var m :| 0 <= m < |all| && all[m].index == i;
      SortedHas(all, m);
    }
  }

  lemma NoCut(paths: seq<SvgPath>, o: Options)
    requires o.maxPaths >= |paths|
    ensures Selected(paths, o) == SortByLength(Candidates(paths, o, |paths|))
  {
    var all := Candidates(paths, o, |paths|);
    CandidatesShort(paths, o, |paths|);
    var sorted := SortByLength(all);
    assert |sorted| == |multiset(sorted)| == |multiset(all)| == |all|;
  }

  lemma SortedHas(all: seq<Cand>, m: nat)
    requires m < |all|
    ensures exists k :: 0 <= k < |SortByLength(all)| && SortByLength(all)[k] == all[m]
  {
    assert all[m] in multiset(SortByLength(all));
  }

  lemma {:induction false} CandidatesShort(paths: seq<SvgPath>, o: Options, n: nat)
    requires n <= |paths|
    ensures |Candidates(paths, o, n)| <= n
  {
    if n > 0 {
      CandidatesShort(paths, o, n - 1);
    }
  }

  /** The polylines returned: each non-empty and named after a selected path, on the quantum grid, and all but the last within the point cap. */
  lemma PolylinesSpec(h: Host, paths: seq<SvgPath>, sample: Sampler, o: Options)
    requires NormPositive(h)
    ensures var r := Polylines(h, paths, sample, o);
      r.Ok? ==>
        && (|r.value| >= 2 ==> TotalPoints(r.value[..|r.value| - 1]) <= o.cap)
        && forall j :: 0 <= j < |r.value| ==>
             EmittedFrom(r.value[j], Selected(paths, o), |Selected(paths, o)|, o)
  {
    var cs := Selected(paths, o);
    var ts := Traces(h, cs, sample, o);
    forall i | 0 <= i < |ts| ensures Shaped(ts[i], o) {
      TracedShape(h, cs[i], sample, o);
    }
    EmitCap(cs, ts, o.cap, |cs|);
    EmitShape(cs, ts, o, |cs|);
  }

  /** The first loop of `svg_to_polylines`: keep the paths whose box and length pass. */
  method CollectCandidates(paths: seq<SvgPath>, o: Options) returns (cand: seq<Cand>)
    ensures cand == Candidates(paths, o, |paths|)
  {
    cand := [];
    for i := 0 to |paths|
      invariant cand == Candidates(paths, o, i)
    {
      var p := paths[i];
      if p.bbox.None? {
        continue;
      }
      var b := p.bbox.value;
      var area := Max(0.0, b.xmax - b.xmin) * Max(0.0, b.ymax - b.ymin);
      if area < o.minArea {
        continue;
      }
      if p.length < o.minLen {
        continue;
      }
      cand := cand + [Cand(i, p.length)];
    }
  }

  /** The body of the second loop for one candidate, with the sampling, de-dup, `rdp` and quantisation steps in order. */
  method TraceOne(h: Host, c: Cand, sample: Sampler, o: Options) returns (r: Result<Option<seq<Px>>>)
    requires NormPositive(h)
    ensures r == Traced(h, c, sample, o)
  {
    var raw := sample(c.index, SampleCount(c.length, o.step));
    if raw.None? {
      return Ok(None);
    }
    var P := Dedup(h, raw.value);
    if P.Err? || |P.value| == 0 {
      return Ok(None);
    }
    var Q := Rdp(h, P.value, o.eps);
    if Q.Err? {
      return Err(Q.error);
    }
    if |Q.value| == 0 {
      return Ok(None);
    }
    var pts := Q.value;
    if o.quantum > 0.0 {
      pts := Quantise(pts, o.quantum);
    }
    r := Ok(Some(pts));
  }

  /** `svg_to_polylines` after `svg2paths2`: filter, sort, cut, then trace each candidate until the point cap is passed. */
  method SvgToPolylines(h: Host, paths: seq<SvgPath>, sample: Sampler, o: Options)
    returns (r: Result<seq<(string, seq<Px>)>>)
    requires NormPositive(h)
    ensures r == Polylines(h, paths, sample, o)
  {
    var cand := CollectCandidates(paths, o);
    cand := Head(SortByLength(cand), o.maxPaths);
    assert cand == Selected(paths, o);
    r := TraceCandidates(h, cand, sample, o);
  }

  /** The second loop of `svg_to_polylines`: trace each candidate in turn until the point cap is passed. */
  method TraceCandidates(h: Host, cand: seq<Cand>, sample: Sampler, o: Options)
    returns (r: Result<seq<(string, seq<Px>)>>)
    requires NormPositive(h)
    ensures r == EmitPolys(cand, Traces(h, cand, sample, o), o.cap)
  {
    ghost var ts := Traces(h, cand, sample, o);
    var total := 0;
    var polys: seq<(string, seq<Px>)> := [];
    for k := 0 to |cand|
      invariant Emit(cand, ts, o.cap, k) == Ok(Run(polys, total, false))
    {
      var t := TraceOne(h, cand[k], sample, o);
      EmitNext(cand, ts, o.cap, k, Run(polys, total, false), t);
      if t.Err? {
        EmitSettled(cand, ts, o.cap, k + 1, |cand|);
        return Err(t.error);
      }
      if t.value.None? {
        continue;
      }
      var pts := t.value.value;
      polys := polys + [(PathName(cand[k].index), pts)];
      total := total + |pts|;
      if total > o.cap {
        EmitSettled(cand, ts, o.cap, k + 1, |cand|);
        return Ok(polys);
      }
    }
    r := Ok(polys);
  }

  // ------------------------------------------------------------ make_affine

  /** `A = [[a00, a01], [a10, a11]]` and `t = [t0, t1]`: scene = A · pixel + t. */
  datatype Affine = Affine(a00: real, a01: real, a10: real, a11: real, t0: real, t1: real)

  function Apply(m: Affine, p: Px): Px {
    Px(m.a00 * p.x + m.a01 * p.y + m.t0, m.a10 * p.x + m.a11 * p.y + m.t1)
  }

  /** `make_affine(frame_w, frame_h, W, H, rotate)`; `rotate` is accepted and ignored; a zero size divides by zero. */
  function MakeAffine(frameW: real, frameH: real, W: int, H: int, rotate: bool): (r: Result<Affine>)
    ensures r.Ok? <==> W != 0 && H != 0
    ensures r.Err? ==> r.error == ZeroDivisionError
    ensures r.Ok? ==> r.value == Affine(frameW / W as real, 0.0, 0.0, -(frameH / H as real), -frameW / 2.0, frameH / 2.0)
  {
    if W == 0 || H == 0 then Err(ZeroDivisionError)
    else Ok(Affine(frameW / W as real, 0.0, 0.0, -(frameH / H as real), -frameW / 2.0, frameH / 2.0))
  }

  /** The map sends the pixel frame onto the scene frame: the top-left pixel corner to the top-left of the
      frame, the bottom-right to the bottom-right (pixel y grows downward, scene y upward); `rotate` changes nothing. */
  lemma MakeAffineCorners(frameW: real, frameH: real, W: int, H: int, rotate: bool)
    requires W != 0 && H != 0
    ensures var m := MakeAffine(frameW, frameH, W, H, rotate).value;
      && Apply(m, Px(0.0, 0.0)) == Px(-frameW / 2.0, frameH / 2.0)
      && Apply(m, Px(W as real, H as real)) == Px(frameW / 2.0, -frameH / 2.0)
      && MakeAffine(frameW, frameH, W, H, !rotate) == MakeAffine(frameW, frameH, W, H, rotate)
  {
    var m := MakeAffine(frameW, frameH, W, H, rotate).value;
    assert (frameW / W as real) * W as real == frameW;
    assert (frameH / H as real) * H as real == frameH;
  }

  // ---------------------------------------------------- _svg_size_from_attr

  /** `float(p)` for every field of a split viewBox; `None` where one raises. */
  function ParseAll(h: Host, parts: seq<string>): (r: Option<seq<real>>)
    ensures r.Some? ==> |r.value| == |parts| && forall k :: 0 <= k < |parts| ==> h.parseFloat(parts[k]) == Some(r.value[k])
    ensures r.None? ==> exists k :: 0 <= k < |parts| && h.parseFloat(parts[k]).None?
  {
    if parts == [] then Some([])
    else
      match h.parseFloat(parts[0])
      case None => None
      case Some(x) =>
        match ParseAll(h, parts[1..])
        case None => None
        case Some(xs) => Some([x] + xs)
  }

  /** The `(w, h)` a truthy `viewBox` string gives: its fields split on commas and whitespace, exactly four, all numbers. */
  function ViewBoxSize(h: Host, attr: Value): Option<(real, real)> {
    if !attr.Dict? then None
    else
      match Lookup(attr.entries, "viewBox")
      case Some(Str(vb)) =>
        if vb == [] then None
        else
          var parts := Split(ReplaceAll(vb, ",", " "));
          if |parts| != 4 then None
          else
            (match ParseAll(h, parts)
             case None => None
             case Some(xs) => Some((xs[2], xs[3])))
      case _ => None
  }

  /** `float(svg_attr.get(key, 0))`, with 0 where `svg_attr` is not a dict or `float` raises; then `x or None`. */
  function Dimension(h: Host, attr: Value, key: string): (r: Option<real>)
    ensures r != Some(0.0)
  {
    var x := if attr.Dict? then
               (match ToFloat(h, GetOr(attr.entries, key, Num(0.0)))
                case Ok(v) => v
                case Err(_) => 0.0)
             else 0.0;
    if x == 0.0 then None else Some(x)
  }

  /** `_svg_size_from_attr(svg_attr)`. */
  function SvgSize(h: Host, attr: Value): (r: (Option<real>, Option<real>)) {
    match ViewBoxSize(h, attr)
    case Some((w, ht)) => (Some(w), Some(ht))
    case None => (Dimension(h, attr, "width"), Dimension(h, attr, "height"))
  }

  /** A viewBox string of exactly four numbers, separated by commas or whitespace, gives its last two as the size. */
  lemma SvgSizeViewBox(h: Host, entries: Entries, vb: string, xs: seq<real>)
    requires Lookup(entries, "viewBox") == Some(Str(vb))
    requires |xs| == 4 && |Split(ReplaceAll(vb, ",", " "))| == 4
    requires forall k :: 0 <= k < 4 ==> h.parseFloat(Split(ReplaceAll(vb, ",", " "))[k]) == Some(xs[k])
    ensures SvgSize(h, Dict(entries)) == (Some(xs[2]), Some(xs[3]))
  {
    var parts := Split(ReplaceAll(vb, ",", " "));
    assert vb != [] by {
      assert Split(ReplaceAll([], ",", " ")) == [];
    }
    ParseAllOf(h, parts, xs);
    assert ViewBoxSize(h, Dict(entries)) == Some((xs[2], xs[3]));
  }

  lemma ParseAllOf(h: Host, parts: seq<string>, xs: seq<real>)
    requires |xs| == |parts| && forall k :: 0 <= k < |parts| ==> h.parseFloat(parts[k]) == Some(xs[k])
    ensures ParseAll(h, parts) == Some(xs)
  {
    var r := ParseAll(h, parts);
    assert r.Some?;
    assert r.value == xs;
  }

  /** Without a usable viewBox, each side is the numeric `width` / `height` attribute, and `None` when it is
      missing, zero, or not a number. */
  lemma SvgSizeFallback(h: Host, attr: Value)
    requires ViewBoxSize(h, attr).None?
    ensures var r := SvgSize(h, attr);
      && (r.0.Some? <==> attr.Dict? && HasKey(attr.entries, "width") && ToFloat(h, GetOr(attr.entries, "width", Num(0.0))).Ok?
                         && ToFloat(h, GetOr(attr.entries, "width", Num(0.0))).value != 0.0)
      && (r.0.Some? ==> r.0 == Some(ToFloat(h, GetOr(attr.entries, "width", Num(0.0))).value))
      && (r.1.Some? <==> attr.Dict? && HasKey(attr.entries, "height") && ToFloat(h, GetOr(attr.entries, "height", Num(0.0))).Ok?
                         && ToFloat(h, GetOr(attr.entries, "height", Num(0.0))).value != 0.0)
      && (r.1.Some? ==> r.1 == Some(ToFloat(h, GetOr(attr.entries, "height", Num(0.0))).value))
  {
    if attr.Dict? {
      LookupSpec(attr.entries, "width");
      LookupSpec(attr.entries, "height");
    }
  }

  // ----------------------------------------------------------- crop bbox

  function IMin(a: int, b: int): int { if a <= b then a else b }
  function IMax(a: int, b: int): int { if a >= b then a else b }

  /** The region `gray_full[y0:y1, x0:x1]` that is cropped, as pixel bounds. */
  datatype Crop = Crop(x0: int, y0: int, x1: int, y1: int)

  /** `x0, y0, w_or_x1, h_or_y1` after the conversions: all zero when one `float()` raises. */
  function CropFields(h: Host, items: seq<Value>): (r: (int, int, real, real))
    requires |items| == 4
  {
    var a := ToFloat(h, items[0]);
    var b := ToFloat(h, items[1]);
    var c := ToFloat(h, items[2]);
    var d := ToFloat(h, items[3]);
    if a.Ok? && b.Ok? && c.Ok? && d.Ok? then
      (RoundHalfEven(a.value), RoundHalfEven(b.value), c.value, d.value)
    else (0, 0, 0.0, 0.0)
  }

  /** The third and fourth values read as the far corner: positive, inside the image, beyond the first corner. */
  predicate CornerForm(x0: int, y0: int, wx: real, hy: real, Wf: nat, Hf: nat) {
    wx > 0.0 && hy > 0.0 && wx <= Wf as real && hy <= Hf as real && wx > x0 as real && hy > y0 as real
  }

  /**
   * The crop `build_anchor_item` takes from `crop_bbox` on a `Wf` × `Hf`
   * image: `[x0, y0, x1, y1]` when the last two fit as a far corner, else
   * `[x, y, w, h]`; the origin is clamped into the image, the far side to
   * its edge, and an empty region means no crop.
   */
  function CropRegion(h: Host, crop: Value, Wf: nat, Hf: nat): (r: Option<Crop>)
    ensures r.Some? ==> 0 <= r.value.x0 < r.value.x1 <= Wf && 0 <= r.value.y0 < r.value.y1 <= Hf
  {
    if !crop.List? || |crop.items| != 4 then None
    else
      var (x0, y0, wx, hy) := CropFields(h, crop.items);
      var w := if CornerForm(x0, y0, wx, hy, Wf, Hf) then RoundHalfEven(wx) - x0 else RoundHalfEven(wx);
      var ht := if CornerForm(x0, y0, wx, hy, Wf, Hf) then RoundHalfEven(hy) - y0 else RoundHalfEven(hy);
      if w > 0 && ht > 0 then
        var cx0 := IMax(0, IMin(x0, Wf - 1));
        var cy0 := IMax(0, IMin(y0, Hf - 1));
        var cx1 := IMax(0, IMin(cx0 + w, Wf));
        var cy1 := IMax(0, IMin(cy0 + ht, Hf));
        if cx1 > cx0 && cy1 > cy0 then Some(Crop(cx0, cy0, cx1, cy1)) else None
      else None
  }

  /** Four whole numbers forming corners inside the image crop exactly that rectangle. */
  lemma CropCorners(h: Host, x0: int, y0: int, x1: int, y1: int, Wf: nat, Hf: nat)
    requires 0 <= x0 < x1 <= Wf && 0 <= y0 < y1 <= Hf
    ensures CropRegion(h, List([Num(x0 as real), Num(y0 as real), Num(x1 as real), Num(y1 as real)]), Wf, Hf)
            == Some(Crop(x0, y0, x1, y1))
  {
    RoundWhole(x0);
    RoundWhole(y0);
    RoundWhole(x1);
    RoundWhole(y1);
  }

  /** An `[x, y, w, h]` box whose width and height do not exceed its origin (so it cannot be read as corners)
      and that fits in the image crops `x .. x+w`, `y .. y+h`. */
  lemma CropSizes(h: Host, x: int, y: int, w: int, ht: int, Wf: nat, Hf: nat)
    requires 0 < w <= x && 0 < ht <= y && x + w <= Wf && y + ht <= Hf
    ensures CropRegion(h, List([Num(x as real), Num(y as real), Num(w as real), Num(ht as real)]), Wf, Hf)
            == Some(Crop(x, y, x + w, y + ht))
  {
    RoundWhole(x);
    RoundWhole(y);
    RoundWhole(w);
    RoundWhole(ht);
  }

  /** Anything but a four-element list or tuple crops nothing. */
  lemma CropIgnored(h: Host, crop: Value, Wf: nat, Hf: nat)
    requires !crop.List? || |crop.items| != 4
    ensures CropRegion(h, crop, Wf, Hf) == None
  {
  }

  lemma RoundWhole(n: int)
    ensures RoundHalfEven(n as real) == n
  {
    assert (n as real).Floor == n;
  }

  // ------------------------------------------------------- edges and hints

  /** `np.round(v, 2)`: to two decimals, ties to even. */
  function Round2(v: real): real {
    RoundHalfEven(v * 100.0) as real / 100.0
  }

  function RoundPx(p: Px): Px {
    Px(Round2(p.x), Round2(p.y))
  }

  /** An anchor edge; every edge carries `"conf": 0.90`. */
  datatype Edge =
    | Segment(id: string, p1: Px, p2: Px)        // "kind": "segment_px"
    | Polyline(id: string, pts: seq<Px>)         // "kind": "polyline_px"

  const EdgeConf: real := 0.90

  /** Short polylines (at most 6 points) whose ends are more than 10 px apart are straight segments. */
  predicate IsSegment(h: Host, P: seq<Px>)
    requires |P| > 0
  {
    |P| <= 6 && Norm(h, Minus(P[0], P[|P| - 1])) > 10.0
  }

  function EdgeOf(h: Host, id: string, P: seq<Px>): (e: Edge)
    requires |P| > 0
    ensures e.id == id
    ensures e.Segment? <==> IsSegment(h, P)
    ensures e.Segment? ==> e.p1 == RoundPx(P[0]) && e.p2 == RoundPx(P[|P| - 1])
    ensures e.Polyline? ==> |e.pts| == |P| && forall j :: 0 <= j < |P| ==> e.pts[j] == RoundPx(P[j])
  {
    if IsSegment(h, P) then Segment(id, RoundPx(P[0]), RoundPx(P[|P| - 1]))
    else Polyline(id, seq(|P|, j requires 0 <= j < |P| => RoundPx(P[j])))
  }

  /** The `edges` loop: one edge per polyline, in order, classified and rounded. */
  method BuildEdges(h: Host, polys: seq<(string, seq<Px>)>) returns (edges: seq<Edge>)
    requires forall k :: 0 <= k < |polys| ==> |polys[k].1| > 0
    ensures |edges| == |polys|
    ensures forall k :: 0 <= k < |polys| ==> edges[k] == EdgeOf(h, polys[k].0, polys[k].1)
  {
    edges := [];
    for k := 0 to |polys|
      invariant |edges| == k
      invariant forall j :: 0 <= j < k ==> edges[j] == EdgeOf(h, polys[j].0, polys[j].1)
    {
      var (pid, P) := polys[k];
      if |P| <= 6 && Norm(h, Minus(P[0], P[|P| - 1])) > 10.0 {
        edges := edges + [Segment(pid, RoundPx(P[0]), RoundPx(P[|P| - 1]))];
      } else {
        edges := edges + [Polyline(pid, seq(|P|, j requires 0 <= j < |P| => RoundPx(P[j])))];
      }
    }
  }

  /** An axis hint from the line detector: `{"id", "line_px": [[x1, y1], [x2, y2]], "conf"}`. */
  datatype AxisHint = AxisHint(id: string, p1: Px, p2: Px, conf: real)

  /** A pixel of the raster in SVG units, to two decimals. */
  function ScalePx(p: Px, sx: real, sy: real): Px {
    Px(Round2(p.x * sx), Round2(p.y * sy))
  }

  /** The hint loop: each line rescaled into SVG units, everything else about the hint unchanged. */
  method ScaleHints(hints: seq<AxisHint>, sx: real, sy: real) returns (r: seq<AxisHint>)
    ensures |r| == |hints|
    ensures forall k :: 0 <= k < |hints| ==>
      r[k] == hints[k].(p1 := ScalePx(hints[k].p1, sx, sy), p2 := ScalePx(hints[k].p2, sx, sy))
  {
    r := [];
    for k := 0 to |hints|
      invariant |r| == k
      invariant forall j :: 0 <= j < k ==>
        r[j] == hints[j].(p1 := ScalePx(hints[j].p1, sx, sy), p2 := ScalePx(hints[j].p2, sx, sy))
    {
      var hint := hints[k];
      r := r + [hint.(p1 := ScalePx(hint.p1, sx, sy), p2 := ScalePx(hint.p2, sx, sy))];
    }
  }

  /** `sx = (W_svg / W_ras) if (W_svg and W_ras) else 1.0`. */
  function SvgScale(svg: Option<real>, raster: nat): (s: real)
    ensures svg.Some? && svg.value != 0.0 && raster != 0 ==> s * raster as real == svg.value
    ensures !(svg.Some? && svg.value != 0.0 && raster != 0) ==> s == 1.0
  {
    if svg.Some? && svg.value != 0.0 && raster != 0 then svg.value / raster as real else 1.0
  }

  /** `use_W = int(W_svg) if W_svg else W`. */
  function UseSize(svg: Option<real>, raster: nat): (n: int)
    ensures svg.Some? && svg.value != 0.0 ==> n == Trunc(svg.value)
    ensures !(svg.Some? && svg.value != 0.0) ==> n == raster
  {
    if svg.Some? && svg.value != 0.0 then Trunc(svg.value) else raster
  }

  // ------------------------------------------------------ build_anchor_item

  /** The item `build_anchor_item` returns ("category": "Picture", "type": "raster_with_anchors"). */
  datatype AnchorItem = AnchorItem(
    fromCrop: bool,               // "image.uri" names the cropped PNG rather than the input
    sizePx: (int, int),
    dpi: int,
    pxToManim: Affine,
    edges: seq<Edge>,
    axesHints: seq<AxisHint>)

  /**
   * `build_anchor_item` once the raster is read (`Wf` × `Hf`, or `None`
   * when `imread` fails) and the vectoriser and line detector have run on
   * the (possibly cropped) raster: they supply the polylines, the SVG
   * attributes and the hints.
   */
  method BuildAnchorItem(h: Host, image: string, raster: Option<(nat, nat)>, crop: Value,
                         polylines: seq<(string, seq<Px>)>, svgAttr: Value, hints: seq<AxisHint>,
                         frameW: real, frameH: real, dpi: int)
    returns (r: Result<AnchorItem>)
    requires forall k :: 0 <= k < |polylines| ==> |polylines[k].1| > 0
    ensures raster.None? ==> r == Err(RuntimeError("Failed to read image: " + image))
    ensures raster.Some? ==>
      var (Wf, Hf) := raster.value;
      var region := CropRegion(h, crop, Wf, Hf);
      var W := if region.Some? then region.value.x1 - region.value.x0 else Wf;
      var H := if region.Some? then region.value.y1 - region.value.y0 else Hf;
      var (wSvg, hSvg) := SvgSize(h, svgAttr);
      var useW := UseSize(wSvg, W);
      var useH := UseSize(hSvg, H);
      && (r.Ok? <==> useW != 0 && useH != 0)
      && (r.Err? ==> r.error == ZeroDivisionError)
      && (r.Ok? ==>
          && r.value.fromCrop == region.Some?
          && r.value.sizePx == (useW, useH)
          && r.value.dpi == dpi
          && MakeAffine(frameW, frameH, useW, useH, false) == Ok(r.value.pxToManim)
          && |r.value.edges| == |polylines|
          && (forall k :: 0 <= k < |polylines| ==> r.value.edges[k] == EdgeOf(h, polylines[k].0, polylines[k].1))
          && |r.value.axesHints| == |hints|
          && (forall k :: 0 <= k < |hints| ==>
                r.value.axesHints[k] == hints[k].(p1 := ScalePx(hints[k].p1, SvgScale(wSvg, W), SvgScale(hSvg, H)),
                                                  p2 := ScalePx(hints[k].p2, SvgScale(wSvg, W), SvgScale(hSvg, H)))))
  {
    if raster.None? {
      return Err(RuntimeError("Failed to read image: " + image));
    }
    var (Wf, Hf) := raster.value;
    var W, H := Wf, Hf;
    var region := CropRegion(h, crop, Wf, Hf);
    if region.Some? {
      W, H := region.value.x1 - region.value.x0, region.value.y1 - region.value.y0;
    }
    var (wSvg, hSvg) := SvgSize(h, svgAttr);
    var sx := SvgScale(wSvg, W);
    var sy := SvgScale(hSvg, H);
    var scaled := ScaleHints(hints, sx, sy);
    var useW := UseSize(wSvg, W);
    var useH := UseSize(hSvg, H);
    var affine := MakeAffine(frameW, frameH, useW, useH, false);
    if affine.Err? {
      return Err(affine.error);
    }
    var edges := BuildEdges(h, polylines);
    r := Ok(AnchorItem(region.Some?, (useW, useH), dpi, affine.value, edges, scaled));
  }
}
