/**
 * The ray animation: rays from transmitters to receivers over a scene
 * image. Rays are activated on a staggered schedule; an active ray grows
 * along its path, then sends four particles along it one after another,
 * then disappears and is scheduled to start again two seconds later.
 * Coordinates, fractions and time are exact reals here; `math.hypot` is
 * an input of the model.
 */
module RaysAnimated {
  import opened Common

  type Point = (real, real)

  /** `math.hypot(dx, dy)`, the length of a segment. */
  type Hypot = (real, real) -> real

  // ================================================================ the scene

  const Transmitters: seq<Point> := [(0.872, 0.85)]
  const Receivers: seq<Point> := [(0.25, 0.6), (0.53, 0.15), (0.9, 0.3)]

  /** The rays of the nested loop of `load_scene`: one `[tx, rx]` per pair, transmitter by transmitter. */
  function RayPaths(txs: seq<Point>, rxs: seq<Point>): (r: seq<seq<Point>>)
    ensures |r| == |txs| * |rxs|
    decreases |txs|
  {
    if |txs| == 0 then []
    else
      var rest := RayPaths(txs[..|txs| - 1], rxs);
      assert |txs| * |rxs| == (|txs| - 1) * |rxs| + |rxs|;
      rest + seq(|rxs|, j requires 0 <= j < |rxs| => [txs[|txs| - 1], rxs[j]])
  }

  /** Ray `i * len(rxs) + j` goes from transmitter `i` straight to receiver `j`. */
  lemma {:induction false} RayPathsAt(txs: seq<Point>, rxs: seq<Point>, i: nat, j: nat)
    requires i < |txs| && j < |rxs|
    ensures i * |rxs| + j < |RayPaths(txs, rxs)|
    ensures RayPaths(txs, rxs)[i * |rxs| + j] == [txs[i], rxs[j]]
    decreases |txs|
  {
    var n := |txs| - 1;
    assert |RayPaths(txs, rxs)| == n * |rxs| + |rxs| by {
      assert |txs| * |rxs| == n * |rxs| + |rxs|;
    }
    if i < n {
      var init := txs[..n];
      assert init[i] == txs[i];
      RayPathsAt(init, rxs, i, j);
      assert i * |rxs| + j < n * |rxs| by {
        assert n * |rxs| == i * |rxs| + (n - i) * |rxs|;
        assert (n - i) * |rxs| >= |rxs| by { MulAtLeast(n - i, |rxs|); }
      }
    }
  }

  /** `load_scene`: the demo transmitters and receivers and the rays between them. */
  method LoadScene() returns (txs: seq<Point>, rxs: seq<Point>, rayPaths: seq<seq<Point>>)
    ensures txs == Transmitters && rxs == Receivers
    ensures rayPaths == RayPaths(txs, rxs)
  {
    txs, rxs := Transmitters, Receivers;
    rayPaths := [];
    var i := 0;
    while i < |txs|
      invariant 0 <= i <= |txs|
      invariant rayPaths == RayPaths(txs[..i], rxs)
    {
      var tx := txs[i];
      ghost var before := rayPaths;
      var j := 0;
      while j < |rxs|
        invariant 0 <= j <= |rxs|
        invariant rayPaths == before + seq(j, k requires 0 <= k < j => [tx, rxs[k]])
      {
        var pts := [tx];
        pts := pts + [rxs[j]];
        assert pts == [tx, rxs[j]];
        rayPaths := rayPaths + [pts];
        assert seq(j + 1, k requires 0 <= k < j + 1 => [tx, rxs[k]])
            == seq(j, k requires 0 <= k < j => [tx, rxs[k]]) + [[tx, rxs[j]]];
        j := j + 1;
      }
      assert txs[..i + 1][..i] == txs[..i] && txs[..i + 1][i] == tx;
      i := i + 1;
    }
    assert txs[..i] == txs;
  }

  // ================================================================ polyline helpers

  /** `1e-9`, the divisor used for a zero-length segment. */
  const NearZero: real := 0.000000001

  /** `1e-12`, the tolerance of `partial_polyline`. */
  const Tolerance: real := 0.000000000001

  /** The segment lengths of a polyline. */
  function SegLengths(points: seq<Point>, hypot: Hypot): (r: seq<real>)
    ensures |r| == if |points| == 0 then 0 else |points| - 1
  {
    seq(if |points| == 0 then 0 else |points| - 1,
        i requires 0 <= i < |points| - 1 => hypot(points[i + 1].0 - points[i].0, points[i + 1].1 - points[i].1))
  }

  /** `sum`: with exact reals the order of the additions does not matter. */
  function Sum(s: seq<real>): real
  {
    if |s| == 0 then 0.0 else s[0] + Sum(s[1..])
  }

  /** `polyline_lengths` */
  method PolylineLengths(points: seq<Point>, hypot: Hypot) returns (segLengths: seq<real>, total: real)
    ensures segLengths == SegLengths(points, hypot) && total == Sum(segLengths)
  {
    segLengths := [];
    var i := 0;
    while i < |points| - 1
      invariant 0 <= i && (|points| > 0 ==> i <= |points| - 1) && (|points| == 0 ==> i == 0)
      invariant segLengths == SegLengths(points, hypot)[..i]
    {
      var (x0, y0) := points[i];
      var (x1, y1) := points[i + 1];
      segLengths := segLengths + [hypot(x1 - x0, y1 - y0)];
      i := i + 1;
    }
    total := Sum(segLengths);
  }

  /** The point a fraction `f` of the way from `p0` to `p1`. */
  function Interpolate(p0: Point, p1: Point, f: real): Point
  {
    (p0.0 + f * (p1.0 - p0.0), p0.1 + f * (p1.1 - p0.1))
  }

  /** The scan of `point_along_polyline` from segment `i`, with `acc` the length before it. */
  function AlongFrom(points: seq<Point>, segs: seq<real>, target: real, acc: real, i: nat): Point
    requires |points| >= 1 && |segs| == |points| - 1 && i <= |segs|
    decreases |segs| - i
  {
    if i == |segs| then points[|points| - 1]
    else if acc + segs[i] >= target then
      Interpolate(points[i], points[i + 1], (target - acc) / (if segs[i] != 0.0 then segs[i] else NearZero))
    else AlongFrom(points, segs, target, acc + segs[i], i + 1)
  }

  /**
   * `point_along_polyline`: the point a fraction `t` of the total length
   * along the polyline; its ends for `t <= 0` and `t >= 1`.
   */
  function PointAlong(points: seq<Point>, t: real, hypot: Hypot): Point
    requires |points| >= 1
  {
    if t <= 0.0 then points[0]
    else if t >= 1.0 then points[|points| - 1]
    else
      var segs := SegLengths(points, hypot);
      AlongScaled(points, segs, Sum(segs), t)
  }

  /** The scan of `point_along_polyline` for the target `t * total`. */
  function AlongScaled(points: seq<Point>, segs: seq<real>, total: real, t: real): (r: Point)
    requires |points| >= 1 && |segs| == |points| - 1
  {
    AlongFrom(points, segs, t * total, 0.0, 0)
  }

  // Unfolding `AlongScaled` next to the facts about `Sum` leaves the solver
  // with nonlinear arithmetic it does not settle; this keeps the two apart.
  lemma {:induction false} AlongScaledTarget(points: seq<Point>, segs: seq<real>, total: real, t: real, target: real)
    requires |points| >= 1 && |segs| == |points| - 1 && target == t * total
    ensures AlongScaled(points, segs, total, t) == AlongFrom(points, segs, target, 0.0, 0)
  {
  }

  /** `point_along_polyline` */
  method PointAlongPolyline(points: seq<Point>, t: real, hypot: Hypot) returns (r: Point)
    requires |points| >= 1
    ensures r == PointAlong(points, t, hypot)
  {
    if t <= 0.0 {
      return points[0];
    }
    if t >= 1.0 {
      return points[|points| - 1];
    }
    var segLengths, total := PolylineLengths(points, hypot);
    var target := t * total;
    AlongScaledTarget(points, segLengths, total, t, target);
    r := ScanAlong(points, segLengths, target);
  }

  /** The loop of `point_along_polyline`, which returns from inside. */
  method ScanAlong(points: seq<Point>, segLengths: seq<real>, target: real) returns (r: Point)
    requires |points| >= 1 && |segLengths| == |points| - 1
    ensures r == AlongFrom(points, segLengths, target, 0.0, 0)
  {
    var acc := 0.0;
    var i := 0;
    while i < |segLengths|
      invariant 0 <= i <= |segLengths|
      invariant AlongFrom(points, segLengths, target, acc, i) == AlongFrom(points, segLengths, target, 0.0, 0)
    {
      var l := segLengths[i];
      if acc + l >= target {
        var frac := (target - acc) / (if l != 0.0 then l else NearZero);
        return Interpolate(points[i], points[i + 1], frac);
      }
      acc := acc + l;
      i := i + 1;
    }
    return points[|points| - 1];
  }

  /** The sum of the lengths from segment `i` on. */
  lemma {:induction false} SumSplit(s: seq<real>, i: nat)
    requires i < |s|
    ensures Sum(s[i..]) == s[i] + Sum(s[i + 1..])
  {
    assert s[i..][1..] == s[i + 1..];
  }

  /**
   * With segment lengths that are not negative, the scan stops inside a
   * segment of positive length once the target lies beyond `acc` and
   * within the remaining length: it returns a point a fraction `f` in
   * `(0, 1]` of the way along segment `k`.
   */
  lemma {:induction false} AlongOnSegment(points: seq<Point>, segs: seq<real>, target: real, acc: real, i: nat)
    returns (k: nat, f: real)
    requires |points| >= 1 && |segs| == |points| - 1 && i < |segs|
    requires forall j :: 0 <= j < |segs| ==> segs[j] >= 0.0
    requires acc < target <= acc + Sum(segs[i..])
    ensures i <= k < |segs| && 0.0 < f <= 1.0
    ensures AlongFrom(points, segs, target, acc, i) == Interpolate(points[k], points[k + 1], f)
    decreases |segs| - i
  {
    SumSplit(segs, i);
    if acc + segs[i] >= target {
      assert 0.0 < target - acc <= segs[i];
      k, f := i, (target - acc) / segs[i];
      assert f * segs[i] == target - acc;
    } else {
      assert Sum(segs[i + 1..]) > 0.0;
      assert i + 1 < |segs|;
      k, f := AlongOnSegment(points, segs, target, acc + segs[i], i + 1);
    }
  }

  /**
   * A particle strictly between the ends of a polyline of positive
   * length lies on one of its segments.
   */
  lemma {:induction false} PointOnSegment(points: seq<Point>, t: real, hypot: Hypot) returns (k: nat, f: real)
    requires |points| >= 1 && 0.0 < t < 1.0
    requires forall j :: 0 <= j < |points| - 1 ==> SegLengths(points, hypot)[j] >= 0.0
    requires Sum(SegLengths(points, hypot)) > 0.0
    ensures k < |points| - 1 && 0.0 < f <= 1.0
    ensures PointAlong(points, t, hypot) == Interpolate(points[k], points[k + 1], f)
  {
    var segs := SegLengths(points, hypot);
    var total := Sum(segs);
    assert segs[0..] == segs;
    assert PointAlong(points, t, hypot) == AlongScaled(points, segs, total, t);
    var target := t * total;
    assert 0.0 < target < total by {
      Positive(t, total);
      Positive(1.0 - t, total);
      assert total - t * total == (1.0 - t) * total;
    }
    k, f := AlongOnSegment(points, segs, target, 0.0, 0);
  }

  lemma {:induction false} Positive(a: real, b: real)
    requires a > 0.0 && b > 0.0
    ensures a * b > 0.0
  {
  }

  /** A polyline drawn as two coordinate lists. */
  datatype Path = Path(xs: seq<real>, ys: seq<real>)

  /** Every point of the polyline. */
  function FullPath(points: seq<Point>): (r: Path)
    ensures |r.xs| == |r.ys| == |points|
    ensures forall j :: 0 <= j < |points| ==> (r.xs[j], r.ys[j]) == points[j]
  {
    Path(seq(|points|, j requires 0 <= j < |points| => points[j].0),
         seq(|points|, j requires 0 <= j < |points| => points[j].1))
  }

  /** The points the scan of `partial_polyline` adds from segment `i` on, with `acc` the length before it. */
  function PartialFrom(points: seq<Point>, segs: seq<real>, target: real, acc: real, i: nat): Path
    requires |segs| == |points| - 1 && i <= |segs|
    decreases |segs| - i
  {
    if i == |segs| then Path([], [])
    else if acc + segs[i] < target - Tolerance then
      var rest := PartialFrom(points, segs, target, acc + segs[i], i + 1);
      Path([points[i + 1].0] + rest.xs, [points[i + 1].1] + rest.ys)
    else if segs[i] <= Tolerance then
      Path([points[i + 1].0], [points[i + 1].1])
    else
      var end := Interpolate(points[i], points[i + 1], (target - acc) / segs[i]);
      Path([end.0], [end.1])
  }

  /**
   * The scan from segment `i` adds at most one point per segment left,
   * and every point it adds but the last is a vertex of the polyline.
   */
  lemma {:induction false} PartialFromShape(points: seq<Point>, segs: seq<real>, target: real, acc: real, i: nat)
    requires |segs| == |points| - 1 && i <= |segs|
    ensures var r := PartialFrom(points, segs, target, acc, i);
            && |r.xs| == |r.ys| <= |segs| - i
            && forall j :: 0 <= j < |r.xs| - 1 ==> (r.xs[j], r.ys[j]) == points[i + 1 + j]
    decreases |segs| - i
  {
    if i < |segs| && acc + segs[i] < target - Tolerance {
      PartialFromShape(points, segs, target, acc + segs[i], i + 1);
    }
  }

  /** Before the cut, the scan keeps the segment's end point and goes on. */
  lemma {:induction false} PartialVertex(points: seq<Point>, segs: seq<real>, target: real, acc: real, i: nat)
    requires |segs| == |points| - 1 && i < |segs| && acc + segs[i] < target - Tolerance
    ensures var next := PartialFrom(points, segs, target, acc + segs[i], i + 1);
            PartialFrom(points, segs, target, acc, i) == Path([points[i + 1].0] + next.xs, [points[i + 1].1] + next.ys)
  {
  }

  /** At the cut, the scan ends with the segment's end point or the point at the cut. */
  lemma {:induction false} PartialCut(points: seq<Point>, segs: seq<real>, target: real, acc: real, i: nat)
    requires |segs| == |points| - 1 && i < |segs| && !(acc + segs[i] < target - Tolerance)
    ensures segs[i] <= Tolerance ==>
              PartialFrom(points, segs, target, acc, i) == Path([points[i + 1].0], [points[i + 1].1])
    ensures segs[i] > Tolerance ==>
              var end := Interpolate(points[i], points[i + 1], (target - acc) / segs[i]);
              PartialFrom(points, segs, target, acc, i) == Path([end.0], [end.1])
  {
  }

  /**
   * `partial_polyline`: the first point alone for `frac <= 0`, the whole
   * polyline for `frac >= 1`, and otherwise the polyline cut at a fraction
   * `frac` of its length: it starts at the first point, every point but
   * the last is a vertex, and it has at most as many points as the
   * polyline.
   */
  function PartialPolyline(points: seq<Point>, frac: real, hypot: Hypot): (r: Path)
    requires |points| >= 1 || frac >= 1.0
    ensures |r.xs| == |r.ys| <= if |points| == 0 then 0 else |points|
    ensures frac <= 0.0 ==> r == Path([points[0].0], [points[0].1])
    ensures frac >= 1.0 ==> r == FullPath(points)
    ensures |points| >= 1 ==> |r.xs| >= 1 && (r.xs[0], r.ys[0]) == points[0]
    ensures forall j :: 0 <= j < |r.xs| - 1 ==> (r.xs[j], r.ys[j]) == points[j]
  {
    if frac <= 0.0 then Path([points[0].0], [points[0].1])
    else if frac >= 1.0 then FullPath(points)
    else
      var segs := SegLengths(points, hypot);
      PartialScaled(points, segs, Sum(segs), frac)
  }

  /** The cut of `partial_polyline` at the target `frac * total`, after the first point. */
  function PartialScaled(points: seq<Point>, segs: seq<real>, total: real, frac: real): (r: Path)
    requires |points| >= 1 && |segs| == |points| - 1
    ensures |r.xs| == |r.ys| <= |points|
    ensures |r.xs| >= 1 && (r.xs[0], r.ys[0]) == points[0]
    ensures forall j :: 0 <= j < |r.xs| - 1 ==> (r.xs[j], r.ys[j]) == points[j]
  {
    var rest := PartialFrom(points, segs, frac * total, 0.0, 0);
    PartialFromShape(points, segs, frac * total, 0.0, 0);
    var r := Path([points[0].0] + rest.xs, [points[0].1] + rest.ys);
    assert forall j :: 0 < j < |r.xs| ==> r.xs[j] == rest.xs[j - 1] && r.ys[j] == rest.ys[j - 1];
    r
  }

  /** `partial_polyline` */
  method PartialPolylineLoop(points: seq<Point>, frac: real, hypot: Hypot) returns (outX: seq<real>, outY: seq<real>)
    requires |points| >= 1 || frac >= 1.0
    ensures Path(outX, outY) == PartialPolyline(points, frac, hypot)
  {
    if frac <= 0.0 {
      return [points[0].0], [points[0].1];
    }
    if frac >= 1.0 {
      var full := FullPath(points);
      return full.xs, full.ys;
    }
    var segLengths, total := PolylineLengths(points, hypot);
    var target := frac * total;
    PartialScaledTarget(points, segLengths, total, frac, target);
    outX, outY := ScanPartial(points, segLengths, target);
  }

  // As for `AlongScaledTarget`.
  lemma {:induction false} PartialScaledTarget(points: seq<Point>, segs: seq<real>, total: real, frac: real, target: real)
    requires |points| >= 1 && |segs| == |points| - 1 && target == frac * total
    ensures var rest := PartialFrom(points, segs, target, 0.0, 0);
            PartialScaled(points, segs, total, frac) == Path([points[0].0] + rest.xs, [points[0].1] + rest.ys)
  {
  }

  /** The last point of `partial_polyline`, on the segment where the cut falls. */
  method CutPoint(points: seq<Point>, segLengths: seq<real>, target: real, acc: real, i: nat) returns (x: real, y: real)
    requires |segLengths| == |points| - 1 && i < |segLengths| && !(acc + segLengths[i] < target - Tolerance)
    ensures PartialFrom(points, segLengths, target, acc, i) == Path([x], [y])
  {
    var remain := target - acc;
    var l := segLengths[i];
    PartialCut(points, segLengths, target, acc, i);
    if l <= Tolerance {
      x, y := points[i + 1].0, points[i + 1].1;
    } else {
      var fracSeg := remain / l;
      var end := Interpolate(points[i], points[i + 1], fracSeg);
      x, y := end.0, end.1;
    }
  }

  /** The loop of `partial_polyline`, which stops at the segment holding the cut. */
  method ScanPartial(points: seq<Point>, segLengths: seq<real>, target: real) returns (outX: seq<real>, outY: seq<real>)
    requires |points| >= 1 && |segLengths| == |points| - 1
    ensures outX == [points[0].0] + PartialFrom(points, segLengths, target, 0.0, 0).xs
    ensures outY == [points[0].1] + PartialFrom(points, segLengths, target, 0.0, 0).ys
  {
    ghost var whole := PartialFrom(points, segLengths, target, 0.0, 0);
    var acc := 0.0;
    outX, outY := [points[0].0], [points[0].1];
    var i := 0;
    while i < |segLengths|
      invariant 0 <= i <= |segLengths|
      invariant outX + PartialFrom(points, segLengths, target, acc, i).xs == [points[0].0] + whole.xs
      invariant outY + PartialFrom(points, segLengths, target, acc, i).ys == [points[0].1] + whole.ys
    {
      ghost var rest := PartialFrom(points, segLengths, target, acc, i);
      var l := segLengths[i];
      if acc + l < target - Tolerance {
        ghost var next := PartialFrom(points, segLengths, target, acc + l, i + 1);
        PartialVertex(points, segLengths, target, acc, i);
        assert outX + rest.xs == (outX + [points[i + 1].0]) + next.xs;
        assert outY + rest.ys == (outY + [points[i + 1].1]) + next.ys;
        outX, outY := outX + [points[i + 1].0], outY + [points[i + 1].1];
      } else {
        var x, y := CutPoint(points, segLengths, target, acc, i);
        outX, outY := outX + [x], outY + [y];
        return;
      }
      acc := acc + l;
      i := i + 1;
    }
    assert outX == outX + [];
  }

  // ================================================================ the animation cycle

  /** `UPDATE_MS / 1000.0`: seconds per tick. */
  const Dt: real := 0.05
  const GrowSpeed: real := 0.6
  const ParticleSpeed: real := 0.4
  /** Seconds a finished ray waits before it starts again. */
  const CyclePause: real := 2.0
  /** The stagger of the first activations. */
  const StartOffset: real := 0.2
  /** Particles a ray sends before it finishes. */
  const Transmissions: nat := 4
  const FullWidth: real := 3.0
  const ParticleSize: int := 8
  const ParticleColor: string := "yellow"

  /** Growth of a ray per tick. */
  const GrowStep: real := GrowSpeed * Dt
  /** Progress of a particle per tick. */
  const ParticleStep: real := ParticleSpeed * Dt

  datatype Phase = Growing | Transmitting | Finished

  /** One entry of `active_rays`. */
  datatype ActiveRay = ActiveRay(rayIndex: nat, growFrac: real, particleFrac: real, phase: Phase, transmitCount: nat)

  /** One entry of `activation_schedule`. */
  datatype Activation = Activation(rayIndex: nat, startTime: real)

  /** One entry of `rays_meta`. */
  datatype RayMeta = RayMeta(pts: seq<Point>, segLengths: seq<real>, totalLength: real)

  /** The data of the ray lines' source. */
  datatype Lines = Lines(xs: seq<seq<real>>, ys: seq<seq<real>>, widths: seq<real>)

  /** The data of the particles' source. */
  datatype Particles = Particles(x: seq<real>, y: seq<real>, size: seq<int>, color: seq<string>)

  datatype Line = Line(path: Path, width: real)
  datatype Particle = Particle(at: Point, size: int, color: string)

  /** What one active ray contributes to a tick. */
  datatype RayStep = RayStep(ray: ActiveRay, line: Option<Line>, particle: Option<Particle>, reactivate: Option<Activation>)

  /** What the loop over the active rays produces. */
  datatype Tick = Tick(still: seq<ActiveRay>, lines: Lines, particles: Particles, reactivations: seq<Activation>)

  /** `activate_ray`: a ray starts growing from nothing. */
  function NewRay(i: nat): ActiveRay
  {
    ActiveRay(i, 0.0, 0.0, Growing, 0)
  }

  /** `min(f, 1.0)` as the source writes it: a fraction that reaches 1 is set to 1. */
  function Cap(f: real): real
  {
    if f >= 1.0 then 1.0 else f
  }

  /**
   * The phase machine of one ray for one tick: a growing ray grows and
   * turns transmitting when it is complete; a transmitting ray moves its
   * particle, and a particle that arrives starts the next one, or, after
   * the fourth, finishes the ray; a finished ray stays as it is.
   */
  function Advance(ar: ActiveRay): ActiveRay
  {
    match ar.phase
    case Growing =>
      var g := ar.growFrac + GrowStep;
      if g >= 1.0 then ar.(growFrac := 1.0, phase := Transmitting, particleFrac := 0.0)
      else ar.(growFrac := g)
    case Transmitting =>
      var p := Cap(ar.particleFrac + ParticleStep);
      if p >= 1.0 then
        if ar.transmitCount + 1 < Transmissions then ar.(particleFrac := 0.0, transmitCount := ar.transmitCount + 1)
        else ar.(particleFrac := p, transmitCount := ar.transmitCount + 1, phase := Finished)
      else ar.(particleFrac := p)
    case Finished => ar
  }

  /** The states an entry of `active_rays` can be in between ticks. */
  predicate RayOk(ar: ActiveRay)
  {
    match ar.phase
    case Growing => 0.0 <= ar.growFrac < 1.0 && ar.particleFrac == 0.0 && ar.transmitCount == 0
    case Transmitting => ar.growFrac == 1.0 && 0.0 <= ar.particleFrac < 1.0 && ar.transmitCount < Transmissions
    case Finished => false
  }

  /** A tick keeps a ray in a state between ticks, unless it has just finished. */
  lemma {:induction false} AdvanceOk(ar: ActiveRay)
    requires RayOk(ar)
    ensures Advance(ar).phase == Finished || RayOk(Advance(ar))
    ensures Advance(ar).rayIndex == ar.rayIndex
    ensures Advance(ar).phase == Finished ==> ar.phase == Transmitting && ar.transmitCount == Transmissions - 1
  {
  }

  /**
   * The body of the loop of `update` for one active ray: what it draws,
   * the particle it shows, and the reactivation it schedules at `now`.
   */
  function StepRay(ar: ActiveRay, meta: RayMeta, now: real, hypot: Hypot): (r: RayStep)
    requires |meta.pts| >= 1
    ensures r.ray == Advance(ar)
    ensures r.line.Some? <==> ar.phase != Finished
    ensures r.particle.Some? <==> ar.phase == Transmitting
    ensures r.reactivate.Some? <==> ar.phase == Transmitting && r.ray.phase == Finished
    ensures r.reactivate.Some? ==> r.reactivate.value == Activation(ar.rayIndex, now + CyclePause)
  {
    var next := Advance(ar);
    match ar.phase
    case Growing =>
      RayStep(next, Some(Line(PartialPolyline(meta.pts, next.growFrac, hypot), 1.0 + 2.0 * next.growFrac)), None, None)
    case Transmitting =>
      var at := PointAlong(meta.pts, Cap(ar.particleFrac + ParticleStep), hypot);
      RayStep(next, Some(Line(FullPath(meta.pts), FullWidth)), Some(Particle(at, ParticleSize, ParticleColor)),
              if next.phase == Finished then Some(Activation(ar.rayIndex, now + CyclePause)) else None)
    case Finished =>
      RayStep(next, None, None, None)
  }

  /** The tick before any ray is looked at. */
  const EmptyTick: Tick := Tick([], Lines([], [], []), Particles([], [], [], []), [])

  /** Adds what one ray contributes to a tick. */
  function AddStep(t: Tick, s: RayStep): Tick
  {
    var lines := if s.line.Some?
      then Lines(t.lines.xs + [s.line.value.path.xs], t.lines.ys + [s.line.value.path.ys], t.lines.widths + [s.line.value.width])
      else t.lines;
    var particles := if s.particle.Some?
      then Particles(t.particles.x + [s.particle.value.at.0], t.particles.y + [s.particle.value.at.1],
                     t.particles.size + [s.particle.value.size], t.particles.color + [s.particle.value.color])
      else t.particles;
    Tick(if s.ray.phase != Finished then t.still + [s.ray] else t.still, lines, particles,
         if s.reactivate.Some? then t.reactivations + [s.reactivate.value] else t.reactivations)
  }

  /** Every ray's index names one of the metadata entries, whose polyline is not empty. */
  predicate RaysIn(rays: seq<ActiveRay>, metas: seq<RayMeta>)
  {
    forall k :: 0 <= k < |rays| ==> rays[k].rayIndex < |metas| && |metas[rays[k].rayIndex].pts| >= 1
  }

  /** Active rays of known rays, each in a state between ticks. */
  predicate RaysOk(rays: seq<ActiveRay>, metas: seq<RayMeta>)
  {
    RaysIn(rays, metas) && forall k :: 0 <= k < |rays| ==> RayOk(rays[k])
  }

  /** The loop of `update` over the active rays, ray by ray. */
  function StepRays(rays: seq<ActiveRay>, metas: seq<RayMeta>, now: real, hypot: Hypot): Tick
    requires RaysIn(rays, metas)
  {
    if |rays| == 0 then EmptyTick
    else
      var last := rays[|rays| - 1];
      AddStep(StepRays(rays[..|rays| - 1], metas, now, hypot), StepRay(last, metas[last.rayIndex], now, hypot))
  }

  // ================================================================ the activation schedule

  /** The activations not yet due at `now`, in schedule order. */
  function Pending(s: seq<Activation>, now: real): (r: seq<Activation>)
    ensures forall k :: 0 <= k < |r| ==> now < r[k].startTime
    ensures |r| <= |s|
  {
    if |s| == 0 then []
    else
      var init := Pending(s[..|s| - 1], now);
      if now >= s[|s| - 1].startTime then init else init + [s[|s| - 1]]
  }

  /** The rays the activations due at `now` start, in schedule order. */
  function DueRays(s: seq<Activation>, now: real): seq<ActiveRay>
  {
    if |s| == 0 then []
    else
      var init := DueRays(s[..|s| - 1], now);
      if now >= s[|s| - 1].startTime then init + [NewRay(s[|s| - 1].rayIndex)] else init
  }

  /** `list.remove(x)`: drops the first entry equal to `x`. */
  function RemoveFirst(s: seq<Activation>, x: Activation): seq<Activation>
  {
    if |s| == 0 then []
    else if s[0] == x then s[1..]
    else [s[0]] + RemoveFirst(s[1..], x)
  }

  /**
   * Removing an activation that follows only activations different from
   * it removes that very entry.
   */
  lemma {:induction false} RemoveAfter(f: seq<Activation>, x: Activation, rest: seq<Activation>)
    requires forall k :: 0 <= k < |f| ==> f[k] != x
    ensures RemoveFirst(f + [x] + rest, x) == f + rest
  {
    if |f| > 0 {
      RemoveAfter(f[1..], x, rest);
      assert (f + [x] + rest)[1..] == f[1..] + [x] + rest;
      assert f + rest == [f[0]] + (f[1..] + rest);
    }
  }

  lemma {:induction false} ScheduleStep(s: seq<Activation>, j: nat, now: real)
    requires j < |s|
    ensures s[j..] == [s[j]] + s[j + 1..]
    ensures now >= s[j].startTime ==>
              Pending(s[..j + 1], now) == Pending(s[..j], now)
              && DueRays(s[..j + 1], now) == DueRays(s[..j], now) + [NewRay(s[j].rayIndex)]
    ensures now < s[j].startTime ==>
              Pending(s[..j + 1], now) == Pending(s[..j], now) + [s[j]]
              && DueRays(s[..j + 1], now) == DueRays(s[..j], now)
  {
    assert s[..j + 1][..j] == s[..j];
  }

  /** One turn of the activation loop: a due entry leaves the schedule, any other stays. */
  lemma {:induction false} ActivateStep(copy: seq<Activation>, j: nat, now: real, schedule: seq<Activation>)
    requires j < |copy|
    requires schedule == Pending(copy[..j], now) + copy[j..]
    ensures now >= copy[j].startTime ==>
              RemoveFirst(schedule, copy[j]) == Pending(copy[..j + 1], now) + copy[j + 1..]
              && DueRays(copy[..j + 1], now) == DueRays(copy[..j], now) + [NewRay(copy[j].rayIndex)]
    ensures now < copy[j].startTime ==>
              schedule == Pending(copy[..j + 1], now) + copy[j + 1..]
              && DueRays(copy[..j + 1], now) == DueRays(copy[..j], now)
  {
    var pending := Pending(copy[..j], now);
    ScheduleStep(copy, j, now);
    assert schedule == pending + [copy[j]] + copy[j + 1..];
    if now >= copy[j].startTime {
      RemoveAfter(pending, copy[j], copy[j + 1..]);
    }
  }

  /** The loop over a copy of `activation_schedule` in `update`. */
  method ActivateDue(schedule: seq<Activation>, active: seq<ActiveRay>, now: real)
    returns (newSchedule: seq<Activation>, newActive: seq<ActiveRay>)
    ensures newSchedule == Pending(schedule, now)
    ensures newActive == active + DueRays(schedule, now)
  {
    var copy := schedule;
    newSchedule, newActive := schedule, active;
    var j := 0;
    while j < |copy|
      invariant 0 <= j <= |copy|
      invariant newSchedule == Pending(copy[..j], now) + copy[j..]
      invariant newActive == active + DueRays(copy[..j], now)
    {
      var sched := copy[j];
      ActivateStep(copy, j, now, newSchedule);
      if now >= sched.startTime {
        newActive := newActive + [NewRay(sched.rayIndex)];
        newSchedule := RemoveFirst(newSchedule, sched);
      }
      j := j + 1;
    }
    assert copy[..j] == schedule;
  }

  // ================================================================ which rays exist

  /** The ray indices of the active rays, as a multiset. */
  function RayIds(rays: seq<ActiveRay>): multiset<nat>
  {
    if |rays| == 0 then multiset{} else RayIds(rays[..|rays| - 1]) + multiset{rays[|rays| - 1].rayIndex}
  }

  /** The ray indices of the scheduled activations, as a multiset. */
  function ScheduledIds(s: seq<Activation>): multiset<nat>
  {
    if |s| == 0 then multiset{} else ScheduledIds(s[..|s| - 1]) + multiset{s[|s| - 1].rayIndex}
  }

  /** Each of the rays `0 .. n - 1` once. */
  function AllRays(n: nat): multiset<nat>
  {
    if n == 0 then multiset{} else AllRays(n - 1) + multiset{n - 1}
  }

  /** Each of the rays `0 .. n - 1` is either active or scheduled, exactly once. */
  predicate EachOnce(active: seq<ActiveRay>, schedule: seq<Activation>, n: nat)
  {
    RayIds(active) + ScheduledIds(schedule) == AllRays(n)
  }

  lemma {:induction false} RayIdsConcat(a: seq<ActiveRay>, b: seq<ActiveRay>)
    ensures RayIds(a + b) == RayIds(a) + RayIds(b)
  {
    if |b| == 0 {
      assert a + b == a;
    } else {
      assert (a + b)[..|a + b| - 1] == a + b[..|b| - 1];
      RayIdsConcat(a, b[..|b| - 1]);
    }
  }

  lemma {:induction false} ScheduledIdsConcat(a: seq<Activation>, b: seq<Activation>)
    ensures ScheduledIds(a + b) == ScheduledIds(a) + ScheduledIds(b)
  {
    if |b| == 0 {
      assert a + b == a;
    } else {
      assert (a + b)[..|a + b| - 1] == a + b[..|b| - 1];
      ScheduledIdsConcat(a, b[..|b| - 1]);
    }
  }

  /** Activation moves rays from the schedule to the active rays, losing and adding none. */
  lemma {:induction false} ActivationKeepsRays(s: seq<Activation>, now: real)
    ensures ScheduledIds(s) == RayIds(DueRays(s, now)) + ScheduledIds(Pending(s, now))
  {
    if |s| > 0 {
      ActivationKeepsRays(s[..|s| - 1], now);
    }
  }

  /** The rays activation starts are growing from nothing, and are rays of the schedule. */
  lemma {:induction false} DueRaysOk(s: seq<Activation>, now: real, n: nat)
    requires forall j :: 0 <= j < |s| ==> s[j].rayIndex < n
    ensures forall k :: 0 <= k < |DueRays(s, now)| ==> DueRays(s, now)[k].rayIndex < n && RayOk(DueRays(s, now)[k])
  {
    if |s| > 0 {
      DueRaysOk(s[..|s| - 1], now, n);
    }
  }

  // ================================================================ what a tick does

  /** The number of transmitting rays. */
  function TransmittingCount(rays: seq<ActiveRay>): nat
  {
    if |rays| == 0 then 0
    else TransmittingCount(rays[..|rays| - 1]) + if rays[|rays| - 1].phase == Transmitting then 1 else 0
  }

  /**
   * What one ray adds to the rays a tick keeps and to the activations it
   * schedules: the ray itself, if it has not just finished, or else its
   * reactivation at `now + CyclePause`.
   */
  lemma {:induction false} AddStepRays(t0: Tick, ar: ActiveRay, meta: RayMeta, now: real, hypot: Hypot)
    requires |meta.pts| >= 1 && RayOk(ar)
    ensures var t := AddStep(t0, StepRay(ar, meta, now, hypot));
            var next := Advance(ar);
            && next.rayIndex == ar.rayIndex
            && (next.phase != Finished ==> RayOk(next) && t.still == t0.still + [next] && t.reactivations == t0.reactivations)
            && (next.phase == Finished ==>
                  t.still == t0.still && t.reactivations == t0.reactivations + [Activation(ar.rayIndex, now + CyclePause)])
  {
    AdvanceOk(ar);
  }

  /** A tick keeps the rays it keeps in a state between ticks. */
  lemma {:induction false} StepKeepsOk(rays: seq<ActiveRay>, metas: seq<RayMeta>, now: real, hypot: Hypot)
    requires RaysOk(rays, metas)
    ensures RaysOk(StepRays(rays, metas, now, hypot).still, metas)
  {
    if |rays| > 0 {
      var init, last := rays[..|rays| - 1], rays[|rays| - 1];
      StepKeepsOk(init, metas, now, hypot);
      var t0 := StepRays(init, metas, now, hypot);
      assert StepRays(rays, metas, now, hypot) == AddStep(t0, StepRay(last, metas[last.rayIndex], now, hypot));
      AddStepRays(t0, last, metas[last.rayIndex], now, hypot);
    }
  }

  /** Every ray a tick is given is either kept or scheduled again, exactly once. */
  lemma {:induction false} StepKeepsRays(rays: seq<ActiveRay>, metas: seq<RayMeta>, now: real, hypot: Hypot)
    requires RaysOk(rays, metas)
    ensures RayIds(rays) == RayIds(StepRays(rays, metas, now, hypot).still) + ScheduledIds(StepRays(rays, metas, now, hypot).reactivations)
  {
    if |rays| > 0 {
      var init, last := rays[..|rays| - 1], rays[|rays| - 1];
      StepKeepsRays(init, metas, now, hypot);
      var t0 := StepRays(init, metas, now, hypot);
      assert StepRays(rays, metas, now, hypot) == AddStep(t0, StepRay(last, metas[last.rayIndex], now, hypot));
      AddStepIds(t0, last, metas[last.rayIndex], now, hypot);
    }
  }

  /** One ray's step keeps its ray or schedules it again. */
  lemma {:induction false} AddStepIds(t0: Tick, ar: ActiveRay, meta: RayMeta, now: real, hypot: Hypot)
    requires |meta.pts| >= 1 && RayOk(ar)
    ensures var t := AddStep(t0, StepRay(ar, meta, now, hypot));
            RayIds(t.still) + ScheduledIds(t.reactivations)
              == RayIds(t0.still) + ScheduledIds(t0.reactivations) + multiset{ar.rayIndex}
  {
    AddStepRays(t0, ar, meta, now, hypot);
    var t := AddStep(t0, StepRay(ar, meta, now, hypot));
    if Advance(ar).phase != Finished {
      assert t.still[..|t.still| - 1] == t0.still;
      assert RayIds(t.still) == RayIds(t0.still) + multiset{ar.rayIndex};
    } else {
      assert t.reactivations[..|t.reactivations| - 1] == t0.reactivations;
      assert ScheduledIds(t.reactivations) == ScheduledIds(t0.reactivations) + multiset{ar.rayIndex};
    }
  }

  /** `n` lines, each with its width above 1 and at most 3. */
  predicate LinesOf(lines: Lines, n: nat)
  {
    && |lines.xs| == |lines.ys| == |lines.widths| == n
    && forall k :: 0 <= k < n ==> 1.0 < lines.widths[k] <= FullWidth
  }

  /** The number of particles, when all four columns agree on it. */
  function ParticleCount(p: Particles): int
  {
    if |p.x| == |p.y| == |p.size| == |p.color| then |p.x| else -1
  }

  /** Activations of rays below `n`, all at `time`. */
  predicate ScheduledAt(s: seq<Activation>, n: nat, time: real)
  {
    forall k :: 0 <= k < |s| ==> s[k].rayIndex < n && s[k].startTime == time
  }

  /** A ray that finishes in a tick is scheduled to start again `CyclePause` seconds after `now`. */
  lemma {:induction false} StepReactivates(rays: seq<ActiveRay>, metas: seq<RayMeta>, now: real, hypot: Hypot)
    requires RaysOk(rays, metas)
    ensures ScheduledAt(StepRays(rays, metas, now, hypot).reactivations, |metas|, now + CyclePause)
  {
    if |rays| > 0 {
      var init, last := rays[..|rays| - 1], rays[|rays| - 1];
      StepReactivates(init, metas, now, hypot);
      var t0 := StepRays(init, metas, now, hypot);
      var t := AddStep(t0, StepRay(last, metas[last.rayIndex], now, hypot));
      assert StepRays(rays, metas, now, hypot) == t;
      AddStepRays(t0, last, metas[last.rayIndex], now, hypot);
    }
  }

  /**
   * A tick draws one line per ray and one particle per transmitting ray,
   * with line widths above 1 and at most 3.
   */
  lemma {:induction false} StepDraws(rays: seq<ActiveRay>, metas: seq<RayMeta>, now: real, hypot: Hypot)
    requires RaysOk(rays, metas)
    ensures LinesOf(StepRays(rays, metas, now, hypot).lines, |rays|)
    ensures ParticleCount(StepRays(rays, metas, now, hypot).particles) == TransmittingCount(rays)
  {
    if |rays| > 0 {
      var init, last := rays[..|rays| - 1], rays[|rays| - 1];
      StepDraws(init, metas, now, hypot);
      var t0 := StepRays(init, metas, now, hypot);
      assert StepRays(rays, metas, now, hypot) == AddStep(t0, StepRay(last, metas[last.rayIndex], now, hypot));
      AddStepDraws(t0, last, metas[last.rayIndex], now, hypot, |init|);
    }
  }

  /** One ray's step draws one more line and, while it transmits, one more particle. */
  lemma {:induction false} AddStepDraws(t0: Tick, ar: ActiveRay, meta: RayMeta, now: real, hypot: Hypot, n: nat)
    requires |meta.pts| >= 1 && RayOk(ar) && LinesOf(t0.lines, n) && ParticleCount(t0.particles) >= 0
    ensures var t := AddStep(t0, StepRay(ar, meta, now, hypot));
            && LinesOf(t.lines, n + 1)
            && ParticleCount(t.particles) == ParticleCount(t0.particles) + if ar.phase == Transmitting then 1 else 0
  {
    var step := StepRay(ar, meta, now, hypot);
    var t := AddStep(t0, step);
    assert t.lines.widths == t0.lines.widths + [step.line.value.width];
    assert 1.0 < step.line.value.width <= FullWidth;
  }

  /**
   * The body of the loop of `update` for one active ray: it moves the ray
   * on one tick and returns the line and particle to draw and the
   * reactivation to schedule.
   */
  method StepOne(ar: ActiveRay, meta: RayMeta, now: real, hypot: Hypot)
    returns (next: ActiveRay, line: Option<Line>, particle: Option<Particle>, reactivate: Option<Activation>)
    requires |meta.pts| >= 1
    ensures RayStep(next, line, particle, reactivate) == StepRay(ar, meta, now, hypot)
  {
    next, line, particle, reactivate := ar, None, None, None;
    if next.phase == Growing {
      next := next.(growFrac := next.growFrac + GrowStep);
      if next.growFrac >= 1.0 {
        next := next.(growFrac := 1.0, phase := Transmitting, particleFrac := 0.0);
      }
      var xsPartial, ysPartial := PartialPolylineLoop(meta.pts, next.growFrac, hypot);
      line := Some(Line(Path(xsPartial, ysPartial), 1.0 + 2.0 * next.growFrac));
    } else if next.phase == Transmitting {
      line := Some(Line(FullPath(meta.pts), FullWidth));
      next := next.(particleFrac := next.particleFrac + ParticleStep);
      if next.particleFrac >= 1.0 {
        next := next.(particleFrac := 1.0);
      }
      var at := PointAlongPolyline(meta.pts, next.particleFrac, hypot);
      particle := Some(Particle(at, ParticleSize, ParticleColor));
      if next.particleFrac >= 1.0 {
        next := next.(transmitCount := next.transmitCount + 1);
        if next.transmitCount < Transmissions {
          next := next.(particleFrac := 0.0);
        } else {
          next := next.(phase := Finished);
          reactivate := Some(Activation(next.rayIndex, now + CyclePause));
        }
      }
    }
  }

  /** `StepRays` over one more ray adds that ray's step. */
  lemma {:induction false} StepRaysNext(rays: seq<ActiveRay>, i: nat, metas: seq<RayMeta>, now: real, hypot: Hypot)
    requires RaysIn(rays, metas) && i < |rays|
    ensures RaysIn(rays[..i], metas) && RaysIn(rays[..i + 1], metas)
    ensures StepRays(rays[..i + 1], metas, now, hypot)
            == AddStep(StepRays(rays[..i], metas, now, hypot), StepRay(rays[i], metas[rays[i].rayIndex], now, hypot))
  {
    assert rays[..i + 1][..i] == rays[..i] && rays[..i + 1][i] == rays[i];
  }

  /**
   * The loop of `update` over the active rays: each ray moves on one tick,
   * its line and particle are collected, a ray that finishes is scheduled
   * again, and the rays that have not finished are kept.
   */
  method StepActive(rays: seq<ActiveRay>, metas: seq<RayMeta>, now: real, hypot: Hypot, schedule: seq<Activation>)
    returns (still: seq<ActiveRay>, lines: Lines, particles: Particles, newSchedule: seq<Activation>)
    requires RaysIn(rays, metas)
    ensures still == StepRays(rays, metas, now, hypot).still
    ensures lines == StepRays(rays, metas, now, hypot).lines
    ensures particles == StepRays(rays, metas, now, hypot).particles
    ensures newSchedule == schedule + StepRays(rays, metas, now, hypot).reactivations
  {
    lines, particles := EmptyTick.lines, EmptyTick.particles;
    still, newSchedule := [], schedule;
    var i := 0;
    while i < |rays|
      invariant 0 <= i <= |rays|
      invariant still == StepRays(rays[..i], metas, now, hypot).still
      invariant lines == StepRays(rays[..i], metas, now, hypot).lines
      invariant particles == StepRays(rays[..i], metas, now, hypot).particles
      invariant newSchedule == schedule + StepRays(rays[..i], metas, now, hypot).reactivations
    {
      var ar := rays[i];
      StepRaysNext(rays, i, metas, now, hypot);
      var next, line, particle, reactivate := StepOne(ar, metas[ar.rayIndex], now, hypot);
      if line.Some? {
        lines := Lines(lines.xs + [line.value.path.xs], lines.ys + [line.value.path.ys], lines.widths + [line.value.width]);
      }
      if particle.Some? {
        particles := Particles(particles.x + [particle.value.at.0], particles.y + [particle.value.at.1],
                               particles.size + [particle.value.size], particles.color + [particle.value.color]);
      }
      if reactivate.Some? {
        newSchedule := newSchedule + [reactivate.value];
      }
      if next.phase != Finished {
        still := still + [next];
      }
      i := i + 1;
    }
    assert rays[..i] == rays;
  }

  // ================================================================ the view

  /** `activation_schedule` at the start: ray `i` is due `i * 0.2` seconds in. */
  function InitialSchedule(n: nat): (r: seq<Activation>)
    ensures SchedulesIn(r, n)
  {
    if n == 0 then [] else InitialSchedule(n - 1) + [Activation(n - 1, (n - 1) as real * StartOffset)]
  }

  /** The start schedule holds `n` activations, the one at position `i` for ray `i`. */
  lemma {:induction false} InitialScheduleAt(n: nat, i: nat)
    requires i < n
    ensures |InitialSchedule(n)| == n
    ensures InitialSchedule(n)[i] == Activation(i, i as real * StartOffset)
  {
    if i < n - 1 {
      InitialScheduleAt(n - 1, i);
    } else if n > 1 {
      InitialScheduleAt(n - 1, 0);
    }
  }

  /** The start schedule names every ray once. */
  lemma {:induction false} InitialScheduleRays(n: nat)
    ensures ScheduledIds(InitialSchedule(n)) == AllRays(n)
  {
    if n > 0 {
      InitialScheduleRays(n - 1);
      assert InitialSchedule(n)[..n - 1] == InitialSchedule(n - 1) by {
        InitialScheduleAt(n, 0);
      }
    }
  }

  /** At the first tick only ray 0 is due; the others wait their turn. */
  lemma {:induction false} FirstTick(n: nat)
    requires n >= 1
    ensures DueRays(InitialSchedule(n), Dt) == [NewRay(0)]
    ensures Pending(InitialSchedule(n), Dt) == InitialSchedule(n)[1..]
  {
    InitialScheduleAt(n, 0);
    if n > 1 {
      FirstTick(n - 1);
      InitialScheduleAt(n - 1, 0);
      assert InitialSchedule(n)[..n - 1] == InitialSchedule(n - 1);
      assert InitialSchedule(n)[1..] == InitialSchedule(n - 1)[1..] + [Activation(n - 1, (n - 1) as real * StartOffset)];
    }
  }

  /** Activations whose rays are all below `n`. */
  predicate SchedulesIn(s: seq<Activation>, n: nat)
  {
    forall k :: 0 <= k < |s| ==> s[k].rayIndex < n
  }

  /** The activations that stay pending are activations of the schedule. */
  lemma {:induction false} PendingIn(s: seq<Activation>, now: real, n: nat)
    requires SchedulesIn(s, n)
    ensures SchedulesIn(Pending(s, now), n)
  {
    if |s| > 0 {
      PendingIn(s[..|s| - 1], now, n);
    }
  }

  /** Metadata whose polylines are not empty. */
  predicate MetasOk(metas: seq<RayMeta>)
  {
    forall k :: 0 <= k < |metas| ==> |metas[k].pts| >= 1
  }

  /** The active rays once the activations due at `now` have started theirs. */
  function Activated(active: seq<ActiveRay>, schedule: seq<Activation>, now: real, metas: seq<RayMeta>): (r: seq<ActiveRay>)
    requires MetasOk(metas) && RaysOk(active, metas) && SchedulesIn(schedule, |metas|)
    ensures RaysOk(r, metas)
  {
    DueRaysOk(schedule, now, |metas|);
    active + DueRays(schedule, now)
  }

  /**
   * A tick keeps every ray either active or scheduled, exactly once: the
   * rays it activates leave the schedule, and the rays that finish return
   * to it.
   */
  lemma {:induction false} TickKeepsRays(active: seq<ActiveRay>, schedule: seq<Activation>, now: real, metas: seq<RayMeta>, hypot: Hypot,
                      rays: seq<ActiveRay>, tick: Tick)
    requires MetasOk(metas) && RaysOk(active, metas) && SchedulesIn(schedule, |metas|)
    requires RayIds(active) + ScheduledIds(schedule) == AllRays(|metas|)
    requires rays == Activated(active, schedule, now, metas) && tick == StepRays(rays, metas, now, hypot)
    ensures RayIds(tick.still) + ScheduledIds(Pending(schedule, now) + tick.reactivations) == AllRays(|metas|)
  {
    ActivationKeepsRays(schedule, now);
    RayIdsConcat(active, DueRays(schedule, now));
    StepKeepsRays(rays, metas, now, hypot);
    ScheduledIdsConcat(Pending(schedule, now), tick.reactivations);
    Regroup(RayIds(active), RayIds(DueRays(schedule, now)), ScheduledIds(Pending(schedule, now)),
            RayIds(tick.still), ScheduledIds(tick.reactivations));
  }

  lemma {:induction false} Regroup(active: multiset<nat>, due: multiset<nat>, pending: multiset<nat>, still: multiset<nat>, again: multiset<nat>)
    requires active + due == still + again
    ensures still + (pending + again) == active + (due + pending)
  {
    assert still + (pending + again) == (still + again) + pending;
    assert active + (due + pending) == (active + due) + pending;
  }

  /** Activations of known rays stay so when some are appended. */
  lemma {:induction false} SchedulesConcat(a: seq<Activation>, b: seq<Activation>, n: nat)
    requires SchedulesIn(a, n) && SchedulesIn(b, n)
    ensures SchedulesIn(a + b, n)
  {
    forall k | 0 <= k < |a + b| ensures (a + b)[k].rayIndex < n {
      if k >= |a| {
        assert (a + b)[k] == b[k - |a|];
      }
    }
  }

  // ================================================================ the life of a ray

  /** A ray after `k` ticks. */
  function AdvanceN(ar: ActiveRay, k: nat): ActiveRay
  {
    if k == 0 then ar else Advance(AdvanceN(ar, k - 1))
  }

  /** Ticks a ray spends growing. */
  const GrowTicks: nat := 34
  /** Ticks one particle takes along the ray. */
  const TransmitTicks: nat := 50
  /** Ticks from activation until the ray finishes. */
  const Lifetime: nat := GrowTicks + Transmissions * TransmitTicks

  lemma {:induction false} AdvanceNAdd(ar: ActiveRay, a: nat, b: nat)
    ensures AdvanceN(ar, a + b) == AdvanceN(AdvanceN(ar, a), b)
  {
    if b > 0 {
      AdvanceNAdd(ar, a, b - 1);
    }
  }

  /** A new ray grows by `GrowStep` a tick for 33 ticks and is complete, and transmitting, at the 34th. */
  lemma {:induction false} Growth(i: nat, k: nat)
    requires k <= GrowTicks
    ensures k < GrowTicks ==> AdvanceN(NewRay(i), k) == ActiveRay(i, GrowStep * k as real, 0.0, Growing, 0)
    ensures k == GrowTicks ==> AdvanceN(NewRay(i), k) == ActiveRay(i, 1.0, 0.0, Transmitting, 0)
  {
    if k > 0 {
      Growth(i, k - 1);
    }
  }

  /**
   * A particle leaving its ray's start moves by `ParticleStep` a tick for
   * 49 ticks and arrives at the 50th; then the next particle leaves, or,
   * after the fourth, the ray finishes.
   */
  lemma {:induction false} Transmission(ar: ActiveRay, k: nat)
    requires ar.phase == Transmitting && ar.particleFrac == 0.0 && ar.transmitCount < Transmissions
    requires k <= TransmitTicks
    ensures k < TransmitTicks ==> AdvanceN(ar, k) == ar.(particleFrac := ParticleStep * k as real)
    ensures k == TransmitTicks && ar.transmitCount + 1 < Transmissions ==>
              AdvanceN(ar, k) == ar.(transmitCount := ar.transmitCount + 1)
    ensures k == TransmitTicks && ar.transmitCount + 1 == Transmissions ==>
              AdvanceN(ar, k) == ar.(particleFrac := 1.0, transmitCount := Transmissions, phase := Finished)
  {
    if k > 0 {
      Transmission(ar, k - 1);
    }
  }

  /** A finished ray stays finished. */
  lemma {:induction false} FinishedStays(ar: ActiveRay, k: nat)
    requires ar.phase == Finished
    ensures AdvanceN(ar, k) == ar
  {
    if k > 0 {
      FinishedStays(ar, k - 1);
    }
  }

  /** The ray after `c` whole transmissions, its particle at the start again. */
  function Sent(i: nat, c: nat): ActiveRay
  {
    ActiveRay(i, 1.0, 0.0, Transmitting, c)
  }

  /** After growing and `c` transmissions, a ray is ready to send its next particle. */
  lemma {:induction false} AfterTransmissions(i: nat, c: nat)
    requires c < Transmissions
    ensures AdvanceN(NewRay(i), GrowTicks + c * TransmitTicks) == Sent(i, c)
  {
    if c == 0 {
      Growth(i, GrowTicks);
    } else {
      AfterTransmissions(i, c - 1);
      AdvanceNAdd(NewRay(i), GrowTicks + (c - 1) * TransmitTicks, TransmitTicks);
      Transmission(Sent(i, c - 1), TransmitTicks);
    }
  }

  /**
   * A ray activated by `update` is finished after exactly `Lifetime` (234)
   * of its ticks: 34 growing and four times 50 sending a particle.
   */
  lemma {:induction false} RayLifetime(i: nat, k: nat)
    ensures AdvanceN(NewRay(i), k).phase == Finished <==> k >= Lifetime
  {
    if k < GrowTicks {
      Growth(i, k);
    } else if k < Lifetime {
      var c := (k - GrowTicks) / TransmitTicks;
      var r := (k - GrowTicks) % TransmitTicks;
      assert k == GrowTicks + c * TransmitTicks + r;
      SendingAt(i, c, r);
    } else {
      FinishedAt(i, k - Lifetime);
    }
  }

  /** Part-way through its `c`-th particle, a ray has not finished. */
  lemma {:induction false} SendingAt(i: nat, c: nat, r: nat)
    requires c < Transmissions && r < TransmitTicks
    ensures AdvanceN(NewRay(i), GrowTicks + c * TransmitTicks + r).phase == Transmitting
  {
    AfterTransmissions(i, c);
    AdvanceNAdd(NewRay(i), GrowTicks + c * TransmitTicks, r);
    Transmission(Sent(i, c), r);
  }

  /** From `Lifetime` ticks on, a ray stays finished. */
  lemma {:induction false} FinishedAt(i: nat, e: nat)
    ensures AdvanceN(NewRay(i), Lifetime + e).phase == Finished
  {
    var last := GrowTicks + (Transmissions - 1) * TransmitTicks;
    AfterTransmissions(i, Transmissions - 1);
    AdvanceNAdd(NewRay(i), last, TransmitTicks);
    Transmission(Sent(i, Transmissions - 1), TransmitTicks);
    assert last + TransmitTicks == Lifetime;
    AdvanceNAdd(NewRay(i), Lifetime, e);
    FinishedStays(AdvanceN(NewRay(i), Lifetime), e);
  }

  /**
   * `rays_meta`: every ray path with its segment lengths and its total
   * length; when every path has a point, so does every entry.
   */
  function SceneMeta(rayPaths: seq<seq<Point>>, hypot: Hypot): (r: seq<RayMeta>)
    ensures |r| == |rayPaths|
    ensures forall k :: 0 <= k < |r| ==> r[k].pts == rayPaths[k]
    ensures (forall k :: 0 <= k < |rayPaths| ==> |rayPaths[k]| >= 1) ==> MetasOk(r)
  {
    seq(|rayPaths|, k requires 0 <= k < |rayPaths| =>
      RayMeta(rayPaths[k], SegLengths(rayPaths[k], hypot), Sum(SegLengths(rayPaths[k], hypot))))
  }

  /** The loop that builds `rays_meta`. */
  method BuildMeta(rayPaths: seq<seq<Point>>, hypot: Hypot) returns (metas: seq<RayMeta>)
    ensures metas == SceneMeta(rayPaths, hypot)
  {
    metas := [];
    var i := 0;
    while i < |rayPaths|
      invariant 0 <= i <= |rayPaths| && |metas| == i
      invariant forall k :: 0 <= k < i ==>
                  metas[k] == RayMeta(rayPaths[k], SegLengths(rayPaths[k], hypot), Sum(SegLengths(rayPaths[k], hypot)))
    {
      var segLengths, total := PolylineLengths(rayPaths[i], hypot);
      metas := metas + [RayMeta(rayPaths[i], segLengths, total)];
      i := i + 1;
    }
    assert forall k :: 0 <= k < |metas| ==> metas[k] == SceneMeta(rayPaths, hypot)[k];
  }

  /** The loop that builds the start of `activation_schedule`. */
  method BuildSchedule(n: nat) returns (schedule: seq<Activation>)
    ensures schedule == InitialSchedule(n)
  {
    schedule := [];
    var i := 0;
    while i < n
      invariant 0 <= i <= n && schedule == InitialSchedule(i)
    {
      schedule := schedule + [Activation(i, i as real * StartOffset)];
      i := i + 1;
    }
  }

  /**
   * The first tick with ray 0 just started: the ray grows to `GrowStep`
   * and is drawn as a line of width `1 + 2 * GrowStep`; there is no
   * particle and nothing is scheduled again.
   */
  lemma {:induction false} FirstStep(metas: seq<RayMeta>, hypot: Hypot)
    requires |metas| >= 1 && |metas[0].pts| >= 1
    ensures StepRays([NewRay(0)], metas, Dt, hypot).still == [ActiveRay(0, GrowStep, 0.0, Growing, 0)]
    ensures StepRays([NewRay(0)], metas, Dt, hypot).lines.widths == [1.0 + 2.0 * GrowStep]
    ensures StepRays([NewRay(0)], metas, Dt, hypot).particles == Particles([], [], [], [])
    ensures StepRays([NewRay(0)], metas, Dt, hypot).reactivations == []
  {
    assert [NewRay(0)][..0] == [];
  }

  /**
   * The first `update`, at `Dt` seconds: it starts ray 0 only, which grows
   * to `GrowStep` and is drawn as one line of width `1 + 2 * GrowStep`;
   * there is no particle, and the other rays stay scheduled.
   */
  lemma {:induction false} FirstUpdate(metas: seq<RayMeta>, hypot: Hypot)
    requires |metas| >= 1 && MetasOk(metas)
    ensures var tick := StepRays(Activated([], InitialSchedule(|metas|), Dt, metas), metas, Dt, hypot);
            && tick.still == [ActiveRay(0, GrowStep, 0.0, Growing, 0)]
            && tick.lines.widths == [1.0 + 2.0 * GrowStep]
            && tick.particles == Particles([], [], [], [])
            && Pending(InitialSchedule(|metas|), Dt) + tick.reactivations == InitialSchedule(|metas|)[1..]
  {
    FirstTick(|metas|);
    assert Activated([], InitialSchedule(|metas|), Dt, metas) == [NewRay(0)];
    FirstStep(metas, hypot);
  }

  /**
   * The body of `update` on the animation's values at time `now`: the
   * activations due start their rays, every active ray moves on one tick,
   * and each ray still is an active ray or a scheduled one, exactly once.
   */
  method UpdateStep(active: seq<ActiveRay>, schedule: seq<Activation>, now: real, metas: seq<RayMeta>, hypot: Hypot)
    returns (still: seq<ActiveRay>, lines: Lines, parts: Particles, newSchedule: seq<Activation>)
    requires MetasOk(metas) && RaysOk(active, metas) && SchedulesIn(schedule, |metas|)
    requires EachOnce(active, schedule, |metas|)
    ensures still == StepRays(Activated(active, schedule, now, metas), metas, now, hypot).still
    ensures lines == StepRays(Activated(active, schedule, now, metas), metas, now, hypot).lines
    ensures parts == StepRays(Activated(active, schedule, now, metas), metas, now, hypot).particles
    ensures newSchedule == Pending(schedule, now) + StepRays(Activated(active, schedule, now, metas), metas, now, hypot).reactivations
    ensures RaysOk(still, metas) && SchedulesIn(newSchedule, |metas|)
    ensures EachOnce(still, newSchedule, |metas|)
  {
    var sched, rays := ActivateDue(schedule, active, now);
    assert rays == Activated(active, schedule, now, metas);
    still, lines, parts, newSchedule := StepActive(rays, metas, now, hypot, sched);
    ghost var tick := StepRays(rays, metas, now, hypot);
    TickKeepsRays(active, schedule, now, metas, hypot, rays, tick);
    StepKeepsOk(rays, metas, now, hypot);
    StepReactivates(rays, metas, now, hypot);
    PendingIn(schedule, now, |metas|);
    SchedulesConcat(sched, tick.reactivations, |metas|);
  }

  /** The animation of one document. */
  class RaysView {
    const hypot: Hypot
    /** `rays_meta` */
    const meta: seq<RayMeta>
    /** `activation_schedule` */
    var schedule: seq<Activation>
    /** `active_rays` */
    var active: seq<ActiveRay>
    /** `current_time`, in seconds */
    var currentTime: real
    /** The data of `visible_rays_source` */
    var visibleRays: Lines
    /** The data of `particles_source` */
    var particles: Particles

    /**
     * Every active ray is a known ray in a state between ticks, every
     * scheduled activation is of a known ray, and every ray is either
     * active or scheduled, exactly once.
     */
    ghost predicate Valid()
      reads this
    {
      && MetasOk(meta)
      && RaysOk(active, meta)
      && SchedulesIn(schedule, |meta|)
      && EachOnce(active, schedule, |meta|)
    }

    /**
     * `animate_rays_cycle4_app(doc)` for the rays of a scene: nothing for a
     * scene without rays; otherwise the metadata of every ray, ray `i` due
     * `i * 0.2` seconds in, and a first `update`, which starts ray 0 only.
     */
    constructor (rayPaths: seq<seq<Point>>, hypot: Hypot)
      requires forall k :: 0 <= k < |rayPaths| ==> |rayPaths[k]| >= 1
      ensures this.hypot == hypot && meta == SceneMeta(rayPaths, hypot)
      ensures Valid()
      ensures |rayPaths| == 0 ==> currentTime == 0.0 && schedule == [] && active == []
      ensures |rayPaths| > 0 ==>
                && currentTime == Dt
                && schedule == InitialSchedule(|rayPaths|)[1..]
                && active == [ActiveRay(0, GrowStep, 0.0, Growing, 0)]
                && visibleRays.widths == [1.0 + 2.0 * GrowStep]
                && particles == Particles([], [], [], [])
    {
      this.hypot := hypot;
      visibleRays, particles := EmptyTick.lines, EmptyTick.particles;
      active, currentTime := [], 0.0;
      var metas := BuildMeta(rayPaths, hypot);
      var initial := BuildSchedule(|metas|);
      meta, schedule := metas, initial;
      new;
      InitialScheduleRays(|meta|);
      assert RayIds(active) == multiset{};
      assert Valid();
      if |meta| > 0 {
        FirstUpdate(meta, hypot);
        ghost var tick := StepRays(Activated([], InitialSchedule(|meta|), Dt, meta), meta, Dt, hypot);
        assert currentTime + Dt == Dt;
        Update();
        assert active == tick.still && visibleRays == tick.lines && particles == tick.particles;
        assert schedule == Pending(InitialSchedule(|meta|), Dt) + tick.reactivations;
      }
    }

    /**
     * `update`: time moves on one tick; the activations due start their
     * rays; every active ray moves on one tick and is drawn; the rays that
     * finish leave and are scheduled again.
     */
    method Update()
      requires Valid()
      modifies this`currentTime, this`schedule, this`active, this`visibleRays, this`particles
      ensures currentTime == old(currentTime) + Dt
      ensures active == StepRays(Activated(old(active), old(schedule), currentTime, meta), meta, currentTime, hypot).still
      ensures visibleRays == StepRays(Activated(old(active), old(schedule), currentTime, meta), meta, currentTime, hypot).lines
      ensures particles == StepRays(Activated(old(active), old(schedule), currentTime, meta), meta, currentTime, hypot).particles
      ensures schedule == Pending(old(schedule), currentTime)
                          + StepRays(Activated(old(active), old(schedule), currentTime, meta), meta, currentTime, hypot).reactivations
      ensures Valid()
    {
      var now := currentTime + Dt;
      var active0, schedule0, metas := active, schedule, meta;
      var still, lines, parts, newSchedule := UpdateStep(active0, schedule0, now, metas, hypot);
      currentTime := now;
      active, visibleRays, particles, schedule := still, lines, parts, newSchedule;
    }
  }
}
