/**
 * A model of the curve-point generator of a WebGL Bezier demo: a cubic Bezier
 * curve in three dimensions is sampled at evenly spaced parameter values and
 * the samples are flattened into one interleaved x, y, z buffer, which the
 * demo then draws as a line strip.
 *
 * Coordinates are exact reals rather than IEEE doubles, so the endpoint and
 * degenerate-case facts below hold exactly.
 */
module CubicBezier {

  /** A point in space; the source passes plain objects `{ x, y, z }`. */
  datatype Point = Point(x: real, y: real, z: real)

  /** An optional argument: `None` is a missing (or otherwise falsy) argument. */
  datatype Option<T> = None | Some(value: T)

  /** Number of samples used when the caller gives none. */
  const DefaultCount: int := 100

  /** Parameter scale used when the caller gives none. */
  const DefaultTick: real := 1.0

  // ---------------------------------------------------------------------
  // The scalar cubic Bezier polynomial (`Bezier`)
  // ---------------------------------------------------------------------

  /** One coordinate of a cubic Bezier curve at parameter `t`, in Bernstein form. */
  function Bezier(p0: real, p1: real, p2: real, p3: real, t: real): real
  {
    var P0 := p0 * ((1.0 - t) * (1.0 - t) * (1.0 - t));
    var P1 := 3.0 * p1 * t * ((1.0 - t) * (1.0 - t));
    var P2 := 3.0 * p2 * (t * t) * (1.0 - t);
    var P3 := p3 * (t * t * t);
    P0 + P1 + P2 + P3
  }

  /** Linear interpolation between `a` and `b`. */
  function Lerp(a: real, b: real, t: real): real
  {
    (1.0 - t) * a + t * b
  }

  /**
   * de Casteljau's construction of the same curve by repeated linear
   * interpolation: an independent definition the polynomial is proved equal to.
   */
  function DeCasteljau(p0: real, p1: real, p2: real, p3: real, t: real): real
  {
    var q0, q1, q2 := Lerp(p0, p1, t), Lerp(p1, p2, t), Lerp(p2, p3, t);
    var r0, r1 := Lerp(q0, q1, t), Lerp(q1, q2, t);
    Lerp(r0, r1, t)
  }

  lemma BezierAtZero(p0: real, p1: real, p2: real, p3: real)
    ensures Bezier(p0, p1, p2, p3, 0.0) == p0
  {
  }

  lemma BezierAtOne(p0: real, p1: real, p2: real, p3: real)
    ensures Bezier(p0, p1, p2, p3, 1.0) == p3
  {
  }

  /** The four Bernstein weights, as the polynomial uses them, add up to one. */
  lemma BernsteinWeightsSumToOne(t: real)
    ensures (1.0 - t) * (1.0 - t) * (1.0 - t) + 3.0 * t * ((1.0 - t) * (1.0 - t))
            + 3.0 * (t * t) * (1.0 - t) + t * t * t == 1.0
  {
  }

  /** With all four control values equal, the curve stays at that value. */
  lemma BezierOfConstant(c: real, t: real)
    ensures Bezier(c, c, c, c, t) == c
  {
    BernsteinWeightsSumToOne(t);
  }

  /** The midpoint of the curve weighs the control values 1, 3, 3, 1 over 8. */
  lemma BezierAtHalf(p0: real, p1: real, p2: real, p3: real)
    ensures Bezier(p0, p1, p2, p3, 0.5) == (p0 + 3.0 * p1 + 3.0 * p2 + p3) / 8.0
  {
  }

  /** Traversing the control values backwards traverses the curve backwards. */
  lemma BezierReversed(p0: real, p1: real, p2: real, p3: real, t: real)
    ensures Bezier(p3, p2, p1, p0, 1.0 - t) == Bezier(p0, p1, p2, p3, t)
  {
  }

  /** The Bernstein polynomial and de Casteljau's construction agree everywhere. */
  lemma BezierIsDeCasteljau(p0: real, p1: real, p2: real, p3: real, t: real)
    ensures Bezier(p0, p1, p2, p3, t) == DeCasteljau(p0, p1, p2, p3, t)
  {
  }

  // ---------------------------------------------------------------------
  // A point of the curve (`getBezierNowPoint`)
  // ---------------------------------------------------------------------

  /**
   * The point of the curve for sample number `num` with step `tick`: each axis
   * is evaluated independently at the same parameter `num * tick`.
   */
  function BezierNowPoint(p0: Point, p1: Point, p2: Point, p3: Point, num: int, tick: real): Point
  {
    var t := num as real * tick;
    Point(Bezier(p0.x, p1.x, p2.x, p3.x, t),
          Bezier(p0.y, p1.y, p2.y, p3.y, t),
          Bezier(p0.z, p1.z, p2.z, p3.z, t))
  }

  function PointLerp(a: Point, b: Point, t: real): Point
  {
    Point(Lerp(a.x, b.x, t), Lerp(a.y, b.y, t), Lerp(a.z, b.z, t))
  }

  /** de Casteljau's construction carried out on whole points. */
  function DeCasteljauPoint(p0: Point, p1: Point, p2: Point, p3: Point, t: real): Point
  {
    var q0, q1, q2 := PointLerp(p0, p1, t), PointLerp(p1, p2, t), PointLerp(p2, p3, t);
    var r0, r1 := PointLerp(q0, q1, t), PointLerp(q1, q2, t);
    PointLerp(r0, r1, t)
  }

  /** Evaluating axis by axis gives the geometric (de Casteljau) point of the curve. */
  lemma BezierNowPointIsDeCasteljau(p0: Point, p1: Point, p2: Point, p3: Point, num: int, tick: real)
    ensures BezierNowPoint(p0, p1, p2, p3, num, tick)
         == DeCasteljauPoint(p0, p1, p2, p3, num as real * tick)
  {
    var t := num as real * tick;
    BezierIsDeCasteljau(p0.x, p1.x, p2.x, p3.x, t);
    BezierIsDeCasteljau(p0.y, p1.y, p2.y, p3.y, t);
    BezierIsDeCasteljau(p0.z, p1.z, p2.z, p3.z, t);
  }

  /** Sample number 0 is the start point, whatever the step. */
  lemma BezierNowPointAtStart(p0: Point, p1: Point, p2: Point, p3: Point, tick: real)
    ensures BezierNowPoint(p0, p1, p2, p3, 0, tick) == p0
  {
    BezierAtZero(p0.x, p1.x, p2.x, p3.x);
    BezierAtZero(p0.y, p1.y, p2.y, p3.y);
    BezierAtZero(p0.z, p1.z, p2.z, p3.z);
  }

  /** A sample whose parameter `num * tick` is 1 is the end point. */
  lemma BezierNowPointAtEnd(p0: Point, p1: Point, p2: Point, p3: Point, num: int, tick: real)
    requires num as real * tick == 1.0
    ensures BezierNowPoint(p0, p1, p2, p3, num, tick) == p3
  {
    BezierAtOne(p0.x, p1.x, p2.x, p3.x);
    BezierAtOne(p0.y, p1.y, p2.y, p3.y);
    BezierAtOne(p0.z, p1.z, p2.z, p3.z);
  }

  /** A sample whose parameter is 1/2 weighs the control points 1, 3, 3, 1 over 8. */
  lemma BezierNowPointAtHalf(p0: Point, p1: Point, p2: Point, p3: Point, num: int, tick: real)
    requires num as real * tick == 0.5
    ensures BezierNowPoint(p0, p1, p2, p3, num, tick)
         == Point((p0.x + 3.0 * p1.x + 3.0 * p2.x + p3.x) / 8.0,
                  (p0.y + 3.0 * p1.y + 3.0 * p2.y + p3.y) / 8.0,
                  (p0.z + 3.0 * p1.z + 3.0 * p2.z + p3.z) / 8.0)
  {
    BezierAtHalf(p0.x, p1.x, p2.x, p3.x);
    BezierAtHalf(p0.y, p1.y, p2.y, p3.y);
    BezierAtHalf(p0.z, p1.z, p2.z, p3.z);
  }

  /** A curve whose four control points coincide is that single point. */
  lemma BezierNowPointOfConstant(c: Point, num: int, tick: real)
    ensures BezierNowPoint(c, c, c, c, num, tick) == c
  {
    var t := num as real * tick;
    BezierOfConstant(c.x, t);
    BezierOfConstant(c.y, t);
    BezierOfConstant(c.z, t);
  }

  // ---------------------------------------------------------------------
  // Sampling the curve (`create3DBezier`)
  // ---------------------------------------------------------------------

  /** The sample count after the `num || 100` default. */
  function EffectiveCount(num: Option<int>): (n: int)
    ensures n != 0
    ensures num == None || num == Some(0) ==> n == DefaultCount
    ensures num.Some? && num.value != 0 ==> n == num.value
  {
    match num
    case Some(k) => if k != 0 then k else DefaultCount
    case None => DefaultCount
  }

  /** The parameter scale after the `tick || 1.0` default. */
  function EffectiveTick(tick: Option<real>): (k: real)
    ensures k != 0.0
    ensures tick == None || tick == Some(0.0) ==> k == DefaultTick
    ensures tick.Some? && tick.value != 0.0 ==> k == tick.value
  {
    match tick
    case Some(v) => if v != 0.0 then v else DefaultTick
    case None => DefaultTick
  }

  /** The parameter increment between consecutive samples; undefined for one sample. */
  function Step(count: int, tick: real): real
    requires count != 1
  {
    tick / (count - 1) as real
  }

  /** The sampled points, in increasing sample index; none for a negative count. */
  function Samples(p0: Point, p1: Point, p2: Point, p3: Point, count: int, step: real): (ps: seq<Point>)
  {
    var n := if count > 0 then count else 0;
    seq(n, i requires 0 <= i < n => BezierNowPoint(p0, p1, p2, p3, i, step))
  }

  /** The points laid out one after another as x, y, z triples. */
  function Flatten(ps: seq<Point>): (r: seq<real>)
    ensures |r| == 3 * |ps|
  {
    if ps == [] then []
    else
      var last := ps[|ps| - 1];
      Flatten(ps[..|ps| - 1]) + [last.x, last.y, last.z]
  }

  /** Appending one point appends its x, y and z, in that order. */
  lemma FlattenAppend(ps: seq<Point>, p: Point)
    ensures Flatten(ps + [p]) == Flatten(ps) + [p.x, p.y, p.z]
  {
    assert (ps + [p])[..|ps|] == ps;
  }

  /** Triple number `i` of the layout is point number `i`. */
  lemma {:induction false} FlattenAt(ps: seq<Point>, i: int)
    requires 0 <= i < |ps|
    ensures Flatten(ps)[3 * i] == ps[i].x
    ensures Flatten(ps)[3 * i + 1] == ps[i].y
    ensures Flatten(ps)[3 * i + 2] == ps[i].z
  {
    var init := ps[..|ps| - 1];
    if i < |ps| - 1 {
      FlattenAt(init, i);
      assert init[i] == ps[i];
    }
  }

  /** The buffer `create3DBezier` returns, as a function of its arguments. */
  function CurveBuffer(p0: Point, p1: Point, p2: Point, p3: Point, num: Option<int>, tick: Option<real>): seq<real>
    requires EffectiveCount(num) != 1
  {
    var count := EffectiveCount(num);
    Flatten(Samples(p0, p1, p2, p3, count, Step(count, EffectiveTick(tick))))
  }

  /**
   * Samples the curve and pushes the x, y and z of each sample, in increasing
   * sample index, onto an initially empty buffer.
   */
  method Create3DBezier(p0: Point, p1: Point, p2: Point, p3: Point, num: Option<int>, tick: Option<real>)
    returns (points: seq<real>)
    requires EffectiveCount(num) != 1
    ensures points == CurveBuffer(p0, p1, p2, p3, num, tick)
  {
    var pointMum := EffectiveCount(num);
    var tick' := EffectiveTick(tick);
    var t := tick' / (pointMum - 1) as real;
    ghost var all := Samples(p0, p1, p2, p3, pointMum, t);
    points := [];
    var i := 0;
    while i < pointMum
      invariant 0 <= i <= |all|
      invariant points == Flatten(all[..i])
    {
      var point := BezierNowPoint(p0, p1, p2, p3, i, t);
      points := points + [point.x];
      points := points + [point.y];
      points := points + [point.z];
      assert all[..i + 1] == all[..i] + [point];
      FlattenAppend(all[..i], point);
      i := i + 1;
    }
    assert all[..i] == all;
  }

  // ---------------------------------------------------------------------
  // Properties of the sampled buffer
  // ---------------------------------------------------------------------

  /** The buffer holds one x, y, z triple per sample. */
  lemma CurveBufferLength(p0: Point, p1: Point, p2: Point, p3: Point, num: Option<int>, tick: Option<real>)
    requires EffectiveCount(num) != 1
    ensures EffectiveCount(num) > 0 ==> |CurveBuffer(p0, p1, p2, p3, num, tick)| == 3 * EffectiveCount(num)
    ensures EffectiveCount(num) < 0 ==> CurveBuffer(p0, p1, p2, p3, num, tick) == []
  {
  }

  /**
   * Triple number `i` of the buffer is the point of the curve at parameter
   * `i * step`, so the samples appear in increasing sample index.
   */
  lemma CurveBufferAt(p0: Point, p1: Point, p2: Point, p3: Point, num: Option<int>, tick: Option<real>, i: int)
    requires EffectiveCount(num) != 1
    requires 0 <= i < EffectiveCount(num)
    ensures var buf := CurveBuffer(p0, p1, p2, p3, num, tick);
      var pt := BezierNowPoint(p0, p1, p2, p3, i, Step(EffectiveCount(num), EffectiveTick(tick)));
      && 3 * i + 2 < |buf|
      && buf[3 * i] == pt.x && buf[3 * i + 1] == pt.y && buf[3 * i + 2] == pt.z
  {
    var count := EffectiveCount(num);
    var step := Step(count, EffectiveTick(tick));
    var ps := Samples(p0, p1, p2, p3, count, step);
    FlattenAt(ps, i);
  }

  /** The first triple is the start point `p0`. */
  lemma CurveBufferStartsAtP0(p0: Point, p1: Point, p2: Point, p3: Point, num: Option<int>, tick: Option<real>)
    requires EffectiveCount(num) > 1
    ensures var buf := CurveBuffer(p0, p1, p2, p3, num, tick);
      && |buf| >= 3
      && buf[0] == p0.x && buf[1] == p0.y && buf[2] == p0.z
  {
    CurveBufferAt(p0, p1, p2, p3, num, tick, 0);
    BezierNowPointAtStart(p0, p1, p2, p3, Step(EffectiveCount(num), EffectiveTick(tick)));
  }

  /** The last of two or more samples is taken at parameter `tick` itself. */
  lemma LastParameterIsTick(count: int, tick: real)
    requires count >= 2
    ensures (count - 1) as real * Step(count, tick) == tick
  {
    var d := (count - 1) as real;
    assert d * (tick / d) == tick;
  }

  /** With the default parameter scale the last triple is the end point `p3`. */
  lemma CurveBufferEndsAtP3(p0: Point, p1: Point, p2: Point, p3: Point, num: Option<int>, tick: Option<real>)
    requires EffectiveCount(num) > 1
    requires EffectiveTick(tick) == 1.0
    ensures var buf := CurveBuffer(p0, p1, p2, p3, num, tick);
      && |buf| >= 3
      && buf[|buf| - 3] == p3.x && buf[|buf| - 2] == p3.y && buf[|buf| - 1] == p3.z
  {
    var n := EffectiveCount(num);
    LastParameterIsTick(n, 1.0);
    CurveBufferAt(p0, p1, p2, p3, num, tick, n - 1);
    BezierNowPointAtEnd(p0, p1, p2, p3, n - 1, Step(n, 1.0));
  }

  /** When all four control points coincide, every sample is that point. */
  lemma CurveBufferOfConstant(c: Point, num: Option<int>, tick: Option<real>, i: int)
    requires EffectiveCount(num) != 1
    requires 0 <= i < EffectiveCount(num)
    ensures var buf := CurveBuffer(c, c, c, c, num, tick);
      && 3 * i + 2 < |buf|
      && buf[3 * i] == c.x && buf[3 * i + 1] == c.y && buf[3 * i + 2] == c.z
  {
    CurveBufferAt(c, c, c, c, num, tick, i);
    BezierNowPointOfConstant(c, i, Step(EffectiveCount(num), EffectiveTick(tick)));
  }

  /** For two or more samples and a positive scale the sample parameters strictly increase. */
  lemma SampleParametersIncrease(count: int, tick: real, i: int, j: int)
    requires count >= 2 && tick > 0.0
    requires 0 <= i < j < count
    ensures i as real * Step(count, tick) < j as real * Step(count, tick)
  {
    var s := Step(count, tick);
    assert s > 0.0;
    assert j as real * s - i as real * s == (j - i) as real * s > 0.0;
  }

  /** Of five samples with the default scale, the middle one lies at parameter 1/2. */
  lemma CurveBufferMidpointOfFive(p0: Point, p1: Point, p2: Point, p3: Point, num: Option<int>, tick: Option<real>)
    requires EffectiveCount(num) == 5 && EffectiveTick(tick) == 1.0
    ensures var buf := CurveBuffer(p0, p1, p2, p3, num, tick);
      && |buf| == 15
      && buf[6] == (p0.x + 3.0 * p1.x + 3.0 * p2.x + p3.x) / 8.0
      && buf[7] == (p0.y + 3.0 * p1.y + 3.0 * p2.y + p3.y) / 8.0
      && buf[8] == (p0.z + 3.0 * p1.z + 3.0 * p2.z + p3.z) / 8.0
  {
    var step := Step(5, 1.0);
    assert 2 as real * step == 0.5;
    CurveBufferAt(p0, p1, p2, p3, num, tick, 2);
    BezierNowPointAtHalf(p0, p1, p2, p3, 2, step);
  }

  /**
   * Five samples of the curve through (0,0,0), (0,1,0), (1,1,0), (1,0,0):
   * it starts at the first point, passes (0.5, 0.75, 0) halfway and ends at
   * the last point.
   */
  lemma CurveBufferExample()
    ensures var buf := CurveBuffer(Point(0.0, 0.0, 0.0), Point(0.0, 1.0, 0.0), Point(1.0, 1.0, 0.0),
                                   Point(1.0, 0.0, 0.0), Some(5), Some(1.0));
      && |buf| == 15
      && buf[0] == 0.0 && buf[1] == 0.0 && buf[2] == 0.0
      && buf[6] == 0.5 && buf[7] == 0.75 && buf[8] == 0.0
      && buf[12] == 1.0 && buf[13] == 0.0 && buf[14] == 0.0
  {
    var p0, p1 := Point(0.0, 0.0, 0.0), Point(0.0, 1.0, 0.0);
    var p2, p3 := Point(1.0, 1.0, 0.0), Point(1.0, 0.0, 0.0);
    CurveBufferMidpointOfFive(p0, p1, p2, p3, Some(5), Some(1.0));
    CurveBufferStartsAtP0(p0, p1, p2, p3, Some(5), Some(1.0));
    CurveBufferEndsAtP3(p0, p1, p2, p3, Some(5), Some(1.0));
  }
}
