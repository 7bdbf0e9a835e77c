# Cubic Bezier curve sampler

A Dafny model of the curve-point generator of a small WebGL demo that draws one
cubic Bezier curve as a line strip. The generator, `create3DBezier`, takes four
control points `p0 .. p3`, a sample count `num` and a parameter scale `tick`,
replaces a falsy count by 100 and a falsy scale by 1.0, and computes the step
`tick / (count - 1)`. For each sample index `i` from 0 up to the count it
evaluates the point of the curve at parameter `i * step` (`getBezierNowPoint`,
which applies the scalar Bernstein polynomial `Bezier` to the x, y and z axes in
turn) and pushes its x, y and z onto a flat array.

The model lives in `bezier.dfy`, module `CubicBezier`:

- `Bezier`, `BezierNowPoint` are the two pure evaluators, as functions over
  `real`. `Math.pow(x, 2)` and `Math.pow(x, 3)` are written as products.
- `Create3DBezier` is the sampling loop, as a method that appends to a
  `seq<real>` accumulator. It is proved equal to `CurveBuffer`, which is defined
  as `Flatten(Samples(...))`.
- The count and scale arguments are `Option<int>` and `Option<real>`. `None`
  stands for an absent or otherwise falsy argument. `EffectiveCount` and
  `EffectiveTick` apply the `||` defaults.
- `DeCasteljau` and `DeCasteljauPoint` give the same curve by repeated linear
  interpolation. They are an independent definition that the Bernstein form is
  proved against.

Coordinates are exact reals, so the endpoint, midpoint and constant-curve facts
hold exactly rather than within a floating-point tolerance. The functions are
deterministic by construction, so identical inputs give identical buffers.

Two edge cases of the code need a note: a negative count is modelled as the
code behaves, and a count of 1 is excluded.

- A negative count is not rejected. The loop runs zero times and the buffer is
  empty. `CurveBufferLength` states this.
- A count of 1 (given, not defaulted) divides by zero at `index.js:109`. The
  step becomes plus or minus Infinity, and sample 0 evaluates at
  `0 * Infinity`, which is NaN. So the only point emitted is NaN, including the
  first one. The model excludes this input by the precondition
  `EffectiveCount(num) != 1`; the source has no guard for it.

## Model

| member | source | states |
|---|---|---|
| CubicBezier.BezierAtZero | index.js:131-139 | at parameter 0 the polynomial gives the first control value exactly |
| CubicBezier.BezierAtOne | index.js:131-139 | at parameter 1 the polynomial gives the last control value exactly |
| CubicBezier.BernsteinWeightsSumToOne | index.js:133-138 | the four weights the source multiplies the control values by add up to 1 for every parameter |
| CubicBezier.BezierOfConstant | index.js:131-139 | with all four control values equal to c the polynomial is c at every parameter |
| CubicBezier.BezierAtHalf | index.js:131-139 | at parameter 1/2 the polynomial is (p0 + 3 p1 + 3 p2 + p3) / 8 |
| CubicBezier.BezierReversed | index.js:131-139 | reversing the control values and replacing t by 1 - t gives the same value |
| CubicBezier.BezierIsDeCasteljau | index.js:131-139 | the Bernstein formula equals de Casteljau's three rounds of linear interpolation, for every parameter |
| CubicBezier.BezierNowPointIsDeCasteljau | index.js:151-157 | the axis-by-axis point at `num * tick` is the de Casteljau point of the four control points at that parameter |
| CubicBezier.BezierNowPointAtStart | index.js:151-157 | sample number 0 is the start point p0, whatever the step |
| CubicBezier.BezierNowPointAtEnd | index.js:151-157 | a sample whose parameter `num * tick` is 1 is the end point p3 |
| CubicBezier.BezierNowPointAtHalf | index.js:151-157 | a sample whose parameter is 1/2 is the 1-3-3-1 weighted average of the control points, on each axis |
| CubicBezier.BezierNowPointOfConstant | index.js:151-157 | if all four control points are the same point, every sample is that point |
| CubicBezier.EffectiveCount | index.js:107 | an absent or zero count becomes 100, any other count passes through unchanged, and the result is never 0 |
| CubicBezier.EffectiveTick | index.js:108 | an absent or zero scale becomes 1.0, any other scale passes through unchanged, and the result is never 0 |
| CubicBezier.Flatten | index.js:113-115 | laying points out as x, y, z triples gives three numbers per point |
| CubicBezier.FlattenAppend | index.js:113-115 | adding one more point to the layout appends its x, y and z, in that order, after everything already there |
| CubicBezier.FlattenAt | index.js:110-118 | triple number i of the flat layout holds exactly the x, y and z of point number i |
| CubicBezier.Create3DBezier | index.js:106-119 | the pushing loop returns exactly `CurveBuffer` of its arguments, whenever the effective count is not 1 |
| CubicBezier.CurveBufferLength | index.js:110-118 | the buffer has 3 × count numbers for a positive count and is empty for a negative count |
| CubicBezier.CurveBufferAt | index.js:111-116 | for every sample index i, entries 3i, 3i+1 and 3i+2 are the x, y and z of the curve point at parameter i × step, so points appear in increasing sample order |
| CubicBezier.LastParameterIsTick | index.js:109-112 | for two or more samples the last sample is taken at parameter `tick` itself |
| CubicBezier.CurveBufferStartsAtP0 | index.js:109-116 | for two or more samples the first triple of the buffer is p0, whatever the scale |
| CubicBezier.CurveBufferEndsAtP3 | index.js:109-116 | for two or more samples with effective scale 1.0 the last triple of the buffer is p3 |
| CubicBezier.CurveBufferOfConstant | index.js:109-116 | when all four control points are equal, every triple of the buffer is that point |
| CubicBezier.SampleParametersIncrease | index.js:109-112 | for two or more samples and a positive scale, sample parameters strictly increase with the sample index |
| CubicBezier.CurveBufferMidpointOfFive | index.js:106-119 | with five samples and scale 1.0, the middle triple is (p0 + 3 p1 + 3 p2 + p3) / 8 on each axis |
| CubicBezier.CurveBufferExample | index.js:106-119 | sampling (0,0,0), (0,1,0), (1,1,0), (1,0,0) five times gives 15 numbers: it starts at (0,0,0), passes (0.5, 0.75, 0) in the middle and ends at (1,0,0) |

## Left out

- The `window.onload` entry point (index.js:14-93) is not modelled. It acquires the canvas and WebGL context, compiles and links the shaders (throwing on failure), looks up the attribute and uniform, uploads the buffer and issues the draw call. All of it is calls into the browser's graphics API.
- The GLSL shader source strings (index.js:1-12) are not modelled: they are text with no logic here.
- The conversion of the buffer to a `Float32Array` (index.js:72) and IEEE double rounding in `Math.pow` and the arithmetic are not modelled. Coordinates are exact reals, so the model states the endpoint facts exactly where the program reaches them up to rounding.
- Create3DBezier: an effective count of 1 is excluded by precondition. The source divides by zero there and emits a single NaN point, which has no counterpart among reals.
- EffectiveCount: only integer counts are modelled. A fractional count `c` would make the loop run max(0, ceil(c)) times with step `tick / (c - 1)`.
- EffectiveTick: the falsy values NaN, `null`, `false` and `""` behave like an absent argument in both `||` defaults, so `None` stands for all of them. Non-numeric truthy arguments, such as a numeric string, are not modelled.
- Control points are records of three reals. Objects with missing or non-numeric coordinates are not modelled.
