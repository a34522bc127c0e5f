# TransformTween model

This is a Dafny model of `TransformTweenBehaviour`, the per-frame evaluator of a
Unity Timeline clip that moves a transform from a start anchor towards an end
transform. It covers the two pure parts of the behaviour and the step that
captures the anchor.

- **The path evaluator** (`TransformTween.LerpPosition`) maps progress `t` and the
  clip duration to a position. It uses one of three modes:
  - `Line`: a straight, clamped Vector3.Lerp.
  - `ParaHeight`: a parabola `y = A*X*X + B*X` fitted so that its apex is exactly
    `paraHeight`. When the target lies higher than that, it falls back to the line.
  - `ParaGravity`: a ballistic arc under `paraGravity` that reaches the end
    position's height at `t = 1`.
- **The easing evaluator** (`TransformTween.EvaluateCurrentCurve`) maps raw
  progress to eased progress through a built-in curve or the user's custom curve.
  It returns 0, and logs an error, when a custom curve does not start at (0,0) and
  end at (1,1) (`TransformTween.IsCustomCurveNormalised`).
- **Anchor capture** (`TransformTween.PrepareFrame`) copies the start transform's
  position and rotation, when that transform exists.

Floats are modelled as exact reals. The engine services the code calls are
parameters of the operations that use them, so every property holds for any
implementation meeting the stated constraint:

- Mathf.Sqrt is `sqrt`, constrained by `IsSqrt`.
- AnimationCurve.Evaluate is `evaluate`.
- Mathf.Approximately is `approx`, with `Exactly` as the zero-tolerance instance.

The end transform's position is read live in the source, so it is an argument,
`endPos`, of every path function.

The files are:
- `unity_math.dfy`: vectors, Clamp01, Lerp and the square root.
- `curves.dfy`: keyframes and curves.
- `height_arc.dfy`: the algebra of the fitted parabola.
- `tween.dfy`: the behaviour itself.
- `tween_properties.dfy`: the properties, plus worked examples for each mode.

Height mode returns the parabola's `Y` as it stands, without adding the start's
height. The arc therefore always leaves from height 0 and lands at the end's
height *relative to the start*. The model keeps this. `TweenProperties.HeightIgnoresStartHeight`
proves that the arc meets the start and the end exactly when the start is at height 0.

## Model

| member | source | states |
|---|---|---|
| `TransformTween.PrepareFrame` | TransformTween/TransformTweenBehaviour.cs:118-125 | An existing start transform's position and rotation become the anchor and the configuration is untouched; a missing one leaves the behaviour unchanged |
| `TweenProperties.PrepareFrameIdempotent` | TransformTween/TransformTweenBehaviour.cs:118-125 | Capturing the same start transform twice is the same as capturing it once |
| `TweenProperties.PreparedStartBeginsThePath` | TransformTween/TransformTweenBehaviour.cs:118-125 | After capture, the line and the gravity arc both begin exactly at the captured position |
| `TransformTween.LerpLinePosition` | TransformTween/TransformTweenBehaviour.cs:98-103 | The line is at the anchor for every t <= 0 and at the live end position for every t >= 1; `LineEndpoints` and `LineMonotone` give the path in between |
| `TweenProperties.LineEndpoints` | TransformTween/TransformTweenBehaviour.cs:98-103 | The line is at the start for every t <= 0 and at the end for every t >= 1; on [0, 1] each coordinate moves the fraction t of the way |
| `TweenProperties.LineMonotone` | TransformTween/TransformTweenBehaviour.cs:98-103 | As t grows, every coordinate of the line moves only towards the end |
| `TransformTween.LerpParaGravityPosition` | TransformTween/TransformTweenBehaviour.cs:50-63 | The gravity arc is at the anchor at t = 0 and exactly on the end position at t = 1; `GravityArcOverChord` gives its height for every t |
| `TweenProperties.BallisticClosedForm` | TransformTween/TransformTweenBehaviour.cs:56-61 | The launch-speed formula makes y(t) the chord height plus a lift of g*d*d*t*(1-t)/2 |
| `TweenProperties.GravityArcOverChord` | TransformTween/TransformTweenBehaviour.cs:50-63 | For every t, gravity-mode y is the straight chord's height plus that lift, whatever the gravity |
| `TweenProperties.GravityEndpoints` | TransformTween/TransformTweenBehaviour.cs:50-63 | The gravity arc leaves from the anchor at t = 0 and lands exactly on the end position at t = 1 |
| `TweenProperties.LiftPositive` | TransformTween/TransformTweenBehaviour.cs:57-61 | The lift is positive under positive gravity and duration for 0 < t < 1 |
| `TweenProperties.GravityAboveLine` | TransformTween/TransformTweenBehaviour.cs:50-63 | Under positive gravity the arc lies strictly above the line's height for 0 < t < 1 |
| `TweenProperties.ParabolasFollowLineHorizontally` | TransformTween/TransformTweenBehaviour.cs:59-94 | In both parabola modes x and z equal the line's, independently of height, gravity and duration |
| `TransformTween.HeightExceeded` | TransformTween/TransformTweenBehaviour.cs:73-77 | The fallback condition yDis > paraHeight; `HeightFallsBackToLine` states what it selects |
| `TransformTween.LerpParaHeightPosition` | TransformTween/TransformTweenBehaviour.cs:69-96 | Past the fallback, y is at most paraHeight; x and z are at the anchor for t <= 0 and at the end for t >= 1 in both branches; `HeightEndpoints`, `HeightPeakReached` and `HeightIgnoresStartHeight` give the rest |
| `TweenProperties.HeightFallsBackToLine` | TransformTween/TransformTweenBehaviour.cs:76-81 | When the end lies more than paraHeight above the start, height mode returns the line's position for every t |
| `TransformTween.HorizontalSpan` | TransformTween/TransformTweenBehaviour.cs:83-84 | The horizontal distance W is positive whenever the arc is fitted |
| `HeightArc.Height` | TransformTween/TransformTweenBehaviour.cs:91 | The parabola y = A*X*X + B*X; specified through `FitLands`, `FitBounded` and `FitApex` |
| `HeightArc.Fit` | TransformTween/TransformTweenBehaviour.cs:86-88 | The coefficients B and A as the code computes them; specified by `FitSigns`, `FitSpan`, `FitLands`, `FitBounded` and `FitApex` |
| `HeightArc.FitSigns` | TransformTween/TransformTweenBehaviour.cs:65-68 | The fitted coefficients satisfy a < 0 < b, as the comment above the method promises |
| `TweenProperties.HeightArcSigns` | TransformTween/TransformTweenBehaviour.cs:86-88 | The coefficients height mode actually computes satisfy A < 0 < B |
| `HeightArc.FitSpan` | TransformTween/TransformTweenBehaviour.cs:86-87 | B times W equals 2h(1 + sqrt(1 - yDis/h)) |
| `HeightArc.FitLands` | TransformTween/TransformTweenBehaviour.cs:86-91 | The fitted arc reaches height yDis after the full span W |
| `HeightArc.FitBounded` | TransformTween/TransformTweenBehaviour.cs:86-91 | The fitted arc is nowhere higher than h, inside or outside the span |
| `HeightArc.FitApex` | TransformTween/TransformTweenBehaviour.cs:86-91 | The arc equals h at X = 2h/B, which lies in (0, W] |
| `HeightArc.FitApexFraction` | TransformTween/TransformTweenBehaviour.cs:90-91 | Some progress t in (0, 1] puts X = t*W at the apex |
| `TweenProperties.RootOfRemainingHeight` | TransformTween/TransformTweenBehaviour.cs:77-86 | Past the fallback test, 1 - yDis/h is non-negative, so its root squares back to it |
| `TweenProperties.HeightBounded` | TransformTween/TransformTweenBehaviour.cs:65-95 | Past the fallback test, height mode never returns a y above paraHeight, for any t |
| `TweenProperties.HeightEndpoints` | TransformTween/TransformTweenBehaviour.cs:69-95 | Height mode gives y = 0 at t = 0 and y = yDis at t = 1, with x and z at the start and at the end |
| `TweenProperties.HeightPeakReached` | TransformTween/TransformTweenBehaviour.cs:65-95 | Some t in (0, 1] reaches exactly paraHeight, so the bound is attained |
| `TweenProperties.HeightIgnoresStartHeight` | TransformTween/TransformTweenBehaviour.cs:71-95 | The arc starts at the anchor, and lands on the end, exactly when the anchor is at height 0 |
| `TransformTween.LerpPosition` | TransformTween/TransformTweenBehaviour.cs:105-116 | In line and gravity mode the path starts at the anchor at t = 0 and ends on the end position at t = 1; in height mode y stays at most paraHeight past the fallback; `LerpPositionDispatch` gives the dispatch itself |
| `TweenProperties.LerpPositionDispatch` | TransformTween/TransformTweenBehaviour.cs:105-116 | Each mode selects its own formula, and the duration changes the result only in gravity mode |
| `TransformTween.LogsCurveError` | TransformTween/TransformTweenBehaviour.cs:129-131 | The error case: a Custom type whose curve is not normalised; `EvaluateCurrentCurve` states its result, and `SingleKeyCurveNeverNormalised` shows it for one-key curves under any tolerance below 1/2 |
| `TransformTween.EvaluateCurrentCurve` | TransformTween/TransformTweenBehaviour.cs:127-133 | A rejected custom curve evaluates to 0 |
| `TweenProperties.BuiltInEasingIgnoresCustomCurve` | TransformTween/TransformTweenBehaviour.cs:135-142 | Linear, Deceleration and Harmonic evaluate their own curve and never depend on the custom curve |
| `TweenProperties.NormalisedCustomCurveEvaluated` | TransformTween/TransformTweenBehaviour.cs:127-145 | A normalised custom curve is evaluated as it stands |
| `TransformTween.IsCustomCurveNormalised` | TransformTween/TransformTweenBehaviour.cs:148-160 | The first key is approximately (0,0) and the last approximately (1,1); specified by `NormalisedMeansUnitEndKeys` (exact comparison), `SingleKeyCurveNeverNormalised` (any tolerance below 1/2) and `DefaultCustomCurveNormalised` (any reflexive comparison) |
| `TweenProperties.NormalisedMeansUnitEndKeys` | TransformTween/TransformTweenBehaviour.cs:148-160 | With exact comparison, a curve is normalised if and only if its first key is (0,0) and its last is (1,1) |
| `TweenProperties.SingleKeyCurveNeverNormalised` | TransformTween/TransformTweenBehaviour.cs:148-160 | Under any comparison that never finds a value close to both 0 and 1 (every tolerance below 1/2, exact comparison included), a one-key custom curve is never normalised and evaluates to 0 |
| `TweenProperties.DefaultCustomCurveNormalised` | TransformTween/TransformTweenBehaviour.cs:23 | The default custom curve, Linear(0,0,1,1), passes the check under any reflexive comparison |
| `TweenProperties.EasingFixesEndpoints` | TransformTween/TransformTweenBehaviour.cs:27-33 | Under exact comparison, if evaluation passes through end keys and no error is logged, eased progress is 0 at time 0 and 1 at time 1 for every curve type |
| `TweenProperties.HeightExample` | TransformTween/TransformTweenBehaviour.cs:69-95 | From the origin to (10,0,0) with paraHeight 3, the midpoint is (5,3,0) |
| `TweenProperties.DegenerateHeightExample` | TransformTween/TransformTweenBehaviour.cs:76-81 | From the origin to (0,5,0) with paraHeight 3, every t follows the line |
| `TweenProperties.GravityExample` | TransformTween/TransformTweenBehaviour.cs:50-63 | From the origin to (0,-5,0) over 2 s under gravity 9.8, the arc lands at height -5 |
| `TweenProperties.CustomCurveExample` | TransformTween/TransformTweenBehaviour.cs:127-160 | Under any comparison that tells 0.1 from 0, a custom curve from (0,0.1) to (1,1) evaluates to 0; under any comparison that accepts 0 against 0 and 1 against 1, one from (0,0) to (1,1) is evaluated |

## Left out

- **Engine internals.** How AnimationCurve.Evaluate interpolates between keys, and the tolerance of Mathf.Approximately, are not modelled; both are parameters. The easing curves' shapes are therefore not modelled: their monotonicity, symmetry and the exact values between the keys.
- **Floats.** Single-precision rounding, NaN and infinity are not modelled; arithmetic is exact.
  - `RightAngleInRads` is the single-precision value of PI/2.
- **Transform, Playable and FrameData plumbing** is reduced to its data.
  - The start transform is `Option<Pose>`, with None standing for a missing or destroyed transform.
  - The end transform is its live position `endPos`.
- **The mixer that applies positions and rotations** is not part of this model, nor is the editor drawer. That includes the rotation slerp.
  - `tweenPosition`, `tweenRotation` and the captured rotation are stored but read by nothing modelled here.
- **Logging.** The warning on the height fallback and the error on a rejected custom curve are side effects. They are modelled as the predicates `HeightExceeded` and `LogsCurveError`, which say when each is emitted.
- **TransformTween.LerpParaHeightPosition** requires, past the fallback only, a positive `paraHeight` and a positive horizontal distance.
  - The code guards neither. A zero `paraHeight` divides by zero. A negative one takes the root of a negative number, except when yDis equals it exactly. There the code fits a finite arc that opens upwards, with A > 0. A zero horizontal distance divides by zero and produces a non-finite float.
  - These inputs are excluded rather than given a made-up result.
- **TransformTween.LerpParaGravityPosition** requires a positive duration. The code divides by it unguarded.
- **TransformTween.IsCustomCurveNormalised** requires a custom curve with at least one key. The code indexes the first key of an empty curve and throws; the model excludes that case rather than invent a result.

