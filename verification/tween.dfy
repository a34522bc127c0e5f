/**
 TransformTweenBehaviour: the per-frame evaluator of a timeline clip that moves
 a transform from a start anchor towards an end transform.

 Two independent parts:
 - the path evaluator (`LerpPosition`) maps progress `t` and the clip duration
   to a position, along a straight line, a parabola bounded by a maximum
   height, or a ballistic arc under a configured gravity;
 - the easing evaluator (`EvaluateCurrentCurve`) maps raw progress to eased
   progress through a built-in or a user-supplied curve, refusing a custom
   curve that does not run from (0,0) to (1,1).

 The start anchor is captured by `PrepareFrame`; the end position is read
 live, so every path function takes it as the argument `endPos`.
 */
module TransformTween {
  import opened UnityMath
  import opened Curves
  import HeightArc

  datatype Option<T> = None | Some(value: T)

  datatype TweenType = Linear | Deceleration | Harmonic | Custom

  datatype TweenMode = Line | ParaHeight | ParaGravity

  /** What a live Transform exposes to the tween: where it is and how it is turned. */
  datatype Pose = Pose(position: Vector3, rotation: Quaternion)

  /** The fields a user sets before playback; evaluation only reads them. */
  datatype Config = Config(
    tweenPosition: bool,
    tweenRotation: bool,
    tweenType: TweenType,
    customCurve: AnimationCurve,
    tweenMode: TweenMode,
    paraHeight: real,
    paraGravity: real)

  /** The configuration together with the start anchor captured by `PrepareFrame`. */
  datatype Behaviour = Behaviour(
    config: Config,
    startingPosition: Vector3,
    startingRotation: Quaternion)

  /** The field initialisers of a freshly created behaviour. */
  const DefaultConfig: Config := Config(true, true, Linear, Linear01, Line, 3.0, 10.0)
  const DefaultBehaviour: Behaviour := Behaviour(DefaultConfig, Zero, Identity)

  /** Mathf.PI * 0.5f, as the single-precision value it rounds to. */
  const RightAngleInRads: real := 1.57079637050628662109375

  // The built-in easing curves, shared by every behaviour.
  const LinearCurve: AnimationCurve := Linear01
  const DecelerationCurve: AnimationCurve :=
    AnimationCurve([Keyframe(0.0, 0.0, -RightAngleInRads, RightAngleInRads), Keyframe(1.0, 1.0, 0.0, 0.0)])
  const HarmonicCurve: AnimationCurve := EaseInOut01

  // ---------------------------------------------------------------------------
  // Path evaluator
  // ---------------------------------------------------------------------------

  /** Line mode: Vector3.Lerp from the captured start to the live end position. */
  function LerpLinePosition(b: Behaviour, endPos: Vector3, t: real): (r: Vector3)
    ensures t <= 0.0 ==> r == b.startingPosition
    ensures t >= 1.0 ==> r == endPos
  {
    LerpVector(b.startingPosition, endPos, t)
  }

  /**
   ParaGravity mode: x and z follow the line, y follows s = v*t - g*t*t/2 over
   the elapsed time t * duration, with the launch speed chosen so that the arc
   ends at the end position's height.
   */
  function LerpParaGravityPosition(b: Behaviour, endPos: Vector3, t: real, duration: real): (r: Vector3)
    requires 0.0 < duration
    ensures t == 0.0 ==> r == b.startingPosition
    ensures t == 1.0 ==> r == endPos
  {
    var curTime := t * duration;
    var startPos := b.startingPosition;
    var g := b.config.paraGravity;
    var yDis := endPos.y - startPos.y;
    var vy := yDis / duration + 0.5 * g * duration;
    var curX := Lerp(startPos.x, endPos.x, t);
    var curZ := Lerp(startPos.z, endPos.z, t);
    var curY := vy * curTime - 0.5 * g * curTime * curTime + startPos.y;
    assert t == 1.0 ==> curY == endPos.y by {
      if t == 1.0 {
        assert vy * duration == yDis + 0.5 * g * duration * duration;
      }
    }
    Vector3(curX, curY, curZ)
  }

  /** The end lies higher above the start than the arc may rise: height mode degrades to a line (and logs a warning). */
  predicate HeightExceeded(b: Behaviour, endPos: Vector3)
  {
    endPos.y - b.startingPosition.y > b.config.paraHeight
  }

  /**
   What height mode needs of its inputs: a genuine square root and, whenever
   the arc is fitted, a positive maximum height and a non-zero horizontal
   distance to divide by. The fallback to the line needs neither.
   */
  ghost predicate HeightModeReady(b: Behaviour, endPos: Vector3, sqrt: SquareRoot)
  {
    && IsSqrt(sqrt)
    && (!HeightExceeded(b, endPos) ==>
          0.0 < b.config.paraHeight && 0.0 < HorizontalSqrDistance(b.startingPosition, endPos))
  }

  /** The horizontal distance W from the start to the end position. */
  function HorizontalSpan(b: Behaviour, endPos: Vector3, sqrt: SquareRoot): (w: real)
    requires HeightModeReady(b, endPos, sqrt) && !HeightExceeded(b, endPos)
    ensures 0.0 < w
  {
    SqrtPositive(sqrt, HorizontalSqrDistance(b.startingPosition, endPos));
    sqrt(HorizontalSqrDistance(b.startingPosition, endPos))
  }

  /** The parabola y = A*X*X + B*X that height mode fits for these anchors. */
  function HeightModeArc(b: Behaviour, endPos: Vector3, sqrt: SquareRoot): HeightArc.Parabola
    requires HeightModeReady(b, endPos, sqrt) && !HeightExceeded(b, endPos)
  {
    var yDis := endPos.y - b.startingPosition.y;
    var h := b.config.paraHeight;
    HeightArc.Fit(h, HorizontalSpan(b, endPos, sqrt), sqrt(1.0 - yDis / h))
  }

  /**
   ParaHeight mode: x and z follow the line; y is the fitted parabola at
   X = t * W, returned as it is, without adding the start's height. Past the
   fallback, y never rises above paraHeight.
   */
  function LerpParaHeightPosition(b: Behaviour, endPos: Vector3, t: real, sqrt: SquareRoot): (r: Vector3)
    requires HeightModeReady(b, endPos, sqrt)
    ensures !HeightExceeded(b, endPos) ==> r.y <= b.config.paraHeight
    ensures t <= 0.0 ==> r.x == b.startingPosition.x && r.z == b.startingPosition.z
    ensures t >= 1.0 ==> r.x == endPos.x && r.z == endPos.z
  {
    var startPos := b.startingPosition;
    if HeightExceeded(b, endPos) then
      LerpLinePosition(b, endPos, t)
    else
      var h := b.config.paraHeight;
      var W := HorizontalSpan(b, endPos, sqrt);
      var X := t * W;
      HeightArc.FitBounded(h, W, sqrt(1.0 - (endPos.y - startPos.y) / h), X);
      var Y := HeightArc.Height(HeightModeArc(b, endPos, sqrt), X);
      Vector3(Lerp(startPos.x, endPos.x, t), Y, Lerp(startPos.z, endPos.z, t))
  }

  /** What the selected path mode needs of its inputs. */
  ghost predicate PositionReady(b: Behaviour, endPos: Vector3, duration: real, sqrt: SquareRoot)
  {
    match b.config.tweenMode
    case Line => true
    case ParaHeight => HeightModeReady(b, endPos, sqrt)
    case ParaGravity => 0.0 < duration
  }

  /**
   The position at progress `t` of a clip lasting `duration`, by the selected
   path mode. The line and the gravity arc both run from the anchor to the end
   position; the height arc keeps below paraHeight unless it fell back.
   */
  function LerpPosition(b: Behaviour, endPos: Vector3, t: real, duration: real, sqrt: SquareRoot): (r: Vector3)
    requires PositionReady(b, endPos, duration, sqrt)
    ensures b.config.tweenMode != ParaHeight && t == 0.0 ==> r == b.startingPosition
    ensures b.config.tweenMode != ParaHeight && t == 1.0 ==> r == endPos
    ensures b.config.tweenMode == ParaHeight && !HeightExceeded(b, endPos) ==> r.y <= b.config.paraHeight
  {
    match b.config.tweenMode
    case ParaHeight => LerpParaHeightPosition(b, endPos, t, sqrt)
    case ParaGravity => LerpParaGravityPosition(b, endPos, t, duration)
    case Line => LerpLinePosition(b, endPos, t)
  }

  // ---------------------------------------------------------------------------
  // Anchor capture
  // ---------------------------------------------------------------------------

  /**
   Copies the start transform's position and rotation into the anchor when the
   start transform exists (None stands for a missing or destroyed transform).
   */
  function PrepareFrame(b: Behaviour, startLocation: Option<Pose>): (r: Behaviour)
    ensures r.config == b.config
    ensures startLocation.Some? ==> r.startingPosition == startLocation.value.position
    ensures startLocation.Some? ==> r.startingRotation == startLocation.value.rotation
    ensures startLocation.None? ==> r == b
  {
    match startLocation
    case Some(start) => b.(startingPosition := start.position, startingRotation := start.rotation)
    case None => b
  }

  // ---------------------------------------------------------------------------
  // Easing evaluator
  // ---------------------------------------------------------------------------

  /**
   The custom curve starts at (0,0) and ends at (1,1), each coordinate compared
   with `approx`. The first and the last key are read, so the curve needs one.
   */
  predicate IsCustomCurveNormalised(cfg: Config, approx: Approximately)
    requires 0 < |cfg.customCurve.keys|
  {
    var keys := cfg.customCurve.keys;
    if !approx(keys[0].time, 0.0) then false
    else if !approx(keys[0].value, 0.0) then false
    else if !approx(keys[|keys| - 1].time, 1.0) then false
    else approx(keys[|keys| - 1].value, 1.0)
  }

  /** A custom curve can only be checked when it has a key. */
  predicate EasingReady(cfg: Config)
  {
    cfg.tweenType == Custom ==> 0 < |cfg.customCurve.keys|
  }

  /** The evaluation that logs "Custom Curve is not normalised" and yields 0. */
  predicate LogsCurveError(cfg: Config, approx: Approximately)
    requires EasingReady(cfg)
  {
    cfg.tweenType == Custom && !IsCustomCurveNormalised(cfg, approx)
  }

  /** The curve a built-in easing type evaluates. */
  function BuiltInCurve(tweenType: TweenType): AnimationCurve
    requires tweenType != Custom
  {
    match tweenType
    case Linear => LinearCurve
    case Deceleration => DecelerationCurve
    case Harmonic => HarmonicCurve
  }

  /** Eased progress at `time`: 0 for a rejected custom curve, else the selected curve's value. */
  function EvaluateCurrentCurve(cfg: Config, time: real, evaluate: CurveEvaluator, approx: Approximately): (r: real)
    requires EasingReady(cfg)
    ensures LogsCurveError(cfg, approx) ==> r == 0.0
  {
    if LogsCurveError(cfg, approx) then
      0.0
    else
      match cfg.tweenType
      case Linear => evaluate(LinearCurve, time)
      case Deceleration => evaluate(DecelerationCurve, time)
      case Harmonic => evaluate(HarmonicCurve, time)
      case Custom => evaluate(cfg.customCurve, time)
  }
}
