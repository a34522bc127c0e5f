/**
 Properties of the tween evaluator: where each path mode starts and ends, how
 high the height-bounded arc rises, what the gravity arc adds to the line,
 which inputs each result depends on, and how the easing evaluator treats
 built-in and custom curves.
 */
module TweenProperties {
  import opened UnityMath
  import opened Curves
  import HeightArc
  import opened TransformTween

  // ---------------------------------------------------------------------------
  // Line mode
  // ---------------------------------------------------------------------------

  /**
   The line starts at the captured anchor, ends at the live end position, stays
   there for progress outside [0, 1], and in between moves every coordinate by
   the fraction `t` of the way.
   */
  lemma LineEndpoints(b: Behaviour, endPos: Vector3, t: real)
    ensures t <= 0.0 ==> LerpLinePosition(b, endPos, t) == b.startingPosition
    ensures t >= 1.0 ==> LerpLinePosition(b, endPos, t) == endPos
    ensures 0.0 <= t <= 1.0 ==>
      var s, r := b.startingPosition, LerpLinePosition(b, endPos, t);
      && r.x == s.x + t * (endPos.x - s.x)
      && r.y == s.y + t * (endPos.y - s.y)
      && r.z == s.z + t * (endPos.z - s.z)
  {
    var s := b.startingPosition;
    LerpFacts(s.x, endPos.x, t);
    LerpFacts(s.y, endPos.y, t);
    LerpFacts(s.z, endPos.z, t);
  }

  /** Along the line every coordinate moves monotonically from the start towards the end. */
  lemma LineMonotone(b: Behaviour, endPos: Vector3, t1: real, t2: real)
    requires t1 <= t2
    ensures var s, p, q := b.startingPosition, LerpLinePosition(b, endPos, t1), LerpLinePosition(b, endPos, t2);
      && (s.x <= endPos.x ==> p.x <= q.x) && (endPos.x <= s.x ==> q.x <= p.x)
      && (s.y <= endPos.y ==> p.y <= q.y) && (endPos.y <= s.y ==> q.y <= p.y)
      && (s.z <= endPos.z ==> p.z <= q.z) && (endPos.z <= s.z ==> q.z <= p.z)
  {
    var s := b.startingPosition;
    LerpMonotone(s.x, endPos.x, t1, t2);
    LerpMonotone(s.y, endPos.y, t1, t2);
    LerpMonotone(s.z, endPos.z, t1, t2);
  }

  // ---------------------------------------------------------------------------
  // Gravity mode
  // ---------------------------------------------------------------------------

  /** The ballistic height formula in closed form: the chord's height plus g*d*d*t*(1 - t)/2. */
  lemma BallisticClosedForm(sy: real, yDis: real, g: real, d: real, t: real)
    requires 0.0 < d
    ensures (yDis / d + 0.5 * g * d) * (t * d) - 0.5 * g * (t * d) * (t * d) + sy
         == sy + t * yDis + BallisticLift(g, d, t)
  {
    assert (yDis / d) * (t * d) == t * yDis;
    assert (0.5 * g * d) * (t * d) == 0.5 * g * d * d * t;
    assert 0.5 * g * (t * d) * (t * d) == 0.5 * g * d * d * t * t;
  }

  /**
   The gravity arc rises above the straight chord from the start to the end by
   BallisticLift, g*d*d*t*(1 - t)/2 at progress t, for every t, whatever the gravity.
   */
  lemma GravityArcOverChord(b: Behaviour, endPos: Vector3, t: real, duration: real)
    requires 0.0 < duration
    ensures var s, g := b.startingPosition, b.config.paraGravity;
      LerpParaGravityPosition(b, endPos, t, duration).y
        == s.y + t * (endPos.y - s.y) + BallisticLift(g, duration, t)
  {
    var s := b.startingPosition;
    BallisticClosedForm(s.y, endPos.y - s.y, b.config.paraGravity, duration, t);
  }

  /** The gravity arc leaves from the captured anchor at t = 0 and lands exactly on the end position at t = 1. */
  lemma GravityEndpoints(b: Behaviour, endPos: Vector3, duration: real)
    requires 0.0 < duration
    ensures LerpParaGravityPosition(b, endPos, 0.0, duration) == b.startingPosition
    ensures LerpParaGravityPosition(b, endPos, 1.0, duration) == endPos
  {
    var s := b.startingPosition;
    GravityArcOverChord(b, endPos, 0.0, duration);
    GravityArcOverChord(b, endPos, 1.0, duration);
    LerpFacts(s.x, endPos.x, 0.0);
    LerpFacts(s.z, endPos.z, 0.0);
    LerpFacts(s.x, endPos.x, 1.0);
    LerpFacts(s.z, endPos.z, 1.0);
  }

  /** Under positive gravity the arc lies strictly above the line's height for every 0 < t < 1. */
  lemma GravityAboveLine(b: Behaviour, endPos: Vector3, t: real, duration: real)
    requires 0.0 < duration && 0.0 < b.config.paraGravity && 0.0 < t < 1.0
    ensures LerpParaGravityPosition(b, endPos, t, duration).y > LerpLinePosition(b, endPos, t).y
  {
    var s, g := b.startingPosition, b.config.paraGravity;
    var chord := s.y + t * (endPos.y - s.y);
    var lift := BallisticLift(g, duration, t);
    GravityArcOverChord(b, endPos, t, duration);
    assert LerpParaGravityPosition(b, endPos, t, duration).y == chord + lift;
    LineEndpoints(b, endPos, t);
    assert LerpLinePosition(b, endPos, t).y == chord;
    LiftPositive(g, duration, t);
  }

  /** How far a ballistic arc of gravity g and duration d rises above its chord at progress t. */
  function BallisticLift(g: real, d: real, t: real): real
  {
    0.5 * g * d * d * t * (1.0 - t)
  }

  /** The lift is positive for positive g and d and 0 < t < 1. */
  lemma LiftPositive(g: real, d: real, t: real)
    requires 0.0 < g && 0.0 < d && 0.0 < t < 1.0
    ensures 0.0 < BallisticLift(g, d, t)
  {
    ProductPositive(0.5 * g, d);
    ProductPositive(0.5 * g * d, d);
    ProductPositive(0.5 * g * d * d, t);
    ProductPositive(0.5 * g * d * d * t, 1.0 - t);
  }

  // ---------------------------------------------------------------------------
  // Both parabola modes
  // ---------------------------------------------------------------------------

  /**
   In both parabola modes x and z are those of the line for every t, and do not
   depend on the maximum height, the gravity, the duration or the square root.
   */
  lemma ParabolasFollowLineHorizontally(b: Behaviour, endPos: Vector3, t: real, duration: real, sqrt: SquareRoot)
    ensures 0.0 < duration ==>
      && LerpParaGravityPosition(b, endPos, t, duration).x == LerpLinePosition(b, endPos, t).x
      && LerpParaGravityPosition(b, endPos, t, duration).z == LerpLinePosition(b, endPos, t).z
    ensures HeightModeReady(b, endPos, sqrt) ==>
      && LerpParaHeightPosition(b, endPos, t, sqrt).x == LerpLinePosition(b, endPos, t).x
      && LerpParaHeightPosition(b, endPos, t, sqrt).z == LerpLinePosition(b, endPos, t).z
  {
  }

  // ---------------------------------------------------------------------------
  // Height mode
  // ---------------------------------------------------------------------------

  /** When the end lies more than paraHeight above the start, height mode is exactly line mode. */
  lemma HeightFallsBackToLine(b: Behaviour, endPos: Vector3, t: real, sqrt: SquareRoot)
    requires HeightModeReady(b, endPos, sqrt)
    ensures HeightExceeded(b, endPos) ==> LerpParaHeightPosition(b, endPos, t, sqrt) == LerpLinePosition(b, endPos, t)
  {
  }

  /** The fitted arc opens downwards and starts out rising: A < 0 < B. */
  lemma HeightArcSigns(b: Behaviour, endPos: Vector3, sqrt: SquareRoot)
    requires HeightModeReady(b, endPos, sqrt) && !HeightExceeded(b, endPos)
    ensures HeightModeArc(b, endPos, sqrt).a < 0.0 < HeightModeArc(b, endPos, sqrt).b
  {
    var h := b.config.paraHeight;
    var yDis := endPos.y - b.startingPosition.y;
    RootOfRemainingHeight(h, yDis, sqrt);
    HeightArc.FitSigns(h, HorizontalSpan(b, endPos, sqrt), sqrt(1.0 - yDis / h));
  }

  /** Past the fallback test, height mode never returns a y above paraHeight, for any t whatever. */
  lemma HeightBounded(b: Behaviour, endPos: Vector3, t: real, sqrt: SquareRoot)
    requires HeightModeReady(b, endPos, sqrt) && !HeightExceeded(b, endPos)
    ensures LerpParaHeightPosition(b, endPos, t, sqrt).y <= b.config.paraHeight
  {
    var h := b.config.paraHeight;
    var yDis := endPos.y - b.startingPosition.y;
    var w := HorizontalSpan(b, endPos, sqrt);
    HeightArc.FitBounded(h, w, sqrt(1.0 - yDis / h), t * w);
  }

  /**
   The arc returns y = 0 at t = 0 and y = yDis, the end's height above the
   start, at t = 1; x and z run from the start to the end.
   */
  lemma HeightEndpoints(b: Behaviour, endPos: Vector3, sqrt: SquareRoot)
    requires HeightModeReady(b, endPos, sqrt) && !HeightExceeded(b, endPos)
    ensures var s := b.startingPosition;
      LerpParaHeightPosition(b, endPos, 0.0, sqrt) == Vector3(s.x, 0.0, s.z)
    ensures var s := b.startingPosition;
      LerpParaHeightPosition(b, endPos, 1.0, sqrt) == Vector3(endPos.x, endPos.y - s.y, endPos.z)
  {
    var s := b.startingPosition;
    var h := b.config.paraHeight;
    var yDis := endPos.y - s.y;
    var w := HorizontalSpan(b, endPos, sqrt);
    RootOfRemainingHeight(h, yDis, sqrt);
    HeightArc.FitLands(h, yDis, w, sqrt(1.0 - yDis / h));
    assert 1.0 * w == w;
    LerpFacts(s.x, endPos.x, 0.0);
    LerpFacts(s.z, endPos.z, 0.0);
    LerpFacts(s.x, endPos.x, 1.0);
    LerpFacts(s.z, endPos.z, 1.0);
  }

  /** Away from the fallback, height mode's y is the fitted arc at X = t * W. */
  lemma HeightModeFollowsArc(b: Behaviour, endPos: Vector3, t: real, sqrt: SquareRoot)
    requires HeightModeReady(b, endPos, sqrt) && !HeightExceeded(b, endPos)
    ensures LerpParaHeightPosition(b, endPos, t, sqrt).y
         == HeightArc.Height(HeightModeArc(b, endPos, sqrt), t * HorizontalSpan(b, endPos, sqrt))
  {
  }

  /** Somewhere in (0, 1] the arc reaches exactly paraHeight: the bound is attained. */
  lemma HeightPeakReached(b: Behaviour, endPos: Vector3, sqrt: SquareRoot)
    requires HeightModeReady(b, endPos, sqrt) && !HeightExceeded(b, endPos)
    ensures exists t :: 0.0 < t <= 1.0 && LerpParaHeightPosition(b, endPos, t, sqrt).y == b.config.paraHeight
  {
    var h := b.config.paraHeight;
    var yDis := endPos.y - b.startingPosition.y;
    RootOfRemainingHeight(h, yDis, sqrt);
    var t := HeightArc.FitApexFraction(h, HorizontalSpan(b, endPos, sqrt), sqrt(1.0 - yDis / h));
    HeightModeFollowsArc(b, endPos, t, sqrt);
  }

  /**
   The height-mode y is not offset by the start's height: it leaves from the
   start and lands on the end exactly when the start is at height 0.
   */
  lemma HeightIgnoresStartHeight(b: Behaviour, endPos: Vector3, sqrt: SquareRoot)
    requires HeightModeReady(b, endPos, sqrt) && !HeightExceeded(b, endPos)
    ensures LerpParaHeightPosition(b, endPos, 0.0, sqrt) == b.startingPosition <==> b.startingPosition.y == 0.0
    ensures LerpParaHeightPosition(b, endPos, 1.0, sqrt) == endPos <==> b.startingPosition.y == 0.0
  {
    HeightEndpoints(b, endPos, sqrt);
  }

  /** 1 - yDis/h is non-negative when yDis <= h, so its root is a true root. */
  lemma RootOfRemainingHeight(h: real, yDis: real, sqrt: SquareRoot)
    requires 0.0 < h && yDis <= h && IsSqrt(sqrt)
    ensures 0.0 <= sqrt(1.0 - yDis / h)
    ensures sqrt(1.0 - yDis / h) * sqrt(1.0 - yDis / h) == 1.0 - yDis / h
  {
    assert yDis / h <= 1.0;
  }

  // ---------------------------------------------------------------------------
  // Dispatch on the path mode
  // ---------------------------------------------------------------------------

  /**
   ParaHeight evaluates the height formula, ParaGravity the gravity formula and
   every other mode the line; the duration changes the result only in
   ParaGravity.
   */
  lemma LerpPositionDispatch(b: Behaviour, endPos: Vector3, t: real, d1: real, d2: real, sqrt: SquareRoot)
    requires PositionReady(b, endPos, d1, sqrt) && PositionReady(b, endPos, d2, sqrt)
    ensures b.config.tweenMode == ParaHeight ==> LerpPosition(b, endPos, t, d1, sqrt) == LerpParaHeightPosition(b, endPos, t, sqrt)
    ensures b.config.tweenMode == ParaGravity ==> LerpPosition(b, endPos, t, d1, sqrt) == LerpParaGravityPosition(b, endPos, t, d1)
    ensures b.config.tweenMode == Line ==> LerpPosition(b, endPos, t, d1, sqrt) == LerpLinePosition(b, endPos, t)
    ensures b.config.tweenMode != ParaGravity ==> LerpPosition(b, endPos, t, d1, sqrt) == LerpPosition(b, endPos, t, d2, sqrt)
  {
  }

  // ---------------------------------------------------------------------------
  // Anchor capture
  // ---------------------------------------------------------------------------

  /** Preparing twice from the same start transform changes nothing more. */
  lemma PrepareFrameIdempotent(b: Behaviour, startLocation: Option<Pose>)
    ensures PrepareFrame(PrepareFrame(b, startLocation), startLocation) == PrepareFrame(b, startLocation)
  {
  }

  /**
   After capturing a start transform, the line and the gravity arc begin
   exactly at that transform's position.
   */
  lemma PreparedStartBeginsThePath(b: Behaviour, start: Pose, endPos: Vector3, duration: real, sqrt: SquareRoot)
    requires b.config.tweenMode != ParaHeight
    requires PositionReady(PrepareFrame(b, Some(start)), endPos, duration, sqrt)
    ensures LerpPosition(PrepareFrame(b, Some(start)), endPos, 0.0, duration, sqrt) == start.position
  {
    var p := PrepareFrame(b, Some(start));
    if b.config.tweenMode == ParaGravity {
      GravityEndpoints(p, endPos, duration);
    } else {
      LineEndpoints(p, endPos, 0.0);
    }
  }

  // ---------------------------------------------------------------------------
  // Easing evaluator
  // ---------------------------------------------------------------------------

  /** Linear, Deceleration and Harmonic evaluate their own curve and never look at the custom curve. */
  lemma BuiltInEasingIgnoresCustomCurve(cfg: Config, curve: AnimationCurve, time: real, evaluate: CurveEvaluator, approx: Approximately)
    requires cfg.tweenType != Custom
    ensures EvaluateCurrentCurve(cfg, time, evaluate, approx) == evaluate(BuiltInCurve(cfg.tweenType), time)
    ensures EvaluateCurrentCurve(cfg.(customCurve := curve), time, evaluate, approx)
         == EvaluateCurrentCurve(cfg, time, evaluate, approx)
  {
  }

  /** A normalised custom curve is evaluated as it stands. */
  lemma NormalisedCustomCurveEvaluated(cfg: Config, time: real, evaluate: CurveEvaluator, approx: Approximately)
    requires cfg.tweenType == Custom && 0 < |cfg.customCurve.keys|
    requires IsCustomCurveNormalised(cfg, approx)
    ensures EvaluateCurrentCurve(cfg, time, evaluate, approx) == evaluate(cfg.customCurve, time)
  {
  }

  /**
   With exact comparison a custom curve is normalised precisely when its first
   key is (0,0) and its last key is (1,1).
   */
  lemma NormalisedMeansUnitEndKeys(cfg: Config)
    requires 0 < |cfg.customCurve.keys|
    ensures var keys := cfg.customCurve.keys;
      IsCustomCurveNormalised(cfg, Exactly) <==>
        && keys[0].time == 0.0 && keys[0].value == 0.0
        && keys[|keys| - 1].time == 1.0 && keys[|keys| - 1].value == 1.0
  {
  }

  /**
   Under any comparison that never finds one value close to both 0 and 1 (every
   tolerance below 1/2, exact comparison included), a one-key curve cannot start
   at time 0 and end at time 1, so it is never normalised and evaluates to 0.
   */
  lemma SingleKeyCurveNeverNormalised(cfg: Config, time: real, evaluate: CurveEvaluator, approx: Approximately)
    requires cfg.tweenType == Custom && |cfg.customCurve.keys| == 1
    requires forall a :: !(approx(a, 0.0) && approx(a, 1.0))
    ensures !IsCustomCurveNormalised(cfg, approx)
    ensures EvaluateCurrentCurve(cfg, time, evaluate, approx) == 0.0
  {
    var k := cfg.customCurve.keys[0];
    assert !(approx(k.time, 0.0) && approx(k.time, 1.0));
  }

  /** The default custom curve passes the check under any reflexive comparison. */
  lemma DefaultCustomCurveNormalised(approx: Approximately)
    requires forall a :: approx(a, a)
    ensures IsCustomCurveNormalised(DefaultConfig, approx)
  {
    assert approx(0.0, 0.0) && approx(1.0, 1.0);
  }

  /**
   If curve evaluation passes through a curve's end keys, then wherever no error
   is logged, eased progress is 0 at time 0 and 1 at time 1 under exact comparison.
   */
  lemma EasingFixesEndpoints(cfg: Config, evaluate: CurveEvaluator)
    requires EasingReady(cfg)
    requires InterpolatesEndKeys(evaluate, LinearCurve)
    requires InterpolatesEndKeys(evaluate, DecelerationCurve)
    requires InterpolatesEndKeys(evaluate, HarmonicCurve)
    requires cfg.tweenType == Custom ==> InterpolatesEndKeys(evaluate, cfg.customCurve)
    ensures !LogsCurveError(cfg, Exactly) ==>
      EvaluateCurrentCurve(cfg, 0.0, evaluate, Exactly) == 0.0 &&
      EvaluateCurrentCurve(cfg, 1.0, evaluate, Exactly) == 1.0
  {
  }

  // ---------------------------------------------------------------------------
  // Worked examples
  // ---------------------------------------------------------------------------

  /** The default behaviour, anchored at the origin, with the path mode and both arc parameters set. */
  function AtOrigin(mode: TweenMode, height: real, gravity: real): Behaviour
  {
    DefaultBehaviour.(config := DefaultConfig.(tweenMode := mode, paraHeight := height, paraGravity := gravity))
  }

  /** From the origin to (10,0,0) with paraHeight 3, the midpoint is the apex (5,3,0). */
  lemma HeightExample(sqrt: SquareRoot)
    requires IsSqrt(sqrt)
    ensures LerpPosition(AtOrigin(ParaHeight, 3.0, 10.0), Vector3(10.0, 0.0, 0.0), 0.5, 1.0, sqrt) == Vector3(5.0, 3.0, 0.0)
  {
    var b := AtOrigin(ParaHeight, 3.0, 10.0);
    var e := Vector3(10.0, 0.0, 0.0);
    assert HorizontalSqrDistance(b.startingPosition, e) == 100.0;
    SqrtOfSquare(sqrt, 100.0, 10.0);
    SqrtOfSquare(sqrt, 1.0, 1.0);
    assert HorizontalSpan(b, e, sqrt) == 10.0;
    assert HeightModeArc(b, e, sqrt) == HeightArc.Parabola(-0.12, 1.2);
    LerpFacts(0.0, 10.0, 0.5);
    LerpFacts(0.0, 0.0, 0.5);
  }

  /** From the origin to (0,5,0) with paraHeight 3 the target is too high, so every t follows the line. */
  lemma DegenerateHeightExample(t: real, sqrt: SquareRoot)
    requires IsSqrt(sqrt)
    ensures LerpPosition(AtOrigin(ParaHeight, 3.0, 10.0), Vector3(0.0, 5.0, 0.0), t, 1.0, sqrt)
         == LerpLinePosition(AtOrigin(ParaHeight, 3.0, 10.0), Vector3(0.0, 5.0, 0.0), t)
  {
  }

  /** From the origin to (0,-5,0) over 2 seconds under gravity 9.8 the arc lands at height -5. */
  lemma GravityExample(sqrt: SquareRoot)
    ensures LerpPosition(AtOrigin(ParaGravity, 3.0, 9.8), Vector3(0.0, -5.0, 0.0), 1.0, 2.0, sqrt).y == -5.0
  {
    var b := AtOrigin(ParaGravity, 3.0, 9.8);
    var e := Vector3(0.0, -5.0, 0.0);
    assert b.config.tweenMode == ParaGravity && PositionReady(b, e, 2.0, sqrt);
    assert LerpPosition(b, e, 1.0, 2.0, sqrt) == e;
  }

  /**
   A custom curve from (0,0.1) to (1,1) is rejected and evaluates to 0 under any
   comparison that tells 0.1 from 0; one from (0,0) to (1,1) is evaluated under
   any comparison that accepts 0 against 0 and 1 against 1.
   */
  lemma CustomCurveExample(time: real, evaluate: CurveEvaluator, approx: Approximately)
    ensures var bad := AnimationCurve([Keyframe(0.0, 0.1, 0.0, 0.0), Keyframe(1.0, 1.0, 0.0, 0.0)]);
      !approx(0.1, 0.0) ==>
        EvaluateCurrentCurve(DefaultConfig.(tweenType := Custom, customCurve := bad), time, evaluate, approx) == 0.0
    ensures var good := AnimationCurve([Keyframe(0.0, 0.0, 0.0, 0.0), Keyframe(1.0, 1.0, 0.0, 0.0)]);
      approx(0.0, 0.0) && approx(1.0, 1.0) ==>
        EvaluateCurrentCurve(DefaultConfig.(tweenType := Custom, customCurve := good), time, evaluate, approx)
          == evaluate(good, time)
  {
  }
}
