/**
 Animation curves as the tween sees them: a sequence of keyframes that can be
 evaluated at a time. How the engine interpolates between keys is not modelled;
 evaluation is a parameter of every operation that needs it, and so is the
 engine's tolerant float comparison (Mathf.Approximately).
 */
module Curves {

  /** A curve key: a (time, value) point and the tangents the engine uses around it. */
  datatype Keyframe = Keyframe(time: real, value: real, inTangent: real, outTangent: real)

  datatype AnimationCurve = AnimationCurve(keys: seq<Keyframe>)

  /** AnimationCurve.Evaluate, supplied by the caller. */
  type CurveEvaluator = (AnimationCurve, real) -> real

  /** Mathf.Approximately, supplied by the caller. */
  type Approximately = (real, real) -> bool

  /** The comparison with no tolerance at all. */
  predicate Exactly(a: real, b: real)
  {
    a == b
  }

  /** The curve passes through the (time, value) point of its first and of its last key. */
  ghost predicate InterpolatesEndKeys(evaluate: CurveEvaluator, curve: AnimationCurve)
  {
    0 < |curve.keys| &&
    evaluate(curve, curve.keys[0].time) == curve.keys[0].value &&
    evaluate(curve, curve.keys[|curve.keys| - 1].time) == curve.keys[|curve.keys| - 1].value
  }

  /**
   AnimationCurve.Linear(0, 0, 1, 1): the tangents facing into the segment are
   its slope 1; the first key's in-tangent and the last key's out-tangent are 0.
   */
  const Linear01: AnimationCurve :=
    AnimationCurve([Keyframe(0.0, 0.0, 0.0, 1.0), Keyframe(1.0, 1.0, 1.0, 0.0)])

  /** AnimationCurve.EaseInOut(0, 0, 1, 1): flat tangents at both keys. */
  const EaseInOut01: AnimationCurve :=
    AnimationCurve([Keyframe(0.0, 0.0, 0.0, 0.0), Keyframe(1.0, 1.0, 0.0, 0.0)])
}
