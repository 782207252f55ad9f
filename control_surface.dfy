/**
 * ControlSurface: the key-to-axis mapping, the smoothed target deflection,
 * the rate-limited current deflection and the lift magnitude of an
 * elevator, aileron or rudder.  The sine of twice the angle of attack that
 * multiplies the lift is not modelled: a step reports the lift magnitude
 * and the deflection's contribution to the angle of attack.
 */
module ControlSurfaces {
  import opened UnityMath
  import Aircraft

  datatype InputAxis = Pitch | Roll | Yaw

  /** The six flight keys held this step. */
  datatype FlightKeys = FlightKeys(w: bool, s: bool, a: bool, d: bool, q: bool, e: bool)

  /** The key that deflects an axis positively (W, D, E) and the one that
      deflects it negatively (S, A, Q). */
  function PositiveKey(axis: InputAxis, k: FlightKeys): bool
  {
    match axis
    case Pitch => k.w
    case Roll => k.d
    case Yaw => k.e
  }

  function NegativeKey(axis: InputAxis, k: FlightKeys): bool
  {
    match axis
    case Pitch => k.s
    case Roll => k.a
    case Yaw => k.q
  }

  /** GetInputForAxis: 1 for the positive key alone, -1 for the negative
      key alone, 0 for neither or both. */
  function AxisInput(axis: InputAxis, k: FlightKeys): (r: real)
    ensures r == 1.0 || r == 0.0 || r == -1.0
    ensures r == 1.0 <==> PositiveKey(axis, k) && !NegativeKey(axis, k)
    ensures r == -1.0 <==> NegativeKey(axis, k) && !PositiveKey(axis, k)
  {
    match axis
    case Pitch => (if k.w then 1.0 else 0.0) - (if k.s then 1.0 else 0.0)
    case Roll => (if k.d then 1.0 else 0.0) - (if k.a then 1.0 else 0.0)
    case Yaw => (if k.e then 1.0 else 0.0) - (if k.q then 1.0 else 0.0)
  }

  /** The smoothing rate passed to SmoothedInput. */
  const TargetSmoothing: real := 3.0

  /** The share of the current deflection that acts on the airflow. */
  function EffectiveDeflection(currentDeflection: real): (r: real)
    ensures r == 0.7 * currentDeflection
    ensures Abs(r) <= Abs(currentDeflection)
  {
    Lerp(0.0, currentDeflection, 0.7)
  }

  datatype SurfaceConfig = SurfaceConfig(
    aircraft: Ref,
    surfaceArea: real,
    liftCoefficient: real,
    axis: InputAxis,
    inputMultiplier: real,
    maxDeflectionAngle: real,
    deflectionSpeed: real)

  /** The deflection goal: the axis input scaled by the multiplier and the
      largest deflection. */
  function Goal(cfg: SurfaceConfig, k: FlightKeys): real
  {
    AxisInput(cfg.axis, k) * cfg.inputMultiplier * cfg.maxDeflectionAngle
  }

  /** The goal never exceeds the largest deflection when the multiplier is
      at most 1 in size. */
  lemma GoalInRange(cfg: SurfaceConfig, k: FlightKeys)
    requires Abs(cfg.inputMultiplier) <= 1.0 && cfg.maxDeflectionAngle >= 0.0
    ensures Abs(Goal(cfg, k)) <= cfg.maxDeflectionAngle
  {
    var a := AxisInput(cfg.axis, k);
    assert Abs(a * cfg.inputMultiplier) <= 1.0 by {
      if a == 1.0 {
        assert a * cfg.inputMultiplier == cfg.inputMultiplier;
      } else if a == -1.0 {
        assert a * cfg.inputMultiplier == -cfg.inputMultiplier;
      } else {
        assert a * cfg.inputMultiplier == 0.0;
      }
    }
    ScaledInRange(a * cfg.inputMultiplier, cfg.maxDeflectionAngle);
  }

  lemma ScaledInRange(x: real, m: real)
    requires Abs(x) <= 1.0 && m >= 0.0
    ensures Abs(x * m) <= m
  {
    if x >= 0.0 {
      ScaleDown(m, x);
      assert x * m == m * x;
    } else {
      ScaleDown(m, -x);
      assert x * m == -(m * -x);
    }
  }

  /** Both deflections stay within the largest deflection, step after
      step, whatever the keys. */
  predicate InRange(cfg: SurfaceConfig, target: real, current: real)
  {
    Abs(target) <= cfg.maxDeflectionAngle && Abs(current) <= cfg.maxDeflectionAngle
  }

  lemma StepStaysInRange(cfg: SurfaceConfig, k: FlightKeys, target: real, current: real, fixedDt: real)
    requires Abs(cfg.inputMultiplier) <= 1.0 && cfg.deflectionSpeed * fixedDt >= 0.0
    requires InRange(cfg, target, current)
    ensures
      var t := Aircraft.SmoothedInput(target, Goal(cfg, k), TargetSmoothing, fixedDt);
      InRange(cfg, t, MoveTowards(current, t, cfg.deflectionSpeed * fixedDt))
  {
    GoalInRange(cfg, k);
  }

  /** The forces side of a step: the lift magnitude and the deflection's
      contribution to the angle of attack, in radians. */
  datatype SurfaceForce = SurfaceForce(liftMagnitude: real, deflectionAoa: real)

  class ControlSurface {
    const cfg: SurfaceConfig
    var targetDeflection: real
    var currentDeflection: real

    constructor (cfg: SurfaceConfig)
      ensures this.cfg == cfg && targetDeflection == 0.0 && currentDeflection == 0.0
    {
      this.cfg := cfg;
      targetDeflection := 0.0;
      currentDeflection := 0.0;
    }

    /** One physics step.  `live` holds the objects that exist; `airDensity`
        and `localSpeed` are the aircraft's air density and the forward
        airflow speed in the surface's frame. */
    method FixedUpdate(k: FlightKeys, fixedDt: real, live: set<nat>, airDensity: real, localSpeed: real)
      returns (force: Option<SurfaceForce>)
      modifies this`targetDeflection, this`currentDeflection
      ensures !Alive(cfg.aircraft, live) ==>
        force == None && targetDeflection == old(targetDeflection) && currentDeflection == old(currentDeflection)
      ensures Alive(cfg.aircraft, live) ==>
        && targetDeflection == Aircraft.SmoothedInput(old(targetDeflection), Goal(cfg, k), TargetSmoothing, fixedDt)
        && currentDeflection == MoveTowards(old(currentDeflection), targetDeflection, cfg.deflectionSpeed * fixedDt)
        && force == Some(SurfaceForce(
             Aircraft.AeroMagnitude(airDensity, localSpeed, cfg.surfaceArea, cfg.liftCoefficient),
             Deg2Rad * EffectiveDeflection(currentDeflection)))
    {
      if !Alive(cfg.aircraft, live) {
        return None;
      }
      var rawInput := AxisInput(cfg.axis, k) * cfg.inputMultiplier;
      assert rawInput * cfg.maxDeflectionAngle == Goal(cfg, k);
      targetDeflection := Aircraft.SmoothedInput(targetDeflection, rawInput * cfg.maxDeflectionAngle, TargetSmoothing, fixedDt);

      currentDeflection := MoveTowards(currentDeflection, targetDeflection, cfg.deflectionSpeed * fixedDt);

      var effectiveDeflection := EffectiveDeflection(currentDeflection);
      var liftMagnitude := Aircraft.AeroMagnitude(airDensity, localSpeed, cfg.surfaceArea, cfg.liftCoefficient);
      force := Some(SurfaceForce(liftMagnitude, Deg2Rad * effectiveDeflection));
    }
  }
}
