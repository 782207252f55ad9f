/**
 * AircraftPhysics: the throttle accumulator, the brake and airbrake
 * choice, and the magnitudes of the thrust, drag, wheel-brake and airbrake
 * forces.  Directions (forward, -velocity) and the Rigidbody calls are not
 * modelled: each force is reported by its magnitude, or as absent when the
 * source skips it.  The grounded test and the speed are step inputs.
 */
module Aircraft {
  import opened UnityMath

  datatype AircraftConfig = AircraftConfig(
    airDensity: real,
    maxThrust: real,
    thrustChangeRate: real,
    inputSmoothing: real,
    brakeForce: real,
    airbrakeDrag: real,
    dragCoefficient: real,
    frontalArea: real)

  /** The field initialisers. */
  const DefaultConfig := AircraftConfig(1.225, 50000.0, 0.5, 5.0, 5000.0, 15000.0, 0.02, 2.5)

  /** SmoothedInput: one step of exponential smoothing towards `target`,
      Lerp with parameter fixedDt*rate (clamped to [0,1]). */
  function SmoothedInput(current: real, target: real, rate: real, fixedDt: real): (r: real)
    ensures Between(current, target, r)
    ensures Abs(r - target) <= Abs(current - target)
    ensures fixedDt * rate <= 0.0 ==> r == current
    ensures fixedDt * rate >= 1.0 ==> r == target
    ensures 0.0 <= fixedDt * rate <= 1.0 ==> r - target == (1.0 - fixedDt * rate) * (current - target)
  {
    Lerp(current, target, fixedDt * rate)
  }

  /** The throttle keys for one frame: Shift raises and Control lowers the
      throttle by `step` (thrustChangeRate * dt), each clamped to [0,1];
      with both held the raise is applied first. */
  function Throttle(t: real, up: bool, down: bool, step: real): (r: real)
    ensures !up && !down ==> r == t
    ensures up || down ==> 0.0 <= r <= 1.0
    ensures 0.0 <= t <= 1.0 ==> 0.0 <= r <= 1.0
    ensures up && !down ==> r == Clamp01(t + step)
    ensures down && !up ==> r == Clamp01(t - step)
  {
    var raised := if up then Clamp01(t + step) else t;
    if down then Clamp01(raised - step) else raised
  }

  /** Holding Shift for one second at the default rate from idle gives half
      throttle; holding it long enough gives full throttle and no more. */
  lemma ThrottleExamples()
    ensures Throttle(0.0, true, false, DefaultConfig.thrustChangeRate * 1.0) == 0.5
    ensures Throttle(0.5, true, false, DefaultConfig.thrustChangeRate * 2.0) == 1.0
    ensures Throttle(0.25, false, true, DefaultConfig.thrustChangeRate * 1.0) == 0.0
  {
  }

  /** With both keys held the throttle never rises, and it stays put unless
      the raise was cut off at full throttle. */
  lemma BothKeysNeverRaise(t: real, step: real)
    requires 0.0 <= t <= 1.0 && step >= 0.0
    ensures Throttle(t, true, true, step) <= t
    ensures t + step <= 1.0 ==> Throttle(t, true, true, step) == t
  {
  }

  /** Thrust magnitude: the throttle fraction of maxThrust. */
  function ThrustMagnitude(throttle: real, maxThrust: real): (r: real)
    ensures 0.0 <= throttle <= 1.0 && maxThrust >= 0.0 ==> 0.0 <= r <= maxThrust
    ensures throttle == 0.0 ==> r == 0.0
    ensures throttle == 1.0 ==> r == maxThrust
  {
    assert 0.0 <= throttle <= 1.0 && maxThrust >= 0.0 ==> 0.0 <= maxThrust * throttle <= maxThrust by {
      if 0.0 <= throttle <= 1.0 && maxThrust >= 0.0 {
        ScaleDown(maxThrust, throttle);
      }
    }
    throttle * maxThrust
  }

  /** The aerodynamic force magnitude shared by the airframe drag and the
      control and flap surfaces: dynamic pressure 0.5*rho*v^2 times a
      reference area and a coefficient. */
  function AeroMagnitude(density: real, speed: real, area: real, coefficient: real): (r: real)
    ensures density >= 0.0 && area >= 0.0 && coefficient >= 0.0 ==> r >= 0.0
    ensures speed == 0.0 ==> r == 0.0
  {
    var q := 0.5 * density * speed * speed;
    assert density >= 0.0 && area >= 0.0 && coefficient >= 0.0 ==> q * area * coefficient >= 0.0 by {
      if density >= 0.0 && area >= 0.0 && coefficient >= 0.0 {
        NonNegativeProduct(0.5 * density, speed * speed);
        NonNegativeProduct(q, area);
        NonNegativeProduct(q * area, coefficient);
      }
    }
    q * area * coefficient
  }

  lemma NonNegativeProduct(a: real, b: real)
    requires a >= 0.0 && b >= 0.0
    ensures a * b >= 0.0
  {
  }

  /** The magnitude is even in the speed and quadratic: flying backwards
      gives the same magnitude, flying twice as fast four times it. */
  lemma AeroQuadratic(density: real, speed: real, area: real, coefficient: real)
    ensures AeroMagnitude(density, -speed, area, coefficient) == AeroMagnitude(density, speed, area, coefficient)
    ensures AeroMagnitude(density, 2.0 * speed, area, coefficient) == 4.0 * AeroMagnitude(density, speed, area, coefficient)
  {
    var k := 0.5 * density;
    assert (-speed) * (-speed) == speed * speed;
    assert k * (-speed) * (-speed) == k * speed * speed;
    assert (2.0 * speed) * (2.0 * speed) == 4.0 * (speed * speed);
    assert k * (2.0 * speed) * (2.0 * speed) == 4.0 * (k * speed * speed);
  }

  /** Aerodynamic drag: skipped below 0.1 m/s, otherwise the dynamic
      pressure times frontal area and drag coefficient. */
  function DragMagnitude(cfg: AircraftConfig, speed: real): (r: Option<real>)
    ensures r.None? <==> speed < 0.1
    ensures r.Some? ==> r.value == AeroMagnitude(cfg.airDensity, speed, cfg.frontalArea, cfg.dragCoefficient)
  {
    if speed < 0.1 then None
    else Some(AeroMagnitude(cfg.airDensity, speed, cfg.frontalArea, cfg.dragCoefficient))
  }

  /** Wheel brakes: brakeForce times the speed clamped to [0,100]. */
  function GroundBrakeMagnitude(brakeForce: real, speed: real): (r: real)
    ensures brakeForce >= 0.0 ==> 0.0 <= r <= brakeForce * 100.0
    ensures speed >= 100.0 ==> r == brakeForce * 100.0
    ensures speed <= 0.0 ==> r == 0.0
    ensures 0.0 <= speed <= 100.0 ==> r == brakeForce * speed
  {
    var factor := Clamp(speed, 0.0, 100.0);
    assert brakeForce >= 0.0 ==> 0.0 <= brakeForce * factor <= brakeForce * 100.0 by {
      if brakeForce >= 0.0 {
        ScaleDown(brakeForce * 100.0, factor / 100.0);
        assert brakeForce * 100.0 * (factor / 100.0) == brakeForce * factor;
      }
    }
    brakeForce * factor
  }

  /** Airbrake: no force below 1 m/s, otherwise the constant airbrakeDrag. */
  function AirbrakeMagnitude(airbrakeDrag: real, speed: real): (r: Option<real>)
    ensures r.None? <==> speed < 1.0
    ensures r.Some? ==> r.value == airbrakeDrag
  {
    if speed < 1.0 then None else Some(airbrakeDrag)
  }

  /** The outcome of ApplyBrakeLogic. */
  datatype Braking = NoBrake | WheelBrake(magnitude: real) | Airbrake(drag: Option<real>)

  function BrakeLogic(cfg: AircraftConfig, brakeHeld: bool, grounded: bool, speed: real): (r: Braking)
    ensures r.Airbrake? <==> brakeHeld && !grounded
    ensures r.WheelBrake? <==> brakeHeld && grounded
    ensures r.NoBrake? <==> !brakeHeld
    ensures r.WheelBrake? ==> r.magnitude == GroundBrakeMagnitude(cfg.brakeForce, speed)
    ensures r.Airbrake? ==> r.drag == AirbrakeMagnitude(cfg.airbrakeDrag, speed)
  {
    if !brakeHeld then NoBrake
    else if grounded then WheelBrake(GroundBrakeMagnitude(cfg.brakeForce, speed))
    else Airbrake(AirbrakeMagnitude(cfg.airbrakeDrag, speed))
  }

  /** The forces one FixedUpdate applies, by magnitude. */
  datatype Forces = Forces(thrust: real, drag: Option<real>, braking: Braking)

  class AircraftPhysics {
    const cfg: AircraftConfig
    var currentThrustPercent: real
    var airbrakeEngaged: bool

    ghost predicate Valid()
      reads this
    {
      0.0 <= currentThrustPercent <= 1.0
    }

    constructor (cfg: AircraftConfig)
      ensures Valid() && this.cfg == cfg
      ensures currentThrustPercent == 0.0 && !airbrakeEngaged
    {
      this.cfg := cfg;
      currentThrustPercent := 0.0;
      airbrakeEngaged := false;
    }

    /** The per-frame throttle keys (Shift up, Control down). */
    method Update(throttleUp: bool, throttleDown: bool, dt: real)
      requires Valid()
      modifies this`currentThrustPercent
      ensures Valid()
      ensures currentThrustPercent == Throttle(old(currentThrustPercent), throttleUp, throttleDown, cfg.thrustChangeRate * dt)
    {
      if throttleUp {
        currentThrustPercent := Clamp01(currentThrustPercent + cfg.thrustChangeRate * dt);
      }
      if throttleDown {
        currentThrustPercent := Clamp01(currentThrustPercent - cfg.thrustChangeRate * dt);
      }
    }

    /** One physics step: thrust, drag, then the brakes.  `speed` is the
        rigidbody's speed and `grounded` the result of the ground ray. */
    method FixedUpdate(brakeHeld: bool, grounded: bool, speed: real) returns (f: Forces)
      requires Valid()
      modifies this`airbrakeEngaged
      ensures f == Forces(ThrustMagnitude(currentThrustPercent, cfg.maxThrust), DragMagnitude(cfg, speed),
                          BrakeLogic(cfg, brakeHeld, grounded, speed))
      ensures airbrakeEngaged <==> brakeHeld && !grounded
      ensures cfg.maxThrust >= 0.0 ==> 0.0 <= f.thrust <= cfg.maxThrust
    {
      var thrust := ApplyThrust();
      var drag := ApplyAerodynamicDrag(speed);
      var braking := ApplyBrakeLogic(brakeHeld, grounded, speed);
      f := Forces(thrust, drag, braking);
    }

    method ApplyThrust() returns (thrust: real)
      ensures thrust == ThrustMagnitude(currentThrustPercent, cfg.maxThrust)
    {
      thrust := currentThrustPercent * cfg.maxThrust;
    }

    method ApplyAerodynamicDrag(speed: real) returns (drag: Option<real>)
      ensures drag == DragMagnitude(cfg, speed)
    {
      if speed < 0.1 {
        return None;
      }
      var dragMagnitude := 0.5 * cfg.airDensity * speed * speed * cfg.dragCoefficient * cfg.frontalArea;
      drag := Some(dragMagnitude);
      assert dragMagnitude == AeroMagnitude(cfg.airDensity, speed, cfg.frontalArea, cfg.dragCoefficient);
    }

    method ApplyBrakeLogic(brakeHeld: bool, grounded: bool, speed: real) returns (braking: Braking)
      modifies this`airbrakeEngaged
      ensures braking == BrakeLogic(cfg, brakeHeld, grounded, speed)
      ensures airbrakeEngaged <==> braking.Airbrake?
    {
      if brakeHeld {
        if grounded {
          var brakeMag := Clamp(speed, 0.0, 100.0);
          braking := WheelBrake(cfg.brakeForce * brakeMag);
          airbrakeEngaged := false;
        } else {
          braking := Airbrake(if speed < 1.0 then None else Some(cfg.airbrakeDrag));
          airbrakeEngaged := true;
        }
      } else {
        braking := NoBrake;
        airbrakeEngaged := false;
      }
    }
  }
}
