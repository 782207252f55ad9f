/**
 * HomingMissile: the launch gate, the per-step lifecycle (timeout and
 * lost-target destruction, burn-phase acceleration, guidance delay,
 * SARH/ARH gating with the latching autonomous flag, proximity fuse) and
 * the turn-rate cap used when guiding.  Geometry (the distance to the
 * target, gravity's magnitude) arrives as step inputs; the rotation itself
 * is reported as the largest angle the missile may turn this step.
 */
module Missiles {
  import opened UnityMath
  import Radar

  datatype Guidance = SARH | ARH

  /** The designer-facing settings of a missile prefab. */
  datatype MissileConfig = MissileConfig(
    maxSpeed: real,
    acceleration: real,
    burnTime: real,
    maxGForce: real,
    guidanceDelay: real,
    timeout: real,
    guidance: Guidance,
    proximityRange: real)

  /** The field initialisers of the prefab. */
  const DefaultConfig := MissileConfig(300.0, 100.0, 3.0, 50.0, 1.0, 10.0, SARH, 5.0)

  /** The ARH seeker goes autonomous inside this distance. */
  const PitbullRange: real := 5000.0

  /** The state a launched missile advances each physics step. */
  datatype Flight = Flight(timeSinceLaunch: real, currentSpeed: real, isAutonomous: bool)

  /** What one step does besides updating the flight: the turn allowed when
      guiding (in degrees), and which objects it destroys. */
  datatype Events = Events(turn: Option<real>, missileDestroyed: bool, targetDestroyed: bool)

  const NoEvents := Events(None, false, false)

  /** The turn-rate cap of GuideToTarget, in radians per second: the rate at
      which the missile's lateral acceleration reaches maxGForce g, with the
      speed floored at 1. */
  function MaxTurnRate(maxGForce: real, gravity: real, currentSpeed: real): (r: real)
    ensures maxGForce * gravity > 0.0 ==> 0.0 < r <= maxGForce * gravity
    ensures currentSpeed >= 1.0 ==> r * currentSpeed == maxGForce * gravity
    ensures currentSpeed <= 1.0 ==> r == maxGForce * gravity
  {
    var a := maxGForce * gravity;
    var v := Max(currentSpeed, 1.0);
    assert a > 0.0 ==> 0.0 < a / v <= a by {
      if a > 0.0 {
        DivideByAtLeastOne(a, v);
      }
    }
    a / v
  }

  lemma DivideByAtLeastOne(a: real, v: real)
    requires a > 0.0 && v >= 1.0
    ensures 0.0 < a / v <= a
  {
    var q := a / v;
    assert q * v == a;
    assert q > 0.0;
    assert q * (v - 1.0) >= 0.0;
  }

  /** The largest rotation (degrees) RotateTowards may apply in a step. */
  function TurnLimit(cfg: MissileConfig, gravity: real, currentSpeed: real, dt: real): (r: real)
    ensures cfg.maxGForce * gravity > 0.0 && dt > 0.0 ==> 0.0 < r <= cfg.maxGForce * gravity * Rad2Deg * dt
    ensures currentSpeed <= 1.0 ==> r == cfg.maxGForce * gravity * Rad2Deg * dt
    ensures dt == 0.0 ==> r == 0.0
  {
    MaxTurnRate(cfg.maxGForce, gravity, currentSpeed) * Rad2Deg * dt
  }

  /** The burn phase: while the clock is within burnTime the speed grows by
      acceleration*dt, capped at maxSpeed; afterwards it is held. */
  function Burn(cfg: MissileConfig, speed: real, t: real, dt: real): (r: real)
    ensures t > cfg.burnTime ==> r == speed
    ensures t <= cfg.burnTime ==> r <= cfg.maxSpeed
    ensures t <= cfg.burnTime && speed + cfg.acceleration * dt <= cfg.maxSpeed ==> r == speed + cfg.acceleration * dt
    ensures t <= cfg.burnTime && speed + cfg.acceleration * dt >= cfg.maxSpeed ==> r == cfg.maxSpeed
    ensures speed <= cfg.maxSpeed && cfg.acceleration >= 0.0 && dt >= 0.0 ==> speed <= r <= cfg.maxSpeed
  {
    if t <= cfg.burnTime then Min(speed + cfg.acceleration * dt, cfg.maxSpeed) else speed
  }

  /** Whether a step ends the flight before anything else happens. */
  function TimedOut(cfg: MissileConfig, f: Flight, dt: real, targetAlive: bool): (r: bool)
    ensures !targetAlive ==> r
    ensures targetAlive ==> (r <==> f.timeSinceLaunch + dt > cfg.timeout)
    ensures targetAlive && f.timeSinceLaunch + dt == cfg.timeout ==> !r
  {
    f.timeSinceLaunch + dt > cfg.timeout || !targetAlive
  }

  datatype StepResult = StepResult(flight: Flight, events: Events)

  /** One FixedUpdate of a launched missile.  `hasLock` is whether the
      launching radar exists and still holds this missile's target;
      `distance` is the distance to the target this step. */
  function Step(cfg: MissileConfig, f: Flight, dt: real, gravity: real,
                targetAlive: bool, hasLock: bool, distance: real): (r: StepResult)
    ensures r.flight.timeSinceLaunch == f.timeSinceLaunch + dt
    ensures TimedOut(cfg, f, dt, targetAlive) ==>
      r == StepResult(f.(timeSinceLaunch := f.timeSinceLaunch + dt), Events(None, true, false))
    ensures !TimedOut(cfg, f, dt, targetAlive) ==>
      && r.flight.currentSpeed == Burn(cfg, f.currentSpeed, f.timeSinceLaunch + dt, dt)
      && (r.events.targetDestroyed <==> distance <= cfg.proximityRange)
      && r.events.missileDestroyed == r.events.targetDestroyed
    ensures r.events.turn.Some? ==>
      && f.timeSinceLaunch + dt >= cfg.guidanceDelay
      && r.events.turn.value == TurnLimit(cfg, gravity, r.flight.currentSpeed, dt)
    ensures cfg.guidance == SARH ==>
      && r.flight.isAutonomous == f.isAutonomous
      && (r.events.turn.Some? <==>
            (!TimedOut(cfg, f, dt, targetAlive) && f.timeSinceLaunch + dt >= cfg.guidanceDelay && hasLock))
    ensures cfg.guidance == ARH ==>
      && (r.flight.isAutonomous <==>
            (f.isAutonomous ||
             (!TimedOut(cfg, f, dt, targetAlive) && f.timeSinceLaunch + dt >= cfg.guidanceDelay && distance < PitbullRange)))
      && (r.events.turn.Some? <==>
            (!TimedOut(cfg, f, dt, targetAlive) && f.timeSinceLaunch + dt >= cfg.guidanceDelay &&
             (r.flight.isAutonomous || hasLock)))
  {
    var t := f.timeSinceLaunch + dt;
    if t > cfg.timeout || !targetAlive then
      StepResult(f.(timeSinceLaunch := t), Events(None, true, false))
    else
      var speed := Burn(cfg, f.currentSpeed, t, dt);
      var guiding := t >= cfg.guidanceDelay;
      var autonomous :=
        if guiding && cfg.guidance == ARH && !f.isAutonomous && distance < PitbullRange then true
        else f.isAutonomous;
      var guided := guiding && (if cfg.guidance == SARH then hasLock else autonomous || hasLock);
      var hit := distance <= cfg.proximityRange;
      StepResult(Flight(t, speed, autonomous),
                 Events(if guided then Some(TurnLimit(cfg, gravity, speed, dt)) else None, hit, hit))
  }

  /** The inputs of one physics step. */
  datatype Sample = Sample(dt: real, gravity: real, targetAlive: bool, hasLock: bool, distance: real)

  /** The flight after a sequence of steps, stopping at the step that
      destroys the missile. */
  function Fly(cfg: MissileConfig, f: Flight, ss: seq<Sample>): Flight
    decreases |ss|
  {
    if ss == [] then f
    else
      var s := Step(cfg, f, ss[0].dt, ss[0].gravity, ss[0].targetAlive, ss[0].hasLock, ss[0].distance);
      if s.events.missileDestroyed then s.flight else Fly(cfg, s.flight, ss[1..])
  }

  predicate NonNegativeSteps(ss: seq<Sample>)
  {
    forall i :: 0 <= i < |ss| ==> ss[i].dt >= 0.0
  }

  /** Over any flight the speed never decreases and never exceeds maxSpeed,
      and the clock never runs backwards. */
  lemma {:induction false} FlySpeedBounded(cfg: MissileConfig, f: Flight, ss: seq<Sample>)
    requires cfg.acceleration >= 0.0 && f.currentSpeed <= cfg.maxSpeed && NonNegativeSteps(ss)
    ensures f.currentSpeed <= Fly(cfg, f, ss).currentSpeed <= cfg.maxSpeed
    ensures f.timeSinceLaunch <= Fly(cfg, f, ss).timeSinceLaunch
    decreases |ss|
  {
    if ss != [] {
      var s := Step(cfg, f, ss[0].dt, ss[0].gravity, ss[0].targetAlive, ss[0].hasLock, ss[0].distance);
      if !s.events.missileDestroyed {
        assert NonNegativeSteps(ss[1..]) by {
          forall i | 0 <= i < |ss[1..]| ensures ss[1..][i].dt >= 0.0 {
            assert ss[1..][i] == ss[i + 1];
          }
        }
        FlySpeedBounded(cfg, s.flight, ss[1..]);
      }
    }
  }

  /** Once autonomous, an ARH missile stays autonomous for the rest of the
      flight; a SARH missile never becomes autonomous. */
  lemma {:induction false} FlyAutonomyLatches(cfg: MissileConfig, f: Flight, ss: seq<Sample>)
    ensures f.isAutonomous ==> Fly(cfg, f, ss).isAutonomous
    ensures cfg.guidance == SARH ==> Fly(cfg, f, ss).isAutonomous == f.isAutonomous
    decreases |ss|
  {
    if ss != [] {
      var s := Step(cfg, f, ss[0].dt, ss[0].gravity, ss[0].targetAlive, ss[0].hasLock, ss[0].distance);
      if !s.events.missileDestroyed {
        FlyAutonomyLatches(cfg, s.flight, ss[1..]);
      }
    }
  }

  /** A SARH missile whose radar has dropped the lock flies straight, even
      inside the pitbull range; an ARH missile in the same situation guides
      on its own seeker. */
  lemma LostLockGuidance(f: Flight, dt: real, gravity: real, distance: real)
    requires f.timeSinceLaunch + dt >= DefaultConfig.guidanceDelay
    requires f.timeSinceLaunch + dt <= DefaultConfig.timeout
    requires DefaultConfig.proximityRange < distance < PitbullRange
    ensures Step(DefaultConfig, f, dt, gravity, true, false, distance).events == NoEvents
    ensures Step(DefaultConfig.(guidance := ARH), f, dt, gravity, true, false, distance).events.turn.Some?
  {
  }

  class HomingMissile {
    const cfg: MissileConfig
    var target: Ref
    var externalRadar: Radar.AdvancedRadar?
    var inheritedVelocity: Vec3
    var launched: bool
    var currentSpeed: real
    var timeSinceLaunch: real
    var isAutonomous: bool
    /** Set once Destroy(gameObject) has been called on this missile. */
    var destroyed: bool

    function State(): Flight
      reads this
    {
      Flight(timeSinceLaunch, currentSpeed, isAutonomous)
    }

    /** Whether the launching radar exists and holds this missile's target. */
    function HasLock(radarAlive: bool, live: set<nat>): (r: bool)
      reads this, externalRadar
      ensures r ==> externalRadar != null && radarAlive
      ensures Alive(target, live) ==>
        (r <==> externalRadar != null && radarAlive && externalRadar.lockedTarget == target)
      ensures !Alive(target, live) && target.Null? ==>
        (r <==> externalRadar != null && radarAlive && !Alive(externalRadar.lockedTarget, live))
    {
      externalRadar != null && radarAlive && SameObject(externalRadar.GetLockedTarget(), target, live)
    }

    /** Instantiation from the prefab: not launched, at rest. */
    constructor (cfg: MissileConfig)
      ensures this.cfg == cfg && !launched && !destroyed
      ensures State() == Flight(0.0, 0.0, false)
      ensures target == Null && externalRadar == null
    {
      this.cfg := cfg;
      target := Null;
      externalRadar := null;
      inheritedVelocity := Vec3(0.0, 0.0, 0.0);
      launched := false;
      currentSpeed := 0.0;
      timeSinceLaunch := 0.0;
      isAutonomous := false;
      destroyed := false;
    }

    method Launch(lockedTarget: Ref, radarSource: Radar.AdvancedRadar?, inheritedVel: Vec3)
      modifies this`target, this`externalRadar, this`inheritedVelocity, this`launched
      ensures target == lockedTarget && externalRadar == radarSource
      ensures inheritedVelocity == inheritedVel && launched
    {
      target := lockedTarget;
      externalRadar := radarSource;
      inheritedVelocity := inheritedVel;
      launched := true;
    }

    /** One physics step.  `live` holds the objects that exist,
        `radarAlive` whether the launching radar component still exists,
        `distance` the distance to the target. */
    method FixedUpdate(dt: real, gravity: real, live: set<nat>, radarAlive: bool, distance: real)
      returns (ev: Events)
      requires !destroyed
      modifies this`timeSinceLaunch, this`currentSpeed, this`isAutonomous, this`destroyed
      ensures !old(launched) ==> ev == NoEvents && State() == old(State()) && !destroyed
      ensures old(launched) ==>
        var s := Step(cfg, old(State()), dt, gravity, Alive(target, live), HasLock(radarAlive, live), distance);
        State() == s.flight && ev == s.events && destroyed == ev.missileDestroyed
    {
      if !launched {
        return NoEvents;
      }

      timeSinceLaunch := timeSinceLaunch + dt;

      if timeSinceLaunch > cfg.timeout || !Alive(target, live) {
        destroyed := true;
        return Events(None, true, false);
      }

      if timeSinceLaunch <= cfg.burnTime {
        currentSpeed := Min(currentSpeed + cfg.acceleration * dt, cfg.maxSpeed);
      }

      var turn: Option<real> := None;
      if timeSinceLaunch >= cfg.guidanceDelay {
        var hasLock := externalRadar != null && radarAlive && SameObject(externalRadar.GetLockedTarget(), target, live);

        if cfg.guidance == SARH && hasLock {
          turn := GuideToTarget(dt, gravity, live);
        } else if cfg.guidance == ARH {
          if !isAutonomous && distance < PitbullRange {
            isAutonomous := true;
          }
          if isAutonomous || hasLock {
            turn := GuideToTarget(dt, gravity, live);
          }
        }
      }

      var hit := false;
      if Alive(target, live) && distance <= cfg.proximityRange {
        // ExplodeAt: destroys the target, then the missile
        hit := true;
        destroyed := true;
      }
      ev := Events(turn, hit, hit);
    }

    /** The turn allowed towards a live target this step. */
    method GuideToTarget(dt: real, gravity: real, live: set<nat>) returns (turn: Option<real>)
      ensures Alive(target, live) ==> turn == Some(TurnLimit(cfg, gravity, currentSpeed, dt))
      ensures !Alive(target, live) ==> turn == None
    {
      if !Alive(target, live) {
        return None;
      }
      var maxTurnRate := MaxTurnRate(cfg.maxGForce, gravity, currentSpeed);
      turn := Some(maxTurnRate * Rad2Deg * dt);
      assert turn.value == TurnLimit(cfg, gravity, currentSpeed, dt);
    }
  }
}
