/**
 * FlapSurface: the flap stage selected with Z and X, the rate-limited
 * deflection towards the stage's angle, and the lift and drag magnitudes
 * (the drag scaled by half the stage number).  As for the control
 * surfaces, the sine factor of the lift is not modelled.
 */
module Flaps {
  import opened UnityMath
  import Aircraft

  /** The stage after one frame's keys: Z raises and X lowers the stage by
      one, each clamped to the stages that exist; Z is handled first. */
  function FlapStage(stage: int, up: bool, down: bool, count: int): (r: int)
    ensures !up && !down ==> r == stage
    ensures count > 0 && (up || down) ==> 0 <= r < count
    ensures count > 0 && 0 <= stage < count ==> 0 <= r < count
    ensures up && !down && 0 <= stage < count ==> r == if stage + 1 < count then stage + 1 else stage
    ensures down && !up && 0 <= stage < count ==> r == if stage > 0 then stage - 1 else 0
  {
    var raised := if up then ClampInt(stage + 1, 0, count - 1) else stage;
    if down then ClampInt(raised - 1, 0, count - 1) else raised
  }

  /** Raising at the top stage and lowering at stage 0 change nothing. */
  lemma StageEdges(count: int)
    requires count > 0
    ensures FlapStage(count - 1, true, false, count) == count - 1
    ensures FlapStage(0, false, true, count) == 0
  {
  }

  /** The stage after pressing Z k times. */
  function RaiseTimes(stage: int, k: nat, count: int): int
    decreases k
  {
    if k == 0 then stage else RaiseTimes(FlapStage(stage, true, false, count), k - 1, count)
  }

  /** k presses of Z from a valid stage reach stage + k, stopping at the top
      stage. */
  lemma {:induction false} RaiseReachesTop(stage: int, k: nat, count: int)
    requires 0 <= stage < count
    ensures RaiseTimes(stage, k, count) == if stage + k < count then stage + k else count - 1
    decreases k
  {
    if k > 0 {
      RaiseReachesTop(FlapStage(stage, true, false, count), k - 1, count);
    }
  }

  /** The drag of the flap: the surface's aerodynamic magnitude scaled by
      half the stage number. */
  function FlapDrag(density: real, speed: real, area: real, dragCoefficient: real, stage: int): (r: real)
    ensures stage == 0 ==> r == 0.0
    ensures density >= 0.0 && area >= 0.0 && dragCoefficient >= 0.0 && stage >= 0 ==> r >= 0.0
  {
    var base := Aircraft.AeroMagnitude(density, speed, area, dragCoefficient);
    assert base >= 0.0 && stage >= 0 ==> base * (stage as real / 2.0) >= 0.0 by {
      if base >= 0.0 && stage >= 0 {
        Aircraft.NonNegativeProduct(base, stage as real / 2.0);
      }
    }
    base * (stage as real / 2.0)
  }

  /** More flap, more drag. */
  lemma DragGrowsWithStage(density: real, speed: real, area: real, dragCoefficient: real, s1: int, s2: int)
    requires density >= 0.0 && area >= 0.0 && dragCoefficient >= 0.0
    requires s1 <= s2
    ensures FlapDrag(density, speed, area, dragCoefficient, s1) <= FlapDrag(density, speed, area, dragCoefficient, s2)
  {
    var base := Aircraft.AeroMagnitude(density, speed, area, dragCoefficient);
    Aircraft.NonNegativeProduct(base, s2 as real / 2.0 - s1 as real / 2.0);
    assert base * (s2 as real / 2.0) - base * (s1 as real / 2.0) == base * (s2 as real / 2.0 - s1 as real / 2.0);
  }

  datatype FlapConfig = FlapConfig(
    aircraft: Ref,
    surfaceArea: real,
    liftCoefficient: real,
    dragCoefficient: real,
    flapAngles: seq<real>,
    deflectionSpeed: real)

  /** The field initialisers. */
  function DefaultConfig(aircraft: Ref): FlapConfig
  {
    FlapConfig(aircraft, 3.0, 1.5, 0.02, [0.0, 15.0, 40.0], 30.0)
  }

  /** The forces side of a step: lift magnitude, the deflection's
      contribution to the angle of attack (radians), and drag magnitude. */
  datatype FlapForces = FlapForces(liftMagnitude: real, deflectionAoa: real, dragMagnitude: real)

  class FlapSurface {
    const cfg: FlapConfig
    var targetFlapStage: int
    var currentDeflection: real

    ghost predicate Valid()
      reads this
    {
      0 <= targetFlapStage < |cfg.flapAngles|
    }

    /** The angle of the selected stage. */
    function TargetAngle(): (r: real)
      reads this
      requires Valid()
      ensures r in cfg.flapAngles
    {
      cfg.flapAngles[targetFlapStage]
    }

    constructor (cfg: FlapConfig)
      requires |cfg.flapAngles| > 0
      ensures Valid() && this.cfg == cfg
      ensures targetFlapStage == 0 && currentDeflection == 0.0
    {
      this.cfg := cfg;
      targetFlapStage := 0;
      currentDeflection := 0.0;
    }

    /** The per-frame keys: Z (stageUp) and X (stageDown) pressed this frame. */
    method Update(stageUp: bool, stageDown: bool)
      requires Valid()
      modifies this`targetFlapStage
      ensures Valid()
      ensures targetFlapStage == FlapStage(old(targetFlapStage), stageUp, stageDown, |cfg.flapAngles|)
    {
      if stageUp {
        targetFlapStage := ClampInt(targetFlapStage + 1, 0, |cfg.flapAngles| - 1);
      }
      if stageDown {
        targetFlapStage := ClampInt(targetFlapStage - 1, 0, |cfg.flapAngles| - 1);
      }
    }

    /** One physics step; see ControlSurface.FixedUpdate for the inputs. */
    method FixedUpdate(fixedDt: real, live: set<nat>, airDensity: real, localSpeed: real)
      returns (forces: Option<FlapForces>)
      requires Valid()
      modifies this`currentDeflection
      ensures !Alive(cfg.aircraft, live) ==> forces == None && currentDeflection == old(currentDeflection)
      ensures Alive(cfg.aircraft, live) ==>
        && currentDeflection == MoveTowards(old(currentDeflection), TargetAngle(), cfg.deflectionSpeed * fixedDt)
        && forces == Some(FlapForces(
             Aircraft.AeroMagnitude(airDensity, localSpeed, cfg.surfaceArea, cfg.liftCoefficient),
             Deg2Rad * currentDeflection,
             FlapDrag(airDensity, localSpeed, cfg.surfaceArea, cfg.dragCoefficient, targetFlapStage)))
    {
      if !Alive(cfg.aircraft, live) {
        return None;
      }

      currentDeflection := MoveTowards(currentDeflection, TargetAngle(), cfg.deflectionSpeed * fixedDt);

      var lift := Aircraft.AeroMagnitude(airDensity, localSpeed, cfg.surfaceArea, cfg.liftCoefficient);
      var drag := Aircraft.AeroMagnitude(airDensity, localSpeed, cfg.surfaceArea, cfg.dragCoefficient);
      forces := Some(FlapForces(lift, Deg2Rad * currentDeflection, drag * (targetFlapStage as real / 2.0)));
      assert drag * (targetFlapStage as real / 2.0) ==
        FlapDrag(airDensity, localSpeed, cfg.surfaceArea, cfg.dragCoefficient, targetFlapStage);
    }
  }
}
