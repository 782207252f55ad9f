/**
 * WaypointFollow: an enemy aircraft flying a closed circuit of waypoints.
 * Each physics step picks a desired speed from the climb or descent since
 * the last step, eases the current speed towards it, and moves on to the
 * next waypoint (cyclically) once within 100 units of the current one.
 * The position's height and the distance to the waypoint are step inputs;
 * Mathf.SmoothDamp is a parameter of the step.
 */
module Waypoints {
  import opened UnityMath

  /** Closer than this to a waypoint counts as reaching it. */
  const ArrivalDistance: real := 100.0

  /** A climb or descent smaller than this counts as level flight. */
  const LevelBand: real := 0.1

  /** The desired speed: slow when climbing, fast when descending, cruise
      otherwise. */
  function DesiredSpeed(verticalDelta: real, minSpeed: real, cruiseSpeed: real, maxSpeed: real): (r: real)
    ensures verticalDelta > LevelBand ==> r == minSpeed
    ensures verticalDelta < -LevelBand ==> r == maxSpeed
    ensures -LevelBand <= verticalDelta <= LevelBand ==> r == cruiseSpeed
    ensures minSpeed <= cruiseSpeed <= maxSpeed ==> minSpeed <= r <= maxSpeed
  {
    if verticalDelta > LevelBand then minSpeed
    else if verticalDelta < -LevelBand then maxSpeed
    else cruiseSpeed
  }

  /** With ordered speeds, the steeper the climb the lower the desired
      speed. */
  lemma DesiredSpeedAntitone(d1: real, d2: real, minSpeed: real, cruiseSpeed: real, maxSpeed: real)
    requires minSpeed <= cruiseSpeed <= maxSpeed && d1 <= d2
    ensures DesiredSpeed(d2, minSpeed, cruiseSpeed, maxSpeed) <= DesiredSpeed(d1, minSpeed, cruiseSpeed, maxSpeed)
  {
  }

  /** The waypoint index after a step: the next one (wrapping to the first)
      when the current one is closer than the arrival distance. */
  function NextWaypoint(i: int, count: int, distance: real): (r: int)
    ensures 0 <= i < count ==> 0 <= r < count
    ensures distance >= ArrivalDistance ==> r == i
    ensures distance < ArrivalDistance && i + 1 < count ==> r == i + 1
    ensures distance < ArrivalDistance && i + 1 == count ==> r == 0
  {
    if distance < ArrivalDistance then (if i + 1 < count then i + 1 else 0) else i
  }

  /** The index after reaching k waypoints in a row. */
  function ArriveTimes(i: int, count: int, k: nat): int
    decreases k
  {
    if k == 0 then i else ArriveTimes(NextWaypoint(i, count, 0.0), count, k - 1)
  }

  lemma {:induction false} ArriveTimesAdd(i: int, count: int, a: nat, b: nat)
    ensures ArriveTimes(i, count, a + b) == ArriveTimes(ArriveTimes(i, count, a), count, b)
    decreases a
  {
    if a > 0 {
      ArriveTimesAdd(NextWaypoint(i, count, 0.0), count, a - 1, b);
    }
  }

  /** Before the end of the circuit, k arrivals move k waypoints on. */
  lemma {:induction false} ArriveWalks(i: nat, count: int, k: nat)
    requires i + k < count
    ensures ArriveTimes(i, count, k) == i + k
    decreases k
  {
    if k > 0 {
      ArriveWalks(i + 1, count, k - 1);
    }
  }

  /** The circuit is closed: after as many arrivals as there are waypoints
      the follower heads for the same waypoint again. */
  lemma CircuitCloses(i: nat, count: nat)
    requires i < count
    ensures ArriveTimes(i, count, count) == i
  {
    ArriveWalks(i, count, count - 1 - i);
    ArriveTimesAdd(i, count, count - 1 - i, 1);
    ArriveWalks(0, count, i);
    ArriveTimesAdd(i, count, count - i, i);
  }

  datatype FollowConfig = FollowConfig(
    rotationSpeed: real,
    minSpeed: real,
    cruiseSpeed: real,
    maxSpeed: real,
    speedSmoothTime: real)

  /** The field initialisers. */
  const DefaultConfig := FollowConfig(2.0, 170.0, 200.0, 300.0, 2.0)

  /** Mathf.SmoothDamp with the configured smoothing time and this step's
      delta time: (current, target, velocity) to (new current, new velocity). */
  type SmoothDamp = (real, real, real) -> (real, real)

  class WaypointFollow {
    const waypoints: seq<Ref>
    const cfg: FollowConfig
    var enabled: bool
    var currentWaypoint: int
    var currentSpeed: real
    var speedVelocity: real
    var lastY: real

    ghost predicate Valid()
      reads this
    {
      if |waypoints| > 0 then 0 <= currentWaypoint < |waypoints| else currentWaypoint == 0
    }

    constructor (waypoints: seq<Ref>, cfg: FollowConfig)
      ensures Valid() && enabled && this.waypoints == waypoints && this.cfg == cfg
      ensures currentWaypoint == 0 && currentSpeed == 0.0 && speedVelocity == 0.0 && lastY == 0.0
    {
      this.waypoints := waypoints;
      this.cfg := cfg;
      enabled := true;
      currentWaypoint := 0;
      currentSpeed := 0.0;
      speedVelocity := 0.0;
      lastY := 0.0;
    }

    /** Start, at height y: an empty circuit disables the component;
        otherwise the height is recorded and the speed set to cruise. */
    method Start(y: real)
      modifies this`enabled, this`lastY, this`currentSpeed
      ensures |waypoints| == 0 ==> !enabled && lastY == old(lastY) && currentSpeed == old(currentSpeed)
      ensures |waypoints| > 0 ==> enabled == old(enabled) && lastY == y && currentSpeed == cfg.cruiseSpeed
    {
      if |waypoints| == 0 {
        enabled := false;
        return;
      }
      lastY := y;
      currentSpeed := cfg.cruiseSpeed;
    }

    /** One physics step at height y, `distance` from the current waypoint.
        Returns the waypoint steered towards, if any. */
    method FixedUpdate(y: real, distance: real, smoothDamp: SmoothDamp) returns (steerTo: Option<Ref>)
      requires enabled && Valid()
      modifies this`currentWaypoint, this`currentSpeed, this`speedVelocity, this`lastY
      ensures Valid()
      ensures |waypoints| == 0 ==>
        steerTo == None && currentWaypoint == old(currentWaypoint) && lastY == old(lastY)
        && currentSpeed == old(currentSpeed) && speedVelocity == old(speedVelocity)
      ensures |waypoints| > 0 ==>
        var desired := DesiredSpeed(y - old(lastY), cfg.minSpeed, cfg.cruiseSpeed, cfg.maxSpeed);
        && steerTo == Some(waypoints[old(currentWaypoint)])
        && lastY == y
        && currentSpeed == smoothDamp(old(currentSpeed), desired, old(speedVelocity)).0
        && speedVelocity == smoothDamp(old(currentSpeed), desired, old(speedVelocity)).1
        && currentWaypoint == NextWaypoint(old(currentWaypoint), |waypoints|, distance)
    {
      if |waypoints| == 0 {
        return None;
      }

      var target := waypoints[currentWaypoint];

      var verticalDelta := y - lastY;
      lastY := y;

      var desiredSpeed := cfg.cruiseSpeed;
      if verticalDelta > LevelBand {
        desiredSpeed := cfg.minSpeed;
      } else if verticalDelta < -LevelBand {
        desiredSpeed := cfg.maxSpeed;
      }

      var damped := smoothDamp(currentSpeed, desiredSpeed, speedVelocity);
      currentSpeed, speedVelocity := damped.0, damped.1;

      if distance < ArrivalDistance {
        WrapIncrement(currentWaypoint, |waypoints|);
        currentWaypoint := (currentWaypoint + 1) % |waypoints|;
      }
      steerTo := Some(target);
    }
  }
}
