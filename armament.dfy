/**
 * ArmamentManager: the seeker state machine behind the Space key (arm,
 * warm up, ready, time out), missile release from the hardpoints in
 * round-robin order, and the count of missiles remaining.
 */
module Armament {
  import opened UnityMath
  import Radar
  import Missiles

  const SeekerWarmupTime: real := 1.0
  const SeekerTimeout: real := 10.0

  /** seekerActive, seekerTimer and readyToFire. */
  datatype Seeker = Seeker(active: bool, timer: real, ready: bool)

  const Disarmed := Seeker(false, 0.0, false)

  /** The seeker can only be ready while it is active, an active seeker
      past its warm-up is ready, and the timer never runs negative. */
  predicate Consistent(s: Seeker)
  {
    && (s.ready ==> s.active)
    && (s.active && s.timer >= SeekerWarmupTime ==> s.ready)
    && s.timer >= 0.0
  }

  /** TryArmSeeker: with a lock and a missile left, the seeker switches on
      and its timer restarts; otherwise nothing changes. */
  function TryArm(s: Seeker, hasLock: bool, remaining: int): (r: Seeker)
    ensures hasLock && remaining > 0 ==> r.active && r.timer == 0.0 && r.ready == s.ready
    ensures !(hasLock && remaining > 0) ==> r == s
    ensures !s.active && Consistent(s) ==> Consistent(r) && !r.ready
  {
    if hasLock && remaining > 0 then s.(active := true, timer := 0.0) else s
  }

  /** The seeker part of a frame after the key handling: while active the
      timer grows by dt, the seeker becomes ready once warmed up, and it
      disarms (timer back to 0) once the timeout is reached. */
  function Tick(s: Seeker, dt: real): (r: Seeker)
    ensures !s.active ==> r == s
    ensures s.active && s.timer + dt >= SeekerTimeout ==> r == Disarmed
    ensures s.active && s.timer + dt < SeekerTimeout ==>
      r.active && r.timer == s.timer + dt && (r.ready <==> s.ready || s.timer + dt >= SeekerWarmupTime)
    ensures Consistent(s) && dt >= 0.0 ==> Consistent(r)
  {
    if !s.active then s
    else
      var timer := s.timer + dt;
      var ready := if timer >= SeekerWarmupTime then true else s.ready;
      if timer >= SeekerTimeout then Disarmed else Seeker(true, timer, ready)
  }

  datatype PressOutcome = PressOutcome(seeker: Seeker, fired: bool)

  /** The Space key: an inactive seeker tries to arm; an active and ready
      seeker fires when a lock and a missile remain (firing disarms it); an
      active seeker that is not ready ignores the key. */
  function OnSpace(s: Seeker, hasLock: bool, remaining: int): (r: PressOutcome)
    ensures r.fired <==> s.active && s.ready && hasLock && remaining > 0
    ensures r.fired ==> r.seeker == Disarmed
    ensures s.active && !r.fired ==> r.seeker == s
    ensures !s.active ==> r.seeker == TryArm(s, hasLock, remaining)
    ensures Consistent(s) ==> Consistent(r.seeker)
  {
    if !s.active then PressOutcome(TryArm(s, hasLock, remaining), false)
    else if s.ready && hasLock && remaining > 0 then PressOutcome(Disarmed, true)
    else PressOutcome(s, false)
  }

  /** The seeker after a whole frame of Update. */
  function Frame(s: Seeker, space: bool, hasLock: bool, remaining: int, dt: real): (r: PressOutcome)
    ensures !space ==> r == PressOutcome(Tick(s, dt), false)
    ensures r.fired ==> space && r.seeker == Disarmed
    ensures Consistent(s) && dt >= 0.0 ==> Consistent(r.seeker)
  {
    var press := if space then OnSpace(s, hasLock, remaining) else PressOutcome(s, false);
    if press.fired then press else PressOutcome(Tick(press.seeker, dt), false)
  }

  function Sum(dts: seq<real>): real
  {
    if dts == [] then 0.0 else dts[0] + Sum(dts[1..])
  }

  predicate AllNonNegative(dts: seq<real>)
  {
    forall i :: 0 <= i < |dts| ==> dts[i] >= 0.0
  }

  /** The seeker after a run of frames without key presses. */
  function TickAll(s: Seeker, dts: seq<real>): Seeker
    decreases |dts|
  {
    if dts == [] then s else TickAll(Tick(s, dts[0]), dts[1..])
  }

  lemma {:induction false} SumNonNegative(dts: seq<real>)
    requires AllNonNegative(dts)
    ensures Sum(dts) >= 0.0
  {
    if dts != [] {
      assert AllNonNegative(dts[1..]) by {
        forall i | 0 <= i < |dts[1..]| ensures dts[1..][i] >= 0.0 {
          assert dts[1..][i] == dts[i + 1];
        }
      }
      SumNonNegative(dts[1..]);
    }
  }

  /** Warm-up: an active seeker that stays below the timeout keeps running,
      its timer is the elapsed time, and it is ready exactly when it was
      already ready or the timer has reached the warm-up time. */
  lemma {:induction false} WarmUp(s: Seeker, dts: seq<real>)
    requires s.active && Consistent(s) && AllNonNegative(dts) && s.timer + Sum(dts) < SeekerTimeout
    ensures TickAll(s, dts) == Seeker(true, s.timer + Sum(dts), s.ready || s.timer + Sum(dts) >= SeekerWarmupTime)
    decreases |dts|
  {
    if dts != [] {
      assert AllNonNegative(dts[1..]) by {
        forall i | 0 <= i < |dts[1..]| ensures dts[1..][i] >= 0.0 {
          assert dts[1..][i] == dts[i + 1];
        }
      }
      SumNonNegative(dts[1..]);
      assert dts[0] >= 0.0 && Sum(dts) == dts[0] + Sum(dts[1..]);
      WarmUp(Tick(s, dts[0]), dts[1..]);
    }
  }

  /** Arming and then holding the seeker for a second makes it ready. */
  lemma ReadyAfterOneSecond(hasLock: bool, remaining: int)
    requires hasLock && remaining > 0
    ensures TickAll(TryArm(Disarmed, hasLock, remaining), [0.5, 0.5]) == Seeker(true, 1.0, true)
    ensures TickAll(TryArm(Disarmed, hasLock, remaining), [0.5, 0.25]) == Seeker(true, 0.75, false)
  {
    WarmUp(Seeker(true, 0.0, false), [0.5, 0.5]);
    WarmUp(Seeker(true, 0.0, false), [0.5, 0.25]);
  }

  class ArmamentManager {
    /** missileHardpoints.Length; the hardpoint transforms only give the
        launch pose. */
    const hardpointCount: nat
    const missileVisuals: seq<GameObject?>
    const missilePrefab: Missiles.MissileConfig
    const radarReference: Radar.AdvancedRadar
    var activeMissiles: seq<Missiles.HomingMissile>
    var currentHardpoint: int
    var missilesRemaining: int
    var seekerActive: bool
    var seekerTimer: real
    var readyToFire: bool

    function SeekerState(): Seeker
      reads this
    {
      Seeker(seekerActive, seekerTimer, readyToFire)
    }

    /** Every missile released is one fewer remaining; the next hardpoint
        is in range; ready implies active. */
    ghost predicate Valid()
      reads this
    {
      && 0 <= missilesRemaining
      && missilesRemaining + |activeMissiles| == hardpointCount
      && (hardpointCount > 0 ==> 0 <= currentHardpoint < hardpointCount)
      && |missileVisuals| >= hardpointCount
      && Consistent(SeekerState())
    }

    /** The field initialisers and Start: all hardpoints loaded. */
    constructor (hardpointCount: nat, missileVisuals: seq<GameObject?>, missilePrefab: Missiles.MissileConfig,
                 radarReference: Radar.AdvancedRadar)
      requires |missileVisuals| >= hardpointCount
      ensures Valid()
      ensures missilesRemaining == hardpointCount && activeMissiles == [] && currentHardpoint == 0
      ensures SeekerState() == Disarmed
      ensures this.hardpointCount == hardpointCount && this.missileVisuals == missileVisuals
      ensures this.missilePrefab == missilePrefab && this.radarReference == radarReference
    {
      this.hardpointCount := hardpointCount;
      this.missileVisuals := missileVisuals;
      this.missilePrefab := missilePrefab;
      this.radarReference := radarReference;
      activeMissiles := [];
      currentHardpoint := 0;
      seekerActive := false;
      seekerTimer := 0.0;
      readyToFire := false;
      missilesRemaining := hardpointCount;
    }

    function GetMissilesRemaining(): (r: int)
      reads this
      ensures Valid() ==> 0 <= r <= hardpointCount
      ensures Valid() ==> r == hardpointCount - |activeMissiles|
    {
      missilesRemaining
    }

    /** Whether the radar reports a lock on an existing object. */
    function HasLock(live: set<nat>): (r: bool)
      reads this, radarReference
      ensures r <==> !SameObject(radarReference.GetLockedTarget(), Null, live)
      ensures r ==> radarReference.lockedTarget.Obj?
    {
      Alive(radarReference.GetLockedTarget(), live)
    }

    /** One frame: the Space key, then the seeker timer.  A release creates
        a launched missile aimed at the radar's lock. */
    method Update(space: bool, dt: real, live: set<nat>, aircraftVelocity: Vec3)
      requires Valid() && dt >= 0.0
      modifies this, missileVisuals
      ensures Valid()
      ensures
        var r := Frame(old(SeekerState()), space, HasLock(live), old(missilesRemaining), dt);
        && SeekerState() == r.seeker
        && (r.fired ==> Released(live, aircraftVelocity))
        && (!r.fired ==> activeMissiles == old(activeMissiles) && missilesRemaining == old(missilesRemaining)
                         && currentHardpoint == old(currentHardpoint))
      ensures 0 <= missilesRemaining <= old(missilesRemaining)
      ensures
        var r := Frame(old(SeekerState()), space, HasLock(live), old(missilesRemaining), dt);
        r.fired ==>
          var released := missileVisuals[old(currentHardpoint)];
          && (released != null ==> !released.active)
          && forall v :: v in missileVisuals && v != null && v != released ==> v.active == old(v.active)
      ensures
        var r := Frame(old(SeekerState()), space, HasLock(live), old(missilesRemaining), dt);
        !r.fired ==> forall v :: v in missileVisuals && v != null ==> v.active == old(v.active)
    {
      if space {
        if !seekerActive {
          TryArmSeeker(live);
        } else if readyToFire {
          FireMissile(live, aircraftVelocity);
        }
      }

      if seekerActive {
        seekerTimer := seekerTimer + dt;

        if seekerTimer >= SeekerWarmupTime {
          readyToFire := true;
        }

        if seekerTimer >= SeekerTimeout {
          seekerActive := false;
          readyToFire := false;
          seekerTimer := 0.0;
        }
      }
    }

    /** What a release leaves behind: one missile fewer, the hardpoint
        advanced round-robin, and a new missile launched at the radar's
        lock with the aircraft's velocity, at rest with its clock at zero,
        appended to the active list. */
    twostate predicate Released(live: set<nat>, aircraftVelocity: Vec3)
      reads this, radarReference, activeMissiles
    {
      && missilesRemaining == old(missilesRemaining) - 1
      && hardpointCount > 0
      && currentHardpoint == (old(currentHardpoint) + 1) % hardpointCount
      && |activeMissiles| == |old(activeMissiles)| + 1
      && activeMissiles[..|old(activeMissiles)|] == old(activeMissiles)
      && var m := activeMissiles[|old(activeMissiles)|];
         fresh(m) && m.cfg == missilePrefab && m.launched && m.target == radarReference.GetLockedTarget()
         && m.externalRadar == radarReference && m.inheritedVelocity == aircraftVelocity
         && m.State() == Missiles.Flight(0.0, 0.0, false) && !m.destroyed
    }

    method TryArmSeeker(live: set<nat>)
      modifies this`seekerActive, this`seekerTimer
      ensures SeekerState() == TryArm(old(SeekerState()), HasLock(live), missilesRemaining)
    {
      if Alive(radarReference.GetLockedTarget(), live) && missilesRemaining > 0 {
        seekerActive := true;
        seekerTimer := 0.0;
      }
    }

    /** Releases a missile from the current hardpoint when the radar holds
        a lock and a missile remains; otherwise does nothing. */
    method FireMissile(live: set<nat>, aircraftVelocity: Vec3)
      requires Valid()
      modifies this, missileVisuals
      ensures Valid()
      ensures !HasLock(live) || old(missilesRemaining) <= 0 ==>
        SeekerState() == old(SeekerState()) && activeMissiles == old(activeMissiles)
        && missilesRemaining == old(missilesRemaining) && currentHardpoint == old(currentHardpoint)
        && forall v :: v in missileVisuals && v != null ==> v.active == old(v.active)
      ensures HasLock(live) && old(missilesRemaining) > 0 ==>
        var released := missileVisuals[old(currentHardpoint)];
        && SeekerState() == Disarmed && Released(live, aircraftVelocity)
        && (released != null ==> !released.active)
        && forall v :: v in missileVisuals && v != null && v != released ==> v.active == old(v.active)
    {
      if !Alive(radarReference.GetLockedTarget(), live) || missilesRemaining <= 0 {
        return;
      }

      var visualModel := missileVisuals[currentHardpoint];

      var missile := new Missiles.HomingMissile(missilePrefab);
      missile.Launch(radarReference.GetLockedTarget(), radarReference, aircraftVelocity);

      if visualModel != null {
        visualModel.SetActive(false);
      }

      activeMissiles := activeMissiles + [missile];
      missilesRemaining := missilesRemaining - 1;

      seekerActive := false;
      readyToFire := false;
      seekerTimer := 0.0;

      currentHardpoint := (currentHardpoint + 1) % hardpointCount;
    }
  }
}
