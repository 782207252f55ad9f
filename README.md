# Flight-combat game core, modelled in Dafny

This project models the per-frame game logic of a Unity flight-combat game.
Each part below is one of the game's C# behaviours.

- **Scan-and-track radar (`AdvancedRadar`).** A table of contacts keyed by
  target identity, in which each contact has a "seen this sweep" flag. A
  target is registered at most once per frame, and contacts expire after a
  set time. There is also a selection cursor that cycles through the table,
  a lock toggle, and the SRC/ACM mode rule. The search gimbal sweeps and
  steps its vertical slice, and the track gimbal drops the lock outside its
  limits. Finally there is the illumination, occlusion and notch filter.
- **Homing missile (`HomingMissile`).** The launch gate, the timeout and
  lost-target destruction, and the burn phase, which accelerates the missile
  up to its maximum speed. Then the guidance delay, SARH guidance
  (semi-active: it homes only while the launching radar holds the lock) and
  ARH guidance (active: it goes autonomous once the target is inside the
  pitbull range). Last, the proximity fuse and the turn-rate cap.
- **Armament manager (`ArmamentManager`).** The seeker state machine: arm,
  warm up, ready, time out. Also the missile count and the round-robin
  hardpoint index.
- **Aircraft physics (`AircraftPhysics`).** The throttle accumulator, the
  choice between wheel brakes and airbrake, and the magnitudes of the
  thrust, drag, wheel-brake and airbrake forces.
- **Control and flap surfaces (`ControlSurface`, `FlapSurface`).** The
  mapping from keys to an axis, the exponential smoothing and rate limiting
  of deflections, the clamped flap stage, and the lift and drag magnitudes.
- **Enemy waypoint follower (`WaypointFollow`).** The desired speed on a
  climb, on a descent and in level flight, and the cyclic advance from one
  waypoint to the next.
- **Landing gear (`LandingGearController`).** The G toggle and the effects
  of `SetGearState`. The line that activates the gear colliders is indented
  as if it belonged to the `if` above it, but it runs on every call. So
  when the collider object is missing, the call throws part-way through.

Floats are modelled as `real`. Angles, distances, closing speeds, ray hits,
the grounded test, key states, `Time.deltaTime` and `Time.time` are inputs
of each step. Scene objects are `Ref = Null | Obj(id)`, and the set `live`
holds the objects that still exist. This mirrors Unity's overloaded null
test: a destroyed object compares equal to `null`.

Each behaviour whose fields change in place is a `class`. Its `Update` and
`FixedUpdate` methods are proved against pure functions
(`Radar.CheckLock`, `Missiles.Step`, `Armament.Frame`, `Aircraft.Throttle`,
and so on). The properties the game relies on are proved as lemmas about
those functions and as their `ensures` clauses.

Files:

| file | module | behaviour |
|---|---|---|
| unity_math.dfy | UnityMath | `Ref`, `Option`, `Vec3`, the `Mathf` helpers, `GameObject` |
| radar.dfy | Radar | `AdvancedRadar` |
| missile.dfy | Missiles | `HomingMissile` |
| armament.dfy | Armament | `ArmamentManager` |
| aircraft.dfy | Aircraft | `AircraftPhysics` |
| control_surface.dfy | ControlSurfaces | `ControlSurface` |
| flaps.dfy | Flaps | `FlapSurface` |
| waypoints.dfy | Waypoints | `WaypointFollow` |
| landing_gear.dfy | LandingGear | `LandingGearController` |

## Model

| member | source | states |
|---|---|---|
| UnityMath.Clamp01 | Assets/Scripts/Aircraft/AircraftPhysics.cs:85 | the result lies in [0,1] and equals the input when it already does |
| UnityMath.Clamp | Assets/Scripts/Aircraft/AircraftPhysics.cs:130 | the result lies in [lo,hi] when lo <= hi and equals x when x is already in range; x below lo gives lo, and x above hi (and not below lo) gives hi |
| UnityMath.ClampInt | Assets/Scripts/Aircraft/FlapSurface.cs:42 | the result lies in [lo,hi] when lo <= hi and equals x when x is already in range; x below lo gives lo, and x above hi (and not below lo) gives hi |
| UnityMath.Lerp | Assets/Scripts/Aircraft/AircraftPhysics.cs:47 | t is clamped to [0,1]; the result lies between a and b, and is a at t <= 0 and b at t >= 1 |
| UnityMath.MoveTowards | Assets/Scripts/Aircraft/ControlSurface.cs:45 | within maxDelta of the target the result is the target; otherwise it moves exactly maxDelta towards the target, never overshooting it |
| UnityMath.WrapIncrement | Assets/Scripts/Enemies/WaypointFollow.cs:63 | for -1 <= i < n, (i + 1) % n is i + 1, or 0 at the end |
| Radar.Keys | Assets/Scripts/Radar/AdvancedRadarTest.cs:63 | the key list has one key per contact, in table order |
| Radar.Find | Assets/Scripts/Radar/AdvancedRadarTest.cs:194 | the lookup returns a position holding the key, or -1 exactly when the key is absent |
| Radar.ClearSeen | Assets/Scripts/Radar/AdvancedRadarTest.cs:55-56 | every seen flag is cleared; keys and last-seen times are kept |
| Radar.Register | Assets/Scripts/Radar/AdvancedRadarTest.cs:192-208 | a new target is appended as seen now; a known target is refreshed only if not yet seen this frame; key uniqueness is kept and no other key is added |
| Radar.Prune | Assets/Scripts/Radar/AdvancedRadarTest.cs:107-114 | the result holds exactly the contacts whose object exists and that were seen no more than the persistence time ago (a contact at the boundary stays); key uniqueness is kept |
| Radar.RemoveKey | Assets/Scripts/Radar/AdvancedRadarTest.cs:114 | the result is the table without the contact keyed by k |
| Radar.WithoutExpired | Assets/Scripts/Radar/AdvancedRadarTest.cs:107-114 | collecting the expired keys and then removing them gives exactly the pruned table |
| Radar.IndexOf | Assets/Scripts/Radar/AdvancedRadarTest.cs:66 | the result is the first position of the selection, or -1 exactly when the selection is null or absent |
| Radar.SelectNext | Assets/Scripts/Radar/AdvancedRadarTest.cs:61-70 | an empty table leaves the selection; otherwise the selection becomes a table key, and the first key when the old selection was absent |
| Radar.SelectNextAt | Assets/Scripts/Radar/AdvancedRadarTest.cs:66-68 | from the i-th of distinct keys the selection moves to entry i + 1, wrapping to entry 0 |
| Radar.SelectWalksTable | Assets/Scripts/Radar/AdvancedRadarTest.cs:61-70 | before wrapping, k presses of R move the selection k entries on |
| Radar.SelectCyclesBack | Assets/Scripts/Radar/AdvancedRadarTest.cs:61-70 | n presses of R on a table of n distinct targets return to the starting selection |
| Radar.ToggleLock | Assets/Scripts/Radar/AdvancedRadarTest.cs:72-84 | the lock is live after the toggle iff no live lock was held and the selection is live (it is then the selection); a held lock is released; with neither, nothing changes |
| Radar.ToggleTwiceReleases | Assets/Scripts/Radar/AdvancedRadarTest.cs:72-84 | a first press locks the live selection and a second one releases it |
| Radar.CheckLock | Assets/Scripts/Radar/AdvancedRadarTest.cs:86-102 | the mode is ACM iff a live lock remains; a live lock whose key is missing is cleared with SRC; a present lock is kept with ACM; the gimbal is untouched |
| Radar.LockCanOutliveContact | Assets/Scripts/Radar/AdvancedRadarTest.cs:86-114 | the mode check runs before expiry, so a lock kept by the check can lose its contact in the same frame |
| Radar.SearchStep | Assets/Scripts/Radar/AdvancedRadarTest.cs:119-128 | the angle advances by speed*dt; strictly past half the width it wraps to minus half the width and the slice advances modulo the slice count; the slice stays in range |
| Radar.SweepWrapsAtEdge | Assets/Scripts/Radar/AdvancedRadarTest.cs:119-128 | at the 35-degree edge of the 70-degree scope the next step wraps to -35 and the next slice |
| Radar.InGimbalLimits | Assets/Scripts/Radar/AdvancedRadarTest.cs:137 | a bearing is within the limits iff both angles lie in the closed intervals [-limit, limit] |
| Radar.Sweep | Assets/Scripts/Radar/AdvancedRadarTest.cs:117-148 | SRC runs the search step; in ACM with a live lock, outside the gimbal limits the lock is dropped to SRC with the gimbal untouched, otherwise the angle follows the target and the slice becomes 0; "ACM iff live lock" is preserved |
| Radar.SliceHeight | Assets/Scripts/Radar/AdvancedRadarTest.cs:50 | the slice count times the slice height is the vertical sweep angle; a non-negative sweep gives a height between 0 and the sweep |
| Radar.BeamAt | Assets/Scripts/Radar/AdvancedRadarTest.cs:160-162 | the beam points at the gimbal angle with the configured resolution and notch threshold; its band is one slice height, the slice count times that height is the vertical sweep, and slice k's band starts k slice-heights above the bottom of the vertical scan, so the bands tile it up to the top |
| Radar.Accepted | Assets/Scripts/Radar/AdvancedRadarTest.cs:160-185 | a collider is registered iff it lies strictly within the horizontal resolution, strictly inside the slice band, is not hidden by a different object and has a closing speed of at least the notch threshold |
| Radar.NotchBoundaryPasses | Assets/Scripts/Radar/AdvancedRadarTest.cs:181 | a closing speed exactly at the notch threshold is still detected |
| Radar.DetectAll | Assets/Scripts/Radar/AdvancedRadarTest.cs:150-190 | the keys afterwards are the old keys plus the targets of the accepted colliders; key uniqueness is kept |
| Radar.DetectKeepsUnaccepted | Assets/Scripts/Radar/AdvancedRadarTest.cs:150-208 | a contact whose target no accepted collider names is still in the table, unchanged, after detection |
| Radar.SameKeySameContact | Assets/Scripts/Radar/AdvancedRadarTest.cs:37 | in a table without duplicate keys two contacts with the same target are the same contact |
| Radar.UnseenContactExpires | Assets/Scripts/Radar/AdvancedRadarTest.cs:53-115 | over one frame (clear the flags, detect, expire), a contact no accepted collider names that was last seen longer than the persistence time ago loses its key from the table |
| Radar.DetectMarksSeen | Assets/Scripts/Radar/AdvancedRadarTest.cs:187-201 | after detection every accepted target has a contact marked seen and last seen now |
| Radar.RegisterSeen | Assets/Scripts/Radar/AdvancedRadarTest.cs:192-208 | registering keeps seen contacts current and leaves the target's contact seen now |
| Radar.DetectKeepsSeen | Assets/Scripts/Radar/AdvancedRadarTest.cs:194-201 | a contact already seen this frame is not refreshed again |
| Radar.AdvancedRadar.GetLockedTarget | Assets/Scripts/Radar/AdvancedRadarTest.cs:34 | returns the radar's current lock |
| Radar.AdvancedRadar.HasLock | Assets/Scripts/Radar/AdvancedRadarTest.cs:35 | for an existing object, or while the lock exists, true iff it is the locked object; a null or destroyed reference matches a null or destroyed lock |
| Radar.AdvancedRadar.constructor | Assets/Scripts/Radar/AdvancedRadarTest.cs:38-51 | empty table, no lock or selection, SRC at angle -35 and slice 0 |
| Radar.AdvancedRadar.Update | Assets/Scripts/Radar/AdvancedRadarTest.cs:53-115 | the new scope width, selection, lock, mode, gimbal and table are those of the frame functions, in the source's order; ACM iff the lock is live |
| Radar.AdvancedRadar.HandleInput | Assets/Scripts/Radar/AdvancedRadarTest.cs:58-102 | the T toggle between 70 and 30, the R selection, then the lock toggle and mode check |
| Radar.AdvancedRadar.CycleTarget | Assets/Scripts/Radar/AdvancedRadarTest.cs:61-70 | the selection becomes SelectNext of the table keys |
| Radar.AdvancedRadar.CheckMode | Assets/Scripts/Radar/AdvancedRadarTest.cs:86-102 | the lock and mode become those of CheckLock |
| Radar.AdvancedRadar.ResetSeenFlags | Assets/Scripts/Radar/AdvancedRadarTest.cs:55-56 | the table becomes ClearSeen of the old one |
| Radar.AdvancedRadar.SweepRadar | Assets/Scripts/Radar/AdvancedRadarTest.cs:117-148 | the lock, mode and gimbal become those of Sweep; the slice stays in range |
| Radar.AdvancedRadar.DetectTargets | Assets/Scripts/Radar/AdvancedRadarTest.cs:150-190 | the table becomes DetectAll over the frame's colliders with the current beam |
| Radar.AdvancedRadar.RegisterRadarContact | Assets/Scripts/Radar/AdvancedRadarTest.cs:192-208 | the table becomes Register of the old one |
| Radar.AdvancedRadar.RemoveExpired | Assets/Scripts/Radar/AdvancedRadarTest.cs:107-114 | the table becomes Prune of the old one |
| Missiles.MaxTurnRate | Assets/Scripts/Weapons/HomingMissile.cs:146 | maxGForce*g divided by max(speed, 1): positive and at most maxGForce*g when that is positive; rate*speed equals maxGForce*g above speed 1 |
| Missiles.TurnLimit | Assets/Scripts/Weapons/HomingMissile.cs:146-147 | with a positive maxGForce*g and step, the step's turn in degrees is positive and at most the low-speed limit maxGForce*g*Rad2Deg*dt, which it equals at speeds up to 1; a zero step allows no turn |
| Missiles.TimedOut | Assets/Scripts/Weapons/HomingMissile.cs:58 | a dead target always ends the flight; with a live target the flight ends iff the clock after the step is strictly past the timeout, so a step landing exactly on it continues |
| Missiles.Burn | Assets/Scripts/Weapons/HomingMissile.cs:64-67 | while the time is within the burn time the speed grows by acceleration*dt, and a step that would reach or pass maxSpeed gives exactly maxSpeed; after the burn it is held; it never decreases and never exceeds maxSpeed |
| Missiles.Step | Assets/Scripts/Weapons/HomingMissile.cs:56-91 | the clock advances by dt; a timeout or dead target destroys the missile before anything else; guidance happens only after the delay; SARH guides iff the lock is held; ARH latches autonomy inside 5000 and guides iff autonomous or locked; the fuse fires iff the distance is at most the proximity range |
| Missiles.FlySpeedBounded | Assets/Scripts/Weapons/HomingMissile.cs:64-67 | over any run of steps the speed never decreases and never exceeds maxSpeed |
| Missiles.FlyAutonomyLatches | Assets/Scripts/Weapons/HomingMissile.cs:80-81 | once autonomous an ARH missile stays autonomous; a SARH missile never becomes so |
| Missiles.LostLockGuidance | Assets/Scripts/Weapons/HomingMissile.cs:74-85 | without the lock a default SARH missile flies straight while an ARH one inside pitbull range still guides |
| Missiles.HomingMissile.constructor | Assets/Scripts/Weapons/HomingMissile.cs:24-33 | unlaunched, at rest, with no target or radar |
| Missiles.HomingMissile.HasLock | Assets/Scripts/Weapons/HomingMissile.cs:74 | needs an existing radar; for a live target, true iff the radar's lock is this target; with a null target, true iff the radar's lock is null or destroyed |
| Missiles.HomingMissile.Launch | Assets/Scripts/Weapons/HomingMissile.cs:35-41 | stores the target, the radar and the inherited velocity, and sets launched |
| Missiles.HomingMissile.FixedUpdate | Assets/Scripts/Weapons/HomingMissile.cs:52-92 | before launch nothing changes; afterwards the new flight state and events are those of Step |
| Missiles.HomingMissile.GuideToTarget | Assets/Scripts/Weapons/HomingMissile.cs:136-148 | with a live target the turn is limited to the turn-rate cap in degrees times dt; with none it does nothing |
| Armament.TryArm | Assets/Scripts/Weapons/ArmamentManager.cs:59-66 | arms with the timer at 0 only with a lock and missiles left, otherwise changes nothing |
| Armament.Tick | Assets/Scripts/Weapons/ArmamentManager.cs:43-56 | an active seeker's timer grows by dt, it becomes ready at the warm-up time and disarms at the timeout; consistency is kept |
| Armament.OnSpace | Assets/Scripts/Weapons/ArmamentManager.cs:31-41 | fires iff the seeker is active and ready with a lock and missiles left; an active seeker that does not fire is unchanged; an inactive one tries to arm |
| Armament.Frame | Assets/Scripts/Weapons/ArmamentManager.cs:29-57 | without space it is one tick; firing disarms; "ready implies active" and the timer bounds are kept |
| Armament.SumNonNegative | Assets/Scripts/Weapons/ArmamentManager.cs:45 | time passed over several frames is non-negative |
| Armament.WarmUp | Assets/Scripts/Weapons/ArmamentManager.cs:43-56 | before the timeout, an armed seeker's timer is the sum of the frame times and it is ready once that reaches the warm-up time |
| Armament.ReadyAfterOneSecond | Assets/Scripts/Weapons/ArmamentManager.cs:43-48 | armed and then held for one second the seeker is ready; after 0.75 s it is not |
| Armament.ArmamentManager.constructor | Assets/Scripts/Weapons/ArmamentManager.cs:24-27 | the missile count starts at the hardpoint count, with the seeker disarmed |
| Armament.ArmamentManager.GetMissilesRemaining | Assets/Scripts/Weapons/ArmamentManager.cs:91 | the count lies in [0, hardpoints] and equals hardpoints minus missiles launched |
| Armament.ArmamentManager.HasLock | Assets/Scripts/Weapons/ArmamentManager.cs:61 | true iff the radar's lock is not Unity-null, that is, it refers to an existing object |
| Armament.ArmamentManager.Update | Assets/Scripts/Weapons/ArmamentManager.cs:29-57 | the seeker becomes that of Frame; a fire launches one missile at rest (Released) and hides the current hardpoint's visual while every other visual keeps its state; without a fire the missiles, count, hardpoint and every visual are unchanged; the count never increases and stays non-negative |
| Armament.ArmamentManager.TryArmSeeker | Assets/Scripts/Weapons/ArmamentManager.cs:59-66 | the seeker becomes that of TryArm |
| Armament.ArmamentManager.FireMissile | Assets/Scripts/Weapons/ArmamentManager.cs:68-89 | no lock or no missiles: nothing changes, visuals included; otherwise one launched missile, at rest with its clock at zero, is appended, the current hardpoint's visual is hidden and every other visual keeps its state, the count drops by one, the seeker disarms and the hardpoint advances modulo the count |
| Aircraft.SmoothedInput | Assets/Scripts/Aircraft/AircraftPhysics.cs:45-48 | the result lies between current and target and is never further from the target; the gap shrinks by the factor 1 - dt*rate |
| Aircraft.Throttle | Assets/Scripts/Aircraft/AircraftPhysics.cs:82-88 | Shift raises and Control lowers by rate*dt, each clamped to [0,1]; the throttle stays in [0,1] |
| Aircraft.ThrottleExamples | Assets/Scripts/Aircraft/AircraftPhysics.cs:85 | one second of Shift from idle at the default rate gives half throttle |
| Aircraft.BothKeysNeverRaise | Assets/Scripts/Aircraft/AircraftPhysics.cs:84-87 | with both keys held the throttle never rises |
| Aircraft.ThrustMagnitude | Assets/Scripts/Aircraft/AircraftPhysics.cs:155-160 | the thrust lies in [0, maxThrust], 0 at idle and maxThrust at full throttle |
| Aircraft.AeroMagnitude | Assets/Scripts/Aircraft/AircraftPhysics.cs:76 | the magnitude is non-negative for non-negative parameters and zero at zero speed |
| Aircraft.AeroQuadratic | Assets/Scripts/Aircraft/AircraftPhysics.cs:76 | the magnitude is even in the speed and quadruples when the speed doubles |
| Aircraft.DragMagnitude | Assets/Scripts/Aircraft/AircraftPhysics.cs:70-79 | no drag iff the speed is below 0.1, else the aerodynamic magnitude |
| Aircraft.GroundBrakeMagnitude | Assets/Scripts/Aircraft/AircraftPhysics.cs:127-132 | the speed factor is clamped to [0,100]: the force is brakeForce*speed for speeds in [0,100], 0 below and 100*brakeForce above, so it lies in [0, 100*brakeForce] |
| Aircraft.AirbrakeMagnitude | Assets/Scripts/Aircraft/AircraftPhysics.cs:134-143 | no force iff the speed is below 1, else the constant airbrakeDrag |
| Aircraft.BrakeLogic | Assets/Scripts/Aircraft/AircraftPhysics.cs:100-119 | the airbrake iff braking in the air, the wheel brakes iff braking on the ground, nothing iff B is not held |
| Aircraft.AircraftPhysics.constructor | Assets/Scripts/Aircraft/AircraftPhysics.cs:13-35 | idle throttle and stowed airbrake |
| Aircraft.AircraftPhysics.Update | Assets/Scripts/Aircraft/AircraftPhysics.cs:82-90 | the throttle becomes that of Throttle and stays in [0,1] |
| Aircraft.AircraftPhysics.FixedUpdate | Assets/Scripts/Aircraft/AircraftPhysics.cs:92-98 | the forces are the thrust, drag and brake magnitudes; airbrakeEngaged iff braking in the air; thrust within [0, maxThrust] |
| Aircraft.AircraftPhysics.ApplyThrust | Assets/Scripts/Aircraft/AircraftPhysics.cs:155-160 | the thrust is ThrustMagnitude |
| Aircraft.AircraftPhysics.ApplyAerodynamicDrag | Assets/Scripts/Aircraft/AircraftPhysics.cs:70-79 | the drag is DragMagnitude |
| Aircraft.AircraftPhysics.ApplyBrakeLogic | Assets/Scripts/Aircraft/AircraftPhysics.cs:100-119 | the braking is BrakeLogic and airbrakeEngaged iff it is the airbrake |
| ControlSurfaces.AxisInput | Assets/Scripts/Aircraft/ControlSurface.cs:74-87 | the input is in {-1,0,1}: 1 iff only the positive key is held, -1 iff only the negative one |
| ControlSurfaces.EffectiveDeflection | Assets/Scripts/Aircraft/ControlSurface.cs:63 | 70% of the current deflection, never larger in size |
| ControlSurfaces.GoalInRange | Assets/Scripts/Aircraft/ControlSurface.cs:41-42 | with a multiplier of size at most 1 the goal is within the largest deflection |
| ControlSurfaces.StepStaysInRange | Assets/Scripts/Aircraft/ControlSurface.cs:41-45 | both deflections stay within the largest deflection step after step |
| ControlSurfaces.ControlSurface.constructor | Assets/Scripts/Aircraft/ControlSurface.cs:1-29 | both deflections start at 0 |
| ControlSurfaces.ControlSurface.FixedUpdate | Assets/Scripts/Aircraft/ControlSurface.cs:36-72 | without an aircraft nothing changes; otherwise the target is smoothed towards the goal, the current deflection is rate-limited towards it, and lift and 70% deflection are reported |
| Flaps.FlapStage | Assets/Scripts/Aircraft/FlapSurface.cs:37-48 | Z raises and X lowers by one, clamped to the existing stages; the stage stays in range |
| Flaps.StageEdges | Assets/Scripts/Aircraft/FlapSurface.cs:42-46 | raising at the top stage and lowering at stage 0 change nothing |
| Flaps.RaiseReachesTop | Assets/Scripts/Aircraft/FlapSurface.cs:40-43 | k presses of Z reach stage + k, stopping at the top stage |
| Flaps.FlapDrag | Assets/Scripts/Aircraft/FlapSurface.cs:81-82 | the drag is zero at stage 0 and non-negative |
| Flaps.DragGrowsWithStage | Assets/Scripts/Aircraft/FlapSurface.cs:81-82 | more flap, more drag |
| Flaps.FlapSurface.TargetAngle | Assets/Scripts/Aircraft/FlapSurface.cs:26 | the target angle is one of the configured stage angles |
| Flaps.FlapSurface.constructor | Assets/Scripts/Aircraft/FlapSurface.cs:17-25 | stage 0 and deflection 0 |
| Flaps.FlapSurface.Update | Assets/Scripts/Aircraft/FlapSurface.cs:37-48 | the stage becomes that of FlapStage and stays in range |
| Flaps.FlapSurface.FixedUpdate | Assets/Scripts/Aircraft/FlapSurface.cs:50-84 | without an aircraft nothing changes; otherwise the deflection is rate-limited towards the stage angle and the lift, deflection and stage-scaled drag are reported |
| Waypoints.DesiredSpeed | Assets/Scripts/Enemies/WaypointFollow.cs:47-49 | minSpeed on a climb above 0.1, maxSpeed on a descent below -0.1, cruiseSpeed otherwise; always between min and max for ordered speeds |
| Waypoints.DesiredSpeedAntitone | Assets/Scripts/Enemies/WaypointFollow.cs:47-49 | the steeper the climb, the lower the desired speed |
| Waypoints.NextWaypoint | Assets/Scripts/Enemies/WaypointFollow.cs:60-64 | the index advances by one, wrapping to 0, only when strictly within 100; it stays in range |
| Waypoints.ArriveWalks | Assets/Scripts/Enemies/WaypointFollow.cs:60-64 | before the end of the circuit k arrivals move k waypoints on |
| Waypoints.CircuitCloses | Assets/Scripts/Enemies/WaypointFollow.cs:63 | after as many arrivals as waypoints the follower heads for the same waypoint again |
| Waypoints.WaypointFollow.constructor | Assets/Scripts/Enemies/WaypointFollow.cs:6-17 | enabled, heading for waypoint 0 |
| Waypoints.WaypointFollow.Start | Assets/Scripts/Enemies/WaypointFollow.cs:21-35 | an empty circuit disables the component; otherwise the height is recorded and the speed set to cruise |
| Waypoints.WaypointFollow.FixedUpdate | Assets/Scripts/Enemies/WaypointFollow.cs:37-65 | steers to the current waypoint; lastY becomes y after the climb is measured from the old value; the speed is smoothed towards DesiredSpeed; the index becomes NextWaypoint and stays in range |
| LandingGear.Toggle | Assets/Scripts/Aircraft/LandingGearController.cs:21-25 | a G press flips the gear, otherwise it is kept |
| LandingGear.TwoPressesRestore | Assets/Scripts/Aircraft/LandingGearController.cs:21-25 | two presses restore the gear |
| LandingGear.LandingGearController.constructor | Assets/Scripts/Aircraft/LandingGearController.cs:12 | the gear starts down |
| LandingGear.LandingGearController.Start | Assets/Scripts/Aircraft/LandingGearController.cs:14-17 | shows the lowered gear; throws iff the collider object is missing |
| LandingGear.LandingGearController.Update | Assets/Scripts/Aircraft/LandingGearController.cs:19-26 | G flips the gear and shows it; without G nothing changes |
| LandingGear.LandingGearController.SetGearState | Assets/Scripts/Aircraft/LandingGearController.cs:28-36 | the open model (when present) and the colliders active iff down, the closed model active iff up; the collider line runs even without an open model, so a missing collider object throws before the closed model is switched |
| LandingGear.LandingGearController.IsGearDown | Assets/Scripts/Aircraft/LandingGearController.cs:38 | reports the gear flag |

## Left out

- Trigonometry and vector or quaternion maths are inputs, not computed.
  This covers `Vector3.SignedAngle`, `Distance`, `Dot`, normalisation,
  `Mathf.Atan2`, the `sin(2*aoa)` lift factor, `Quaternion.FromToRotation`,
  `RotateTowards` and `Slerp`. Bearings, distances, closing speeds and local
  airspeeds are step parameters. A step reports force magnitudes and turn
  limits rather than vectors.
- `Mathf.SmoothDamp` in the waypoint follower is a function parameter of
  the step. Its internals are not modelled.
- Engine calls are inputs or are left out: `Physics.OverlapSphere`, the
  occlusion ray (an input per collider), the grounded ray (an input),
  `Rigidbody.AddForce`/`MoveRotation`/velocity writes, `Instantiate` of
  effects and contrails, and `GetComponent`.
- `Destroy` is reported as an event. The model does not remove the
  destroyed objects from `live`: that set is given anew each frame.
- The engine calls no `Update` or `FixedUpdate` on a destroyed or disabled
  behaviour. `HomingMissile.FixedUpdate` requires that the missile is not
  destroyed, and `WaypointFollow.FixedUpdate` requires that the component is
  enabled.
- GUI, gizmos, audio, renderer colours and the visual `localRotation`
  writes are left out (`OnGUI`, the radar scope and target boxes,
  `DrawHollowCircle`, `UpdateEngineSound`, `AnimateAirbrake`).
- `HomingMissile.GuideToTargetWithLofting` is never called and is all
  vector maths. `AeroSurface.cs`, `IntakeRamp.cs`, `FollowCamera.cs`,
  `AircraftDisplaySettings.cs`, `AlwaysVisibleGizmos.cs` and
  `AeroPanelData.cs` are not part of this model.
- `HomingMissile` collision handling (`OnTriggerEnter`) and the effects of
  `ExplodeAt` (explosion prefab, inherited velocity) are left out. The
  model keeps only the fact that the fuse destroys both target and missile.
- The contact table keeps the dictionary's enumeration order as insertion
  order. .NET's reuse of freed slots after `Remove`, which can reorder
  later insertions, is not modelled.
- `Radar.AdvancedRadar.constructor` requires at least one vertical slice.
  With zero slices the source's slice height would be an infinite float.
- `Flaps.FlapSurface.constructor` requires a non-empty stage array. With an
  empty one the source's `targetAngle` throws an index exception, which is
  not modelled.
- `Armament.ArmamentManager.constructor` requires at least as many visuals
  as hardpoints. With fewer, the source's indexing would throw.
- `Armament.ArmamentManager`: the radar reference is a non-null field. An
  unassigned radar would make the source throw a NullReferenceException on
  the first Space press; that path is not modelled.
- `Armament.ArmamentManager.Update` requires a non-negative frame time,
  which `Time.deltaTime` always is.
- `Armament.ArmamentManager.FireMissile`: the round-robin hardpoint index is
  proved to stay in range, but is not tied to the number of missiles fired.
- `ControlSurfaces.ControlSurface.FixedUpdate` does not state the range
  invariant itself. It is proved as the lemma
  `ControlSurfaces.StepStaysInRange` about the functions the method is
  specified by.
- `Waypoints.WaypointFollow.FixedUpdate`: a null entry in the waypoint
  array would throw in the source. The model steers to whatever reference
  the entry holds.
- `LandingGear.LandingGearController.SetGearState`: gear objects that have
  been destroyed, rather than never assigned, are not modelled. In Unity
  these throw `MissingReferenceException` on `SetActive`.
- Floats are `real`. IEEE rounding, infinities and NaN are not modelled.
