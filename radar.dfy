/**
 * The scan-and-track radar (AdvancedRadar): a contact table keyed by target
 * identity with per-frame "seen" flags and time-based expiry, a selection
 * cursor and a lock toggle, the SRC/ACM mode rule, the search and track
 * gimbals, and the illumination/occlusion/notch filter that decides which
 * colliders are registered.  Geometry (bearings, elevations, closing
 * speeds, ray hits) is sampled by the caller and passed in.
 */
module Radar {
  import opened UnityMath

  datatype Mode = SRC | ACM

  /** One row of the contact table (RadarContact); `target` is its key. */
  datatype Contact = Contact(target: nat, lastSeenTime: real, seenThisSweep: bool)

  /** One collider returned by the range query this frame: its bearing and
      elevation from the nose (degrees), the first object the line-of-sight
      ray meets on the obstruction layers (Null when it meets nothing) and
      the closing speed along the line of sight. */
  datatype Hit = Hit(target: nat, horizAngle: real, elevationAngle: real, rayHit: Ref, closingSpeed: real)

  /** The locked target's bearing and elevation from the nose (degrees). */
  datatype Bearing = Bearing(h: real, v: real)

  /** Keys pressed this frame: T (scope width), R (cycle target), right mouse button (lock). */
  datatype RadarKeys = RadarKeys(toggleScope: bool, cycleTarget: bool, lockToggle: bool)

  /** The serialized settings the core reads. */
  datatype RadarConfig = RadarConfig(
    horizontalLimit: real,
    verticalLimit: real,
    verticalSweepAngle: real,
    verticalSlices: int,
    sweepSpeed: real,
    sweepResolution: real,
    contactPersistenceTime: real,
    notchingThreshold: real)

  /** Gimbal position: horizontal angle and vertical slice. */
  datatype Gimbal = Gimbal(angle: real, slice: int)

  /** The lock, the mode and the gimbal, which the mode check and the sweep update together. */
  datatype Scan = Scan(lock: Ref, mode: Mode, gimbal: Gimbal)

  /** Where the beam points during detection, and the notch threshold. */
  datatype Beam = Beam(angle: real, sliceStart: real, sliceHeight: real, resolution: real, notchingThreshold: real)

  // ---------------------------------------------------------------------
  // The contact table

  function Keys(cs: seq<Contact>): (ks: seq<nat>)
    ensures |ks| == |cs|
    ensures forall i :: 0 <= i < |cs| ==> ks[i] == cs[i].target
  {
    seq(|cs|, i requires 0 <= i < |cs| => cs[i].target)
  }

  predicate Distinct(ks: seq<nat>)
  {
    forall i, j :: 0 <= i < j < |ks| ==> ks[i] != ks[j]
  }

  /** No two contacts for the same target. */
  predicate UniqueKeys(cs: seq<Contact>)
  {
    Distinct(Keys(cs))
  }

  /** Dictionary lookup: the position of the contact keyed by t, or -1. */
  function Find(cs: seq<Contact>, t: nat): (i: int)
    ensures -1 <= i < |cs|
    ensures 0 <= i ==> cs[i].target == t
    ensures i == -1 <==> t !in Keys(cs)
  {
    if cs == [] then -1
    else if cs[0].target == t then 0
    else
      var j := Find(cs[1..], t);
      assert Keys(cs[1..]) == Keys(cs)[1..];
      if j < 0 then -1 else j + 1
  }

  /** The table with every seenThisSweep flag cleared (start of a frame). */
  function ClearSeen(cs: seq<Contact>): (r: seq<Contact>)
    ensures Keys(r) == Keys(cs)
    ensures forall i :: 0 <= i < |r| ==> !r[i].seenThisSweep && r[i].lastSeenTime == cs[i].lastSeenTime
  {
    seq(|cs|, i requires 0 <= i < |cs| => cs[i].(seenThisSweep := false))
  }

  /** RegisterRadarContact on the table: a new target is appended, seen now;
      a known target is refreshed only if it has not been seen this frame. */
  function Register(cs: seq<Contact>, t: nat, now: real): (r: seq<Contact>)
    ensures forall k :: k in Keys(r) <==> k in Keys(cs) || k == t
    ensures UniqueKeys(cs) ==> UniqueKeys(r)
    ensures t !in Keys(cs) ==> r == cs + [Contact(t, now, true)]
    ensures UniqueKeys(cs) ==>
      forall i :: 0 <= i < |cs| && cs[i].target == t ==>
        r == if cs[i].seenThisSweep then cs else cs[i := Contact(t, now, true)]
  {
    var i := Find(cs, t);
    if i < 0 then
      assert Keys(cs + [Contact(t, now, true)]) == Keys(cs) + [t];
      cs + [Contact(t, now, true)]
    else if cs[i].seenThisSweep then cs
    else
      assert Keys(cs[i := Contact(t, now, true)]) == Keys(cs);
      cs[i := Contact(t, now, true)]
  }

  /** Whether a contact is pruned at time `now`: its object is gone, or it
      was last seen longer than the persistence window ago. */
  predicate Expired(c: Contact, now: real, persistence: real, live: set<nat>)
  {
    c.target !in live || now - c.lastSeenTime > persistence
  }

  /** The table after expiry: exactly the unexpired contacts. */
  function Prune(cs: seq<Contact>, now: real, persistence: real, live: set<nat>): (r: seq<Contact>)
    ensures forall c :: c in r <==> c in cs && !Expired(c, now, persistence, live)
    ensures forall k :: k in Keys(r) ==> k in Keys(cs)
    ensures UniqueKeys(cs) ==> UniqueKeys(r)
    ensures |r| <= |cs|
  {
    if cs == [] then []
    else
      var rest := Prune(cs[1..], now, persistence, live);
      assert Keys(cs[1..]) == Keys(cs)[1..];
      if Expired(cs[0], now, persistence, live) then rest
      else
        ConsKeys(cs[0], rest);
        assert UniqueKeys(cs) ==> UniqueKeys([cs[0]] + rest) by {
          if UniqueKeys(cs) {
            HeadNotInTail(cs);
            ConsUnique(cs[0], rest);
          }
        }
        [cs[0]] + rest
  }

  lemma ConsKeys(c: Contact, rest: seq<Contact>)
    ensures Keys([c] + rest) == [c.target] + Keys(rest)
  {
  }

  /** Putting a contact with a fresh key in front keeps the keys unique. */
  lemma ConsUnique(c: Contact, rest: seq<Contact>)
    requires UniqueKeys(rest) && c.target !in Keys(rest)
    ensures UniqueKeys([c] + rest)
  {
    ConsKeys(c, rest);
  }

  lemma HeadNotInTail(cs: seq<Contact>)
    requires UniqueKeys(cs) && cs != []
    ensures cs[0].target !in Keys(cs[1..])
  {
    assert Keys(cs[1..]) == Keys(cs)[1..];
  }

  /** Dictionary.Remove: the table without the contact keyed by k. */
  function RemoveKey(cs: seq<Contact>, k: nat): (r: seq<Contact>)
    ensures forall c :: c in r <==> c in cs && c.target != k
    ensures k !in Keys(r)
  {
    if cs == [] then []
    else (if cs[0].target == k then [] else [cs[0]]) + RemoveKey(cs[1..], k)
  }

  /** The contacts whose keys are outside ks, in order. */
  ghost function Without(cs: seq<Contact>, ks: set<nat>): seq<Contact>
  {
    if cs == [] then []
    else (if cs[0].target in ks then [] else [cs[0]]) + Without(cs[1..], ks)
  }

  lemma {:induction false} RemoveKeyWithout(cs: seq<Contact>, ks: set<nat>, k: nat)
    ensures RemoveKey(Without(cs, ks), k) == Without(cs, ks + {k})
  {
    if cs != [] {
      RemoveKeyWithout(cs[1..], ks, k);
      var head := if cs[0].target in ks then [] else [cs[0]];
      assert Without(cs, ks) == head + Without(cs[1..], ks);
      RemoveKeyAppend(head, Without(cs[1..], ks), k);
    }
  }

  lemma {:induction false} RemoveKeyAppend(a: seq<Contact>, b: seq<Contact>, k: nat)
    requires |a| <= 1
    ensures RemoveKey(a + b, k) == RemoveKey(a, k) + RemoveKey(b, k)
  {
    if a != [] {
      assert (a + b)[1..] == b;
      assert a[1..] == [];
    } else {
      assert a + b == b;
    }
  }

  lemma {:induction false} WithoutNothing(cs: seq<Contact>)
    ensures Without(cs, {}) == cs
  {
    if cs != [] {
      WithoutNothing(cs[1..]);
    }
  }

  /** Removing the keys of exactly the expired contacts is expiry. */
  lemma {:induction false} WithoutExpired(cs: seq<Contact>, ks: set<nat>, now: real, persistence: real, live: set<nat>)
    requires forall c :: c in cs ==> (c.target in ks <==> Expired(c, now, persistence, live))
    ensures Without(cs, ks) == Prune(cs, now, persistence, live)
  {
    if cs != [] {
      assert cs[0] in cs;
      WithoutExpired(cs[1..], ks, now, persistence, live);
    }
  }

  // ---------------------------------------------------------------------
  // Selection and lock

  /** List.IndexOf over the keys: the first position holding r, or -1
      (a null reference is found nowhere). */
  function IndexOf(keys: seq<nat>, r: Ref): (i: int)
    ensures -1 <= i < |keys|
    ensures 0 <= i ==> r == Obj(keys[i]) && forall j :: 0 <= j < i ==> keys[j] != keys[i]
    ensures i == -1 <==> r.Null? || r.id !in keys
  {
    if r.Null? || keys == [] then -1
    else if keys[0] == r.id then 0
    else
      var j := IndexOf(keys[1..], r);
      if j < 0 then -1 else j + 1
  }

  /** The R key: the entry after the current selection in table order,
      wrapping around; the first entry when the selection is not in the
      table; no change when the table is empty. */
  function SelectNext(keys: seq<nat>, selected: Ref): (r: Ref)
    ensures keys == [] ==> r == selected
    ensures keys != [] ==> r.Obj? && r.id in keys
    ensures keys != [] && (selected.Null? || selected.id !in keys) ==> r == Obj(keys[0])
  {
    if |keys| > 0 then
      var next := IndexOf(keys, selected) + 1;
      Obj(keys[if next < |keys| then next else 0])
    else selected
  }

  /** Pressing R k times. */
  ghost function SelectTimes(keys: seq<nat>, selected: Ref, k: nat): Ref
    decreases k
  {
    if k == 0 then selected else SelectTimes(keys, SelectNext(keys, selected), k - 1)
  }

  lemma {:induction false} SelectTimesAdd(keys: seq<nat>, selected: Ref, a: nat, b: nat)
    ensures SelectTimes(keys, selected, a + b) == SelectTimes(keys, SelectTimes(keys, selected, a), b)
    decreases a
  {
    if a > 0 {
      SelectTimesAdd(keys, SelectNext(keys, selected), a - 1, b);
    }
  }

  /** One press of R from the i-th entry of a table without duplicates
      selects the next entry, wrapping from the last to the first. */
  lemma SelectNextAt(keys: seq<nat>, i: nat)
    requires Distinct(keys) && i < |keys|
    ensures SelectNext(keys, Obj(keys[i])) == Obj(keys[if i + 1 < |keys| then i + 1 else 0])
  {
    IndexOfDistinct(keys, i);
  }

  lemma IndexOfDistinct(keys: seq<nat>, i: nat)
    requires Distinct(keys) && i < |keys|
    ensures IndexOf(keys, Obj(keys[i])) == i
  {
    var index := IndexOf(keys, Obj(keys[i]));
    assert keys[i] in keys;
  }

  /** Without wrapping, pressing R k times from the i-th entry selects entry i + k. */
  lemma {:induction false} SelectWalksTable(keys: seq<nat>, i: nat, k: nat)
    requires Distinct(keys) && i + k < |keys|
    ensures SelectTimes(keys, Obj(keys[i]), k) == Obj(keys[i + k])
    decreases k
  {
    if k > 0 {
      SelectNextAt(keys, i);
      SelectWalksTable(keys, i + 1, k - 1);
    }
  }

  lemma SelectOnce(keys: seq<nat>, selected: Ref)
    ensures SelectTimes(keys, selected, 1) == SelectNext(keys, selected)
  {
    assert SelectTimes(keys, SelectNext(keys, selected), 0) == SelectNext(keys, selected);
  }

  /** Cycling through a table of n distinct targets n times returns to the start. */
  lemma SelectCyclesBack(keys: seq<nat>, i: nat)
    requires Distinct(keys) && i < |keys|
    ensures SelectTimes(keys, Obj(keys[i]), |keys|) == Obj(keys[i])
  {
    SelectWrapsToFirst(keys, i);
    SelectWalksTable(keys, 0, i);
    SelectTimesSplit(keys, Obj(keys[i]), |keys| - i, i, |keys|);
  }

  lemma SelectTimesSplit(keys: seq<nat>, selected: Ref, a: nat, b: nat, n: nat)
    requires a + b == n
    ensures SelectTimes(keys, selected, n) == SelectTimes(keys, SelectTimes(keys, selected, a), b)
  {
    SelectTimesAdd(keys, selected, a, b);
  }

  /** From the i-th entry, pressing R until the end of the table wraps to the first entry. */
  lemma {:induction false} SelectWrapsToFirst(keys: seq<nat>, i: nat)
    requires Distinct(keys) && i < |keys|
    ensures SelectTimes(keys, Obj(keys[i]), |keys| - i) == Obj(keys[0])
    decreases |keys| - i
  {
    SelectNextAt(keys, i);
    var next := SelectNext(keys, Obj(keys[i]));
    assert SelectTimes(keys, Obj(keys[i]), |keys| - i) == SelectTimes(keys, next, |keys| - i - 1);
    if i + 1 < |keys| {
      SelectWrapsToFirst(keys, i + 1);
    }
  }

  /** The right mouse button: a held lock is released; otherwise a live
      selection is locked; with neither, nothing changes. */
  function ToggleLock(locked: Ref, selected: Ref, live: set<nat>): (r: Ref)
    ensures Alive(r, live) <==> !Alive(locked, live) && Alive(selected, live)
    ensures Alive(r, live) ==> r == selected
    ensures Alive(locked, live) ==> r == Null
    ensures !Alive(locked, live) && !Alive(selected, live) ==> r == locked
  {
    if Alive(locked, live) then Null
    else if Alive(selected, live) then selected
    else locked
  }

  /** Two presses of the lock button with a live selection and no lock
      end with no lock. */
  lemma ToggleTwiceReleases(locked: Ref, selected: Ref, live: set<nat>)
    requires !Alive(locked, live) && Alive(selected, live)
    ensures ToggleLock(locked, selected, live) == selected
    ensures ToggleLock(ToggleLock(locked, selected, live), selected, live) == Null
  {
  }

  /** The mode check: a live lock whose key is missing from the table is
      dropped and the radar searches; a live lock in the table tracks (ACM);
      no live lock searches (SRC).  The gimbal is untouched. */
  function CheckLock(s: Scan, keys: seq<nat>, live: set<nat>): (r: Scan)
    ensures r.gimbal == s.gimbal
    ensures r.mode == ACM <==> Alive(r.lock, live)
    ensures Alive(r.lock, live) ==> r.lock.id in keys
    ensures r.lock == s.lock || r.lock == Null
    ensures Alive(s.lock, live) && s.lock.id !in keys ==> r.lock == Null && r.mode == SRC
    ensures Alive(s.lock, live) && s.lock.id in keys ==> r.lock == s.lock && r.mode == ACM
  {
    if Alive(s.lock, live) then
      if s.lock.id !in keys then s.(lock := Null, mode := SRC)
      else s.(mode := ACM)
    else s.(mode := SRC)
  }

  // ---------------------------------------------------------------------
  // Gimbals

  /** The SRC sweep: advance by speed*dt; past half the sweep width, wrap to
      the opposite edge and move to the next vertical slice modulo the
      slice count. */
  function SearchStep(g: Gimbal, sweepAngle: real, speed: real, dt: real, slices: int): (r: Gimbal)
    ensures g.angle + speed * dt > sweepAngle / 2.0 ==>
      r.angle == -sweepAngle / 2.0 && (0 <= g.slice < slices ==> r.slice == (g.slice + 1) % slices)
    ensures g.angle + speed * dt <= sweepAngle / 2.0 ==> r == Gimbal(g.angle + speed * dt, g.slice)
    ensures 0 <= g.slice < slices ==> 0 <= r.slice < slices
    ensures sweepAngle >= 0.0 ==> r.angle <= sweepAngle / 2.0
  {
    var angle := g.angle + speed * dt;
    if angle > sweepAngle / 2.0 then
      var slice := g.slice + 1;
      Gimbal(-sweepAngle / 2.0, if slice >= slices then 0 else slice)
    else Gimbal(angle, g.slice)
  }

  /** From the right edge of a 70-degree scope, the next step wraps to the
      left edge and the next slice. */
  lemma SweepWrapsAtEdge(slice: int, dt: real)
    requires 0 <= slice < 3 && dt > 0.0
    ensures SearchStep(Gimbal(35.0, slice), 70.0, 60.0, dt, 3) == Gimbal(-35.0, (slice + 1) % 3)
  {
  }

  /** Whether the locked target lies inside the gimbal limits: neither
      angle's magnitude exceeds its limit, so a bearing exactly on a limit is
      still tracked. */
  function InGimbalLimits(b: Bearing, cfg: RadarConfig): (r: bool)
    ensures r <==> -cfg.horizontalLimit <= b.h <= cfg.horizontalLimit && -cfg.verticalLimit <= b.v <= cfg.verticalLimit
  {
    !(Abs(b.h) > cfg.horizontalLimit || Abs(b.v) > cfg.verticalLimit)
  }

  /** SweepRadar: in SRC the search step; in ACM with a live lock the gimbal
      follows the target, or the lock is dropped when the target is outside
      the gimbal limits. */
  function Sweep(s: Scan, live: set<nat>, cfg: RadarConfig, sweepAngle: real, dt: real, b: Bearing): (r: Scan)
    ensures s.mode == SRC ==> r == s.(gimbal := SearchStep(s.gimbal, sweepAngle, cfg.sweepSpeed, dt, cfg.verticalSlices))
    ensures s.mode == ACM && Alive(s.lock, live) && !InGimbalLimits(b, cfg) ==>
      r == Scan(Null, SRC, s.gimbal)
    ensures s.mode == ACM && Alive(s.lock, live) && InGimbalLimits(b, cfg) ==>
      r == Scan(s.lock, ACM, Gimbal(b.h, 0))
    ensures (s.mode == ACM <==> Alive(s.lock, live)) ==> (r.mode == ACM <==> Alive(r.lock, live))
    ensures 0 <= s.gimbal.slice < cfg.verticalSlices ==> 0 <= r.gimbal.slice < cfg.verticalSlices
  {
    if s.mode == SRC then
      s.(gimbal := SearchStep(s.gimbal, sweepAngle, cfg.sweepSpeed, dt, cfg.verticalSlices))
    else if Alive(s.lock, live) then
      if !InGimbalLimits(b, cfg) then Scan(Null, SRC, s.gimbal)
      else Scan(s.lock, ACM, Gimbal(b.h, 0))
    else s
  }

  // ---------------------------------------------------------------------
  // Detection

  /** The height of one vertical slice (Start): the slices tile the vertical
      sweep exactly. */
  function SliceHeight(cfg: RadarConfig): (r: real)
    requires cfg.verticalSlices > 0
    ensures r * cfg.verticalSlices as real == cfg.verticalSweepAngle
    ensures cfg.verticalSweepAngle >= 0.0 ==> 0.0 <= r <= cfg.verticalSweepAngle
  {
    cfg.verticalSweepAngle / cfg.verticalSlices as real
  }

  /** The beam at gimbal position g: slice k covers the band starting
      k slice-heights above the bottom of the vertical scan. */
  function BeamAt(cfg: RadarConfig, g: Gimbal): (b: Beam)
    requires cfg.verticalSlices > 0
    ensures b.sliceHeight * cfg.verticalSlices as real == cfg.verticalSweepAngle
    ensures b.sliceStart == -cfg.verticalSweepAngle / 2.0 + g.slice as real * b.sliceHeight
    ensures b.sliceStart + b.sliceHeight * (cfg.verticalSlices - g.slice) as real == cfg.verticalSweepAngle / 2.0
    ensures b.angle == g.angle && b.resolution == cfg.sweepResolution && b.notchingThreshold == cfg.notchingThreshold
  {
    var h := SliceHeight(cfg);
    assert h * cfg.verticalSlices as real == cfg.verticalSweepAngle;
    Beam(g.angle, -cfg.verticalSweepAngle / 2.0 + g.slice as real * h, h, cfg.sweepResolution, cfg.notchingThreshold)
  }

  /** The DetectTargets filter for one collider: inside the beam's
      horizontal resolution and strictly inside the slice band, not hidden
      behind another object, and not notched (a closing speed of exactly
      the threshold passes). */
  function Accepted(h: Hit, b: Beam): (r: bool)
    ensures r <==>
      && Abs(h.horizAngle - b.angle) < b.resolution
      && b.sliceStart < h.elevationAngle < b.sliceStart + b.sliceHeight
      && (h.rayHit.Null? || h.rayHit.id == h.target)
      && Abs(h.closingSpeed) >= b.notchingThreshold
  {
    var inHorizontal := Abs(h.horizAngle - b.angle) < b.resolution;
    var inVertical := h.elevationAngle > b.sliceStart && h.elevationAngle < b.sliceStart + b.sliceHeight;
    if inHorizontal && inVertical then
      if h.rayHit.Obj? && h.rayHit.id != h.target then false
      else if Abs(h.closingSpeed) < b.notchingThreshold then false
      else true
    else false
  }

  /** A closing speed exactly at the notch threshold is still detected. */
  lemma NotchBoundaryPasses(h: Hit, b: Beam)
    requires Abs(h.horizAngle - b.angle) < b.resolution
    requires b.sliceStart < h.elevationAngle < b.sliceStart + b.sliceHeight
    requires h.rayHit.Null?
    requires h.closingSpeed == b.notchingThreshold || h.closingSpeed == -b.notchingThreshold
    ensures Accepted(h, b)
  {
  }

  /** DetectTargets over this frame's colliders, in query order. */
  function DetectAll(cs: seq<Contact>, hits: seq<Hit>, b: Beam, now: real): (r: seq<Contact>)
    ensures UniqueKeys(cs) ==> UniqueKeys(r)
    ensures forall k :: k in Keys(r) <==>
      k in Keys(cs) || exists j :: 0 <= j < |hits| && Accepted(hits[j], b) && hits[j].target == k
    decreases |hits|
  {
    if hits == [] then cs
    else
      var next := if Accepted(hits[0], b) then Register(cs, hits[0].target, now) else cs;
      var r := DetectAll(next, hits[1..], b, now);
      assert forall j :: 0 <= j < |hits| - 1 ==> hits[1..][j] == hits[j + 1];
      r
  }

  /** Every contact marked seen this frame was seen at `now`. */
  predicate SeenNow(cs: seq<Contact>, now: real)
  {
    forall i :: 0 <= i < |cs| && cs[i].seenThisSweep ==> cs[i].lastSeenTime == now
  }

  /** After detection from a table whose seen contacts are all current,
      every accepted collider's contact is marked seen at `now` — however
      many times it was accepted. */
  lemma {:induction false} DetectMarksSeen(cs: seq<Contact>, hits: seq<Hit>, b: Beam, now: real)
    requires UniqueKeys(cs) && SeenNow(cs, now)
    ensures SeenNow(DetectAll(cs, hits, b, now), now)
    ensures forall j :: 0 <= j < |hits| && Accepted(hits[j], b) ==>
      var r := DetectAll(cs, hits, b, now);
      var i := Find(r, hits[j].target);
      0 <= i && r[i].seenThisSweep && r[i].lastSeenTime == now
    decreases |hits|
  {
    if hits != [] {
      var next := if Accepted(hits[0], b) then Register(cs, hits[0].target, now) else cs;
      RegisterSeen(cs, hits[0].target, now);
      DetectMarksSeen(next, hits[1..], b, now);
      var r := DetectAll(cs, hits, b, now);
      assert r == DetectAll(next, hits[1..], b, now);
      if Accepted(hits[0], b) {
        var t := hits[0].target;
        var i := Find(next, t);
        DetectKeepsSeen(next, hits[1..], b, now, i);
      }
      forall j | 0 < j < |hits| && Accepted(hits[j], b)
        ensures 0 <= Find(r, hits[j].target) && r[Find(r, hits[j].target)].seenThisSweep
        ensures r[Find(r, hits[j].target)].lastSeenTime == now
      {
        assert hits[1..][j - 1] == hits[j];
      }
    }
  }

  /** Registering t leaves the seen contacts current and t's contact seen now. */
  lemma RegisterSeen(cs: seq<Contact>, t: nat, now: real)
    requires UniqueKeys(cs) && SeenNow(cs, now)
    ensures SeenNow(Register(cs, t, now), now)
    ensures var r := Register(cs, t, now);
      0 <= Find(r, t) && r[Find(r, t)].seenThisSweep && r[Find(r, t)].lastSeenTime == now
  {
    var r := Register(cs, t, now);
    var i := Find(cs, t);
    if i >= 0 {
      assert Find(r, t) == i by {
        FindUnique(r, t, i);
      }
    } else {
      FindUnique(r, t, |cs|);
    }
  }

  lemma FindUnique(cs: seq<Contact>, t: nat, i: nat)
    requires UniqueKeys(cs) && i < |cs| && cs[i].target == t
    ensures Find(cs, t) == i
  {
    var j := Find(cs, t);
    assert Keys(cs)[i] == t;
    assert Keys(cs)[j] == t;
  }

  /** A contact already seen now stays seen now through further detection. */
  lemma {:induction false} DetectKeepsSeen(cs: seq<Contact>, hits: seq<Hit>, b: Beam, now: real, i: int)
    requires UniqueKeys(cs) && SeenNow(cs, now) && 0 <= i < |cs| && cs[i].seenThisSweep
    ensures var r := DetectAll(cs, hits, b, now);
      0 <= Find(r, cs[i].target) && r[Find(r, cs[i].target)] == cs[i]
    decreases |hits|
  {
    if hits == [] {
      FindUnique(cs, cs[i].target, i);
    } else {
      var next := if Accepted(hits[0], b) then Register(cs, hits[0].target, now) else cs;
      assert i < |next| && next[i] == cs[i];
      DetectKeepsSeen(next, hits[1..], b, now, i);
    }
  }

  /** A contact whose target no accepted collider names comes through
      detection unchanged: registration only touches the targets it is
      given. */
  lemma {:induction false} DetectKeepsUnaccepted(cs: seq<Contact>, hits: seq<Hit>, b: Beam, now: real, c: Contact)
    requires c in cs
    requires forall j :: 0 <= j < |hits| && Accepted(hits[j], b) ==> hits[j].target != c.target
    ensures c in DetectAll(cs, hits, b, now)
    decreases |hits|
  {
    if hits != [] {
      var next := if Accepted(hits[0], b) then Register(cs, hits[0].target, now) else cs;
      if Accepted(hits[0], b) {
        var k :| 0 <= k < |cs| && cs[k] == c;
        var i := Find(cs, hits[0].target);
        assert i != k;
        assert k < |next| && next[k] == c;
      }
      forall j | 0 <= j < |hits| - 1 && Accepted(hits[1..][j], b)
        ensures hits[1..][j].target != c.target
      {
        assert hits[1..][j] == hits[j + 1];
      }
      DetectKeepsUnaccepted(next, hits[1..], b, now, c);
    }
  }

  /** In a table without duplicate keys, a key names one contact. */
  lemma SameKeySameContact(cs: seq<Contact>, x: Contact, y: Contact)
    requires UniqueKeys(cs) && x in cs && y in cs && x.target == y.target
    ensures x == y
  {
    var i :| 0 <= i < |cs| && cs[i] == x;
    var j :| 0 <= j < |cs| && cs[j] == y;
    assert Keys(cs)[i] == Keys(cs)[j];
  }

  /** One radar frame (clear the flags, detect, expire): a contact that no
      accepted collider names this frame and that was last seen longer than
      the persistence window ago is gone from the table. */
  lemma UnseenContactExpires(cs: seq<Contact>, hits: seq<Hit>, b: Beam, now: real, persistence: real,
                             live: set<nat>, c: Contact)
    requires UniqueKeys(cs) && c in cs
    requires forall j :: 0 <= j < |hits| && Accepted(hits[j], b) ==> hits[j].target != c.target
    requires now - c.lastSeenTime > persistence
    ensures c.target !in Keys(Prune(DetectAll(ClearSeen(cs), hits, b, now), now, persistence, live))
  {
    var cleared := ClearSeen(cs);
    var k :| 0 <= k < |cs| && cs[k] == c;
    assert Keys(cleared)[k] == Keys(cs)[k];
    var stale := cleared[k];
    assert stale in cleared;
    DetectKeepsUnaccepted(cleared, hits, b, now, stale);
    var r := DetectAll(cleared, hits, b, now);
    var p := Prune(r, now, persistence, live);
    if c.target in Keys(p) {
      var i :| 0 <= i < |p| && Keys(p)[i] == c.target;
      assert p[i] in p;
      SameKeySameContact(r, p[i], stale);
    }
  }

  // ---------------------------------------------------------------------
  // The radar component

  class AdvancedRadar {
    const cfg: RadarConfig
    var horizontalSweepAngle: real
    var currentMode: Mode
    /** contactHistory, in the dictionary's enumeration order. */
    var contactHistory: seq<Contact>
    var currentHorizontalAngle: real
    var currentVerticalSlice: int
    var lockedTarget: Ref
    var selectedTarget: Ref

    ghost predicate Valid()
      reads this
    {
      && cfg.verticalSlices > 0
      && 0 <= currentVerticalSlice < cfg.verticalSlices
      && UniqueKeys(contactHistory)
    }

    /** The radar's current lock. */
    function GetLockedTarget(): (r: Ref)
      reads this
      ensures r == lockedTarget
    {
      lockedTarget
    }

    /** HasLock(t): Unity's `t == lockedTarget`; for an existing t that is
        identity with the lock, and a destroyed or null t matches a lock
        that is destroyed or null. */
    function HasLock(t: Ref, live: set<nat>): (r: bool)
      reads this
      ensures Alive(t, live) ==> (r <==> t == lockedTarget)
      ensures Alive(lockedTarget, live) ==> (r <==> t == lockedTarget)
      ensures !Alive(t, live) && !Alive(lockedTarget, live) && (t.Null? || lockedTarget.Null?) ==> r
    {
      SameObject(t, lockedTarget, live)
    }

    function ScanState(): Scan
      reads this
    {
      Scan(lockedTarget, currentMode, Gimbal(currentHorizontalAngle, currentVerticalSlice))
    }

    /** Field initialisers; Start only derives the slice height, which
        SliceHeight computes from the configuration. */
    constructor (cfg: RadarConfig, horizontalSweepAngle: real)
      requires cfg.verticalSlices > 0
      ensures Valid()
      ensures this.cfg == cfg && this.horizontalSweepAngle == horizontalSweepAngle
      ensures contactHistory == [] && lockedTarget == Null && selectedTarget == Null
      ensures ScanState() == Scan(Null, SRC, Gimbal(-35.0, 0))
    {
      this.cfg := cfg;
      this.horizontalSweepAngle := horizontalSweepAngle;
      currentMode := SRC;
      contactHistory := [];
      currentHorizontalAngle := -35.0;
      currentVerticalSlice := 0;
      lockedTarget := Null;
      selectedTarget := Null;
    }

    /** One frame.  `live` holds the objects that exist this frame, `bearing`
        is the locked target's bearing, `hits` the colliders in range. */
    method Update(keys: RadarKeys, dt: real, now: real, live: set<nat>, bearing: Bearing, hits: seq<Hit>)
      requires Valid()
      modifies this
      ensures Valid()
      ensures horizontalSweepAngle ==
        if !keys.toggleScope then old(horizontalSweepAngle)
        else if old(horizontalSweepAngle) == 70.0 then 30.0 else 70.0
      ensures selectedTarget ==
        if keys.cycleTarget then SelectNext(Keys(old(contactHistory)), old(selectedTarget)) else old(selectedTarget)
      ensures
        var lock := if keys.lockToggle then ToggleLock(old(lockedTarget), selectedTarget, live) else old(lockedTarget);
        var checked := CheckLock(old(ScanState()).(lock := lock), Keys(old(contactHistory)), live);
        var swept := Sweep(checked, live, cfg, horizontalSweepAngle, dt, bearing);
        && ScanState() == swept
        && contactHistory == Prune(DetectAll(ClearSeen(old(contactHistory)), hits, BeamAt(cfg, swept.gimbal), now),
                                   now, cfg.contactPersistenceTime, live)
      ensures currentMode == ACM <==> Alive(lockedTarget, live)
    {
      ResetSeenFlags();
      HandleInput(keys, live);
      SweepRadar(dt, live, bearing);
      DetectTargets(hits, now);
      RemoveExpired(now, live);
    }

    /** The key handling and mode check of a frame: scope width (T),
        selection cycling (R), lock toggle (right mouse button), then the
        lock is checked against the contact table. */
    method HandleInput(keys: RadarKeys, live: set<nat>)
      modifies this`horizontalSweepAngle, this`selectedTarget, this`lockedTarget, this`currentMode
      ensures horizontalSweepAngle ==
        if !keys.toggleScope then old(horizontalSweepAngle)
        else if old(horizontalSweepAngle) == 70.0 then 30.0 else 70.0
      ensures selectedTarget ==
        if keys.cycleTarget then SelectNext(Keys(contactHistory), old(selectedTarget)) else old(selectedTarget)
      ensures
        var lock := if keys.lockToggle then ToggleLock(old(lockedTarget), selectedTarget, live) else old(lockedTarget);
        ScanState() == CheckLock(old(ScanState()).(lock := lock), Keys(contactHistory), live)
    {
      if keys.toggleScope {
        horizontalSweepAngle := if horizontalSweepAngle == 70.0 then 30.0 else 70.0;
      }

      if keys.cycleTarget {
        CycleTarget();
      }

      if keys.lockToggle {
        if Alive(lockedTarget, live) {
          lockedTarget := Null;
        } else if Alive(selectedTarget, live) {
          lockedTarget := selectedTarget;
        }
      }

      CheckMode(live);
    }

    /** R: select the next key in table order, wrapping around. */
    method CycleTarget()
      modifies this`selectedTarget
      ensures selectedTarget == SelectNext(Keys(contactHistory), old(selectedTarget))
    {
      var contacts := Keys(contactHistory);
      if |contacts| > 0 {
        var index := IndexOf(contacts, selectedTarget);
        WrapIncrement(index, |contacts|);
        index := (index + 1) % |contacts|;
        selectedTarget := Obj(contacts[index]);
      }
    }

    /** The mode check against the contact table. */
    method CheckMode(live: set<nat>)
      modifies this`lockedTarget, this`currentMode
      ensures ScanState() == CheckLock(old(ScanState()), Keys(contactHistory), live)
    {
      if Alive(lockedTarget, live) {
        if lockedTarget.id !in Keys(contactHistory) {
          lockedTarget := Null;
          currentMode := SRC;
        } else {
          currentMode := ACM;
        }
      } else {
        currentMode := SRC;
      }
    }

    method ResetSeenFlags()
      modifies this`contactHistory
      ensures contactHistory == ClearSeen(old(contactHistory))
    {
      for i := 0 to |contactHistory|
        invariant |contactHistory| == |old(contactHistory)|
        invariant forall j :: 0 <= j < i ==> contactHistory[j] == old(contactHistory)[j].(seenThisSweep := false)
        invariant forall j :: i <= j < |contactHistory| ==> contactHistory[j] == old(contactHistory)[j]
      {
        contactHistory := contactHistory[i := contactHistory[i].(seenThisSweep := false)];
      }
    }

    method SweepRadar(dt: real, live: set<nat>, bearing: Bearing)
      requires Valid()
      modifies this`currentHorizontalAngle, this`currentVerticalSlice, this`lockedTarget, this`currentMode
      ensures Valid()
      ensures ScanState() == Sweep(old(ScanState()), live, cfg, horizontalSweepAngle, dt, bearing)
    {
      if currentMode == SRC {
        currentHorizontalAngle := currentHorizontalAngle + cfg.sweepSpeed * dt;
        if currentHorizontalAngle > horizontalSweepAngle / 2.0 {
          currentHorizontalAngle := -horizontalSweepAngle / 2.0;
          currentVerticalSlice := currentVerticalSlice + 1;
          if currentVerticalSlice >= cfg.verticalSlices {
            currentVerticalSlice := 0;
          }
        }
      } else if currentMode == ACM && Alive(lockedTarget, live) {
        if Abs(bearing.h) > cfg.horizontalLimit || Abs(bearing.v) > cfg.verticalLimit {
          lockedTarget := Null;
          currentMode := SRC;
          return;
        }
        currentHorizontalAngle := bearing.h;
        currentVerticalSlice := 0;
      }
    }

    method DetectTargets(hits: seq<Hit>, now: real)
      requires Valid()
      modifies this`contactHistory
      ensures Valid()
      ensures contactHistory ==
        DetectAll(old(contactHistory), hits, BeamAt(cfg, Gimbal(currentHorizontalAngle, currentVerticalSlice)), now)
    {
      ghost var beam := BeamAt(cfg, Gimbal(currentHorizontalAngle, currentVerticalSlice));
      var sliceHeight := cfg.verticalSweepAngle / cfg.verticalSlices as real;
      var sliceStart := -cfg.verticalSweepAngle / 2.0 + currentVerticalSlice as real * sliceHeight;
      assert beam == Beam(currentHorizontalAngle, sliceStart, sliceHeight, cfg.sweepResolution, cfg.notchingThreshold);
      for i := 0 to |hits|
        invariant UniqueKeys(contactHistory)
        invariant DetectAll(contactHistory, hits[i..], beam, now) == DetectAll(old(contactHistory), hits, beam, now)
      {
        var hit := hits[i];
        assert hits[i..][0] == hit && hits[i..][1..] == hits[i + 1..];
        assert DetectAll(contactHistory, hits[i..], beam, now) ==
          DetectAll(if Accepted(hit, beam) then Register(contactHistory, hit.target, now) else contactHistory,
                    hits[i + 1..], beam, now);
        var inHorizontal := Abs(hit.horizAngle - currentHorizontalAngle) < cfg.sweepResolution;
        var inVertical := hit.elevationAngle > sliceStart && hit.elevationAngle < sliceStart + sliceHeight;
        if inHorizontal && inVertical {
          if hit.rayHit.Obj? && hit.rayHit.id != hit.target {
            continue;
          }
          if Abs(hit.closingSpeed) < cfg.notchingThreshold {
            continue;
          }
          RegisterRadarContact(hit.target, now);
        }
      }
      assert hits[|hits|..] == [];
    }

    method RegisterRadarContact(target: nat, now: real)
      requires UniqueKeys(contactHistory)
      modifies this`contactHistory
      ensures contactHistory == Register(old(contactHistory), target, now)
    {
      var i := Find(contactHistory, target);
      if i >= 0 {
        var contact := contactHistory[i];
        if !contact.seenThisSweep {
          contactHistory := contactHistory[i := contact.(lastSeenTime := now, seenThisSweep := true)];
        }
      } else {
        contactHistory := contactHistory + [Contact(target, now, true)];
      }
    }

    /** Collects the expired keys, then removes them one by one. */
    method RemoveExpired(now: real, live: set<nat>)
      requires UniqueKeys(contactHistory)
      modifies this`contactHistory
      ensures contactHistory == Prune(old(contactHistory), now, cfg.contactPersistenceTime, live)
    {
      var expired: seq<nat> := [];
      for i := 0 to |contactHistory|
        invariant forall k :: k in expired <==>
          exists j :: 0 <= j < i && contactHistory[j].target == k
                   && Expired(contactHistory[j], now, cfg.contactPersistenceTime, live)
      {
        var c := contactHistory[i];
        if c.target !in live || now - c.lastSeenTime > cfg.contactPersistenceTime {
          expired := expired + [c.target];
        }
      }

      ghost var all := contactHistory;
      ghost var removed: set<nat> := {};
      WithoutNothing(all);
      for j := 0 to |expired|
        invariant forall k :: k in removed <==> k in expired[..j]
        invariant contactHistory == Without(all, removed)
      {
        RemoveKeyWithout(all, removed, expired[j]);
        assert expired[..j + 1] == expired[..j] + [expired[j]];
        contactHistory := RemoveKey(contactHistory, expired[j]);
        removed := removed + {expired[j]};
      }
      assert expired[..|expired|] == expired;
      forall c | c in all
        ensures c.target in removed <==> Expired(c, now, cfg.contactPersistenceTime, live)
      {
        var m :| 0 <= m < |all| && all[m] == c;
        assert Keys(all)[m] == c.target;
        forall j | 0 <= j < |all| && all[j].target == c.target
          ensures j == m
        {
          assert Keys(all)[j] == c.target;
        }
      }
      WithoutExpired(all, removed, now, cfg.contactPersistenceTime, live);
    }
  }

  /** The mode check runs before expiry, so a lock can outlive its contact
      by one frame: a live lock present at the check is kept while its
      stale contact is pruned in the same frame. */
  lemma LockCanOutliveContact()
    ensures
      var cs := [Contact(7, 0.0, false)];
      var checked := CheckLock(Scan(Obj(7), SRC, Gimbal(0.0, 0)), Keys(cs), {7});
      checked.lock == Obj(7) && checked.mode == ACM && Prune(cs, 4.0, 3.0, {7}) == []
  {
    var cs := [Contact(7, 0.0, false)];
    assert Keys(cs) == [7];
  }
}
