/**
 * The small part of the Unity engine the flight-combat scripts lean on:
 * object references with Unity's "destroyed objects compare equal to null"
 * rule, and the Mathf helpers the scripts call (Abs, Min, Max, Clamp01,
 * Clamp, Lerp, MoveTowards).  Floats are modelled as `real`.
 */
module UnityMath {

  /** A reference to a scene object (Transform, GameObject, component),
      identified by its instance id; `Null` is a C# null reference. */
  datatype Ref = Null | Obj(id: nat)

  datatype Option<T> = None | Some(value: T)

  datatype Vec3 = Vec3(x: real, y: real, z: real)

  /** Unity's overloaded `r != null` (and `if (r)`): false both for a C# null
      and for an object that has been destroyed.  `live` holds the ids of the
      objects that still exist. */
  predicate Alive(r: Ref, live: set<nat>)
  {
    r.Obj? && r.id in live
  }

  /** Unity's overloaded `a == b` on two object references: two non-null
      references compare by instance id; a null reference equals exactly the
      null and destroyed references. */
  function SameObject(a: Ref, b: Ref, live: set<nat>): (r: bool)
    ensures Alive(b, live) ==> (r <==> a == b)
    ensures Alive(a, live) ==> (r <==> a == b)
    ensures r <==> (a == b || (!Alive(a, live) && !Alive(b, live) && (a.Null? || b.Null?)))
  {
    match (a, b)
    case (Null, Null) => true
    case (Null, Obj(y)) => y !in live
    case (Obj(x), Null) => x !in live
    case (Obj(x), Obj(y)) => x == y
  }

  function Abs(x: real): (r: real)
    ensures r >= 0.0 && (r == x || r == -x)
  {
    if x < 0.0 then -x else x
  }

  function Min(a: real, b: real): (r: real)
    ensures r <= a && r <= b && (r == a || r == b)
  {
    if a < b then a else b
  }

  function Max(a: real, b: real): (r: real)
    ensures r >= a && r >= b && (r == a || r == b)
  {
    if a > b then a else b
  }

  /** Mathf.Sign: 1 for zero and positive values, -1 otherwise. */
  function Sign(x: real): (r: real)
    ensures r == 1.0 || r == -1.0
    ensures r * x == Abs(x)
  {
    if x >= 0.0 then 1.0 else -1.0
  }

  /** Mathf.Clamp01 */
  function Clamp01(x: real): (r: real)
    ensures 0.0 <= r <= 1.0
    ensures 0.0 <= x <= 1.0 ==> r == x
    ensures x < 0.0 ==> r == 0.0
    ensures x > 1.0 ==> r == 1.0
  {
    if x < 0.0 then 0.0 else if x > 1.0 then 1.0 else x
  }

  /** Mathf.Clamp on floats: the lower bound is tested first. */
  function Clamp(x: real, lo: real, hi: real): (r: real)
    ensures lo <= hi ==> lo <= r <= hi
    ensures lo <= x <= hi ==> r == x
    ensures x < lo ==> r == lo
    ensures lo <= x && x > hi ==> r == hi
  {
    if x < lo then lo else if x > hi then hi else x
  }

  /** Mathf.Clamp on ints: the lower bound is tested first, so an empty
      range (hi < lo) yields hi for every value at or above lo. */
  function ClampInt(x: int, lo: int, hi: int): (r: int)
    ensures lo <= hi ==> lo <= r <= hi
    ensures lo <= x <= hi ==> r == x
    ensures x < lo ==> r == lo
    ensures lo <= x && x > hi ==> r == hi
  {
    if x < lo then lo else if x > hi then hi else x
  }

  /** Whether x lies on the closed segment between a and b (in either order). */
  predicate Between(a: real, b: real, x: real)
  {
    Min(a, b) <= x <= Max(a, b)
  }

  /** Mathf.Lerp: the interpolation parameter is clamped to [0,1]. */
  function Lerp(a: real, b: real, t: real): (r: real)
    ensures Between(a, b, r)
    ensures t <= 0.0 ==> r == a
    ensures t >= 1.0 ==> r == b
    ensures Abs(r - b) <= Abs(a - b)
  {
    LerpBetween(a, b, Clamp01(t));
    a + (b - a) * Clamp01(t)
  }

  lemma LerpBetween(a: real, b: real, t: real)
    requires 0.0 <= t <= 1.0
    ensures Between(a, b, a + (b - a) * t)
    ensures Abs(a + (b - a) * t - b) <= Abs(a - b)
  {
    var r := a + (b - a) * t;
    assert r - b == (a - b) * (1.0 - t);
    if a <= b {
      ScaleDown(b - a, t);
      ScaleDown(b - a, 1.0 - t);
    } else {
      ScaleDown(a - b, t);
      ScaleDown(a - b, 1.0 - t);
      assert r == a - (a - b) * t;
    }
  }

  lemma ScaleDown(x: real, t: real)
    requires x >= 0.0 && 0.0 <= t <= 1.0
    ensures 0.0 <= x * t <= x
  {
    assert x * t <= x * 1.0;
  }

  /** Mathf.MoveTowards: the target itself once it is within maxDelta,
      otherwise a step of maxDelta towards it. */
  function MoveTowards(current: real, target: real, maxDelta: real): (r: real)
    ensures maxDelta >= 0.0 ==> Abs(r - current) <= maxDelta
    ensures maxDelta >= 0.0 ==> Between(current, target, r)
    ensures maxDelta >= 0.0 ==> Abs(target - r) == Max(Abs(target - current) - maxDelta, 0.0)
    ensures Abs(target - current) <= maxDelta <==> r == target
  {
    if Abs(target - current) <= maxDelta then target
    else current + Sign(target - current) * maxDelta
  }

  /** C#'s `(i + 1) % n` on an index (or -1) below n: the next index,
      wrapping to 0 after the last. */
  lemma WrapIncrement(i: int, n: int)
    requires n > 0 && -1 <= i < n
    ensures (i + 1) % n == if i + 1 < n then i + 1 else 0
  {
  }

  /** Mathf.Deg2Rad and Mathf.Rad2Deg as single-precision literals. */
  const Deg2Rad: real := 0.0174532924
  const Rad2Deg: real := 57.29578

  /** A scene GameObject; only its active flag matters here. */
  class GameObject {
    var active: bool

    constructor (active: bool)
      ensures this.active == active
    {
      this.active := active;
    }

    method SetActive(value: bool)
      modifies this
      ensures active == value
    {
      active := value;
    }
  }
}
