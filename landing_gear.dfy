/**
 * LandingGearController: G toggles the gear, and the gear state is shown by
 * activating the open or the closed gear model and the gear colliders.
 * The colliders are switched whether or not the open model is assigned, so
 * a missing collider object throws a NullReferenceException after the open
 * model has been switched and before the closed model is; the model reports
 * that as `thrown`.
 */
module LandingGear {
  import opened UnityMath

  /** The gear flag after one frame: a G press flips it. */
  function Toggle(gearDown: bool, gPressed: bool): (r: bool)
    ensures gPressed ==> r != gearDown
    ensures !gPressed ==> r == gearDown
  {
    if gPressed then !gearDown else gearDown
  }

  /** Two G presses bring the gear back where it was. */
  lemma TwoPressesRestore(gearDown: bool)
    ensures Toggle(Toggle(gearDown, true), true) == gearDown
  {
  }

  class LandingGearController {
    const gearOpenModel: GameObject?
    const gearClosedModel: GameObject?
    const gearCollision: GameObject?
    var gearDown: bool

    constructor (gearOpenModel: GameObject?, gearClosedModel: GameObject?, gearCollision: GameObject?)
      ensures this.gearOpenModel == gearOpenModel && this.gearClosedModel == gearClosedModel
      ensures this.gearCollision == gearCollision
      ensures gearDown
    {
      this.gearOpenModel := gearOpenModel;
      this.gearClosedModel := gearClosedModel;
      this.gearCollision := gearCollision;
      gearDown := true;
    }

    /** Start: show the initial (lowered) gear. */
    method Start() returns (thrown: bool)
      modifies gearOpenModel, gearCollision, gearClosedModel
      ensures thrown <==> gearCollision == null
      ensures Shows(gearDown, thrown)
    {
      thrown := SetGearState(gearDown);
    }

    /** The per-frame key: G pressed this frame flips the gear and shows the
        new state. */
    method Update(gPressed: bool) returns (thrown: bool)
      modifies this`gearDown, gearOpenModel, gearCollision, gearClosedModel
      ensures gearDown == Toggle(old(gearDown), gPressed)
      ensures !gPressed ==> !thrown && unchanged(Models())
      ensures gPressed ==> (thrown <==> gearCollision == null) && Shows(gearDown, thrown)
    {
      thrown := false;
      if gPressed {
        gearDown := !gearDown;
        thrown := SetGearState(gearDown);
      }
    }

    /** The gear objects that are assigned. */
    ghost function Models(): set<GameObject>
      reads this
    {
      (if gearOpenModel != null then {gearOpenModel} else {})
      + (if gearCollision != null then {gearCollision} else {})
      + (if gearClosedModel != null then {gearClosedModel} else {})
    }

    /** What SetGearState(isDown) leaves behind: the open model and the
        colliders active iff the gear is down, the closed model active iff it
        is up; an object assigned to several slots ends with the value of the
        slot switched last, and after the exception the closed model is left
        as it was. */
    twostate predicate Shows(isDown: bool, thrown: bool)
      reads this, gearOpenModel, gearCollision, gearClosedModel
    {
      && (gearOpenModel != null && (thrown || gearOpenModel != gearClosedModel) ==> gearOpenModel.active == isDown)
      && (gearCollision != null && gearCollision != gearClosedModel ==> gearCollision.active == isDown)
      && (gearClosedModel != null && !thrown ==> gearClosedModel.active == !isDown)
      && (gearClosedModel != null && thrown && gearClosedModel != gearOpenModel ==>
            gearClosedModel.active == old(gearClosedModel.active))
    }

    method SetGearState(isDown: bool) returns (thrown: bool)
      modifies gearOpenModel, gearCollision, gearClosedModel
      ensures thrown <==> gearCollision == null
      ensures Shows(isDown, thrown)
    {
      if gearOpenModel != null {
        gearOpenModel.SetActive(isDown);
      }
      if gearCollision == null {
        return true;
      }
      gearCollision.SetActive(isDown);

      if gearClosedModel != null {
        gearClosedModel.SetActive(!isDown);
      }
      thrown := false;
    }

    /** IsGearDown. */
    function IsGearDown(): (r: bool)
      reads this
      ensures r <==> gearDown
    {
      gearDown
    }
  }
}
