/** A homing rocket: fired at a target, it lives five seconds, steers toward
    its target each frame while the target exists, and on its first collision
    is destroyed, pushing the collided object only when that object carries
    the target's tag. */
module Rockets {
  import opened Scene

  const RocketSpeed: real := 15.0
  const RocketStrength: real := 15.0
  const AliveTimer: real := 5.0

  /** A reference to the target's transform: unset, or an object with its tag. */
  datatype Target = Null | Transform(id: ActorId, tag: Tag)

  datatype FireError = ArgumentNullException

  datatype FireResult = Fired(effects: seq<Effect>) | Thrown(error: FireError)

  /** The engine's null test: a reference counts as null when it is unset or
      when its object has been destroyed (`alive` holds the live objects). */
  predicate Exists(t: Target, alive: set<ActorId>)
  {
    t.Transform? && t.id in alive
  }

  class RocketBehaviour {
    var target: Target
    var homing: bool

    /** A rocket homes only on a target it was given. */
    ghost predicate Valid()
      reads this
    {
      homing ==> target.Transform?
    }

    constructor ()
      ensures Valid()
      ensures target == Null && !homing
    {
      target := Null;
      homing := false;
    }

    /** Fires the rocket at `t`. A null target throws before any field is
        written; otherwise the rocket stores it, starts homing and schedules
        its own destruction after the lifetime. */
    method Fire(t: Target, alive: set<ActorId>) returns (r: FireResult)
      requires Valid()
      modifies this
      ensures Valid()
      ensures !Exists(t, alive) ==>
        r == Thrown(ArgumentNullException) && target == old(target) && homing == old(homing)
      ensures Exists(t, alive) ==>
        r == Fired([DestroySelfAfter(AliveTimer)]) && target == t && homing
    {
      if !Exists(t, alive) {
        return Thrown(ArgumentNullException);
      }
      target := t;
      homing := true;
      r := Fired([DestroySelfAfter(AliveTimer)]);
    }

    /** The per-frame update: steer toward the target, only while homing and
        while the target exists. */
    method Update(alive: set<ActorId>) returns (fx: seq<Effect>)
      ensures fx != [] <==> homing && Exists(target, alive)
      ensures fx != [] ==> fx == [HomeOn(target.id, RocketSpeed)]
    {
      fx := [];
      if !homing || !Exists(target, alive) {
        return;
      }
      fx := [HomeOn(target.id, RocketSpeed)];
    }

    /** A solid collision with `other`, tagged `otherTag`. Without a target
        it is ignored; with one the rocket is always destroyed, and the
        impulse is applied only to an object sharing the target's tag. */
    method OnCollisionEnter(other: ActorId, otherTag: Tag, alive: set<ActorId>)
      returns (fx: seq<Effect>)
      ensures !Exists(target, alive) ==> fx == []
      ensures Exists(target, alive) ==> |fx| > 0 && fx[0] == DestroySelf
      ensures Impulse(other, RocketStrength) in fx <==>
        Exists(target, alive) && otherTag == target.tag
      ensures forall i :: 0 <= i < |fx| ==> fx[i] in [DestroySelf, Impulse(other, RocketStrength)]
      ensures |fx| == if !Exists(target, alive) then 0 else if otherTag == target.tag then 2 else 1
    {
      fx := [];
      if !Exists(target, alive) {
        return;
      }
      fx := [DestroySelf];
      if otherTag != target.tag {
        return;
      }
      fx := fx + [Impulse(other, RocketStrength)];
    }
  }
}
