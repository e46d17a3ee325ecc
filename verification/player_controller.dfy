/** The player controller as the object the engine calls back: its fields are
    updated in place by the trigger callback, the per-frame update and the
    resumption of its two coroutines. Each method is proved to perform the
    transition of the ability state machine in module Ability. */
module Player {
  import opened Scene
  import opened PowerUps
  import opened Ability

  class PlayerController {
    // editor-set smash parameters
    var hangTime: real
    var smashSpeed: real
    var explosionForce: real
    var explosionRadius: real

    var currentPowerUpType: PowerUpType
    var hasPowerUp: bool
    var indicatorActive: bool
    /** The pending countdown coroutine: at most one, since there is one field. */
    var countdown: Countdown
    var smashing: bool
    /** Where the smash coroutine is suspended, with its two locals. */
    var phase: SmashPhase
    var jumpTime: real
    var floorY: real

    function State(): AbilityState
      reads this
    {
      AbilityState(currentPowerUpType, hasPowerUp, indicatorActive, countdown,
                   smashing, phase, jumpTime, floorY)
    }

    function Config(): SmashConfig
      reads this
    {
      SmashConfig(hangTime, smashSpeed, explosionForce, explosionRadius)
    }

    ghost predicate Valid()
      reads this
    {
      Inv(State())
    }

    constructor (hangTime: real, smashSpeed: real, explosionForce: real, explosionRadius: real)
      ensures Valid()
      ensures State() == Initial()
      ensures Config() == SmashConfig(hangTime, smashSpeed, explosionForce, explosionRadius)
    {
      this.hangTime := hangTime;
      this.smashSpeed := smashSpeed;
      this.explosionForce := explosionForce;
      this.explosionRadius := explosionRadius;
      currentPowerUpType := None;
      hasPowerUp := false;
      indicatorActive := false;
      countdown := NotArmed;
      smashing := false;
      phase := Idle;
      jumpTime := 0.0;
      floorY := 0.0;
    }

    /** Entering a trigger collider `other` with tag `tag`; `pickup` is the
        kind its PowerUp component carries. */
    method OnTriggerEnter(other: ActorId, tag: Tag, pickup: PowerUpType, now: real)
      returns (fx: seq<Effect>)
      requires Valid()
      modifies this`currentPowerUpType, this`hasPowerUp, this`indicatorActive, this`countdown
      ensures Valid()
      ensures fx == [Destroy(other)]
      ensures State() == TriggerEnter(old(State()), other, tag, pickup, now).next
    {
      fx := [Destroy(other)];
      if tag != PowerUpTag {
        return;
      }
      hasPowerUp := true;
      currentPowerUpType := pickup;
      indicatorActive := true;
      // the previous countdown, if any, is stopped and a new one started
      countdown := ArmedUntil(now + PowerUpDuration);
    }

    /** A solid collision with `other`, tagged `tag`. */
    method OnCollisionEnter(other: ActorId, tag: Tag) returns (fx: seq<Effect>)
      ensures fx == PushBackImpulse(currentPowerUpType, other, tag)
    {
      fx := [];
      if tag == EnemyTag && currentPowerUpType == PushBack {
        fx := [Impulse(other, PowerUpStrength)];
      }
    }

    /** One rocket fired at each enemy. */
    method LaunchRockets(enemies: seq<ActorId>) returns (fx: seq<Effect>)
      ensures |fx| == |enemies|
      ensures forall i :: 0 <= i < |enemies| ==> fx[i] == LaunchRocketAt(enemies[i])
    {
      fx := [];
      for i := 0 to |enemies|
        invariant |fx| == i
        invariant forall k :: 0 <= k < i ==> fx[k] == LaunchRocketAt(enemies[k])
      {
        fx := fx + [LaunchRocketAt(enemies[i])];
      }
    }

    /** The explosion pass at the end of a smash: one explosion per enemy. */
    method ExplodeAll(enemies: seq<ActorId>) returns (fx: seq<Effect>)
      ensures |fx| == |enemies|
      ensures forall i :: 0 <= i < |enemies| ==>
        fx[i] == Explode(enemies[i], explosionForce, explosionRadius)
    {
      fx := [];
      for i := 0 to |enemies|
        invariant |fx| == i
        invariant forall k :: 0 <= k < i ==>
          fx[k] == Explode(enemies[k], explosionForce, explosionRadius)
      {
        fx := fx + [Explode(enemies[i], explosionForce, explosionRadius)];
      }
    }

    /** Runs the smash coroutine from where it is suspended to its next
        suspension or to its end. */
    method ResumeSmash(now: real, y: real, enemies: seq<ActorId>) returns (fx: seq<Effect>)
      modifies this`smashing, this`phase
      ensures var s := AdvanceSmash(old(State()), Config(), now, y, enemies);
        State() == s.next && fx == s.effects
    {
      fx := [];
      if phase == Ascending {
        if now < jumpTime {
          fx := [SetVerticalVelocity(smashSpeed)];
          return;
        }
        phase := Descending;
      }
      if phase == Descending {
        if y > floorY {
          fx := [SetVerticalVelocity(-2.0 * smashSpeed)];
          return;
        }
        fx := ExplodeAll(enemies);
        smashing := false;
        phase := Idle;
      }
    }

    /** The ability part of the per-frame update; `space` is the Space-key
        edge, `y` the player's height and `enemies` the live enemies. */
    method Update(now: real, y: real, space: bool, enemies: seq<ActorId>) returns (fx: seq<Effect>)
      requires Valid()
      modifies this`smashing, this`phase, this`jumpTime, this`floorY
      ensures Valid()
      ensures var s := Press(old(State()), Config(), now, y, space, enemies);
        State() == s.next && fx == s.effects
    {
      fx := [];
      if currentPowerUpType == Rocket && space {
        fx := LaunchRockets(enemies);
      }
      if currentPowerUpType == Smash && !smashing && space {
        smashing := true;
        // starting the coroutine runs it up to its first suspension
        floorY := y;
        jumpTime := now + hangTime;
        phase := Ascending;
        fx := ResumeSmash(now, y, enemies);
      }
    }

    /** Resumption of the suspended coroutines in a frame: the countdown
        fires once its deadline is reached, and the smash moves on. */
    method Tick(now: real, y: real, enemies: seq<ActorId>) returns (fx: seq<Effect>)
      requires Valid()
      modifies this`currentPowerUpType, this`hasPowerUp, this`indicatorActive, this`countdown,
               this`smashing, this`phase
      ensures Valid()
      ensures var s := Resume(old(State()), Config(), now, y, enemies);
        State() == s.next && fx == s.effects
    {
      if countdown.ArmedUntil? && now >= countdown.deadline {
        hasPowerUp := false;
        currentPowerUpType := None;
        indicatorActive := false;
        countdown := NotArmed;
      }
      fx := ResumeSmash(now, y, enemies);
    }
  }
}
