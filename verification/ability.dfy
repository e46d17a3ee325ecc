/** The player's ability state machine, as values: the current power-up with
    its expiry countdown, and the smash manoeuvre with its phase. The two
    coroutines of the player controller become explicit resumable state:
    the countdown is an optional deadline, the smash a phase with the jump
    deadline and the floor height it recorded when it began. */
module Ability {
  import opened Scene
  import opened PowerUps

  /** Seconds a pickup lasts (the argument of the countdown coroutine). */
  const PowerUpDuration: real := 7.0
  /** Magnitude of the push-back impulse. */
  const PowerUpStrength: real := 15.0

  datatype Countdown = NotArmed | ArmedUntil(deadline: real)

  datatype SmashPhase = Idle | Ascending | Descending

  /** The tunable parameters of the smash, set in the editor. */
  datatype SmashConfig = SmashConfig(hangTime: real, smashSpeed: real,
                                     explosionForce: real, explosionRadius: real)

  datatype AbilityState = AbilityState(
    kind: PowerUpType,       // currentPowerUpType
    hasPowerUp: bool,        // _hasPowerUp
    indicatorActive: bool,   // whether the indicator object is active
    countdown: Countdown,    // the pending countdown coroutine, if any
    smashing: bool,          // _smashing
    phase: SmashPhase,       // where the smash coroutine is suspended
    jumpTime: real,          // the smash's local jumpTime
    floorY: real)            // _floorY

  /** What every reachable state satisfies: the indicator shows exactly when a
      power-up is held, a power-up is held exactly while its countdown is
      pending, no power-up means kind None, and `smashing` is true exactly
      while the smash coroutine is suspended. (Nothing ties `smashing` to the
      kind Smash: a pickup or an expiry during a smash changes the kind and
      the smash carries on.) */
  predicate Inv(a: AbilityState)
  {
    && a.indicatorActive == a.hasPowerUp
    && a.hasPowerUp == a.countdown.ArmedUntil?
    && (!a.hasPowerUp ==> a.kind == None)
    && a.smashing == (a.phase != Idle)
  }

  /** The power-up half of two states agrees. */
  predicate SamePowerUp(a: AbilityState, b: AbilityState)
  {
    a.kind == b.kind && a.hasPowerUp == b.hasPowerUp
    && a.indicatorActive == b.indicatorActive && a.countdown == b.countdown
  }

  /** The smash half of two states agrees. */
  predicate SameSmash(a: AbilityState, b: AbilityState)
  {
    a.smashing == b.smashing && a.phase == b.phase
    && a.jumpTime == b.jumpTime && a.floorY == b.floorY
  }

  /** The state of a freshly started player. */
  function Initial(): (a: AbilityState)
    ensures Inv(a)
    ensures a.kind == None && !a.hasPowerUp && !a.smashing
  {
    AbilityState(None, false, false, NotArmed, false, Idle, 0.0, 0.0)
  }

  /** Entering a trigger: the other object is always destroyed; only a
      `PowerUp`-tagged one grants its kind, shows the indicator and replaces
      any pending countdown by one that ends 7 s from now. */
  function TriggerEnter(a: AbilityState, other: ActorId, tag: Tag,
                        pickup: PowerUpType, now: real): (r: Step<AbilityState>)
    ensures r.effects == [Destroy(other)]
    ensures tag != PowerUpTag ==> r.next == a
    ensures tag == PowerUpTag ==>
      && r.next.kind == pickup && r.next.hasPowerUp && r.next.indicatorActive
      && r.next.countdown == ArmedUntil(now + PowerUpDuration)
    ensures SameSmash(a, r.next)
    ensures Inv(a) ==> Inv(r.next)
  {
    if tag != PowerUpTag then Step(a, [Destroy(other)])
    else
      Step(a.(hasPowerUp := true, kind := pickup, indicatorActive := true,
              countdown := ArmedUntil(now + PowerUpDuration)),
           [Destroy(other)])
  }

  /** The solid-collision reaction: a push-back impulse on an `Enemy`-tagged
      object while the kind is PushBack, nothing otherwise. */
  function PushBackImpulse(kind: PowerUpType, other: ActorId, tag: Tag): (fx: seq<Effect>)
    ensures fx != [] <==> tag == EnemyTag && kind == PushBack
    ensures fx != [] ==> fx == [Impulse(other, PowerUpStrength)]
  {
    if tag == EnemyTag && kind == PushBack then [Impulse(other, PowerUpStrength)] else []
  }

  /** One rocket per enemy, in the order the enemies are listed. */
  function RocketVolley(enemies: seq<ActorId>): (fx: seq<Effect>)
    ensures |fx| == |enemies|
    ensures forall i :: 0 <= i < |enemies| ==> fx[i] == LaunchRocketAt(enemies[i])
  {
    if enemies == [] then []
    else RocketVolley(enemies[..|enemies| - 1]) + [LaunchRocketAt(enemies[|enemies| - 1])]
  }

  /** One explosion per enemy, in the order the enemies are listed. */
  function Explosion(cfg: SmashConfig, enemies: seq<ActorId>): (fx: seq<Effect>)
    ensures |fx| == |enemies|
    ensures forall i :: 0 <= i < |enemies| ==>
      fx[i] == Explode(enemies[i], cfg.explosionForce, cfg.explosionRadius)
  {
    if enemies == [] then []
    else Explosion(cfg, enemies[..|enemies| - 1])
         + [Explode(enemies[|enemies| - 1], cfg.explosionForce, cfg.explosionRadius)]
  }

  /** The explosion effects of `fx`, in order. */
  function Explosions(fx: seq<Effect>): seq<Effect>
  {
    if fx == [] then []
    else Explosions(fx[..|fx| - 1]) + (if fx[|fx| - 1].Explode? then [fx[|fx| - 1]] else [])
  }

  lemma {:induction false} ExplosionsAppend(xs: seq<Effect>, ys: seq<Effect>)
    ensures Explosions(xs + ys) == Explosions(xs) + Explosions(ys)
    decreases |ys|
  {
    if ys != [] {
      var n := |ys| - 1;
      var last := if ys[n].Explode? then [ys[n]] else [];
      assert (xs + ys)[..|xs + ys| - 1] == xs + ys[..n];
      assert Explosions(xs + ys) == Explosions(xs + ys[..n]) + last;
      assert Explosions(ys) == Explosions(ys[..n]) + last;
      ExplosionsAppend(xs, ys[..n]);
    } else {
      assert xs + ys == xs;
    }
  }

  lemma {:induction false} ExplosionsOfNone(fx: seq<Effect>)
    requires forall i :: 0 <= i < |fx| ==> !fx[i].Explode?
    ensures Explosions(fx) == []
    decreases |fx|
  {
    if fx != [] {
      ExplosionsOfNone(fx[..|fx| - 1]);
    }
  }

  lemma {:induction false} ExplosionsOfPass(cfg: SmashConfig, enemies: seq<ActorId>)
    ensures Explosions(Explosion(cfg, enemies)) == Explosion(cfg, enemies)
    decreases |enemies|
  {
    if enemies != [] {
      var n := |enemies| - 1;
      var fx := Explosion(cfg, enemies);
      assert fx[..|fx| - 1] == Explosion(cfg, enemies[..n]);
      ExplosionsOfPass(cfg, enemies[..n]);
    }
  }

  /** The expiry of the countdown, checked when coroutines resume: once the
      deadline is reached the power-up is dropped. The smash is untouched. */
  function Expire(a: AbilityState, now: real): (b: AbilityState)
    ensures SameSmash(a, b)
    ensures a.countdown.ArmedUntil? && now >= a.countdown.deadline ==>
      b.kind == None && !b.hasPowerUp && !b.indicatorActive && b.countdown == NotArmed
    ensures !(a.countdown.ArmedUntil? && now >= a.countdown.deadline) ==> b == a
    ensures Inv(a) ==> Inv(b)
  {
    if a.countdown.ArmedUntil? && now >= a.countdown.deadline then
      a.(hasPowerUp := false, kind := None, indicatorActive := false, countdown := NotArmed)
    else a
  }

  /** The descent loop of the smash coroutine, entered with phase Descending:
      while above the recorded floor, push down at twice the smash speed;
      once back at or below it, one explosion pass and the smash is over. */
  function Descend(a: AbilityState, cfg: SmashConfig, y: real, enemies: seq<ActorId>): Step<AbilityState>
  {
    if y > a.floorY then Step(a, [SetVerticalVelocity(-2.0 * cfg.smashSpeed)])
    else Step(a.(phase := Idle, smashing := false), Explosion(cfg, enemies))
  }

  /** Resuming the smash coroutine at time `now` and height `y`. */
  function AdvanceSmash(a: AbilityState, cfg: SmashConfig, now: real, y: real,
                        enemies: seq<ActorId>): (r: Step<AbilityState>)
    ensures SamePowerUp(a, r.next)
    ensures r.next.jumpTime == a.jumpTime && r.next.floorY == a.floorY
    ensures a.phase == Idle ==> r == Step(a, [])
    // ascend while the clock is strictly before the jump deadline
    ensures a.phase == Ascending && now < a.jumpTime ==>
      r.next == a && r.effects == [SetVerticalVelocity(cfg.smashSpeed)]
    // afterwards descend while strictly above the floor
    ensures (a.phase == Descending || (a.phase == Ascending && now >= a.jumpTime)) && y > a.floorY ==>
      r.next == a.(phase := Descending) && r.effects == [SetVerticalVelocity(-2.0 * cfg.smashSpeed)]
    // and on reaching the floor explode once and finish
    ensures (a.phase == Descending || (a.phase == Ascending && now >= a.jumpTime)) && y <= a.floorY ==>
      r.next == a.(phase := Idle, smashing := false) && r.effects == Explosion(cfg, enemies)
    ensures Inv(a) ==> Inv(r.next)
  {
    match a.phase
    case Idle => Step(a, [])
    case Ascending =>
      if now < a.jumpTime then Step(a, [SetVerticalVelocity(cfg.smashSpeed)])
      else Descend(a.(phase := Descending), cfg, y, enemies)
    case Descending => Descend(a, cfg, y, enemies)
  }

  /** The coroutine half of a frame: the countdown and the smash both resume. */
  function Resume(a: AbilityState, cfg: SmashConfig, now: real, y: real,
                  enemies: seq<ActorId>): (r: Step<AbilityState>)
    ensures a.countdown.ArmedUntil? && now >= a.countdown.deadline ==>
      r.next.kind == None && !r.next.hasPowerUp && !r.next.indicatorActive && r.next.countdown == NotArmed
    ensures !(a.countdown.ArmedUntil? && now >= a.countdown.deadline) ==> SamePowerUp(a, r.next)
    ensures r.next.smashing ==> Explosions(r.effects) == []
    ensures a.smashing && !r.next.smashing ==> r.effects == Explosion(cfg, enemies)
    ensures Inv(a) && !a.smashing ==> !r.next.smashing && r.effects == []
    ensures Inv(a) ==> Inv(r.next)
  {
    var r := AdvanceSmash(Expire(a, now), cfg, now, y, enemies);
    if r.next.smashing then (ExplosionsOfNone(r.effects); r) else r
  }

  /** The smash as it begins: floor height and jump deadline recorded. */
  function BeginSmash(a: AbilityState, cfg: SmashConfig, now: real, y: real): AbilityState
  {
    a.(smashing := true, phase := Ascending, floorY := y, jumpTime := now + cfg.hangTime)
  }

  /** The ability half of the player's per-frame update, on the Space edge
      `space`. Rocket launches one rocket per enemy; Smash, when no smash is
      running, starts one, and its first segment runs at once, up to its
      first suspension. (The two kinds exclude each other, so at most one of
      the two actions happens.) */
  function Press(a: AbilityState, cfg: SmashConfig, now: real, y: real, space: bool,
                 enemies: seq<ActorId>): (r: Step<AbilityState>)
    ensures SamePowerUp(a, r.next)
    ensures a.kind == Rocket && space ==> r.next == a && r.effects == RocketVolley(enemies)
    ensures !(a.kind == Rocket && space) ==>
      forall i :: 0 <= i < |r.effects| ==> !r.effects[i].LaunchRocketAt?
    // a smash starts only from kind Smash with no smash running; a press
    // during a smash starts nothing
    ensures !(a.kind == Smash && !a.smashing && space) ==> r.next == a
    // a press that neither launches nor starts a smash requests nothing
    ensures !(a.kind == Rocket && space) && !(a.kind == Smash && !a.smashing && space) ==>
      r.effects == []
    // nothing explodes while a smash is (still or newly) in flight
    ensures r.next.smashing ==> Explosions(r.effects) == []
    ensures a.kind == Smash && !a.smashing && space ==>
      && r.next.floorY == y && r.next.jumpTime == now + cfg.hangTime
      && (cfg.hangTime > 0.0 ==>
            r.next.smashing && r.next.phase == Ascending
            && r.effects == [SetVerticalVelocity(cfg.smashSpeed)])
      && (cfg.hangTime <= 0.0 ==>
            !r.next.smashing && r.effects == Explosion(cfg, enemies))
    ensures Inv(a) ==> Inv(r.next)
  {
    var r :=
      if a.kind == Rocket && space then Step(a, RocketVolley(enemies))
      else if a.kind == Smash && !a.smashing && space then
        AdvanceSmash(BeginSmash(a, cfg, now, y), cfg, now, y, enemies)
      else Step(a, []);
    if r.next.smashing then (ExplosionsOfNone(r.effects); r) else r
  }

  /** What the host reports for one frame: the clock, the player's height,
      whether Space went down, and the live enemies. */
  datatype FrameInput = FrameInput(now: real, y: real, space: bool, enemies: seq<ActorId>)

  /** One frame: the update, then the coroutines that were suspended before
      it. A smash the update has just begun was already run up to its first
      suspension and is resumed from the next frame on. */
  function Frame(a: AbilityState, cfg: SmashConfig, f: FrameInput): (r: Step<AbilityState>)
    ensures a.countdown.ArmedUntil? && f.now >= a.countdown.deadline ==>
      r.next.kind == None && !r.next.hasPowerUp && !r.next.indicatorActive && r.next.countdown == NotArmed
    ensures !(a.countdown.ArmedUntil? && f.now >= a.countdown.deadline) ==> SamePowerUp(a, r.next)
    ensures r.next.smashing ==> Explosions(r.effects) == []
    ensures a.smashing && !r.next.smashing ==> Explosions(r.effects) == Explosion(cfg, f.enemies)
    ensures Inv(a) ==> Inv(r.next)
  {
    var u := Press(a, cfg, f.now, f.y, f.space, f.enemies);
    if a.smashing then
      var s := Resume(u.next, cfg, f.now, f.y, f.enemies);
      ExplosionsAppend(u.effects, s.effects);
      if s.next.smashing then Step(s.next, u.effects + s.effects)
      else (ExplosionsOfPass(cfg, f.enemies); Step(s.next, u.effects + s.effects))
    else
      Step(Expire(u.next, f.now), u.effects)
  }

  /** The callbacks the engine makes on the player. */
  datatype Event =
    | TriggerEvent(other: ActorId, tag: Tag, pickup: PowerUpType, now: real)
    | CollisionEvent(other: ActorId, tag: Tag)
    | FrameEvent(frame: FrameInput)

  function Handle(a: AbilityState, cfg: SmashConfig, e: Event): (r: Step<AbilityState>)
    ensures r.next.smashing ==> Explosions(r.effects) == []
    ensures a.smashing && !r.next.smashing ==>
      e.FrameEvent? && Explosions(r.effects) == Explosion(cfg, e.frame.enemies)
    ensures Inv(a) ==> Inv(r.next)
  {
    match e
    case TriggerEvent(other, tag, pickup, now) =>
      var r := TriggerEnter(a, other, tag, pickup, now);
      ExplosionsOfNone(r.effects);
      r
    case CollisionEvent(other, tag) =>
      var fx := PushBackImpulse(a.kind, other, tag);
      ExplosionsOfNone(fx);
      Step(a, fx)
    case FrameEvent(f) => Frame(a, cfg, f)
  }

  /** The player after a sequence of callbacks, with all effects requested. */
  function Run(a: AbilityState, cfg: SmashConfig, events: seq<Event>): (r: Step<AbilityState>)
    ensures Inv(a) ==> Inv(r.next)
    decreases |events|
  {
    if events == [] then Step(a, [])
    else
      var p := Run(a, cfg, events[..|events| - 1]);
      var s := Handle(p.next, cfg, events[|events| - 1]);
      Step(s.next, p.effects + s.effects)
  }

  /** Event `e` neither collects a power-up nor is a frame at or after `d`. */
  predicate Quiet(e: Event, d: real)
  {
    match e
    case TriggerEvent(_, tag, _, _) => tag != PowerUpTag
    case CollisionEvent(_, _) => true
    case FrameEvent(f) => f.now < d
  }

  /** A pending countdown is not disturbed by any callback before its
      deadline other than a new pickup. */
  lemma {:induction false} HeldUntilDeadline(a: AbilityState, cfg: SmashConfig,
                                             events: seq<Event>, d: real)
    requires a.countdown == ArmedUntil(d)
    requires forall i :: 0 <= i < |events| ==> Quiet(events[i], d)
    ensures SamePowerUp(a, Run(a, cfg, events).next)
    decreases |events|
  {
    if events != [] {
      var n := |events| - 1;
      HeldUntilDeadline(a, cfg, events[..n], d);
    }
  }

  /** A pickup at time t lasts through every later callback before t + 7,
      as long as no newer pickup is collected. */
  lemma {:induction false} PickupLastsSevenSeconds(a: AbilityState, cfg: SmashConfig, other: ActorId,
                                pickup: PowerUpType, t: real, events: seq<Event>)
    requires forall i :: 0 <= i < |events| ==> Quiet(events[i], t + PowerUpDuration)
    ensures var b := Run(TriggerEnter(a, other, PowerUpTag, pickup, t).next, cfg, events).next;
      b.kind == pickup && b.hasPowerUp && b.indicatorActive
      && b.countdown == ArmedUntil(t + PowerUpDuration)
  {
    HeldUntilDeadline(TriggerEnter(a, other, PowerUpTag, pickup, t).next, cfg, events,
                      t + PowerUpDuration);
  }

  /** ... and the first frame at or after t + 7 drops it. */
  lemma {:induction false} PickupExpiresAfterSevenSeconds(a: AbilityState, cfg: SmashConfig,
                                       other: ActorId, pickup: PowerUpType, t: real,
                                       events: seq<Event>, f: FrameInput)
    requires forall i :: 0 <= i < |events| ==> Quiet(events[i], t + PowerUpDuration)
    requires f.now >= t + PowerUpDuration
    ensures var b := Run(TriggerEnter(a, other, PowerUpTag, pickup, t).next, cfg,
                         events + [FrameEvent(f)]).next;
      b.kind == None && !b.hasPowerUp && !b.indicatorActive && b.countdown == NotArmed
  {
    var all := events + [FrameEvent(f)];
    assert all[..|all| - 1] == events;
    PickupLastsSevenSeconds(a, cfg, other, pickup, t, events);
  }

  /** While a smash stays in flight, no explosion is requested, however
      often Space is pressed and whatever is picked up meanwhile. */
  lemma {:induction false} NoExplosionWhileAirborne(a: AbilityState, cfg: SmashConfig,
                                                    events: seq<Event>)
    requires a.smashing
    requires forall i :: 1 <= i <= |events| ==> Run(a, cfg, events[..i]).next.smashing
    ensures Explosions(Run(a, cfg, events).effects) == []
    decreases |events|
  {
    if events != [] {
      var n := |events| - 1;
      var prefix := events[..n];
      forall i | 1 <= i <= |prefix|
        ensures Run(a, cfg, prefix[..i]).next.smashing
      {
        assert prefix[..i] == events[..i];
      }
      NoExplosionWhileAirborne(a, cfg, prefix);
      assert events[..|events|] == events;
      var p := Run(a, cfg, prefix);
      assert p.next.smashing by {
        if n > 0 { assert events[..n] == prefix; }
      }
      ExplosionsAppend(p.effects, Handle(p.next, cfg, events[n]).effects);
    }
  }

  /** A smash in flight that lands during `events` requests exactly one
      explosion pass: one explosion per enemy present in the landing frame. */
  lemma {:induction false} LandingExplodesOnce(a: AbilityState, cfg: SmashConfig,
                                               events: seq<Event>)
    requires a.smashing && events != []
    requires forall i :: 1 <= i < |events| ==> Run(a, cfg, events[..i]).next.smashing
    requires !Run(a, cfg, events).next.smashing
    ensures events[|events| - 1].FrameEvent?
    ensures Explosions(Run(a, cfg, events).effects)
            == Explosion(cfg, events[|events| - 1].frame.enemies)
  {
    var n := |events| - 1;
    var prefix := events[..n];
    forall i | 1 <= i <= |prefix|
      ensures Run(a, cfg, prefix[..i]).next.smashing
    {
      assert prefix[..i] == events[..i];
    }
    NoExplosionWhileAirborne(a, cfg, prefix);
    var p := Run(a, cfg, prefix);
    assert p.next.smashing by {
      if n > 0 { assert events[..n] == prefix; }
    }
    ExplosionsAppend(p.effects, Handle(p.next, cfg, events[n]).effects);
  }

  /** Space pressed with a Smash power-up starts a smash in that frame: the
      frame asks only for the ascent velocity. However often Space is pressed
      again while the smash is in flight, the frames from the pressing one to
      the landing request exactly one explosion pass between them: one
      explosion per enemy of the landing frame. */
  lemma {:induction false} SmashExplodesOnce(a: AbilityState, cfg: SmashConfig, f0: FrameInput,
                                             events: seq<Event>)
    requires Inv(a) && a.kind == Smash && !a.smashing && f0.space && cfg.hangTime > 0.0
    requires events != []
    requires forall i :: 1 <= i < |events| ==>
      Run(Frame(a, cfg, f0).next, cfg, events[..i]).next.smashing
    requires !Run(Frame(a, cfg, f0).next, cfg, events).next.smashing
    ensures Frame(a, cfg, f0).next.smashing
    ensures Frame(a, cfg, f0).effects == [SetVerticalVelocity(cfg.smashSpeed)]
    ensures events[|events| - 1].FrameEvent?
    ensures Explosions(Frame(a, cfg, f0).effects + Run(Frame(a, cfg, f0).next, cfg, events).effects)
            == Explosion(cfg, events[|events| - 1].frame.enemies)
  {
    var h := Frame(a, cfg, f0);
    LandingExplodesOnce(h.next, cfg, events);
    ExplosionsAppend(h.effects, Run(h.next, cfg, events).effects);
  }
}
