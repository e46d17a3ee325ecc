# Ability, enemy and rocket state machines of a small action game

This project models the gameplay logic under the engine calls of a small Unity
game: a ball the player rolls about, enemies that chase it, and three power-ups
(PushBack, Rocket, Smash). There are three small sequential state machines:

- **The player's ability state machine** (`PlayerController`). It holds the
  current `PowerUpType` (`None | PushBack | Rocket | Smash`), the `_hasPowerUp`
  flag and the indicator. A pickup arms a 7-second expiry countdown and cancels
  any earlier one. The Space key launches one rocket per enemy or starts a
  smash. The smash ascends until its jump deadline, descends to the height it
  started from, then runs one explosion pass.
- **An enemy's update** (`Enemy`). The enemy destroys itself once it is below
  height -10. A boss polls its `nextSpawn` deadline and asks the spawn manager
  for `miniEnemyCount` mini-enemies.
- **A homing rocket** (`RocketBehaviour`). `Fire` refuses a null target.
  `Update` steers only while the rocket is homing and its target exists. A
  collision destroys the rocket, and pushes the collided object only when it
  carries the target's tag.

Time is an abstract clock of type `real`. Engine side effects are values of
`Scene.Effect`, and each callback returns the list of effects it requests:
destroy, impulse, explosion, velocity change, rocket launch, homing step and
mini-enemy spawn request. The two coroutines of the player become explicit
resumable state:
- the countdown is a `Countdown` (`NotArmed | ArmedUntil(deadline)`);
- the smash is a `SmashPhase` (`Idle | Ascending | Descending`), together with
  the `jumpTime` and `floorY` values it records when it starts.

Files:
- `scene.dfy`: actor identities, tags and the effect log.
- `power_up.dfy`: the `PowerUpType` enumeration.
- `ability.dfy`: the player's state machine as values, with its invariant and
  the lemmas about sequences of callbacks.
- `player_controller.dfy`: the class `PlayerController`. Its fields are updated
  in place, and each method is proved to perform the corresponding transition
  of `ability.dfy`.
- `enemy.dfy`: the enemy's update as a function, the class `Enemy`, and lemmas
  about sequences of frames.
- `rocket.dfy`: the class `RocketBehaviour`.

The engine's frame order is followed:
1. collision and trigger callbacks;
2. `Update`;
3. resumption of suspended coroutines (`Tick`).

Starting a coroutine runs it at once up to its first suspension. So a smash
started with `hangTime <= 0` explodes inside the `Update` that started it.
`Ability.Frame` combines one update with the resumption of the coroutines that
were suspended before it. The countdown fires at the first resumption whose
clock has reached its deadline, as a wait of seconds does.

The state invariant `Ability.Inv` says:
- the indicator is active exactly when a power-up is held;
- a power-up is held exactly while a countdown is pending;
- with no power-up held, the kind is `None`;
- `smashing` is true exactly while the smash coroutine is suspended.

Nothing says that a running smash implies the kind `Smash`, because the code
does not keep that. A new pickup (PlayerController.cs line 83) or an expiry
(line 135) changes the kind while `_smashing` stays true, and the smash runs
to its end. `Ability.TriggerEnter` and `Ability.Expire` state that the smash
half of the state is left untouched.

A rocket's target reference counts as null when it is unset, and also when
the object it refers to has been destroyed. This is the engine's overloaded
null test, and it is modelled by the set `alive` of live objects.

## Model

| member | source | states |
|---|---|---|
| `Ability.Initial` | Assets/Scripts/PlayerController.cs:23-36 | the starting player holds no power-up (kind None), is not smashing, and satisfies the state invariant |
| `Ability.TriggerEnter` | Assets/Scripts/PlayerController.cs:80-90 | any trigger is destroyed; a non-`PowerUp` trigger leaves the whole ability state unchanged; a `PowerUp` sets the kind to the pickup's kind, sets `_hasPowerUp`, shows the indicator and replaces any pending countdown by one ending 7 s from now; the smash is untouched; the invariant is preserved |
| `Ability.PushBackImpulse` | Assets/Scripts/PlayerController.cs:109-116 | an impulse of strength 15 on the collided object exactly when it is tagged `Enemy` and the kind is PushBack, nothing otherwise |
| `Ability.RocketVolley` | Assets/Scripts/PlayerController.cs:119-126 | exactly one rocket launch per enemy, the i-th aimed at the i-th enemy |
| `Ability.Explosion` | Assets/Scripts/PlayerController.cs:157-161 | exactly one explosion per enemy, with the configured force and radius |
| `Ability.Expire` | Assets/Scripts/PlayerController.cs:131-137 | once the clock reaches the pending deadline the kind becomes None, `_hasPowerUp` false, the indicator hidden and no countdown remains; before it nothing changes; the smash is never touched; the invariant is preserved |
| `Ability.AdvanceSmash` | Assets/Scripts/PlayerController.cs:145-163 | upward velocity `smashSpeed` while strictly before the jump deadline; then downward velocity `2*smashSpeed` while strictly above the recorded floor; at or below the floor one explosion pass and `smashing` reset; idle does nothing; the power-up half is untouched |
| `Ability.Resume` | Assets/Scripts/PlayerController.cs:131-163 | the resumption of both coroutines in a frame: expiry as above; a smash still in flight requests no explosion; a smash that ends requests exactly the explosion pass; without a smash nothing is requested |
| `Ability.Press` | Assets/Scripts/PlayerController.cs:61-69 | on Space with kind Rocket, one rocket per enemy, and other kinds launch nothing; a smash starts only from kind Smash with no smash running, and records the floor height and the jump deadline `now + hangTime`; with a positive hang time it asks only for the ascent velocity and is left in flight, with a non-positive one it explodes at once, one explosion per enemy; a press that neither launches nor starts a smash (no power-up, PushBack, no Space, or Space during a smash) changes nothing and requests nothing; the power-up half is untouched |
| `Ability.Frame` | Assets/Scripts/PlayerController.cs:48-164 | one frame (update, then the coroutines suspended before it): the power-up expires exactly when the clock has reached the deadline; a frame that leaves a smash in flight, whether it started it or not, requests no explosion; a smash in flight at the frame's start that lands in the frame requests exactly one explosion pass |
| `Ability.Handle` | Assets/Scripts/PlayerController.cs:48-164 | any callback on the player (trigger, collision or frame) keeps the invariant; a callback that leaves a smash in flight requests no explosion; only a frame can end a smash, with exactly one explosion pass |
| `Ability.Run` | Assets/Scripts/PlayerController.cs:48-164 | every sequence of callbacks preserves the state invariant |
| `Ability.HeldUntilDeadline` | Assets/Scripts/PlayerController.cs:131-136 | a pending countdown, the kind, `_hasPowerUp` and the indicator stay as they are through any callbacks before the deadline, other than a new pickup |
| `Ability.PickupLastsSevenSeconds` | Assets/Scripts/PlayerController.cs:82-90 | after a pickup at time t, without a newer pickup, the kind, `_hasPowerUp` and the indicator hold through every frame before t + 7 |
| `Ability.PickupExpiresAfterSevenSeconds` | Assets/Scripts/PlayerController.cs:131-136 | and the first frame at or after t + 7 resets the kind to None, clears `_hasPowerUp`, hides the indicator and leaves no countdown |
| `Ability.NoExplosionWhileAirborne` | Assets/Scripts/PlayerController.cs:65-69 | while a smash stays in flight, no explosion is requested, however often Space is pressed |
| `Ability.LandingExplodesOnce` | Assets/Scripts/PlayerController.cs:151-163 | from any state with a smash in flight, the smash lands only in a frame, and the callbacks up to the landing request exactly one explosion pass, one explosion per enemy of the landing frame |
| `Ability.SmashExplodesOnce` | Assets/Scripts/PlayerController.cs:65-69 | Space pressed with a Smash power-up and no smash running starts a smash (for a positive hang time) whose first frame asks only for the ascent velocity; however often Space is pressed again, the frames from the pressing one to the landing request exactly one explosion pass, one explosion per enemy of the landing frame |
| `Player.PlayerController.constructor` | Assets/Scripts/PlayerController.cs:18-36 | the controller starts in the initial ability state with the given smash parameters |
| `Player.PlayerController.OnTriggerEnter` | Assets/Scripts/PlayerController.cs:78-91 | destroys the trigger and updates the fields as `Ability.TriggerEnter` does; the invariant holds afterwards |
| `Player.PlayerController.OnCollisionEnter` | Assets/Scripts/PlayerController.cs:96-117 | requests the push-back impulse of `Ability.PushBackImpulse` for the current kind |
| `Player.PlayerController.LaunchRockets` | Assets/Scripts/PlayerController.cs:119-126 | one rocket launch per enemy, the i-th aimed at the i-th enemy |
| `Player.PlayerController.ExplodeAll` | Assets/Scripts/PlayerController.cs:157-161 | one explosion per enemy with the controller's force and radius |
| `Player.PlayerController.ResumeSmash` | Assets/Scripts/PlayerController.cs:139-164 | runs the smash coroutine to its next suspension or its end, as `Ability.AdvanceSmash` |
| `Player.PlayerController.Update` | Assets/Scripts/PlayerController.cs:61-69 | performs the Space-key dispatch of `Ability.Press` on the fields; the invariant holds afterwards |
| `Player.PlayerController.Tick` | Assets/Scripts/PlayerController.cs:131-163 | resumes the countdown and the smash as `Ability.Resume`; the invariant holds afterwards |
| `Enemies.EnemyFrame` | Assets/Scripts/Enemy.cs:43-59 | the update requests the chase force, the self-destruction and the spawn, and nothing else, each at most once; the chase force comes first and the self-destruction, if any, second; self-destruction is requested exactly when the height is strictly below -10; a spawn of exactly `miniEnemyCount` is requested, once, exactly when a boss's clock is strictly past `nextSpawn`, even in the frame it falls off; then and only then `nextSpawn` becomes now + `spawnInterval` |
| `Enemies.EnemyRun` | Assets/Scripts/Enemy.cs:36-60 | across any frames only `nextSpawn` ever changes |
| `Enemies.NonBossNeverSpawns` | Assets/Scripts/Enemy.cs:54 | an ordinary enemy never requests a spawn and its state never changes |
| `Enemies.NextSpawnNeverDecreases` | Assets/Scripts/Enemy.cs:55-58 | with `spawnInterval >= 0`, `nextSpawn` never moves back |
| `Enemies.EachSpawnRequestsMiniEnemyCount` | Assets/Scripts/Enemy.cs:58 | one spawn request per spawning frame, each for exactly `miniEnemyCount` |
| `Enemies.SpawnsSeparatedByInterval` | Assets/Scripts/Enemy.cs:55-58 | with `spawnInterval >= 0`, every spawn comes after the initial deadline, any two spawns are more than `spawnInterval` apart, and the deadline afterwards is the last spawn time plus the interval |
| `Enemies.Enemy.constructor` | Assets/Scripts/Enemy.cs:11-16 | the enemy starts with the editor-set boss flag, interval, deadline and count |
| `Enemies.Enemy.Update` | Assets/Scripts/Enemy.cs:36-60 | updates `nextSpawn` in place and requests the effects of `Enemies.EnemyFrame` |
| `Rockets.RocketBehaviour.constructor` | Assets/Scripts/RocketBehaviour.cs:10-12 | a new rocket has no target and is not homing |
| `Rockets.RocketBehaviour.Fire` | Assets/Scripts/RocketBehaviour.cs:17-22 | a null (unset or destroyed) target throws ArgumentNullException and changes nothing; otherwise the target is stored, homing starts and destruction after 5 s is requested |
| `Rockets.RocketBehaviour.Update` | Assets/Scripts/RocketBehaviour.cs:25-31 | a homing step toward the target at speed 15 exactly when homing and the target exists, nothing otherwise |
| `Rockets.RocketBehaviour.OnCollisionEnter` | Assets/Scripts/RocketBehaviour.cs:33-41 | without a target nothing happens; with one the rocket is destroyed, once and first, and the impulse of strength 15 is applied, once, to the collided object exactly when its tag equals the target's; nothing else is requested |

## Left out

- Physics and vector maths (forces, velocities, explosion falloff, positions, `LookAt`, indicator positioning at PlayerController.cs:56-59): floating-point and engine-internal. Each is an abstract effect carrying its magnitude constant. The enemy's chase force (`speed * deltaTime`) is the effect `SteerTowardPlayer`, with no magnitude.
- The player's forward movement force (PlayerController.cs:51-52): input-driven physics only.
- Input polling: the Space edge is a boolean parameter, and the player's height is a parameter of each frame.
- Scene lookup and object creation: the enemies found by type are a sequence of ids, and instantiation and destruction are effects. The rocket fired by a launch is the separate `RocketBehaviour` model, so the link between a `LaunchRocketAt` effect and that rocket's `Fire` is not modelled. A `Fire` that throws inside the launch loop would end the loop; this is not modelled, because the enemies found are live.
- The spawn manager's `SpawnMiniEnemy` is not part of this model: only the requested count is logged.
- The camera rig (RotateCamera.cs): input-to-rotation only.
- The coroutine scheduler: it is replaced by the deadline and phase fields. `Player.PlayerController.Tick` cannot tell whether a smash was started in the same frame. Called right after the `Update` that started one, it repeats the ascent velocity effect; the state is the same. `Ability.Frame` resumes only coroutines suspended before the frame's update, as the engine does.
- Float precision of the clock and of the heights: time and heights are mathematical reals.
- Ability.TriggerEnter: assumes that every `PowerUp`-tagged object carries a `PowerUp` component. Without one, PlayerController.cs:83 throws after line 82 has set `_hasPowerUp`, so, when no power-up was held before, the flag would be set with the indicator hidden and no countdown pending, outside the state invariant (when one was held, the old kind, indicator and countdown stay). This scene-setup error is not modelled.
