/** The engine-facing vocabulary shared by the player, enemy and rocket
    behaviours: actor identities, tags, and the log of engine side effects a
    behaviour requests during one callback. Physics is not simulated; an
    effect records what was asked of the engine and with which constants. */
module Scene {

  /** Identity of a game object in the scene. */
  type ActorId = nat

  /** A Unity tag. `CompareTag` is string equality on it. */
  type Tag = string

  const PowerUpTag: Tag := "PowerUp"
  const EnemyTag: Tag := "Enemy"

  datatype Effect =
    | Destroy(actor: ActorId)                          // Destroy(other.gameObject)
    | DestroySelf                                      // Destroy(gameObject)
    | DestroySelfAfter(delay: real)                    // Destroy(gameObject, delay)
    | SetVerticalVelocity(vy: real)                    // rigid-body velocity := (0, vy, 0)
    | LaunchRocketAt(target: ActorId)                  // instantiate a rocket and Fire it at target
    | Explode(enemy: ActorId, force: real, radius: real) // AddExplosionForce on an enemy, as an impulse
    | Impulse(actor: ActorId, strength: real)          // AddForce(direction * strength, Impulse)
    | SteerTowardPlayer                                // the enemy's per-frame chase force
    | HomeOn(target: ActorId, speed: real)             // move toward and look at the target
    | SpawnMini(count: int)                            // SpawnManager.SpawnMiniEnemy(count)

  /** The outcome of one callback: the state afterwards and the effects
      requested, in the order they were requested. */
  datatype Step<S> = Step(next: S, effects: seq<Effect>)
}
