/** The pickup kinds; a pickup carries one of them and the player holds one. */
module PowerUps {

  datatype PowerUpType = None | PushBack | Rocket | Smash
}
