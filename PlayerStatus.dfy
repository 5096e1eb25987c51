/** The transport status of the player. */
module PlayerStatus {
  datatype Type = Stop | Play | Pause
}
