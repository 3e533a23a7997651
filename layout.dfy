/** Fixed geometry of the mini-game: the 800x300 drawing surface, the ground strip,
    the player rectangle and the obstacle width, in logical pixels. The y axis grows
    downward, as on a canvas. */
module Layout {
  const CanvasWidth: real := 800.0
  const CanvasHeight: real := 300.0
  const GroundHeight: real := 100.0

  /** The player's fixed horizontal position and size. */
  const DinoX: real := 50.0
  const DinoWidth: real := 40.0
  const DinoHeight: real := 60.0

  /** Downward acceleration per tick and the upward jump impulse. */
  const Gravity: real := 0.6
  const JumpVelocity: real := -15.0

  const ObstacleWidth: real := 20.0

  /** The floor: the bottom edge of everything standing on the ground. */
  const Floor: real := CanvasHeight - GroundHeight

  /** The ground line: the top edge of a player standing on the floor (140). */
  const GroundLine: real := CanvasHeight - GroundHeight - DinoHeight
}
