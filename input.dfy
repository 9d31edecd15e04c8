/** What the game reads from the input library: discrete events drained
    once per frame, and the set of directional keys currently held. */
module Input {

  /** The keys the game reacts to; every other key is `OtherKey`. */
  datatype Key =
    | Left | Right | Up | Down
    | KeyA | KeyD | KeyW | KeyS
    | Escape | KeyP | Return | Space
    | OtherKey

  datatype Event =
    | Quit
    | KeyDown(key: Key)
    | OtherEvent

  /** The held-key flags that movement consults (arrows and WASD). */
  datatype Held = Held(
    left: bool, a: bool,
    right: bool, d: bool,
    up: bool, w: bool,
    down: bool, s: bool)
  {
    predicate MovesLeft() { left || a }
    predicate MovesRight() { right || d }
    predicate MovesUp() { up || w }
    predicate MovesDown() { down || s }
  }

  const NothingHeld: Held := Held(false, false, false, false, false, false, false, false)
}
