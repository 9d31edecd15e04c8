/** Player movement: held directions move the player square by a fixed
    step per frame, then both coordinates are clamped to the screen
    (juego.py:53-64). */
module Movement {
  import opened Config
  import opened Input

  datatype Position = Position(x: int, y: int)

  /** The coordinate pulled back into `[0, hi]`: first capped at `hi`, then raised to 0.
      When the range is empty (`hi < 0`) the result is pinned to 0. */
  function Clamp(v: int, hi: int): (r: int)
    ensures 0 <= hi ==> 0 <= r <= hi
    ensures 0 <= v <= hi ==> r == v
    ensures 0 <= hi < v ==> r == hi
    ensures v < 0 || hi < 0 ==> r == 0
  {
    var m := if hi < v then hi else v;
    if m < 0 then 0 else m
  }

  /** Net change on one axis: the negative direction subtracts one step,
      the positive one adds one; both are applied when both are held. */
  function Delta(negative: bool, positive: bool): int
  {
    var afterNegative := if negative then -PlayerSpeed else 0;
    if positive then afterNegative + PlayerSpeed else afterNegative
  }

  predicate InBounds(x: int, y: int, size: int)
  {
    0 <= x <= Width - size && 0 <= y <= Height - size
  }

  /** Where a player of side `size` at `(x, y)` ends up after one frame of
      held keys. There is no diagonal normalisation. */
  function Moved(keys: Held, x: int, y: int, size: int): (p: Position)
    ensures size <= Width ==> 0 <= p.x <= Width - size
    ensures size <= Height ==> 0 <= p.y <= Height - size
    ensures size <= Width && size <= Height ==> InBounds(p.x, p.y, size)
  {
    Position(
      Clamp(x + Delta(keys.MovesLeft(), keys.MovesRight()), Width - size),
      Clamp(y + Delta(keys.MovesUp(), keys.MovesDown()), Height - size))
  }

  /** Holding both horizontal directions cancels out before clamping. */
  lemma OppositeHorizontalCancel(keys: Held, x: int, y: int, size: int)
    requires keys.MovesLeft() && keys.MovesRight()
    ensures Moved(keys, x, y, size).x == Clamp(x, Width - size)
  {
  }

  /** Holding both vertical directions cancels out before clamping. */
  lemma OppositeVerticalCancel(keys: Held, x: int, y: int, size: int)
    requires keys.MovesUp() && keys.MovesDown()
    ensures Moved(keys, x, y, size).y == Clamp(y, Height - size)
  {
  }

  /** With no direction held, an in-bounds player does not move. */
  lemma IdleKeepsPosition(keys: Held, x: int, y: int, size: int)
    requires !keys.MovesLeft() && !keys.MovesRight() && !keys.MovesUp() && !keys.MovesDown()
    requires InBounds(x, y, size)
    ensures Moved(keys, x, y, size) == Position(x, y)
  {
  }

  /** The unit vector of one axis: +1 for the positive direction, -1 for the
      negative one, their sum when both are held. */
  function Unit(negative: bool, positive: bool): int
  {
    (if positive then 1 else 0) - (if negative then 1 else 0)
  }

  /** Away from the edges, one frame moves the player by the sum of the
      held unit vectors times `PLAYER_SPEED` on each axis: every single
      direction and every diagonal moves a full step per axis, with no
      normalisation. */
  lemma UnclampedStep(keys: Held, x: int, y: int, size: int)
    requires 0 <= x + PlayerSpeed * Unit(keys.MovesLeft(), keys.MovesRight()) <= Width - size
    requires 0 <= y + PlayerSpeed * Unit(keys.MovesUp(), keys.MovesDown()) <= Height - size
    ensures Moved(keys, x, y, size) ==
              Position(x + PlayerSpeed * Unit(keys.MovesLeft(), keys.MovesRight()),
                       y + PlayerSpeed * Unit(keys.MovesUp(), keys.MovesDown()))
  {
  }

  /** The player record, updated in place every frame. */
  class Player {
    var x: int
    var y: int
    const size: int

    /** The starting position: horizontally centred, 60 pixels above the
        bottom edge (juego.py:105). */
    constructor ()
      ensures x == Width / 2 - PlayerSize / 2 && y == Height - 60 && size == PlayerSize
      ensures InBounds(x, y, size)
    {
      x := Width / 2 - PlayerSize / 2;
      y := Height - 60;
      size := PlayerSize;
    }

    /** Applies the held directions one after another, then clamps. */
    method Move(keys: Held)
      modifies this
      ensures Position(x, y) == Moved(keys, old(x), old(y), size)
      ensures size <= Width && size <= Height ==> InBounds(x, y, size)
    {
      if keys.MovesLeft() {
        x := x - PlayerSpeed;
      }
      if keys.MovesRight() {
        x := x + PlayerSpeed;
      }
      if keys.MovesUp() {
        y := y - PlayerSpeed;
      }
      if keys.MovesDown() {
        y := y + PlayerSpeed;
      }
      x := Clamp(x, Width - size);
      y := Clamp(y, Height - size);
    }
  }
}
