/** Axis-aligned overlap between the player square and the enemies
    (juego.py:67-73). Inequalities are strict, so squares that only share
    an edge do not collide. */
module Collision {
  import opened Enemies

  /** The player square at `(px, py)` with side `ps` overlaps enemy `e`. */
  predicate Overlaps(px: int, py: int, ps: int, e: Enemy)
  {
    px < e.x + e.size && px + ps > e.x &&
    (py as real) < e.y + (e.size as real) && ((py + ps) as real) > e.y
  }

  /** The loop over the enemies in order, stopping at the first overlap. */
  function Collides(px: int, py: int, ps: int, es: seq<Enemy>): (hit: bool)
    ensures hit <==> exists i :: 0 <= i < |es| && Overlaps(px, py, ps, es[i])
  {
    if es == [] then false
    else if Overlaps(px, py, ps, es[0]) then true
    else Collides(px, py, ps, es[1..])
  }

  /** An empty enemy list never collides, and a collision needs an enemy. */
  lemma CollidesNeedsEnemy(px: int, py: int, ps: int, es: seq<Enemy>)
    ensures Collides(px, py, ps, es) ==> es != []
    ensures !Collides(px, py, ps, [])
  {
  }

  /** Touching along a vertical edge, on either side, is not a collision. */
  lemma HorizontalContactIsNoHit(px: int, py: int, ps: int, e: Enemy)
    requires px + ps == e.x || e.x + e.size == px
    ensures !Overlaps(px, py, ps, e)
  {
  }

  /** Touching along a horizontal edge, above or below, is not a collision. */
  lemma VerticalContactIsNoHit(px: int, py: int, ps: int, e: Enemy)
    requires ((py + ps) as real) == e.y || e.y + (e.size as real) == py as real
    ensures !Overlaps(px, py, ps, e)
  {
  }

  /** The point coordinate `c` lies strictly inside the player's columns. */
  predicate InPlayerColumns(c: real, px: int, ps: int)
  {
    px as real < c < (px + ps) as real
  }

  /** The point coordinate `c` lies strictly inside the player's rows. */
  predicate InPlayerRows(c: real, py: int, ps: int)
  {
    py as real < c < (py + ps) as real
  }

  predicate InEnemyColumns(c: real, e: Enemy)
  {
    e.x as real < c < (e.x + e.size) as real
  }

  predicate InEnemyRows(c: real, e: Enemy)
  {
    e.y < c < e.y + e.size as real
  }

  /** The strict inequalities say exactly that the two open squares share
      an interior point. */
  lemma OverlapIsInteriorIntersection(px: int, py: int, ps: int, e: Enemy)
    requires ps > 0 && e.size > 0
    ensures Overlaps(px, py, ps, e) <==>
      (exists cx: real :: InPlayerColumns(cx, px, ps) && InEnemyColumns(cx, e)) &&
      (exists cy: real :: InPlayerRows(cy, py, ps) && InEnemyRows(cy, e))
  {
    if Overlaps(px, py, ps, e) {
      var lx := if px > e.x then px else e.x;
      var hx := if px + ps < e.x + e.size then px + ps else e.x + e.size;
      var cx := (lx as real + hx as real) / 2.0;
      assert InPlayerColumns(cx, px, ps) && InEnemyColumns(cx, e);
      var ly := if (py as real) > e.y then py as real else e.y;
      var hy := if ((py + ps) as real) < e.y + e.size as real then (py + ps) as real else e.y + e.size as real;
      var cy := (ly + hy) / 2.0;
      assert InPlayerRows(cy, py, ps) && InEnemyRows(cy, e);
    }
  }

  /** Whether the list collides does not depend on where in it the
      overlapping enemy sits. */
  lemma CollidesAppend(px: int, py: int, ps: int, a: seq<Enemy>, b: seq<Enemy>)
    ensures Collides(px, py, ps, a + b) <==> Collides(px, py, ps, a) || Collides(px, py, ps, b)
  {
    if Collides(px, py, ps, a + b) {
      var i :| 0 <= i < |a + b| && Overlaps(px, py, ps, (a + b)[i]);
      if i >= |a| {
        assert (a + b)[i] == b[i - |a|];
      }
    }
    if Collides(px, py, ps, b) {
      var i :| 0 <= i < |b| && Overlaps(px, py, ps, b[i]);
      assert (a + b)[|a| + i] == b[i];
    }
    if Collides(px, py, ps, a) {
      var i :| 0 <= i < |a| && Overlaps(px, py, ps, a[i]);
      assert (a + b)[i] == a[i];
    }
  }
}
