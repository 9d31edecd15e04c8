/** Falling enemies: how one is created (juego.py:45-50), when one is
    created (juego.py:129-133), how all of them fall and which of them
    stay on the screen (juego.py:136-138), and the removal that follows a
    hit (juego.py:143). Vertical position and speed are exact rationals;
    horizontal position and size are integers. */
module Enemies {
  import opened Config

  datatype Enemy = Enemy(x: int, y: real, size: int, speed: real)

  /** The two random draws of a spawn: the size, then the column. */
  datatype Draw = Draw(size: int, x: int)

  /** The ranges `random.randint` draws from (juego.py:46-47). */
  predicate ValidDraw(d: Draw)
  {
    EnemyMinSize <= d.size <= EnemyMaxSize && 0 <= d.x <= Width - d.size
  }

  /** Fall speed: base speed, plus 0.2 per level, plus 0.03 per pixel by
      which the enemy is smaller than the largest size. */
  function Speed(level: int, size: int): (v: real)
    ensures level >= 1 && size <= EnemyMaxSize ==> v >= 2.2
    ensures EnemyMinSize <= size <= EnemyMaxSize ==>
      EnemySpeedBase as real + (level as real) * 0.2 <= v <= EnemySpeedBase as real + (level as real) * 0.2 + 0.54
  {
    EnemySpeedBase as real + (level as real) * 0.2 + ((EnemyMaxSize - size) as real) * 0.03
  }

  /** Smaller enemies never fall slower than larger ones at the same level. */
  lemma SpeedNonIncreasingInSize(level: int, small: int, large: int)
    requires small <= large
    ensures Speed(level, large) <= Speed(level, small)
  {
  }

  /** Strictly so: a larger enemy is strictly slower. */
  lemma SpeedDecreasingInSize(level: int, small: int, large: int)
    requires small < large
    ensures Speed(level, large) < Speed(level, small)
  {
  }

  /** At a higher level every size falls strictly faster. */
  lemma SpeedIncreasingInLevel(low: int, high: int, size: int)
    requires low < high
    ensures Speed(low, size) < Speed(high, size)
  {
  }

  /** A new enemy: at the drawn column, just above the visible area (its
      bottom edge on the top edge of the screen), with the level's speed. */
  function Spawn(level: int, draw: Draw): (e: Enemy)
    requires ValidDraw(draw)
    ensures e.x == draw.x && e.size == draw.size
    ensures e.y == -(draw.size as real) && e.y + (e.size as real) == 0.0
    ensures e.speed == Speed(level, draw.size)
    ensures 0 <= e.x && e.x + e.size <= Width
    ensures level >= 1 ==> e.speed > 0.0
  {
    Enemy(draw.x, -(draw.size as real), draw.size, Speed(level, draw.size))
  }

  function MaxReal(a: real, b: real): real
  {
    if a >= b then a else b
  }

  /** The time between spawns at `level`, in milliseconds: the interval of
      `max(0.25, 1.0 - (level - 1) * 0.05)` seconds. It shrinks by 50 ms per
      level and reaches its 250 ms floor at level 16. */
  function SpawnInterval(level: int): (ms: int)
    ensures ms as real == 1000.0 * MaxReal(0.25, 1.0 - ((level - 1) as real) * 0.05)
    ensures ms >= MinSpawnIntervalMs
    ensures level >= 1 ==> ms <= BaseSpawnIntervalMs
    ensures level <= 16 ==> ms == 1000 - (level - 1) * 50
    ensures level >= 16 ==> ms == 250
  {
    var shrunk := BaseSpawnIntervalMs - (level - 1) * SpawnIntervalStepMs;
    if shrunk >= MinSpawnIntervalMs then shrunk else MinSpawnIntervalMs
  }

  /** A higher level never spawns less often. */
  lemma SpawnIntervalNonIncreasing(low: int, high: int)
    requires low <= high
    ensures SpawnInterval(high) <= SpawnInterval(low)
  {
  }

  /** Above the floor, every level-up makes spawning strictly more frequent. */
  lemma SpawnIntervalDecreasingUntilFloor(low: int, high: int)
    requires low < high && SpawnInterval(low) > MinSpawnIntervalMs
    ensures SpawnInterval(high) < SpawnInterval(low)
  {
  }

  /** The spawn accumulator after a frame and the enemies after spawning. */
  datatype Spawned = Spawned(acc: int, enemies: seq<Enemy>)

  /** Adds the frame's `ms` to the accumulator; once it reaches the level's
      interval, it restarts from zero and one enemy is appended at the end. */
  function SpawnTick(acc: int, ms: int, level: int, es: seq<Enemy>, draw: Draw): (r: Spawned)
    requires ValidDraw(draw)
    ensures |es| <= |r.enemies| <= |es| + 1 && r.enemies[..|es|] == es
    ensures |r.enemies| == |es| + 1 <==> acc + ms >= SpawnInterval(level)
    ensures |r.enemies| == |es| + 1 ==> r.acc == 0 && r.enemies[|es|] == Spawn(level, draw)
    ensures |r.enemies| == |es| ==> r.acc == acc + ms
  {
    var total := acc + ms;
    if total >= SpawnInterval(level) then Spawned(0, es + [Spawn(level, draw)])
    else Spawned(total, es)
  }

  /** One frame of falling: the enemy moves down by its own speed. */
  function Fall(e: Enemy): Enemy
  {
    e.(y := e.y + e.speed)
  }

  /** Every enemy fallen by one frame, in the same order. */
  function Fallen(es: seq<Enemy>): (r: seq<Enemy>)
    ensures |r| == |es|
    ensures forall i :: 0 <= i < |r| ==>
      r[i].y == es[i].y + es[i].speed &&
      r[i].x == es[i].x && r[i].size == es[i].size && r[i].speed == es[i].speed
  {
    if es == [] then [] else [Fall(es[0])] + Fallen(es[1..])
  }

  /** The loop that moves every enemy down by its speed, one element at a
      time (juego.py:136-137). */
  method Advance(es: seq<Enemy>) returns (r: seq<Enemy>)
    ensures |r| == |es|
    ensures forall i :: 0 <= i < |r| ==> r[i] == es[i].(y := es[i].y + es[i].speed)
    ensures r == Fallen(es)
  {
    r := es;
    var i := 0;
    while i < |r|
      invariant 0 <= i <= |r| == |es|
      invariant forall k :: 0 <= k < i ==> r[k] == Fall(es[k])
      invariant forall k :: i <= k < |r| ==> r[k] == es[k]
    {
      r := r[i := Fall(r[i])];
      i := i + 1;
    }
  }

  /** An enemy stays while its top edge is at most one size below the
      bottom of the screen. */
  predicate OnScreen(e: Enemy)
  {
    e.y <= (Height + e.size) as real
  }

  /** The enemies that stay, in their original order. */
  function KeepOnScreen(es: seq<Enemy>): (r: seq<Enemy>)
    ensures |r| <= |es|
    ensures forall i :: 0 <= i < |r| ==> OnScreen(r[i])
  {
    if es == [] then []
    else if OnScreen(es[0]) then [es[0]] + KeepOnScreen(es[1..])
    else KeepOnScreen(es[1..])
  }

  /** Every kept enemy comes from the input, and every on-screen enemy of
      the input is kept. */
  lemma {:induction false} KeepOnScreenMembers(es: seq<Enemy>)
    ensures forall e :: e in KeepOnScreen(es) ==> e in es && OnScreen(e)
    ensures forall e :: e in es && OnScreen(e) ==> e in KeepOnScreen(es)
  {
    if es != [] {
      KeepOnScreenMembers(es[1..]);
      assert es == [es[0]] + es[1..];
    }
  }

  /** An on-screen enemy at position `j` is kept, right after the enemies
      kept from before it. */
  lemma KeepOnScreenPlacement(es: seq<Enemy>, j: int)
    requires 0 <= j < |es| && OnScreen(es[j])
    ensures |KeepOnScreen(es[..j])| < |KeepOnScreen(es)|
    ensures KeepOnScreen(es)[|KeepOnScreen(es[..j])|] == es[j]
  {
    assert es == es[..j] + ([es[j]] + es[j + 1..]);
    KeepOnScreenAppend(es[..j], [es[j]] + es[j + 1..]);
    assert ([es[j]] + es[j + 1..])[1..] == es[j + 1..];
  }

  /** An enemy that is off screen at position `j` is not kept: the kept
      enemies up to and including it are those kept before it. */
  lemma KeepOnScreenSkips(es: seq<Enemy>, j: int)
    requires 0 <= j < |es| && !OnScreen(es[j])
    ensures KeepOnScreen(es[..j + 1]) == KeepOnScreen(es[..j])
  {
    assert es[..j + 1] == es[..j] + [es[j]];
    KeepOnScreenAppend(es[..j], [es[j]]);
  }

  /** Two kept enemies appear in the output in their input order. */
  lemma KeepOnScreenOrder(es: seq<Enemy>, j: int, l: int)
    requires 0 <= j < l < |es| && OnScreen(es[j]) && OnScreen(es[l])
    ensures |KeepOnScreen(es[..j])| < |KeepOnScreen(es[..l])| < |KeepOnScreen(es)|
    ensures KeepOnScreen(es)[|KeepOnScreen(es[..j])|] == es[j]
    ensures KeepOnScreen(es)[|KeepOnScreen(es[..l])|] == es[l]
  {
    KeepOnScreenPlacement(es, j);
    KeepOnScreenPlacement(es, l);
    var front := es[..l];
    assert front[..j] == es[..j] && front[j] == es[j];
    KeepOnScreenPlacement(front, j);
  }

  /** Filtering distributes over concatenation. */
  lemma {:induction false} KeepOnScreenAppend(a: seq<Enemy>, b: seq<Enemy>)
    ensures KeepOnScreen(a + b) == KeepOnScreen(a) + KeepOnScreen(b)
  {
    if a == [] {
      assert a + b == b;
    } else {
      assert (a + b)[1..] == a[1..] + b;
      KeepOnScreenAppend(a[1..], b);
    }
  }

  /** When every enemy is on screen, none is dropped. */
  lemma {:induction false} KeepOnScreenAllVisible(es: seq<Enemy>)
    requires forall i :: 0 <= i < |es| ==> OnScreen(es[i])
    ensures KeepOnScreen(es) == es
  {
    if es != [] {
      KeepOnScreenAllVisible(es[1..]);
    }
  }

  /** The removal after a hit: takes away exactly the first enemy,
      whichever one was hit. */
  function DropFirst(es: seq<Enemy>): (r: seq<Enemy>)
    ensures es == [] ==> r == []
    ensures es != [] ==> |r| == |es| - 1 && [es[0]] + r == es
  {
    if |es| > 0 then es[1..] else []
  }
}
