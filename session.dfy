/** One play session: the state the game loop keeps (juego.py:105-111) and
    the per-frame update it performs (juego.py:114-152). `Frame` is the
    update as a function of the old state and the frame's inputs; the
    class `Game` performs it in place and is proved to agree with it. */
module Session {
  import opened Config
  import opened Input
  import opened Movement
  import opened Enemies
  import opened Collision

  /** How a frame ends: keep playing, leave the program (the loop returns
      false), or back to the menu after the game-over screen (the loop
      returns true). */
  datatype Outcome = Continue | QuitGame | BackToMenu

  /** Everything the loop carries from one frame to the next. Time is in
      milliseconds; `spawnAcc` is the time since the last spawn. */
  datatype State = State(
    px: int, py: int,
    enemies: seq<Enemy>,
    lives: int, score: int, level: int,
    spawnAcc: int)

  /** What the outside world supplies for one frame: the drained events,
      the held keys, the milliseconds `clock.tick` reported, and the two
      random draws a spawn would use. */
  datatype FrameInput = FrameInput(events: seq<Event>, keys: Held, ms: nat, draw: Draw)

  /** The state at the start of every session. */
  function Initial(): (s: State)
    ensures ValidState(s)
    ensures s.enemies == [] && s.lives == StartLives && s.score == 0 && s.level == 1 && s.spawnAcc == 0
  {
    State(Width / 2 - PlayerSize / 2, Height - 60, [], StartLives, 0, 1, 0)
  }

  /** An enemy as it can be seen between frames: drawn from the spawn
      ranges, falling, already moved once below its spawn height, and not
      yet past the bottom margin. */
  predicate InPlay(e: Enemy)
  {
    EnemyMinSize <= e.size <= EnemyMaxSize && 0 <= e.x <= Width - e.size &&
    e.speed > 0.0 && -(e.size as real) < e.y && OnScreen(e)
  }

  /** The invariant of a running session. The level never runs ahead of
      the score: it is at most one more than the completed 200-point
      blocks. */
  predicate ValidState(s: State)
  {
    InBounds(s.px, s.py, PlayerSize) &&
    s.lives >= 1 && s.score >= 0 && s.level >= 1 && s.spawnAcc >= 0 &&
    s.level - 1 <= s.score / PointsPerLevel &&
    forall i :: 0 <= i < |s.enemies| ==> InPlay(s.enemies[i])
  }

  /** An event that ends the session at once: the window's quit signal or
      the Escape key. The pause key opens the pause screen, which always
      resumes play, so it leaves the state as it is. */
  predicate StopsGame(ev: Event)
  {
    ev.Quit? || ev == KeyDown(Escape)
  }

  /** Whether draining the frame's events returns from the loop. */
  function QuitRequested(events: seq<Event>): (q: bool)
    ensures q <==> exists i :: 0 <= i < |events| && StopsGame(events[i])
  {
    if events == [] then false
    else StopsGame(events[0]) || QuitRequested(events[1..])
  }

  /** The loop that drains the frame's events: a quit signal or Escape
      returns from the game loop; the pause key opens the pause screen,
      which always comes back to play, so nothing else changes. */
  method DrainEvents(events: seq<Event>) returns (quit: bool)
    ensures quit <==> exists i :: 0 <= i < |events| && StopsGame(events[i])
    ensures quit == QuitRequested(events)
  {
    var i := 0;
    while i < |events|
      invariant 0 <= i <= |events|
      invariant forall k :: 0 <= k < i ==> !StopsGame(events[k])
    {
      var ev := events[i];
      if ev.Quit? {
        return true;
      }
      if ev.KeyDown? && ev.key == Escape {
        return true;
      }
      i := i + 1;
    }
    return false;
  }

  /** `int(10 * dt * level)` with `dt = ms / 1000`: the points a frame adds,
      truncated on their own before they reach the score. */
  function ScoreGain(ms: nat, level: int): (g: int)
    requires level >= 1
    ensures g >= 0
    ensures g as real <= 10.0 * (ms as real / 1000.0) * (level as real) < (g + 1) as real
  {
    var p := ms * level;
    var g := p / 100;
    assert 100 * g <= p < 100 * (g + 1);
    assert (p as real) == (ms as real) * (level as real);
    assert 10.0 * (ms as real / 1000.0) * (level as real) == (p as real) / 100.0;
    g
  }

  /** The level after the score update: one more when the score's 200-point
      blocks exceed the completed levels, however many blocks that is. */
  function NextLevel(score: int, level: int): (l: int)
    ensures l == level || l == level + 1
    ensures l == level + 1 <==> score / PointsPerLevel >= level
  {
    if score / PointsPerLevel > level - 1 then level + 1 else level
  }

  /** Step 1: the player's position after movement. */
  function MovedPlayer(s: State, inp: FrameInput): Position
  {
    Moved(inp.keys, s.px, s.py, PlayerSize)
  }

  /** Steps 2-4: spawn if due, every enemy falls, the ones past the bottom
      margin are dropped. */
  function Culled(s: State, inp: FrameInput): seq<Enemy>
    requires ValidDraw(inp.draw)
  {
    KeepOnScreen(Fallen(SpawnTick(s.spawnAcc, inp.ms, s.level, s.enemies, inp.draw).enemies))
  }

  /** Step 5's test: the moved player overlaps some remaining enemy. */
  predicate Hit(s: State, inp: FrameInput)
    requires ValidDraw(inp.draw)
  {
    var p := MovedPlayer(s, inp);
    Collides(p.x, p.y, PlayerSize, Culled(s, inp))
  }

  /** One frame of the game loop. */
  function Frame(s: State, inp: FrameInput): (r: (State, Outcome))
    requires ValidState(s) && ValidDraw(inp.draw)
    ensures r.1 == Continue ==> ValidState(r.0)
  {
    if QuitRequested(inp.events) then (s, QuitGame)
    else
      var p := MovedPlayer(s, inp);
      var spawned := SpawnTick(s.spawnAcc, inp.ms, s.level, s.enemies, inp.draw);
      var culled := Culled(s, inp);
      var hit := Hit(s, inp);
      var es := if hit then DropFirst(culled) else culled;
      var lives := if hit then s.lives - 1 else s.lives;
      if hit && lives <= 0 then
        (State(p.x, p.y, es, lives, s.score, s.level, spawned.acc), BackToMenu)
      else
        var score := s.score + ScoreGain(inp.ms, s.level);
        FrameKeepsEnemiesInPlay(s, inp);
        assert s.score / PointsPerLevel <= score / PointsPerLevel;
        (State(p.x, p.y, es, lives, score, NextLevel(score, s.level), spawned.acc), Continue)
  }

  /** `Frame` spelled out stage by stage, for a frame that is neither a
      quit nor a game over. */
  lemma FrameContinues(s: State, inp: FrameInput)
    requires ValidState(s) && ValidDraw(inp.draw)
    requires !QuitRequested(inp.events) && !(Hit(s, inp) && s.lives <= 1)
    ensures
      var p := MovedPlayer(s, inp);
      var score := s.score + ScoreGain(inp.ms, s.level);
      Frame(s, inp) == (State(p.x, p.y,
        if Hit(s, inp) then DropFirst(Culled(s, inp)) else Culled(s, inp),
        if Hit(s, inp) then s.lives - 1 else s.lives,
        score, NextLevel(score, s.level),
        SpawnTick(s.spawnAcc, inp.ms, s.level, s.enemies, inp.draw).acc), Continue)
  {
  }

  /** `Frame` spelled out for the frame that ends the game. */
  lemma FrameEnds(s: State, inp: FrameInput)
    requires ValidState(s) && ValidDraw(inp.draw)
    requires !QuitRequested(inp.events) && Hit(s, inp) && s.lives <= 1
    ensures
      var p := MovedPlayer(s, inp);
      Frame(s, inp) == (State(p.x, p.y, DropFirst(Culled(s, inp)), s.lives - 1, s.score, s.level,
        SpawnTick(s.spawnAcc, inp.ms, s.level, s.enemies, inp.draw).acc), BackToMenu)
  {
  }

  /** The enemies left after steps 2-5 are all in play. */
  lemma FrameKeepsEnemiesInPlay(s: State, inp: FrameInput)
    requires ValidState(s) && ValidDraw(inp.draw)
    ensures forall i :: 0 <= i < |Culled(s, inp)| ==> InPlay(Culled(s, inp)[i])
    ensures forall i :: 0 <= i < |DropFirst(Culled(s, inp))| ==> InPlay(DropFirst(Culled(s, inp))[i])
  {
    var spawned := SpawnTick(s.spawnAcc, inp.ms, s.level, s.enemies, inp.draw).enemies;
    var n := |s.enemies|;
    forall i | 0 <= i < |spawned|
      ensures EnemyMinSize <= spawned[i].size <= EnemyMaxSize && 0 <= spawned[i].x <= Width - spawned[i].size
      ensures spawned[i].speed > 0.0 && -(spawned[i].size as real) <= spawned[i].y
    {
      if i < n {
        assert spawned[i] == spawned[..n][i] == s.enemies[i];
      }
    }
    var fallen := Fallen(spawned);
    forall i | 0 <= i < |fallen|
      ensures EnemyMinSize <= fallen[i].size <= EnemyMaxSize && 0 <= fallen[i].x <= Width - fallen[i].size
      ensures fallen[i].speed > 0.0 && -(fallen[i].size as real) < fallen[i].y
    {
    }
    var culled := KeepOnScreen(fallen);
    KeepOnScreenMembers(fallen);
    forall i | 0 <= i < |culled|
      ensures InPlay(culled[i])
    {
      var j :| 0 <= j < |fallen| && fallen[j] == culled[i];
    }
    var rest := DropFirst(culled);
    forall i | 0 <= i < |rest|
      ensures InPlay(rest[i])
    {
      assert rest[i] == culled[i + 1];
    }
  }

  /** Quitting happens exactly when a quit event or Escape was drained, and
      it changes nothing. */
  lemma FrameQuit(s: State, inp: FrameInput)
    requires ValidState(s) && ValidDraw(inp.draw)
    ensures Frame(s, inp).1 == QuitGame <==> exists i :: 0 <= i < |inp.events| && StopsGame(inp.events[i])
    ensures Frame(s, inp).1 == QuitGame ==> Frame(s, inp).0 == s
  {
  }

  /** Without a hit, lives stay and the enemies are the culled ones. */
  lemma FrameWithoutHit(s: State, inp: FrameInput)
    requires ValidState(s) && ValidDraw(inp.draw)
    requires !QuitRequested(inp.events) && !Hit(s, inp)
    ensures Frame(s, inp).1 == Continue
    ensures Frame(s, inp).0.lives == s.lives
    ensures Frame(s, inp).0.enemies == Culled(s, inp)
  {
  }

  /** A hit costs exactly one life and removes the FIRST remaining enemy,
      whichever one overlapped; the game ends when no life is left. */
  lemma FrameWithHit(s: State, inp: FrameInput)
    requires ValidState(s) && ValidDraw(inp.draw)
    requires !QuitRequested(inp.events) && Hit(s, inp)
    ensures Culled(s, inp) != []
    ensures Frame(s, inp).0.lives == s.lives - 1
    ensures Frame(s, inp).0.enemies == Culled(s, inp)[1..]
    ensures |Frame(s, inp).0.enemies| == |Culled(s, inp)| - 1
    ensures Frame(s, inp).1 == BackToMenu <==> s.lives == 1
  {
  }

  /** Game over leaves score and level as they were and no life left. */
  lemma FrameGameOver(s: State, inp: FrameInput)
    requires ValidState(s) && ValidDraw(inp.draw)
    ensures Frame(s, inp).1 == BackToMenu <==> !QuitRequested(inp.events) && Hit(s, inp) && s.lives == 1
    ensures Frame(s, inp).1 == BackToMenu ==>
      Frame(s, inp).0.lives == 0 && Frame(s, inp).0.score == s.score && Frame(s, inp).0.level == s.level
  {
  }

  /** The score never decreases, and the level never decreases and rises by
      at most one per frame. */
  lemma FrameScoreAndLevel(s: State, inp: FrameInput)
    requires ValidState(s) && ValidDraw(inp.draw)
    ensures Frame(s, inp).0.score >= s.score
    ensures s.level <= Frame(s, inp).0.level <= s.level + 1
    ensures Frame(s, inp).0.lives <= s.lives
  {
  }

  /** Several frames in a row, stopping at the first frame that leaves the
      loop. An exhausted input script means the session is still running. */
  function Run(s: State, inputs: seq<FrameInput>): (r: (State, Outcome))
    requires ValidState(s)
    requires forall i :: 0 <= i < |inputs| ==> ValidDraw(inputs[i].draw)
    ensures r.1 == Continue ==> ValidState(r.0)
    decreases |inputs|
  {
    if inputs == [] then (s, Continue)
    else
      var next := Frame(s, inputs[0]);
      if next.1 != Continue then next else Run(next.0, inputs[1..])
  }

  /** Over any number of frames, lives only go down, while score and level
      only go up. */
  lemma {:induction false} RunMonotone(s: State, inputs: seq<FrameInput>)
    requires ValidState(s)
    requires forall i :: 0 <= i < |inputs| ==> ValidDraw(inputs[i].draw)
    ensures Run(s, inputs).0.lives <= s.lives
    ensures Run(s, inputs).0.score >= s.score
    ensures Run(s, inputs).0.level >= s.level
    decreases |inputs|
  {
    if inputs != [] {
      FrameScoreAndLevel(s, inputs[0]);
      var next := Frame(s, inputs[0]);
      if next.1 == Continue {
        RunMonotone(next.0, inputs[1..]);
      }
    }
  }

  /** No frame of the run hits the player. A frame that quits returns
      before the collision test, so its would-be hit does not count. */
  predicate NoHits(s: State, inputs: seq<FrameInput>)
    requires ValidState(s)
    requires forall i :: 0 <= i < |inputs| ==> ValidDraw(inputs[i].draw)
    decreases |inputs|
  {
    inputs == [] ||
    ((!QuitRequested(inputs[0].events) ==> !Hit(s, inputs[0])) &&
     var next := Frame(s, inputs[0]);
     (next.1 == Continue ==> NoHits(next.0, inputs[1..])))
  }

  /** After frames without hits the lives are unchanged, and the session
      cannot have reached game over. */
  lemma {:induction false} RunWithoutHitsKeepsLives(s: State, inputs: seq<FrameInput>)
    requires ValidState(s)
    requires forall i :: 0 <= i < |inputs| ==> ValidDraw(inputs[i].draw)
    requires NoHits(s, inputs)
    ensures Run(s, inputs).0.lives == s.lives
    ensures Run(s, inputs).1 != BackToMenu
    decreases |inputs|
  {
    if inputs != [] {
      var next := Frame(s, inputs[0]);
      if next.1 == Continue {
        RunWithoutHitsKeepsLives(next.0, inputs[1..]);
      }
    }
  }

  /** A run ends in game over only with every life used up. */
  lemma {:induction false} RunGameOverMeansNoLives(s: State, inputs: seq<FrameInput>)
    requires ValidState(s)
    requires forall i :: 0 <= i < |inputs| ==> ValidDraw(inputs[i].draw)
    ensures Run(s, inputs).1 == BackToMenu ==> Run(s, inputs).0.lives == 0
    decreases |inputs|
  {
    if inputs != [] {
      FrameGameOver(s, inputs[0]);
      var next := Frame(s, inputs[0]);
      if next.1 == Continue {
        RunGameOverMeansNoLives(next.0, inputs[1..]);
      }
    }
  }

  /** Frames shorter than `100 / level` milliseconds add no points at all:
      at 60 frames per second (16 or 17 ms) the score stays put until
      level 6 and, since the level waits for the score, forever. */
  lemma ShortFramesScoreNothing(s: State, inp: FrameInput)
    requires ValidState(s) && ValidDraw(inp.draw)
    requires inp.ms * s.level < 100
    ensures Frame(s, inp).0.score == s.score
  {
  }

  /** A session that starts at score 0 and level 1 and only sees frames of
      at most 99 ms never scores and never levels up. */
  lemma {:induction false} FastFramesNeverLevel(s: State, inputs: seq<FrameInput>)
    requires ValidState(s) && s.score == 0 && s.level == 1
    requires forall i :: 0 <= i < |inputs| ==> ValidDraw(inputs[i].draw) && inputs[i].ms < 100
    ensures Run(s, inputs).0.score == 0 && Run(s, inputs).0.level == 1
    decreases |inputs|
  {
    if inputs != [] {
      var next := Frame(s, inputs[0]);
      ShortFramesScoreNothing(s, inputs[0]);
      FrameScoreAndLevel(s, inputs[0]);
      if next.1 == Continue {
        FastFramesNeverLevel(next.0, inputs[1..]);
      }
    }
  }

  /** Five seconds in one frame at level 1 from the start give 50 points
      and no level-up. */
  lemma FiveSecondFrame(draw: Draw)
    requires ValidDraw(draw)
    ensures Frame(Initial(), FrameInput([], NothingHeld, 5000, draw)).1 == Continue
    ensures Frame(Initial(), FrameInput([], NothingHeld, 5000, draw)).0.score == 50
    ensures Frame(Initial(), FrameInput([], NothingHeld, 5000, draw)).0.level == 1
    ensures Frame(Initial(), FrameInput([], NothingHeld, 5000, draw)).0.lives == StartLives
  {
    var inp := FrameInput([], NothingHeld, 5000, draw);
    var e := Spawn(1, draw);
    assert SpawnTick(0, 5000, 1, [], draw).enemies == [e];
    var fallen := Fallen([e]);
    assert fallen[0].y < 0.0;
    assert KeepOnScreen(fallen) == fallen;
    assert !Overlaps(305, 420, PlayerSize, fallen[0]);
    assert Culled(Initial(), inp) == fallen;
  }

  /** A score of 250 at level 1 lifts the next frame to level 2, and a
      score of 1000 still lifts it only to level 2. */
  lemma LevelUpOncePerFrame(s: State, inp: FrameInput)
    requires ValidState(s) && ValidDraw(inp.draw)
    requires s.level == 1 && s.score >= 250
    requires Frame(s, inp).1 == Continue
    ensures Frame(s, inp).0.level == 2
  {
  }

  /** An enemy at y = 470 of size 20 and speed 5 is kept after one fall
      (y = 475 <= 500) and dropped once it passes 500. */
  lemma EnemyLeavesBottom()
    ensures KeepOnScreen(Fallen([Enemy(100, 470.0, 20, 5.0)])) == [Enemy(100, 475.0, 20, 5.0)]
    ensures KeepOnScreen(Fallen([Enemy(100, 500.0, 20, 5.0)])) == []
  {
    assert Fallen([Enemy(100, 470.0, 20, 5.0)]) == [Enemy(100, 475.0, 20, 5.0)];
    assert Fallen([Enemy(100, 500.0, 20, 5.0)]) == [Enemy(100, 505.0, 20, 5.0)];
  }

  /** The session state updated in place by the game loop. */
  class Game {
    const player: Player
    var enemies: seq<Enemy>
    var lives: int
    var score: int
    var level: int
    var spawnAcc: int

    function Snapshot(): State
      reads this, player
    {
      State(player.x, player.y, enemies, lives, score, level, spawnAcc)
    }

    predicate Valid()
      reads this, player
    {
      player.size == PlayerSize && ValidState(Snapshot())
    }

    /** A new session (juego.py:105-111). */
    constructor ()
      ensures Valid() && fresh(player)
      ensures Snapshot() == Initial()
    {
      player := new Player();
      enemies := [];
      lives := StartLives;
      score := 0;
      level := 1;
      spawnAcc := 0;
    }

    /** Step 2: add the frame time and spawn one enemy when due. */
    method SpawnIfDue(ms: nat, draw: Draw)
      requires ValidDraw(draw)
      modifies this
      ensures Spawned(spawnAcc, enemies) == SpawnTick(old(spawnAcc), ms, level, old(enemies), draw)
      ensures lives == old(lives) && score == old(score) && level == old(level)
    {
      spawnAcc := spawnAcc + ms;
      var interval := SpawnInterval(level);
      if spawnAcc >= interval {
        spawnAcc := 0;
        enemies := enemies + [Spawn(level, draw)];
      }
    }

    /** Steps 3-4: every enemy falls, then the ones past the bottom margin
        are dropped. */
    method FallAndCull()
      modifies this
      ensures enemies == KeepOnScreen(Fallen(old(enemies)))
      ensures lives == old(lives) && score == old(score) && level == old(level) && spawnAcc == old(spawnAcc)
    {
      var fallen := Advance(enemies);
      enemies := KeepOnScreen(fallen);
    }

    /** Step 5: on a collision the first enemy goes and a life is lost;
        `over` reports that no life is left. */
    method Collide() returns (over: bool)
      modifies this
      ensures var hit := Collides(player.x, player.y, player.size, old(enemies));
        enemies == (if hit then DropFirst(old(enemies)) else old(enemies)) &&
        lives == (if hit then old(lives) - 1 else old(lives)) &&
        over == (hit && lives <= 0)
      ensures score == old(score) && level == old(level) && spawnAcc == old(spawnAcc)
    {
      over := false;
      if Collides(player.x, player.y, player.size, enemies) {
        enemies := DropFirst(enemies);
        lives := lives - 1;
        over := lives <= 0;
      }
    }

    /** Steps 6-7: add the frame's points, then level up at most once. */
    method UpdateScore(ms: nat)
      requires level >= 1
      modifies this
      ensures score == old(score) + ScoreGain(ms, old(level))
      ensures level == NextLevel(score, old(level))
      ensures enemies == old(enemies) && lives == old(lives) && spawnAcc == old(spawnAcc)
    {
      score := score + ScoreGain(ms, level);
      if score / PointsPerLevel > level - 1 {
        level := level + 1;
      }
    }

    /** One pass of the game loop's body. */
    method Step(inp: FrameInput) returns (outcome: Outcome)
      requires Valid() && ValidDraw(inp.draw)
      modifies this, player
      ensures (Snapshot(), outcome) == Frame(old(Snapshot()), inp)
      ensures outcome == Continue ==> Valid()
      ensures outcome == QuitGame ==> Snapshot() == old(Snapshot())
    {
      var quit := DrainEvents(inp.events);
      if quit {
        return QuitGame;
      }
      ghost var s := Snapshot();
      player.Move(inp.keys);
      assert Position(player.x, player.y) == MovedPlayer(s, inp);
      SpawnIfDue(inp.ms, inp.draw);
      FallAndCull();
      assert enemies == Culled(s, inp);
      ghost var culled := enemies;
      var over := Collide();
      if over {
        assert Hit(s, inp);
        FrameEnds(s, inp);
        ghost var f := Frame(s, inp);
        assert f.0.px == player.x;
        assert f.0.py == player.y;
        assert f.0.enemies == enemies;
        assert f.0.lives == lives;
        assert f.0.score == score;
        assert f.0.level == level;
        assert f.0.spawnAcc == spawnAcc;
        return BackToMenu;
      }
      UpdateScore(inp.ms);
      FrameContinues(s, inp);
      ghost var f := Frame(s, inp);
      assert f.0.px == player.x;
      assert f.0.py == player.y;
      assert f.0.enemies == enemies;
      assert f.0.lives == lives;
      assert f.0.score == score;
      assert f.0.level == level;
      assert f.0.spawnAcc == spawnAcc;
      assert Snapshot() == f.0;
      assert s == old(Snapshot());
      outcome := Continue;
    }

    /** The game loop over a finite script of frames: it stops at the first
        frame that leaves the loop. */
    method Play(inputs: seq<FrameInput>) returns (outcome: Outcome)
      requires Valid()
      requires forall i :: 0 <= i < |inputs| ==> ValidDraw(inputs[i].draw)
      modifies this, player
      ensures (Snapshot(), outcome) == Run(old(Snapshot()), inputs)
    {
      var i := 0;
      while i < |inputs|
        invariant 0 <= i <= |inputs|
        invariant Valid()
        invariant Run(old(Snapshot()), inputs) == Run(Snapshot(), inputs[i..])
      {
        assert inputs[i..][1..] == inputs[i + 1..];
        outcome := Step(inputs[i]);
        if outcome != Continue {
          return;
        }
        i := i + 1;
      }
      outcome := Continue;
    }
  }
}
