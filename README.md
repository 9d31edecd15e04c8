# Space Dodger: a verified model of its game rules

Space Dodger (`juego.py`) is a small pygame game. The player steers a square
with the arrow keys or WASD and dodges square enemies that fall from the
top of the screen. Every frame the game:

1. moves the player, clamped to the 640×480 screen;
2. adds the frame time to a spawn timer and spawns one enemy when the
   timer reaches the level's interval;
3. lets every enemy fall by its own speed;
4. drops the enemies far enough below the screen;
5. on an overlap, removes the first enemy and takes a life, ending the
   game at zero lives;
6. adds the frame's truncated points;
7. goes up at most one level.

Around the session are a two-entry main menu, a pause screen and a
game-over screen.

The model is split into Dafny modules that follow this structure:

- `Config` holds the constants.
- `Input` holds keys, events and held-key flags.
- `Movement` holds the clamp and the `Player` class, which is moved in place.
- `Enemies` holds the enemy record, the spawn formula, the spawn timer, the fall and the off-screen filter.
- `Collision` holds the strict AABB (axis-aligned box) overlap.
- `Session` holds the frame update. `Frame` is a pure function of the old state and the frame's inputs. `Game` is a class that does the same update in place, and `Step` is proved to agree with `Frame` and `Play` with `Run`; the stage methods `SpawnIfDue`, `FallAndCull`, `Collide` and `UpdateScore` are proved to agree with `SpawnTick`, `KeepOnScreen(Fallen(..))`, `DropFirst` and `ScoreGain`/`NextLevel`.
- `Screens` holds the menu state machine, the pause and game-over waits, and the top-level menu/game alternation.

How inputs are represented:

- Time is integer milliseconds, the value `clock.tick` returns. So `int(10*dt*level)` is exactly `(ms*level)/100`, and the spawn interval `max(0.25, 1.0-(level-1)*0.05)` s is `max(250, 1000-(level-1)*50)` ms. `SpawnInterval`'s contract ties the millisecond value to the seconds formula.
- Enemy `y` and `speed` are exact rationals (`real`). Column and size are integers.
- The random draws, the drained events, the held keys and the elapsed milliseconds are parameters.

Behaviour of the code that is easy to miss, and that the model keeps:

- The points of each frame are truncated before they are added, so fractional points do not build up. At 60 frames per second a frame lasts 16-17 ms, so below level 6 a frame adds nothing. Since the level waits for the score, a game at that rate never scores at all (`ShortFramesScoreNothing`, `FastFramesNeverLevel`). Only frames of at least 100 ms score at level 1 (`FiveSecondFrame`).
- An enemy is kept while its top edge is at most one enemy size below the bottom of the screen (`y <= HEIGHT + size`). It is not dropped as soon as its top edge passes the bottom.
- The pause screen ends on P, Escape or a quit signal, and in every case play resumes. A quit signal there does not quit.
- The game-over screen ends on any key or a quit signal, and always returns to the menu.

## Model

| member | source | states |
|---|---|---|
| `Movement.Clamp` | juego.py:63-64 | the result lies in `[0, hi]` when that range is non-empty; an in-range value is unchanged, and values below or above are pinned to the nearer end |
| `Movement.Moved` | juego.py:53-64 | for any start and any keys, the new position lies in `[0, WIDTH-size] × [0, HEIGHT-size]` when the square fits on the screen |
| `Movement.OppositeHorizontalCancel` | juego.py:54-57 | holding left and right gives zero net horizontal displacement before clamping |
| `Movement.OppositeVerticalCancel` | juego.py:58-61 | holding up and down gives zero net vertical displacement before clamping |
| `Movement.IdleKeepsPosition` | juego.py:53-64 | with no direction held, an in-bounds player stays where it is |
| `Movement.UnclampedStep` | juego.py:53-61 | away from the edges, each axis moves by `PLAYER_SPEED` times the sum of the held unit vectors: every single direction and every diagonal moves a full step per axis, with no normalisation |
| `Movement.Player.constructor` | juego.py:105 | the player starts centred horizontally, 60 px above the bottom, in bounds |
| `Movement.Player.Move` | juego.py:53-64 | the in-place update equals `Moved` of the old position and keeps the player in bounds |
| `Enemies.Speed` | juego.py:48 | for sizes up to 36 the speed is at least 2.2 from level 1 on, and it lies within 0.54 above `2 + 0.2*level` for sizes 18..36 |
| `Enemies.SpeedNonIncreasingInSize` | juego.py:48 | at a fixed level, a larger size never falls faster |
| `Enemies.SpeedDecreasingInSize` | juego.py:48 | at a fixed level, a strictly larger size falls strictly slower |
| `Enemies.SpeedIncreasingInLevel` | juego.py:48 | at a higher level every size falls strictly faster |
| `Enemies.Spawn` | juego.py:45-50 | a spawned enemy keeps the drawn column and size, has `y == -size` (just above the screen), stays horizontally on screen, and has the level's speed, which is positive from level 1 on |
| `Enemies.SpawnInterval` | juego.py:130 | the interval in ms is 1000 times `max(0.25, 1.0-(level-1)*0.05)`; it is never below 250, at most 1000 from level 1, and sits at its floor from level 16 on |
| `Enemies.SpawnIntervalNonIncreasing` | juego.py:130 | a higher level never has a longer interval |
| `Enemies.SpawnIntervalDecreasingUntilFloor` | juego.py:130 | above the floor, a higher level has a strictly shorter interval |
| `Enemies.SpawnTick` | juego.py:129-133 | the old enemies stay as a prefix; exactly one enemy is appended at the end iff the accumulator plus the frame time reaches the interval, and then the accumulator resets to 0; otherwise it grows by the frame time |
| `Enemies.Fallen` | juego.py:136-137 | same length; every enemy's `y` grows by its own speed and its other fields are unchanged |
| `Enemies.Advance` | juego.py:136-137 | the element-by-element loop gives each enemy's fall and equals `Fallen` |
| `Enemies.KeepOnScreen` | juego.py:138 | the filter never lengthens the list and every enemy it keeps satisfies `y <= HEIGHT + size` |
| `Enemies.KeepOnScreenMembers` | juego.py:138 | every kept enemy comes from the input and is on screen; every on-screen enemy of the input is kept |
| `Enemies.KeepOnScreenPlacement` | juego.py:138 | an on-screen enemy at position `j` is kept, at the position right after the enemies kept from before `j` |
| `Enemies.KeepOnScreenSkips` | juego.py:138 | an off-screen enemy adds nothing to the kept list |
| `Enemies.KeepOnScreenOrder` | juego.py:138 | two kept enemies keep their relative input order in the output |
| `Enemies.KeepOnScreenAppend` | juego.py:138 | filtering a concatenation is concatenating the filtered parts |
| `Enemies.KeepOnScreenAllVisible` | juego.py:138 | when every enemy is on screen, none is dropped |
| `Enemies.DropFirst` | juego.py:143 | a non-empty list loses exactly its first enemy; an empty list stays empty |
| `Collision.Collides` | juego.py:67-73 | true iff some enemy satisfies `px < ex+es && px+ps > ex && py < ey+es && py+ps > ey` |
| `Collision.CollidesNeedsEnemy` | juego.py:67-73 | an empty enemy list never collides |
| `Collision.HorizontalContactIsNoHit` | juego.py:71 | squares that only touch at a vertical edge (`px+ps == ex` or `ex+es == px`) do not collide |
| `Collision.VerticalContactIsNoHit` | juego.py:71 | squares that only touch at a horizontal edge do not collide |
| `Collision.OverlapIsInteriorIntersection` | juego.py:71 | the strict test holds iff the two open squares share an interior point on both axes |
| `Collision.CollidesAppend` | juego.py:69-73 | a concatenation collides iff one of its parts does, wherever the overlapping enemy sits |
| `Session.Initial` | juego.py:105-110 | a session starts with the player placed, no enemies, 3 lives, score 0, level 1 and an empty accumulator, which satisfies the session invariant |
| `Session.QuitRequested` | juego.py:116-121 | the frame's events end the loop iff one of them is a quit signal or Escape |
| `Session.DrainEvents` | juego.py:116-123 | the event loop returns early exactly when a quit signal or Escape is drained |
| `Session.ScoreGain` | juego.py:150 | the points added are non-negative and are the truncation of `10 * (ms/1000) * level` |
| `Session.NextLevel` | juego.py:151-152 | the level stays or rises by exactly one, and it rises iff the score's 200-point blocks reach the level |
| `Session.Frame` | juego.py:114-152 | a frame that continues keeps the session invariant: player in bounds, lives ≥ 1, score ≥ 0, level ≥ 1 and at most one more than the score's 200-point blocks, every enemy in play |
| `Session.FrameKeepsEnemiesInPlay` | juego.py:129-143 | after spawning, falling, culling and the hit removal, every enemy is in the spawn ranges, falling, below its spawn height and not past the margin |
| `Session.FrameQuit` | juego.py:116-121 | a frame quits iff a quit signal or Escape was drained, and then nothing changes |
| `Session.FrameWithoutHit` | juego.py:141-147 | without a hit the frame continues, lives are unchanged and the enemies are the culled ones |
| `Session.FrameWithHit` | juego.py:141-147 | on a hit the culled list is non-empty, its first enemy (not necessarily the one that overlapped) is removed, lives drop by exactly 1, and the game ends iff the last life was lost |
| `Session.FrameGameOver` | juego.py:144-147 | game over happens exactly on a hit with one life left; it leaves 0 lives and performs no score or level update |
| `Session.FrameScoreAndLevel` | juego.py:150-152 | in one frame the score never decreases, lives never increase, and the level never decreases and rises by at most one |
| `Session.Run` | juego.py:113-152 | frames applied in order until one leaves the loop; a run still going keeps the session invariant |
| `Session.RunMonotone` | juego.py:113-152 | over any run, lives only decrease and score and level only increase |
| `Session.RunWithoutHitsKeepsLives` | juego.py:141-144 | after any number of frames without hits, lives are unchanged and the game is not over; a quitting frame returns before the collision test, so its would-be hit does not count (juego.py:117-121) |
| `Session.RunGameOverMeansNoLives` | juego.py:144-147 | a run that ends in game over has 0 lives |
| `Session.ShortFramesScoreNothing` | juego.py:150 | a frame with `ms * level < 100` adds no points |
| `Session.FastFramesNeverLevel` | juego.py:150-152 | from score 0 at level 1, frames under 100 ms never score and never level up |
| `Session.FiveSecondFrame` | juego.py:114-152 | from the start, one 5000 ms frame with no keys gives score 50, level 1 and 3 lives |
| `Session.LevelUpOncePerFrame` | juego.py:151-152 | at level 1 with score ≥ 250 (e.g. 1000, five blocks), a continuing frame reaches level 2 and no higher |
| `Session.EnemyLeavesBottom` | juego.py:136-138 | an enemy of size 20 and speed 5 at y = 470 is kept at y = 475; from y = 500 it falls past 500 and is dropped |
| `Session.Game.constructor` | juego.py:105-111 | a new game object holds the initial session state and is valid |
| `Session.Game.SpawnIfDue` | juego.py:129-133 | the accumulator and enemies become those of `SpawnTick`; lives, score and level are unchanged |
| `Session.Game.FallAndCull` | juego.py:136-138 | the enemies become the culled fallen ones; nothing else changes |
| `Session.Game.Collide` | juego.py:141-145 | on a collision the first enemy is removed and a life lost, otherwise nothing changes; `over` reports a hit with no life left |
| `Session.Game.UpdateScore` | juego.py:150-152 | the score grows by `ScoreGain` and the level follows `NextLevel` |
| `Session.Game.Step` | juego.py:114-152 | the in-place frame yields exactly the state and outcome of `Frame`; a continuing frame keeps the object valid and a quit changes nothing |
| `Session.Game.Play` | juego.py:113-114 | running the loop over a frame script yields exactly `Run` of the old state |
| `Screens.MenuAfter` | juego.py:77-92 | while choosing, the selection stays in `{0, 1}`; play needs a confirm key; the menu is still choosing exactly when the script holds no quit and no confirm, so it is left only on QUIT (juego.py:81-82) or on Return/Space (juego.py:88-92) |
| `Screens.RunMenu` | juego.py:76-92 | the menu loop from entry 0 equals `MenuAfter`, with the selection in range |
| `Screens.ConfirmPicksHighlighted` | juego.py:88-92 | Return or Space starts a game iff the first entry is highlighted, and exits otherwise |
| `Screens.QuitExits` | juego.py:81-82 | a quit signal leaves the menu with the exit outcome, whatever the selection and whatever follows |
| `Screens.MenuAfterAppend` | juego.py:77-92 | a script read in two parts gives the same outcome: the second part starts from the selection the first left, unless the first already decided; with `SelectionIsNetMoves`, `QuitExits` and `ConfirmPicksHighlighted` this fixes the outcome of any script |
| `Screens.UpFromTopWraps` | juego.py:84-85 | moving up from the first entry wraps to the second (Python's floor modulo) |
| `Screens.UpThenDownCancel` | juego.py:84-87 | up followed by down leaves the menu as it was |
| `Screens.SelectionIsNetMoves` | juego.py:84-87 | while choosing, the selection is the start plus (downs − ups), modulo 2 |
| `Screens.PauseEnded` | juego.py:171-181 | the pause wait ends iff P, Escape or a quit signal arrives |
| `Screens.GameOverEnded` | juego.py:187-194 | the game-over wait ends iff a key press or a quit signal arrives |
| `Screens.AfterMenu` | juego.py:204-207 | a game starts iff the menu answered play; the program closes iff it answered exit |
| `Screens.AfterGame` | juego.py:208-210 | the program closes iff the game loop quit; it returns to the menu iff the game ended |

## Left out

- Rendering is not modelled: text, the player triangle, the enemy rectangles, the HUD and `display.flip` (juego.py:35-42, 93-101, 154-167, 182-184, 195-199). It has no effect on the game state.
- The enemy `color` (juego.py:49) is not modelled, because it is cosmetic.
- pygame initialisation and shutdown (`init`, `pygame.quit`, `sys.exit`) are not modelled, because they are foreign calls with no game logic.
- Event polling, `key.get_pressed` and `clock.tick` are not modelled. Their results are parameters: the events, the held-key flags and the elapsed milliseconds.
- `random.randint` is not modelled. Its two results are a `Draw` parameter, limited to the ranges `randint` draws from.
- The blocking loops of `pause` and `game_over` are reduced to their exit conditions (`PauseEnded`, `GameOverEnded`) and their fixed outcomes: play resumes, back to the menu. The frame time that passes during a pause reaches the model only through the next frame's milliseconds.
- The menu's `while True` loop and the game's `while running:` loop, which never ends because `running` is never cleared, run over a finite script of events or frames. A script that runs out means "still in the screen".
- Player and enemy dictionaries are modelled as values. The source aliases nothing else to them, so updating them in place changes nothing observable.
- Floating point is not modelled: `dt`, the spawn accumulator, `speed` and the 0.05 s interval steps are exact. The source's float results can differ in the last bits. That can move `int(10*dt*level)` or the `spawn_acc >= current_interval` test by one step when the exact value lands on a boundary.
- `Session.ScoreGain`: states that the gain is the truncation of the exact `10*dt*level`, which is not always the float value `int()` sees in the source (see the previous line).
