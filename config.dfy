/** Fixed game configuration: screen, player and enemy constants (juego.py:14-22),
    plus the session start values and timing constants of the game loop
    (juego.py:105-111, 130, 151). Time is measured in integer milliseconds. */
module Config {

  const Width: int := 640
  const Height: int := 480

  const PlayerSize: int := 30
  const PlayerSpeed: int := 5

  const EnemyMinSize: int := 18
  const EnemyMaxSize: int := 36
  const EnemySpeedBase: int := 2

  /** Lives at the start of a session. */
  const StartLives: int := 3

  /** The spawn interval at level 1 (1.0 s), its floor (0.25 s) and the
      amount it shrinks per level (0.05 s), in milliseconds. */
  const BaseSpawnIntervalMs: int := 1000
  const MinSpawnIntervalMs: int := 250
  const SpawnIntervalStepMs: int := 50

  /** Points needed per level. */
  const PointsPerLevel: int := 200
}
