/**
 * The difficulty table of difficulty-manager.js: six gameplay parameters for
 * each level and the spawn-range computation.
 */
module Difficulty {
  import opened Common

  /** One immutable parameter bundle; the JavaScript constructor only copies its six arguments. */
  datatype DifficultySettings = DifficultySettings(
    fruitInitialSpeed: real,
    spawnPositionRatio: real,
    intervalTime: real,
    gravity: real,
    scoreThreshold: int,
    squatRatio: real)
  {
    /** `Math.floor(screenWidth * spawnPositionRatio)`: half-width of the band fruits spawn in. */
    function CalculateSpawnPosition(screenWidth: int): (r: int)
      ensures r as real <= screenWidth as real * spawnPositionRatio < r as real + 1.0
      ensures 0 <= screenWidth && 0.0 <= spawnPositionRatio <= 1.0 ==> 0 <= r <= screenWidth
    {
      var w := screenWidth as real;
      ScaleBelow(w, spawnPositionRatio);
      (w * spawnPositionRatio).Floor
    }
  }

  /** Multiplying a non-negative value by a ratio in [0,1] keeps it in [0, value]. */
  lemma ScaleBelow(w: real, ratio: real)
    ensures 0.0 <= w && 0.0 <= ratio <= 1.0 ==> 0.0 <= w * ratio <= w
  {
  }

  const Easy := DifficultySettings(6.0, 0.15, 2.0, 0.05, 8, 0.9)
  const Medium := DifficultySettings(7.0, 0.2, 1.5, 0.06, 10, 0.8)
  const Hard := DifficultySettings(8.0, 0.25, 1.2, 0.07, 12, 0.7)

  /** `DIFFICULTY_SETTINGS`, keyed by the value of the difficulty selector. */
  const DifficultyTable: map<string, DifficultySettings> :=
    map["easy" := Easy, "medium" := Medium, "hard" := Hard]

  /** `DIFFICULTY_SETTINGS[difficulty]`, `undefined` (None) for an unknown level. */
  function LookupSettings(difficulty: string): (r: Option<DifficultySettings>)
    ensures r.Some? <==> difficulty in {"easy", "medium", "hard"}
    ensures difficulty == "easy" ==> r == Some(DifficultySettings(6.0, 0.15, 2.0, 0.05, 8, 0.9))
    ensures difficulty == "medium" ==> r == Some(DifficultySettings(7.0, 0.2, 1.5, 0.06, 10, 0.8))
    ensures difficulty == "hard" ==> r == Some(DifficultySettings(8.0, 0.25, 1.2, 0.07, 12, 0.7))
  {
    if difficulty in DifficultyTable then Some(DifficultyTable[difficulty]) else None
  }

  /** Every level has positive speed, interval, gravity and target, and a ratio in (0,1]. */
  predicate Sensible(s: DifficultySettings) {
    s.fruitInitialSpeed > 0.0 && 0.0 < s.spawnPositionRatio <= 1.0 && s.intervalTime > 0.0
    && s.gravity > 0.0 && s.scoreThreshold > 0 && 0.0 < s.squatRatio <= 1.0
  }

  /** Harder is strictly faster, wider, more frequent, heavier and longer; squatRatio shrinks. */
  predicate Harder(a: DifficultySettings, b: DifficultySettings) {
    a.fruitInitialSpeed < b.fruitInitialSpeed && a.spawnPositionRatio < b.spawnPositionRatio
    && a.intervalTime > b.intervalTime && a.gravity < b.gravity
    && a.scoreThreshold < b.scoreThreshold && a.squatRatio > b.squatRatio
  }

  lemma TableIsMonotone()
    ensures forall d :: d in DifficultyTable ==> Sensible(DifficultyTable[d])
    ensures Harder(DifficultyTable["easy"], DifficultyTable["medium"])
    ensures Harder(DifficultyTable["medium"], DifficultyTable["hard"])
  {
  }
}
