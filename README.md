# Bubble Pop Kung Fu — gameplay core in Dafny

This project models the gameplay core of a motion-controlled arcade game. A
player stands in front of a camera. MediaPipe reports body landmarks for each
frame. A fruit (a "balloon") is launched from the bottom edge, rises and falls
back. The player catches it by joining hands while squatting with a wrist on it.
A fruit that falls back below the bottom edge costs a life.

The model covers five source files:

- `difficulty.dfy` (module `Difficulty`): the difficulty table and the spawn band.
- `fruits.dfy` (module `Fruits`): the fruit projectile. It is a `Fruit` class whose
  `Update` changes the object. `FruitState` is its value view, with the closed form
  of the trajectory.
- `pose.dfy` (module `Pose`): the gesture classifiers.
  - hands-joined is a pure function;
  - the smoothed knee angle and the squat debounce are methods of the `PoseDetection`
    class. Each is proved against a pure transition function (`KneeAngle`, `Debounce`,
    `CheckSquatSpec`).
- `session.dfy` (module `Session`): the `Game` class. It covers the frame tick
  (spawn, step, miss, catch, game over), restart, return-to-home, the resize clamp
  and the nose anchor. `Counters`, `ApplyOutcome` and `Play` are its value partner:
  they state how one frame's outcome changes the counters and what runs of outcomes lead to.
- `language.dfy` (module `Language`): the English/Chinese string table and `t`.
- `common.dfy` (module `Common`): `Option`, `Abs`, `Min` and `Clamp`.

Coordinates, speeds and times are Dafny `real`s. This is an exact idealisation of
JavaScript numbers. Counters are `int`s. Several inputs become parameters:

- `Date.now() / 1000` becomes the parameter `now`;
- the two `Math.random()` draws of a spawn become `imageDraw` and `xDraw`;
- `window.innerWidth` and `window.innerHeight` become method parameters;
- the stored language preference becomes a parameter;
- the right-knee angle that `Math.acos` produces becomes `rawAngle` / `rawKneeAngle`.

The player's landmarks for a frame are `Option<seq<Landmark>>`. `None` means
`poseLandmarks` is absent; `Some` holds MediaPipe's full list of 33 points.

Behaviour of the code worth knowing, which the model follows:

- The squat debounce is asymmetric. `if (!this.lastSquatState)` makes a
  standing→squatting change take effect at once. Only squatting→standing waits for
  three disagreeing readings in a row (`DebounceLaws`, `SquatEndNeedsRun`).
- The smoother and the debounce start from "undefined". The code reads that as an
  angle of 0 and a flag of false, not as 180. A stored angle of exactly 0 re-seeds
  the smoother.
- `squatRatio` in the difficulty table is never read by gameplay. The squat
  thresholds are the constants 165/150/135 in `checkSquat` (`Pose.SquatThreshold`).
- The spawn anchor (nose) is not mirrored, but the wrists are. So the anchor and
  the wrist mapping of the same point are reflections about the canvas centre
  (`Session.Game.GetNosePosition`).
- `checkSquat` runs twice per frame when landmarks are present: once in the tick
  (only while a fruit is on screen) and once in `drawPoseFeedback`. `GameLoop`
  includes both calls, so smoothing and debounce can advance twice in one frame.
- An unknown difficulty does not fail at construction. `start` stores
  `settings = undefined` and then throws on `settings.scoreThreshold`.
  `Session.Game.Start` returns `false` in that case.

## Model

| member | source | states |
|---|---|---|
| `Difficulty.DifficultySettings.CalculateSpawnPosition` | src/js/difficulty-manager.js:10-12 | the result is the floor of width × ratio; for a width ≥ 0 and a ratio in [0,1] it lies in [0, width] |
| `Difficulty.LookupSettings` | src/js/difficulty-manager.js:15-39 | exactly the keys easy, medium and hard are present, with the six listed values each; any other level gives no settings |
| `Difficulty.TableIsMonotone` | src/js/difficulty-manager.js:16-38 | every level's parameters are positive; from easy to medium to hard, speed, spread, gravity and target strictly increase while interval and squatRatio strictly decrease |
| `Fruits.FruitSize` | src/js/fruit.js:4-6 | the sprite size is the floor of 120 × min(innerWidth, innerHeight) / 1000; it is non-negative and at most that product for a non-negative window |
| `Fruits.ImageIndex` | src/js/fruit.js:3 | a random draw in [0,1) picks an index inside the image list |
| `Fruits.SpawnX` | src/js/fruit.js:7 | a draw in [0,1) puts the spawn x in [noseX − range, noseX + range); a zero range puts it at noseX |
| `Fruits.SpawnState` | src/js/fruit.js:2-11 | a new fruit starts at y = screen height with speedY = −initialSpeed, the given gravity, size from FruitSize and x from SpawnX |
| `Fruits.Fruit.constructor` | src/js/fruit.js:2-11 | the constructed object's fields are exactly SpawnState of its arguments and draws |
| `Fruits.Advance` | src/js/fruit.js:13-14 | one frame adds gravity to speedY before y moves by the new speed, and nothing else changes; FlightClosedForm gives n such frames in closed form |
| `Fruits.Fruit.Update` | src/js/fruit.js:12-16 | speedY' = speedY + gravity and y' = y + speedY'; x, size, gravity and image do not change; the answer is true iff y' ≤ the viewport height |
| `Fruits.FlightClosedForm` | src/js/fruit.js:8-14 | after n updates, speedY = speedY0 + n·g and y = y0 + n·speedY0 + g·n(n+1)/2 (from a spawn: −v0 + n·g and H − n·v0 + g·n(n+1)/2); no other field moves |
| `Fruits.Fruit.CheckCollision` | src/js/fruit.js:20-25 | true iff abs(px − x) ≤ width/2 and abs(py − y) ≤ height/2 (bounds inclusive); it reads the fruit and changes nothing |
| `Pose.CheckHandsJoined` | src/js/pose-detection.js:134-159 | without landmarks, or with either wrist's visibility below 0.2, the answer is false; a true answer implies a wrist height gap below 0.1 |
| `Pose.HandsJoinedByDistance` | src/js/pose-detection.js:140-158 | with the true Euclidean distances, the classifier holds iff both wrists are visible enough, wristDistance < 0.8 × elbowDistance and the height gap is below 0.1 |
| `Pose.MirrorHandsJoined` | src/js/pose-detection.js:144-152 | mirroring every x to 1 − x does not change the hands-joined answer |
| `Pose.Smooth` | src/js/pose-detection.js:187-193 | a stored 0 is re-seeded with the raw angle; otherwise the gap to the raw angle shrinks by 0.7 and the new value lies between the old value and the raw angle |
| `Pose.KneeAngle` | src/js/pose-detection.js:161-195 | without landmarks, with hip 24, knee 26 or ankle 28 below visibility 0.3, or with a zero-length knee vector, the answer is 180 and lastAngle is kept; otherwise the new lastAngle and the answer are both Smooth(lastAngle, rawAngle); angles in [0,180] stay in [0,180] |
| `Pose.MirrorKneeAngle` | src/js/pose-detection.js:172-179 | the knee vectors use abs(Δx), so they, the gate and the angle are unchanged when every x is mirrored |
| `Pose.SmoothRunClosedForm` | src/js/pose-detection.js:187-194 | from a positive stored angle and a constant non-negative reading c, after n frames the smoothed value minus c equals 0.7^n × (start − c) |
| `Pose.SmoothRunSeeded` | src/js/pose-detection.js:187-188 | a smoother seeded from 0 holds a constant reading exactly from the first frame on |
| `Pose.SmoothConverges` | src/js/pose-detection.js:186-194 | after ≥ 10 frames of a constant reading the error is at most 3% of the starting error, and within 1% of the reading when the start is within a third of it |
| `Pose.Debounce` | src/js/pose-detection.js:208-224 | from standing the flag follows the reading at once; squatting with an agreeing reading gives (true, 0); a disagreeing reading while squatting bumps the counter, and the flag drops only when the counter reaches 3, leaving it at 0 |
| `Pose.DebounceLaws` | src/js/pose-detection.js:208-224 | the counter stays below 3 and is 0 while standing; standing → the flag becomes the reading at once; squatting and agreeing → the counter resets; squatting and disagreeing → the counter grows, and the third disagreement flips to standing with counter 0 |
| `Pose.SquatHolds` | src/js/pose-detection.js:210-222 | fewer consecutive "standing" readings than the counter still needs keep the squat, with the counter advanced by their number |
| `Pose.SquatEnds` | src/js/pose-detection.js:212-219 | exactly the needed number of consecutive "standing" readings ends the squat with the counter back at 0 |
| `Pose.SquatEndNeedsRun` | src/js/pose-detection.js:208-224 | a run that starts squatting and ends standing contains the readings the counter needed at its start, or three consecutive "standing" readings somewhere |
| `Pose.SettledSquatEndNeedsThree` | src/js/pose-detection.js:210-222 | from a squat with counter 0 (so under alternating readings) the flag can only drop after three consecutive "standing" readings |
| `Pose.SquatThreshold` | src/js/pose-detection.js:201-206 | the threshold is 165 for easy, 150 for medium, 135 for hard and 165 for any other level |
| `Pose.CheckSquatSpec` | src/js/pose-detection.js:197-225 | without landmarks the answer is false and the state is unchanged; otherwise lastAngle becomes KneeAngle's smoothed value, the squat state becomes Debounce of the old one with the reading "angle ≤ SquatThreshold(difficulty)", the answer is the new stored flag, and the debounce invariant is preserved |
| `Pose.GatedFrameNeverStartsSquat` | src/js/pose-detection.js:162-209 | a frame the knee gate rejects reads 180, which is above every threshold, so it never starts a squat and leaves lastAngle alone |
| `Pose.PoseDetection.constructor` | src/js/pose-detection.js:7-23 | the classifier fields the constructor leaves undefined start as lastAngle 0, flag false and counter 0, which is how the methods read undefined, and the debounce invariant holds |
| `Pose.PoseDetection.CalculateKneeAngle` | src/js/pose-detection.js:161-195 | the method's new lastAngle and answer are exactly KneeAngle of the old lastAngle |
| `Pose.PoseDetection.CheckSquat` | src/js/pose-detection.js:197-225 | the method's new state and answer are exactly CheckSquatSpec of the old state, and the debounce invariant is kept |
| `Session.ApplyOutcome` | src/js/game.js:140-177 | a miss costs exactly one life; a catch raises score by one and lowers numberToComplete by one; score + numberToComplete never changes |
| `Session.PlayKeepsSum` | src/js/game.js:137-187 | along any run of frames score + numberToComplete is constant and lives never increase |
| `Session.CatchesEndSession` | src/js/game.js:171-187 | from (s, 3, t) with t > 0, k catches give (s+k, 3, t−k) while k < t; further catches change nothing after (s+t, 3, 0), which is game over |
| `Session.EasyPerfectGame` | src/js/game.js:171-187 | on easy (target 8), eight catches with no miss end at score 8, lives 3, remaining 0, game over |
| `Session.ThreeMissesEndSession` | src/js/game.js:140-187 | three misses from three lives end at 0 lives, game over, whatever the score |
| `Session.WristPoint` | src/js/game.js:157-160 | wrists map to ((1 − x)·width, y·height); a landmark in the unit square lands on the canvas |
| `Session.Game.TickOutcome` | src/js/game.js:140-177 | given the squat flag the classifier answered: a fruit is missed iff it fell below the canvas height; it is caught iff it is still on screen, landmarks are present, hands are joined, the flag is set and a mirrored wrist lies in its box; otherwise it is kept |
| `Session.Without` | src/js/game.js:182 | the filtered list keeps exactly the fruits not marked for removal and is no longer than before |
| `Session.Game.constructor` | src/js/game.js:10-15 | a new session has score 0, 3 lives, no fruit, lastFruitTime 0, not over, no target and no settings |
| `Session.Game.Start` | src/js/game.js:44-47 | stores the level and its settings; a known level sets numberToComplete to its scoreThreshold, an unknown one answers false |
| `Session.Game.ResizeCanvas` | src/js/game.js:65-76 | the canvas takes the window size; unless the game is over every fruit's x is clamped into [0, width] and y into [0, height], and nothing else about it changes |
| `Session.Game.Restart` | src/js/game.js:84-89 | score 0, 3 lives, no fruit, lastFruitTime 0, not over, numberToComplete = scoreThreshold |
| `Session.Game.ReturnToHome` | src/js/game.js:478-483 | as Restart but numberToComplete = 0 |
| `Session.Game.GetNosePosition` | src/js/game.js:209-216 | without landmarks the anchor is width/2; with landmarks it is nose.x·width, the unmirrored reflection of the wrist-style mapping |
| `Session.Game.ProcessFruit` | src/js/game.js:140-179 | the fruit takes one step; the squat classifier advances only if the fruit stayed on screen and landmarks are present; a miss costs a life; a catch needs hands joined, the squat flag and a mirrored-wrist hit |
| `Session.Game.CheckCollisionsAndUpdateFruits` | src/js/game.js:137-188 | with no fruit nothing but the game-over flag can change; with one, it is processed and stays listed iff kept; gameOver becomes true iff life ≤ 0 or numberToComplete ≤ 0 |
| `Session.Game.UpdateGameObjects` | src/js/game.js:118-136 | a fruit is spawned iff none is alive and now − lastFruitTime > intervalTime (strict); spawning sets lastFruitTime = now; the spawned or existing fruit is then processed (Stepped: one Advance, the classifier advanced only if it stayed on screen with landmarks, counters moved by TickOutcome, listed iff kept); with no fruit nothing changes; at most one fruit is alive |
| `Session.Game.GameLoop` | src/js/game.js:106-117 | once gameOver is set nothing changes; otherwise score + numberToComplete is kept, at most one life is lost, a life lost and a catch never happen together, gameOver ⇔ life ≤ 0 ∨ numberToComplete ≤ 0, the fruits, counters, lastFruitTime and the classifier state `afterUpdate` are exactly what UpdateGameObjects leaves from the old state, and the drawPoseFeedback squat check (src/js/game.js:280) then advances the classifier once more from `afterUpdate` |
| `Language.CurrentLang` | src/Language/language.js:43 | no stored preference, or an empty one, means "en"; any other stored value is used as it is |
| `Language.T` | src/Language/language.js:45-47 | an unknown language or a missing key gives the key back; a present non-empty entry is returned |
| `Language.SameKeys` | src/Language/language.js:4-40 | the English and Chinese tables have the same keys |
| `Language.KeyCount` | src/Language/language.js:4-40 | each table has sixteen entries |
| `Language.NoEmptyEntry` | src/Language/language.js:4-40 | no entry of either table is empty |
| `Language.KnownKeyTranslated` | src/Language/language.js:4-46 | in en or zh a known key is translated to its entry and never falls back to the key |

## Left out

- MediaPipe `Pose` set-up, model loading, re-initialisation and the camera with its retries (src/js/pose-detection.js:1-132): a foreign library and asynchronous device I/O.
- The `Math.acos`/`Math.sqrt` angle (src/js/pose-detection.js:181-185): floating-point numerics. The raw angle is an input, and the zero-length guard is stated on squared lengths.
- `calibrate` and its `Math.hypot` baseline (src/js/game.js:341-361): `baselineDistance` is never read by gameplay.
- Rendering, DOM and audio: `drawGameObjects`, the drawing parts of `drawPoseFeedback`, `drawSkeleton`, `showFeedback`, `updateUI`, `showGameOver`, the loading, retry and error overlays, `returnToMainMenu`, the DOM lines of `start`, `restart` and `returnToHome`, and the sound `play()` calls. These are presentation only. The hands-joined call in `drawPoseFeedback` is stateless and is omitted. Its squat call is kept in `GameLoop`.
- `requestAnimationFrame`, `Date.now()`, the countdown and calibration timers, and asset loading: these are browser scheduling and I/O. Time is the parameter `now`, and the model has `FruitImageCount = 4` images.
- The `showErrorDialog` retry path (src/js/game.js:460): it passes the settings object where a level name is expected.
- `src/main.js`: event wiring only.
- Property lookups that hit JavaScript's `Object.prototype`: a level, language or key named like `constructor` or `toString`. The model treats these as unknown names.
- `Session.Game.Restart`: it requires settings to be present. The source throws when `settings` is null, and the restart button appears only after a started game.
- `Fruits.Fruit.Update`: it compares against a height parameter. In the game that parameter is the canvas height, which `resizeCanvas` keeps equal to `window.innerHeight`.
- `Pose.SmoothConverges`: it proves a 3% bound on the starting error, and the 1% bound only when the start is within a third of the reading. Convergence to within 1% from an arbitrary start is not claimed.
