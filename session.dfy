/**
 * The per-frame gameplay of game.js: spawning behind a time gate, stepping the
 * single live fruit, losing a life on a miss, scoring a catch gated on the two
 * gestures and a mirrored-wrist hit, and the game-over check; with restart,
 * return-to-home and the resize clamp around it. `Date.now() / 1000` is the
 * parameter `now`, the browser window size is passed in, and the two
 * `Math.random()` draws of a spawn are parameters.
 */
module Session {
  import opened Common
  import opened Difficulty
  import opened Fruits
  import opened Pose

  /** `loadResources` loads four fruit images. */
  const FruitImageCount := 4
  const InitialLives := 3

  /** What one frame did with the live fruit. */
  datatype Outcome = Missed | Caught | Kept

  /** The three counters of a session. */
  datatype Counters = Counters(score: int, life: int, numberToComplete: int)

  /**
   * Effect of a frame's outcome on the counters: a miss costs exactly one life,
   * a catch moves score up and numberToComplete down by one, so their sum is kept.
   */
  function ApplyOutcome(c: Counters, o: Outcome): (r: Counters)
    ensures r.score + r.numberToComplete == c.score + c.numberToComplete
    ensures r.life == if o == Missed then c.life - 1 else c.life
    ensures r.score == if o == Caught then c.score + 1 else c.score
  {
    match o
    case Missed => c.(life := c.life - 1)
    case Caught => c.(score := c.score + 1, numberToComplete := c.numberToComplete - 1)
    case Kept => c
  }

  /** The end-of-frame test `life <= 0 || numberToComplete <= 0`. */
  predicate IsOver(c: Counters) {
    c.life <= 0 || c.numberToComplete <= 0
  }

  /** A sequence of frame outcomes; once the game is over, `gameLoop` does nothing more. */
  function Play(c: Counters, outcomes: seq<Outcome>): Counters
    decreases |outcomes|
  {
    if outcomes == [] || IsOver(c) then c else Play(ApplyOutcome(c, outcomes[0]), outcomes[1..])
  }

  /** Along any run the sum score + numberToComplete is constant and lives never grow. */
  lemma {:induction false} PlayKeepsSum(c: Counters, outcomes: seq<Outcome>)
    ensures Play(c, outcomes).score + Play(c, outcomes).numberToComplete == c.score + c.numberToComplete
    ensures Play(c, outcomes).life <= c.life
    decreases |outcomes|
  {
    if outcomes != [] && !IsOver(c) {
      PlayKeepsSum(ApplyOutcome(c, outcomes[0]), outcomes[1..]);
    }
  }

  /**
   * Catching every fruit: after k catches from (s, 3, t), t > 0, the session has
   * (s + k, 3, t - k) while k < t, and stops at (s + t, 3, 0), which is game over.
   */
  lemma {:induction false} CatchesEndSession(s: int, t: int, k: nat)
    requires t > 0
    ensures var r := Play(Counters(s, InitialLives, t), seq(k, _ => Caught));
      r == if k < t then Counters(s + k, InitialLives, t - k) else Counters(s + t, InitialLives, 0)
    ensures k >= t ==> IsOver(Play(Counters(s, InitialLives, t), seq(k, _ => Caught)))
    decreases k
  {
    if k > 0 {
      var os := seq(k, _ => Caught);
      assert os[0] == Caught;
      assert os[1..] == seq(k - 1, _ => Caught);
      if t == 1 {
        assert Play(Counters(s + 1, InitialLives, 0), os[1..]) == Counters(s + 1, InitialLives, 0);
      } else {
        CatchesEndSession(s + 1, t - 1, k - 1);
      }
    }
  }

  /** The easy level's target of 8 reached by 8 straight catches: (8, 3, 0), over. */
  lemma EasyPerfectGame()
    ensures Play(Counters(0, InitialLives, Easy.scoreThreshold), seq(8, _ => Caught))
         == Counters(8, InitialLives, 0)
    ensures IsOver(Counters(8, InitialLives, 0))
  {
    CatchesEndSession(0, 8, 8);
  }

  /** Three straight misses from a fresh session end it with no life left, whatever the score. */
  lemma ThreeMissesEndSession(s: int, t: int)
    requires t > 0
    ensures Play(Counters(s, InitialLives, t), [Missed, Missed, Missed]) == Counters(s, 0, t)
    ensures IsOver(Counters(s, 0, t))
  {
  }

  /**
   * Canvas position of a wrist: x is mirrored, `((1 - x) * width, y * height)`,
   * so a landmark in the unit square lands on the canvas.
   */
  function WristPoint(l: Landmark, width: int, height: int): (p: (real, real))
    ensures p.0 == width as real - l.x * width as real
    ensures p.1 == l.y * height as real
    ensures 0.0 <= l.x <= 1.0 && 0.0 <= l.y <= 1.0 && width >= 0 && height >= 0 ==>
      0.0 <= p.0 <= width as real && 0.0 <= p.1 <= height as real
  {
    var w, h := width as real, height as real;
    UnitScale(1.0 - l.x, w);
    UnitScale(l.y, h);
    ((1.0 - l.x) * w, l.y * h)
  }

  lemma UnitScale(u: real, w: real)
    ensures 0.0 <= u <= 1.0 && w >= 0.0 ==> 0.0 <= u * w <= w
  {
  }

  /**
   * `fruits.filter(fruit => !toRemove.includes(fruit))`. The contract fixes which
   * fruits remain but not their order or repetitions; with at most one fruit alive
   * (`Game.Valid`) that determines the result.
   */
  function Without(fruits: seq<Fruit>, toRemove: seq<Fruit>): (r: seq<Fruit>)
    ensures |r| <= |fruits|
    ensures forall i :: 0 <= i < |r| ==> r[i] in fruits && r[i] !in toRemove
    ensures forall i :: 0 <= i < |fruits| && fruits[i] !in toRemove ==> fruits[i] in r
    ensures toRemove == [] ==> r == fruits
  {
    if fruits == [] then []
    else (if fruits[0] in toRemove then [] else [fruits[0]]) + Without(fruits[1..], toRemove)
  }

  /** The session object. */
  class Game {
    var score: int
    var life: int
    var numberToComplete: int
    var fruits: seq<Fruit>
    var lastFruitTime: real
    var gameOver: bool
    var difficulty: string
    var settings: Option<DifficultySettings>
    var canvasWidth: int
    var canvasHeight: int
    const poseDetection: PoseDetection

    function Tally(): Counters
      reads this
    {
      Counters(score, life, numberToComplete)
    }

    /** At most one fruit is alive, and the squat debounce is in a reachable state. */
    ghost predicate Valid()
      reads this, poseDetection
    {
      |fruits| <= 1 && poseDetection.Valid()
    }

    /** The gameplay fields of `new Game()`, with the window size it sizes the canvas to. */
    constructor (innerWidth: int, innerHeight: int)
      ensures Valid() && fresh(poseDetection)
      ensures Tally() == Counters(0, InitialLives, 0)
      ensures fruits == [] && lastFruitTime == 0.0 && !gameOver && settings == None
      ensures canvasWidth == innerWidth && canvasHeight == innerHeight
      ensures poseDetection.State() == InitialClassifier
    {
      score := 0;
      life := InitialLives;
      fruits := [];
      lastFruitTime := 0.0;
      gameOver := false;
      numberToComplete := 0;
      difficulty := "";
      poseDetection := new PoseDetection();
      settings := None;
      canvasWidth := innerWidth;
      canvasHeight := innerHeight;
    }

    /**
     * The state part of `start(playerId, difficulty)`: select the settings and set the
     * target. An unknown level leaves `settings` undefined and the source then throws
     * on `settings.scoreThreshold`; that is the `false` answer here.
     */
    method Start(difficulty: string) returns (ok: bool)
      modifies this`difficulty, this`settings, this`numberToComplete
      ensures this.difficulty == difficulty && settings == LookupSettings(difficulty)
      ensures ok <==> difficulty in {"easy", "medium", "hard"}
      ensures numberToComplete == if ok then settings.value.scoreThreshold else old(numberToComplete)
    {
      this.difficulty := difficulty;
      settings := LookupSettings(difficulty);
      if settings.None? {
        return false;
      }
      numberToComplete := settings.value.scoreThreshold;
      ok := true;
    }

    /** `resizeCanvas()`: new canvas size; unless the game is over, every fruit is clamped onto it. */
    method ResizeCanvas(innerWidth: int, innerHeight: int)
      requires Valid()
      modifies this`canvasWidth, this`canvasHeight, fruits
      ensures Valid()
      ensures canvasWidth == innerWidth && canvasHeight == innerHeight
      ensures forall i :: 0 <= i < |fruits| ==>
        fruits[i].State() ==
          if gameOver then old(fruits[i].State())
          else old(fruits[i].State()).(x := Clamp(old(fruits[i].x), 0.0, innerWidth as real),
                                       y := Clamp(old(fruits[i].y), 0.0, innerHeight as real))
    {
      canvasWidth := innerWidth;
      canvasHeight := innerHeight;
      if !gameOver {
        for i := 0 to |fruits|
          invariant canvasWidth == innerWidth && canvasHeight == innerHeight
          invariant forall j :: 0 <= j < i ==>
            fruits[j].State() ==
              old(fruits[j].State()).(x := Clamp(old(fruits[j].x), 0.0, innerWidth as real),
                                      y := Clamp(old(fruits[j].y), 0.0, innerHeight as real))
          invariant forall j :: i <= j < |fruits| ==> fruits[j].State() == old(fruits[j].State())
        {
          var fruit := fruits[i];
          fruit.x := Clamp(fruit.x, 0.0, canvasWidth as real);
          fruit.y := Clamp(fruit.y, 0.0, canvasHeight as real);
        }
      }
    }

    /** The state part of `restart()`: a fresh round at the same difficulty. */
    method Restart()
      requires Valid() && settings.Some?
      modifies this`score, this`life, this`fruits, this`lastFruitTime, this`gameOver, this`numberToComplete
      ensures Valid()
      ensures Tally() == Counters(0, InitialLives, settings.value.scoreThreshold)
      ensures fruits == [] && lastFruitTime == 0.0 && !gameOver
    {
      score := 0;
      life := InitialLives;
      fruits := [];
      lastFruitTime := 0.0;
      gameOver := false;
      numberToComplete := settings.value.scoreThreshold;
    }

    /** The state part of `returnToHome()`: as restart, but with no target. */
    method ReturnToHome()
      requires Valid()
      modifies this`score, this`life, this`fruits, this`lastFruitTime, this`gameOver, this`numberToComplete
      ensures Valid()
      ensures Tally() == Counters(0, InitialLives, 0)
      ensures fruits == [] && lastFruitTime == 0.0 && !gameOver
    {
      score := 0;
      life := InitialLives;
      fruits := [];
      lastFruitTime := 0.0;
      gameOver := false;
      numberToComplete := 0;
    }

    /**
     * `getNosePosition()`: the spawn anchor. Unlike the wrists it is NOT mirrored:
     * the anchor and the wrist mapping of the same landmark are reflections about
     * the canvas centre. Without landmarks it is the centre.
     */
    function GetNosePosition(pose: Option<seq<Landmark>>): (noseX: real)
      requires FrameOk(pose)
      reads this
      ensures pose.None? ==> noseX == canvasWidth as real / 2.0
      ensures pose.Some? ==>
        noseX + WristPoint(pose.value[Nose], canvasWidth, canvasHeight).0 == canvasWidth as real
    {
      match pose
      case Some(lms) => lms[Nose].x * canvasWidth as real
      case None => canvasWidth as real / 2.0
    }

    /** Either mirrored wrist lies in the fruit's box. */
    predicate WristHits(fruit: Fruit, lms: seq<Landmark>)
      requires |lms| == LandmarkCount
      reads this, fruit
    {
      var left := WristPoint(lms[LeftWrist], canvasWidth, canvasHeight);
      var right := WristPoint(lms[RightWrist], canvasWidth, canvasHeight);
      fruit.CheckCollision(left.0, left.1) || fruit.CheckCollision(right.0, right.1)
    }

    /**
     * The outcome for a fruit that has just been stepped, given the squat flag the
     * classifier answered: it is missed exactly when it fell below the canvas, and
     * caught only with landmarks, joined hands, the flag set and a wrist in its box.
     */
    function TickOutcome(fruit: Fruit, pose: Option<seq<Landmark>>, squatting: bool): (r: Outcome)
      requires FrameOk(pose)
      reads this, fruit
      ensures r == Missed <==> fruit.y > canvasHeight as real
      ensures r == Caught <==>
        fruit.y <= canvasHeight as real && pose.Some? && CheckHandsJoined(pose) && squatting
        && WristHits(fruit, pose.value)
    {
      if !(fruit.y <= canvasHeight as real) then Missed
      else if pose.None? then Kept
      else if CheckHandsJoined(pose) && squatting && WristHits(fruit, pose.value) then Caught
      else Kept
    }

    /**
     * What one iteration of the fruit loop does, from the fruit's state `before`,
     * the classifier state and the counters before it: the fruit takes one step;
     * the squat classifier advances only if the fruit stayed on screen and
     * landmarks are present; the counters change by the outcome.
     */
    predicate Processed(fruit: Fruit, before: FruitState, classifierBefore: Classifier,
                        classifierAfter: Classifier, tallyBefore: Counters,
                        pose: Option<seq<Landmark>>, rawKneeAngle: real)
      requires FrameOk(pose)
      reads this, fruit
    {
      fruit.State() == Advance(before)
      && classifierAfter ==
           (if fruit.y <= canvasHeight as real && pose.Some?
            then CheckSquatSpec(classifierBefore, pose, difficulty, rawKneeAngle).0
            else classifierBefore)
      && Tally() == ApplyOutcome(tallyBefore, TickOutcome(fruit, pose, classifierAfter.squat.squatting))
    }

    /** Processed, and the fruit is still listed exactly when it was kept. */
    predicate Stepped(fruit: Fruit, before: FruitState, classifierBefore: Classifier,
                      classifierAfter: Classifier, tallyBefore: Counters,
                      pose: Option<seq<Landmark>>, rawKneeAngle: real)
      requires FrameOk(pose)
      reads this, fruit
    {
      Processed(fruit, before, classifierBefore, classifierAfter, tallyBefore, pose, rawKneeAngle)
      && fruits == if TickOutcome(fruit, pose, classifierAfter.squat.squatting) == Kept then [fruit] else []
    }

    /** The body of the loop in `checkCollisionsAndUpdateFruits` for one fruit. */
    method ProcessFruit(fruit: Fruit, pose: Option<seq<Landmark>>, rawKneeAngle: real) returns (remove: bool)
      requires Valid() && FrameOk(pose)
      modifies this`score, this`life, this`numberToComplete, poseDetection, fruit
      ensures Valid()
      ensures Processed(fruit, old(fruit.State()), old(poseDetection.State()), poseDetection.State(), old(Tally()), pose, rawKneeAngle)
      ensures remove <==> TickOutcome(fruit, pose, poseDetection.lastSquatState) != Kept
    {
      ghost var classifierBefore, tallyBefore := poseDetection.State(), Tally();
      var inView := fruit.Update(canvasHeight as real);
      if !inView {
        life := life - 1;
        assert TickOutcome(fruit, pose, poseDetection.lastSquatState) == Missed;
        return true;
      }
      remove := false;
      if pose.None? {
        assert TickOutcome(fruit, pose, poseDetection.lastSquatState) == Kept;
      } else {
        var handsJoined := CheckHandsJoined(pose);
        var isSquatting := poseDetection.CheckSquat(pose, difficulty, rawKneeAngle);
        assert poseDetection.State() == CheckSquatSpec(classifierBefore, pose, difficulty, rawKneeAngle).0;
        assert isSquatting == poseDetection.lastSquatState;
        if !(handsJoined && isSquatting) {
          assert TickOutcome(fruit, pose, poseDetection.lastSquatState) == Kept;
        } else {
          var landmarks := pose.value;
          var leftWrist, rightWrist := landmarks[LeftWrist], landmarks[RightWrist];
          // the wrists are mirrored: ((1 - x) * width, y * height)
          var left := WristPoint(leftWrist, canvasWidth, canvasHeight);
          var right := WristPoint(rightWrist, canvasWidth, canvasHeight);
          if fruit.CheckCollision(left.0, left.1) || fruit.CheckCollision(right.0, right.1) {
            remove := true;
            score := score + 1;
            numberToComplete := numberToComplete - 1;
            assert TickOutcome(fruit, pose, poseDetection.lastSquatState) == Caught;
          } else {
            assert TickOutcome(fruit, pose, poseDetection.lastSquatState) == Kept;
          }
        }
      }
    }

    /** `checkCollisionsAndUpdateFruits()`. */
    method CheckCollisionsAndUpdateFruits(pose: Option<seq<Landmark>>, rawKneeAngle: real)
      requires Valid() && FrameOk(pose)
      modifies this`score, this`life, this`numberToComplete, this`fruits, this`gameOver, poseDetection, fruits
      ensures Valid()
      ensures old(fruits) == [] ==>
        fruits == [] && Tally() == old(Tally()) && poseDetection.State() == old(poseDetection.State())
      ensures old(fruits) != [] ==>
        Stepped(old(fruits)[0], old(fruits[0].State()), old(poseDetection.State()), poseDetection.State(), old(Tally()), pose, rawKneeAngle)
      ensures gameOver == (old(gameOver) || IsOver(Tally()))
    {
      var toRemove: seq<Fruit> := [];
      for i := 0 to |fruits|
        invariant fruits == old(fruits) && gameOver == old(gameOver) && Valid()
        invariant i == 0 ==>
          toRemove == [] && Tally() == old(Tally()) && poseDetection.State() == old(poseDetection.State())
          && (fruits != [] ==> fruits[0].State() == old(fruits[0].State()))
        invariant i == 1 ==>
          Processed(fruits[0], old(fruits[0].State()), old(poseDetection.State()), poseDetection.State(), old(Tally()), pose, rawKneeAngle)
          && toRemove == if TickOutcome(fruits[0], pose, poseDetection.lastSquatState) == Kept then [] else [fruits[0]]
      {
        var fruit := fruits[i];
        var remove := ProcessFruit(fruit, pose, rawKneeAngle);
        if remove {
          toRemove := toRemove + [fruit];
        }
      }
      fruits := Without(fruits, toRemove);
      if life <= 0 || numberToComplete <= 0 {
        gameOver := true;
      }
    }

    /**
     * What `updateGameObjects()` does, from `fruitsBefore` (the fruit list before it)
     * to the current fruits, counters and flags, with `classifierAfter` the squat
     * classifier state it leaves: a fruit `spawned` is made exactly when none is
     * alive and more than `intervalTime` seconds have passed (strictly); then the
     * new or the existing fruit is stepped and collided, or nothing changes.
     */
    twostate predicate Updated(new spawned: Fruit?, fruitsBefore: seq<Fruit>, classifierAfter: Classifier,
                               now: real, pose: Option<seq<Landmark>>, rawKneeAngle: real,
                               imageDraw: real, xDraw: real)
      requires settings.Some? && FrameOk(pose)
      reads this, poseDetection, fruitsBefore, spawned
    {
      && (spawned != null <==> fruitsBefore == [] && now - old(lastFruitTime) > settings.value.intervalTime)
      && lastFruitTime == (if spawned != null then now else old(lastFruitTime))
      && (spawned != null ==>
            fresh(spawned) &&
            Stepped(spawned,
                    SpawnState(GetNosePosition(pose), settings.value.CalculateSpawnPosition(canvasWidth) as real,
                               canvasHeight as real, FruitImageCount, settings.value.fruitInitialSpeed,
                               settings.value.gravity, canvasWidth, canvasHeight, imageDraw, xDraw),
                    old(poseDetection.State()), classifierAfter, old(Tally()), pose, rawKneeAngle))
      && (spawned == null && fruitsBefore != [] ==>
            Stepped(fruitsBefore[0], old(fruitsBefore[0].State()), old(poseDetection.State()), classifierAfter,
                    old(Tally()), pose, rawKneeAngle))
      && (spawned == null && fruitsBefore == [] ==>
            fruits == [] && Tally() == old(Tally()) && classifierAfter == old(poseDetection.State()))
      && gameOver == (old(gameOver) || IsOver(Tally()))
    }

    /** `updateGameObjects()`; `spawned` names the fruit made in this frame, if any. */
    method UpdateGameObjects(now: real, pose: Option<seq<Landmark>>, rawKneeAngle: real,
                             imageDraw: real, xDraw: real) returns (ghost spawned: Fruit?)
      requires Valid() && settings.Some? && FrameOk(pose)
      modifies this`score, this`life, this`numberToComplete, this`fruits, this`gameOver,
               this`lastFruitTime, poseDetection, fruits
      ensures Valid()
      ensures Updated(spawned, old(fruits), poseDetection.State(), now, pose, rawKneeAngle, imageDraw, xDraw)
    {
      spawned := null;
      if |fruits| == 0 && now - lastFruitTime > settings.value.intervalTime {
        var noseX := GetNosePosition(pose);
        var spawnPosition := settings.value.CalculateSpawnPosition(canvasWidth);
        var fruit := new Fruit(noseX, spawnPosition as real, canvasHeight as real, FruitImageCount,
                               settings.value.fruitInitialSpeed, settings.value.gravity,
                               canvasWidth, canvasHeight, imageDraw, xDraw);
        fruits := fruits + [fruit];
        lastFruitTime := now;
        spawned := fruit;
      }
      CheckCollisionsAndUpdateFruits(pose, rawKneeAngle);
    }

    /**
     * One animation frame, `gameLoop()`: nothing once the game is over; otherwise
     * the update step, then the squat check that `drawPoseFeedback` repeats when
     * landmarks are present, so the classifier can advance twice per frame.
     * `spawned` is the fruit made in this frame, if any, and `afterUpdate` the
     * classifier state between the two checks.
     */
    method GameLoop(now: real, pose: Option<seq<Landmark>>, rawKneeAngle: real,
                    imageDraw: real, xDraw: real) returns (ghost spawned: Fruit?, ghost afterUpdate: Classifier)
      requires Valid() && settings.Some? && FrameOk(pose)
      modifies this`score, this`life, this`numberToComplete, this`fruits, this`gameOver,
               this`lastFruitTime, poseDetection, fruits
      ensures Valid()
      ensures old(gameOver) ==>
        gameOver && Tally() == old(Tally()) && fruits == old(fruits)
        && lastFruitTime == old(lastFruitTime) && poseDetection.State() == old(poseDetection.State())
        && forall i :: 0 <= i < |fruits| ==> fruits[i].State() == old(fruits[i].State())
      ensures !old(gameOver) ==>
        Updated(spawned, old(fruits), afterUpdate, now, pose, rawKneeAngle, imageDraw, xDraw)
        && gameOver == IsOver(Tally())
        && score + numberToComplete == old(score + numberToComplete)
        && (life == old(life) || life == old(life) - 1)
        && (score == old(score) || (score == old(score) + 1 && life == old(life)))
        && poseDetection.State() ==
             (if pose.Some? then CheckSquatSpec(afterUpdate, pose, difficulty, rawKneeAngle).0 else afterUpdate)
    {
      spawned, afterUpdate := null, poseDetection.State();
      if gameOver {
        return;
      }
      spawned := UpdateGameObjects(now, pose, rawKneeAngle, imageDraw, xDraw);
      afterUpdate := poseDetection.State();
      if pose.Some? {
        var _ := poseDetection.CheckSquat(pose, difficulty, rawKneeAngle);
      }
    }
  }
}
