/**
 * The gesture classifiers of pose-detection.js: hands-joined (stateless),
 * the smoothed right-knee angle, and the debounced squat flag.
 * The arccosine of the knee-vector cosine is taken as an input (rawAngle):
 * the model starts from that number, whatever floating-point routine produced it.
 */
module Pose {
  import opened Common

  /** One normalised MediaPipe landmark. */
  datatype Landmark = Landmark(x: real, y: real, visibility: real)

  const LandmarkCount := 33
  const Nose := 0
  const LeftElbow := 13
  const RightElbow := 14
  const LeftWrist := 15
  const RightWrist := 16
  const RightHip := 24
  const RightKnee := 26
  const RightAnkle := 28

  /** `results.poseLandmarks`: absent, or MediaPipe's full list of 33 points. */
  predicate FrameOk(pose: Option<seq<Landmark>>) {
    pose.Some? ==> |pose.value| == LandmarkCount
  }

  /** Every x mirrored to 1 - x, as a laterally flipped camera would report it. */
  function Mirror(lms: seq<Landmark>): (m: seq<Landmark>)
    ensures |m| == |lms|
    ensures forall i :: 0 <= i < |lms| ==> m[i] == lms[i].(x := 1.0 - lms[i].x)
  {
    seq(|lms|, i requires 0 <= i < |lms| => lms[i].(x := 1.0 - lms[i].x))
  }

  function Sq(a: real): real { a * a }

  /** Square of `Math.hypot(-(a.x - b.x), a.y - b.y)`. */
  function Dist2(a: Landmark, b: Landmark): real {
    Sq(-(a.x - b.x)) + Sq(a.y - b.y)
  }

  // ---------------------------------------------------------------- hands joined

  /**
   * `checkHandsJoined(results)`. `wristDistance < elbowDistance * 0.8` is decided on
   * squared distances (both sides are non-negative), see HandsJoinedByDistance.
   */
  function CheckHandsJoined(pose: Option<seq<Landmark>>): (r: bool)
    requires FrameOk(pose)
    ensures pose.None? ==> !r
    ensures pose.Some? && pose.value[LeftWrist].visibility < 0.2 ==> !r
    ensures pose.Some? && pose.value[RightWrist].visibility < 0.2 ==> !r
    ensures r ==> Abs(pose.value[LeftWrist].y - pose.value[RightWrist].y) < 0.1
  {
    match pose
    case None => false
    case Some(lms) =>
      var leftWrist, rightWrist := lms[LeftWrist], lms[RightWrist];
      var leftElbow, rightElbow := lms[LeftElbow], lms[RightElbow];
      if leftWrist.visibility < 0.2 || rightWrist.visibility < 0.2 then false
      else
        var isDistanceClose := Dist2(leftWrist, rightWrist) < Sq(0.8) * Dist2(leftElbow, rightElbow);
        var isHeightSimilar := Abs(leftWrist.y - rightWrist.y) < 0.1;
        isDistanceClose && isHeightSimilar
  }

  /** For non-negative a and b, a < b exactly when a*a < b*b. */
  lemma SquareMonotone(a: real, b: real)
    requires a >= 0.0 && b >= 0.0
    ensures a < b <==> Sq(a) < Sq(b)
  {
    if a < b {
      var lo, mid, hi := a * a, a * b, b * b;
      assert lo <= mid;
      assert mid < hi;
    } else {
      var lo, mid, hi := b * b, b * a, a * a;
      assert lo <= mid;
      assert mid <= hi;
    }
  }

  /**
   * With the true Euclidean distances (the values `Math.hypot` computes), the
   * classifier is exactly the source's test: both wrists visible enough,
   * wristDistance < 0.8 * elbowDistance and a height gap under 0.1.
   */
  lemma HandsJoinedByDistance(lms: seq<Landmark>, wristDistance: real, elbowDistance: real)
    requires |lms| == LandmarkCount
    requires wristDistance >= 0.0 && Sq(wristDistance) == Dist2(lms[LeftWrist], lms[RightWrist])
    requires elbowDistance >= 0.0 && Sq(elbowDistance) == Dist2(lms[LeftElbow], lms[RightElbow])
    ensures CheckHandsJoined(Some(lms)) <==>
      lms[LeftWrist].visibility >= 0.2 && lms[RightWrist].visibility >= 0.2
      && wristDistance < elbowDistance * 0.8
      && Abs(lms[LeftWrist].y - lms[RightWrist].y) < 0.1
  {
    SquareMonotone(wristDistance, elbowDistance * 0.8);
    assert Sq(elbowDistance * 0.8) == Sq(0.8) * Sq(elbowDistance);
  }

  /** The hands-joined test does not depend on whether the camera image is flipped. */
  lemma MirrorHandsJoined(lms: seq<Landmark>)
    requires |lms| == LandmarkCount
    ensures CheckHandsJoined(Some(Mirror(lms))) == CheckHandsJoined(Some(lms))
  {
  }

  // ---------------------------------------------------------------- knee angle

  datatype Vector = Vector(x: real, y: real)

  function Len2(v: Vector): real { v.x * v.x + v.y * v.y }

  /** knee -> hip, with |dx| to neutralise mirroring. */
  function HipVector(lms: seq<Landmark>): Vector
    requires |lms| == LandmarkCount
  {
    Vector(Abs(lms[RightHip].x - lms[RightKnee].x), lms[RightHip].y - lms[RightKnee].y)
  }

  /** knee -> ankle, with |dx| to neutralise mirroring. */
  function AnkleVector(lms: seq<Landmark>): Vector
    requires |lms| == LandmarkCount
  {
    Vector(Abs(lms[RightAnkle].x - lms[RightKnee].x), lms[RightAnkle].y - lms[RightKnee].y)
  }

  /** Hip, knee and ankle seen with visibility >= 0.3 and both knee vectors of non-zero length. */
  predicate Measurable(lms: seq<Landmark>)
    requires |lms| == LandmarkCount
  {
    lms[RightHip].visibility >= 0.3 && lms[RightKnee].visibility >= 0.3
    && lms[RightAnkle].visibility >= 0.3
    && Len2(HipVector(lms)) != 0.0 && Len2(AnkleVector(lms)) != 0.0
  }

  const SmoothFactor := 0.3

  /**
   * Exponential smoothing of `calculateKneeAngle`: a stored angle of 0 (or none)
   * is re-seeded with the raw reading; otherwise the distance to the raw reading
   * shrinks by the factor 0.7 and the new value lies between the two.
   */
  function Smooth(lastAngle: real, rawAngle: real): (r: real)
    ensures lastAngle == 0.0 ==> r == rawAngle
    ensures lastAngle != 0.0 ==> r - rawAngle == 0.7 * (lastAngle - rawAngle)
    ensures lastAngle != 0.0 ==> (lastAngle <= r <= rawAngle || rawAngle <= r <= lastAngle)
  {
    if lastAngle == 0.0 then rawAngle
    else lastAngle * (1.0 - SmoothFactor) + rawAngle * SmoothFactor
  }

  /**
   * `calculateKneeAngle` as a transition: (new lastAngle, returned angle).
   * Without landmarks, with a hidden joint or with a zero-length vector it answers
   * 180 and keeps lastAngle; otherwise it answers the new smoothed value.
   */
  function KneeAngle(lastAngle: real, landmarks: Option<seq<Landmark>>, rawAngle: real): (r: (real, real))
    requires FrameOk(landmarks)
    ensures landmarks.None? || !Measurable(landmarks.value) ==> r == (lastAngle, 180.0)
    ensures landmarks.Some? && Measurable(landmarks.value) ==>
      r.0 == r.1 == Smooth(lastAngle, rawAngle)
    ensures 0.0 <= lastAngle <= 180.0 && 0.0 <= rawAngle <= 180.0 ==>
      0.0 <= r.0 <= 180.0 && 0.0 <= r.1 <= 180.0
  {
    match landmarks
    case None => (lastAngle, 180.0)
    case Some(lms) =>
      if !Measurable(lms) then (lastAngle, 180.0)
      else
        var s := Smooth(lastAngle, rawAngle);
        (s, s)
  }

  /** The knee vectors, hence the gate and the angle, are unchanged by mirroring. */
  lemma MirrorKneeAngle(lastAngle: real, lms: seq<Landmark>, rawAngle: real)
    requires |lms| == LandmarkCount
    ensures HipVector(Mirror(lms)) == HipVector(lms)
    ensures AnkleVector(Mirror(lms)) == AnkleVector(lms)
    ensures KneeAngle(lastAngle, Some(Mirror(lms)), rawAngle) == KneeAngle(lastAngle, Some(lms), rawAngle)
  {
  }

  /** The smoothed value after n frames that all read the same raw angle. */
  function SmoothRun(lastAngle: real, rawAngle: real, n: nat): real {
    if n == 0 then lastAngle else Smooth(SmoothRun(lastAngle, rawAngle, n - 1), rawAngle)
  }

  function Pow(b: real, n: nat): real {
    if n == 0 then 1.0 else b * Pow(b, n - 1)
  }

  /** From a positive stored angle and a constant reading, the error decays as 0.7^n. */
  lemma {:induction false} SmoothRunClosedForm(lastAngle: real, rawAngle: real, n: nat)
    requires lastAngle > 0.0 && rawAngle >= 0.0
    ensures SmoothRun(lastAngle, rawAngle, n) > 0.0
    ensures SmoothRun(lastAngle, rawAngle, n) - rawAngle == Pow(0.7, n) * (lastAngle - rawAngle)
  {
    if n > 0 {
      SmoothRunClosedForm(lastAngle, rawAngle, n - 1);
      var p := SmoothRun(lastAngle, rawAngle, n - 1);
      assert SmoothRun(lastAngle, rawAngle, n) == Smooth(p, rawAngle);
      assert Smooth(p, rawAngle) - rawAngle == 0.7 * (p - rawAngle);
      assert 0.7 * (Pow(0.7, n - 1) * (lastAngle - rawAngle)) == Pow(0.7, n) * (lastAngle - rawAngle);
    }
  }

  /** A seeded smoother (stored angle 0) holds the constant reading from the first frame on. */
  lemma {:induction false} SmoothRunSeeded(rawAngle: real, n: nat)
    requires n >= 1
    ensures SmoothRun(0.0, rawAngle, n) == rawAngle
  {
    if n > 1 {
      SmoothRunSeeded(rawAngle, n - 1);
    }
  }

  lemma {:induction false} PowBounds(n: nat)
    ensures 0.0 <= Pow(0.7, n) <= 1.0
    ensures n >= 10 ==> Pow(0.7, n) <= 0.03
  {
    if n > 0 {
      PowBounds(n - 1);
      if n > 10 {
        assert Pow(0.7, n) <= Pow(0.7, n - 1);
      } else if n == 10 {
        assert Pow(0.7, 10) == 0.0282475249;
      }
    }
  }

  /**
   * Convergence: after at least 10 frames of a constant non-negative reading, the
   * smoothed angle is within 3% of the starting error; when the start is within a
   * third of the reading, that is within 1% of the reading.
   */
  lemma SmoothConverges(lastAngle: real, rawAngle: real, n: nat)
    requires lastAngle >= 0.0 && rawAngle >= 0.0 && n >= 10
    ensures Abs(SmoothRun(lastAngle, rawAngle, n) - rawAngle) <= 0.03 * Abs(lastAngle - rawAngle)
    ensures 3.0 * Abs(lastAngle - rawAngle) <= rawAngle ==>
      Abs(SmoothRun(lastAngle, rawAngle, n) - rawAngle) <= 0.01 * rawAngle
  {
    if lastAngle == 0.0 {
      SmoothRunSeeded(rawAngle, n);
    } else {
      SmoothRunClosedForm(lastAngle, rawAngle, n);
      PowBounds(n);
      ScaledError(Pow(0.7, n), lastAngle - rawAngle);
    }
  }

  lemma ScaledError(p: real, d: real)
    requires 0.0 <= p <= 0.03
    ensures Abs(p * d) <= 0.03 * Abs(d)
  {
  }

  // ---------------------------------------------------------------- squat debounce

  /** `lastSquatState` and `squatStateCount`; undefined reads as false / 0. */
  datatype SquatState = SquatState(squatting: bool, count: nat)

  const DebounceFrames := 3

  /**
   * One reading through the debounce of `checkSquat`: from standing the flag
   * follows the reading at once; an agreeing reading never changes the flag; the
   * flag drops only when the counter of disagreeing readings reaches 3.
   */
  function Debounce(s: SquatState, reading: bool): (r: SquatState)
    ensures !s.squatting ==> r.squatting == reading
    ensures s.squatting && reading ==> r == SquatState(true, 0)
    ensures s.squatting && !r.squatting ==> s.count + 1 >= DebounceFrames && r.count == 0
    ensures s.squatting && r.squatting && !reading ==> r.count == s.count + 1
  {
    if !s.squatting then s.(squatting := reading)
    else if reading != s.squatting then
      if s.count + 1 >= DebounceFrames then SquatState(reading, 0)
      else s.(count := s.count + 1)
    else s.(count := 0)
  }

  /** The counter only runs while squatting, and never reaches 3. */
  predicate DebounceInv(s: SquatState) {
    s.count < DebounceFrames && (!s.squatting ==> s.count == 0)
  }

  /**
   * The debounce is asymmetric: rising is immediate; while squatting an agreeing
   * reading resets the counter, a disagreeing one bumps it, and the third in a row flips.
   */
  lemma DebounceLaws(s: SquatState, reading: bool)
    requires DebounceInv(s)
    ensures DebounceInv(Debounce(s, reading))
    ensures !s.squatting ==> Debounce(s, reading) == SquatState(reading, 0)
    ensures s.squatting && reading ==> Debounce(s, reading) == SquatState(true, 0)
    ensures s.squatting && !reading ==>
      Debounce(s, reading) == if s.count == 2 then SquatState(false, 0) else SquatState(true, s.count + 1)
  {
  }

  function DebounceRun(s: SquatState, readings: seq<bool>): SquatState
    decreases |readings|
  {
    if readings == [] then s else DebounceRun(Debounce(s, readings[0]), readings[1..])
  }

  /** `n` readings starting at `i` are all "standing". */
  predicate FalseRun(readings: seq<bool>, i: nat, n: nat) {
    i + n <= |readings| && forall k :: i <= k < i + n ==> !readings[k]
  }

  /** Fewer disagreeing readings than the counter still needs keep the squat. */
  lemma {:induction false} SquatHolds(s: SquatState, readings: seq<bool>)
    requires DebounceInv(s) && s.squatting
    requires FalseRun(readings, 0, |readings|) && s.count + |readings| < DebounceFrames
    ensures DebounceRun(s, readings) == SquatState(true, s.count + |readings|)
    decreases |readings|
  {
    if readings != [] {
      assert !readings[0];
      assert FalseRun(readings[1..], 0, |readings| - 1) by {
        forall k | 0 <= k < |readings| - 1 ensures !readings[1..][k] {
          assert readings[1..][k] == readings[k + 1];
        }
      }
      SquatHolds(SquatState(true, s.count + 1), readings[1..]);
    }
  }

  /** Exactly as many disagreeing readings as the counter needs end the squat. */
  lemma {:induction false} SquatEnds(s: SquatState, readings: seq<bool>)
    requires DebounceInv(s) && s.squatting
    requires FalseRun(readings, 0, |readings|) && s.count + |readings| == DebounceFrames
    ensures DebounceRun(s, readings) == SquatState(false, 0)
    decreases |readings|
  {
    assert !readings[0];
    if s.count + 1 == DebounceFrames {
      assert readings[1..] == [];
    } else {
      assert FalseRun(readings[1..], 0, |readings| - 1) by {
        forall k | 0 <= k < |readings| - 1 ensures !readings[1..][k] {
          assert readings[1..][k] == readings[k + 1];
        }
      }
      SquatEnds(SquatState(true, s.count + 1), readings[1..]);
    }
  }

  /**
   * A squat can only end after a run of disagreeing readings: either the ones the
   * counter still needs at the very start, or three in a row somewhere.
   */
  lemma {:induction false} SquatEndNeedsRun(s: SquatState, readings: seq<bool>)
    requires DebounceInv(s) && s.squatting
    requires !DebounceRun(s, readings).squatting
    ensures FalseRun(readings, 0, DebounceFrames - s.count)
         || exists i: nat :: FalseRun(readings, i, DebounceFrames)
    decreases |readings|
  {
    var rest := readings[1..];
    var next := Debounce(s, readings[0]);
    assert DebounceRun(s, readings) == DebounceRun(next, rest);
    if readings[0] && next.squatting {
      SquatEndNeedsRun(next, rest);
      var i: nat;
      if FalseRun(rest, 0, DebounceFrames) {
        i := 0;
      } else {
        i :| FalseRun(rest, i, DebounceFrames);
      }
      assert FalseRun(readings, i + 1, DebounceFrames) by {
        forall k | i + 1 <= k < i + 1 + DebounceFrames ensures !readings[k] {
          assert readings[k] == rest[k - 1];
        }
      }
    } else if next.squatting {
      SquatEndNeedsRun(next, rest);
      if FalseRun(rest, 0, DebounceFrames - next.count) {
        assert FalseRun(readings, 0, DebounceFrames - s.count) by {
          forall k | 0 <= k < DebounceFrames - s.count ensures !readings[k] {
            if k > 0 { assert readings[k] == rest[k - 1]; }
          }
        }
      } else {
        var i: nat :| FalseRun(rest, i, DebounceFrames);
        assert FalseRun(readings, i + 1, DebounceFrames) by {
          forall k | i + 1 <= k < i + 1 + DebounceFrames ensures !readings[k] {
            assert readings[k] == rest[k - 1];
          }
        }
      }
    } else {
      assert FalseRun(readings, 0, DebounceFrames - s.count);
    }
  }

  /** From a settled squat, ending it needs three disagreeing readings in a row. */
  lemma SettledSquatEndNeedsThree(readings: seq<bool>)
    requires !DebounceRun(SquatState(true, 0), readings).squatting
    ensures exists i: nat :: FalseRun(readings, i, DebounceFrames)
  {
    SquatEndNeedsRun(SquatState(true, 0), readings);
  }

  // ---------------------------------------------------------------- checkSquat

  /** `angleThresholds[difficulty] || 165`. */
  function SquatThreshold(difficulty: string): (t: real)
    ensures difficulty == "easy" ==> t == 165.0
    ensures difficulty == "medium" ==> t == 150.0
    ensures difficulty == "hard" ==> t == 135.0
    ensures difficulty !in {"easy", "medium", "hard"} ==> t == 165.0
  {
    match difficulty
    case "easy" => 165.0
    case "medium" => 150.0
    case "hard" => 135.0
    case _ => 165.0
  }

  /** The classifier's whole persistent state. */
  datatype Classifier = Classifier(lastAngle: real, squat: SquatState)

  const InitialClassifier := Classifier(0.0, SquatState(false, 0))

  /**
   * `checkSquat` as a transition: (new state, answer). Without landmarks it answers
   * false and changes nothing; otherwise it smooths the knee angle, debounces the
   * reading "angle <= threshold" and answers the stored flag.
   */
  function CheckSquatSpec(c: Classifier, pose: Option<seq<Landmark>>, difficulty: string, rawAngle: real)
    : (r: (Classifier, bool))
    requires FrameOk(pose)
    ensures pose.None? ==> r == (c, false)
    ensures pose.Some? ==> r.1 == r.0.squat.squatting
    ensures pose.Some? ==>
      var k := KneeAngle(c.lastAngle, pose, rawAngle);
      r.0 == Classifier(k.0, Debounce(c.squat, k.1 <= SquatThreshold(difficulty)))
    ensures DebounceInv(c.squat) ==> DebounceInv(r.0.squat)
  {
    match pose
    case None => (c, false)
    case Some(_) =>
      var (lastAngle, kneeAngle) := KneeAngle(c.lastAngle, pose, rawAngle);
      var squat := Debounce(c.squat, kneeAngle <= SquatThreshold(difficulty));
      (Classifier(lastAngle, squat), squat.squatting)
  }

  /** A frame the knee gate rejects reads as standing, so it never starts a squat. */
  lemma GatedFrameNeverStartsSquat(c: Classifier, lms: seq<Landmark>, difficulty: string, rawAngle: real)
    requires |lms| == LandmarkCount && !Measurable(lms) && !c.squat.squatting
    ensures !CheckSquatSpec(c, Some(lms), difficulty, rawAngle).1
    ensures CheckSquatSpec(c, Some(lms), difficulty, rawAngle).0.lastAngle == c.lastAngle
  {
  }

  /** The per-player classifier object with its three persistent fields. */
  class PoseDetection {
    var lastAngle: real
    var lastSquatState: bool
    var squatStateCount: nat

    function State(): Classifier
      reads this
    {
      Classifier(lastAngle, SquatState(lastSquatState, squatStateCount))
    }

    ghost predicate Valid()
      reads this
    {
      DebounceInv(State().squat)
    }

    /** The gameplay fields start out undefined, which the source reads as 0 / false. */
    constructor ()
      ensures State() == InitialClassifier && Valid()
    {
      lastAngle := 0.0;
      lastSquatState := false;
      squatStateCount := 0;
    }

    /** `calculateKneeAngle(landmarks)`, with the arccosine reading supplied as rawAngle. */
    method CalculateKneeAngle(landmarks: Option<seq<Landmark>>, rawAngle: real) returns (angle: real)
      requires FrameOk(landmarks)
      modifies this`lastAngle
      ensures (lastAngle, angle) == KneeAngle(old(lastAngle), landmarks, rawAngle)
    {
      if landmarks.None? {
        return 180.0;
      }
      var lms := landmarks.value;
      var hip, knee, ankle := lms[RightHip], lms[RightKnee], lms[RightAnkle];
      if hip.visibility < 0.3 || knee.visibility < 0.3 || ankle.visibility < 0.3 {
        return 180.0;
      }
      var vector1 := Vector(Abs(hip.x - knee.x), hip.y - knee.y);
      var vector2 := Vector(Abs(ankle.x - knee.x), ankle.y - knee.y);
      if Len2(vector1) == 0.0 || Len2(vector2) == 0.0 {
        return 180.0;
      }
      if lastAngle == 0.0 {
        lastAngle := rawAngle;
      } else {
        lastAngle := lastAngle * (1.0 - SmoothFactor) + rawAngle * SmoothFactor;
      }
      angle := lastAngle;
    }

    /** `checkSquat(results, difficulty)`. */
    method CheckSquat(pose: Option<seq<Landmark>>, difficulty: string, rawAngle: real) returns (squatting: bool)
      requires FrameOk(pose) && Valid()
      modifies this
      ensures Valid()
      ensures (State(), squatting) == CheckSquatSpec(old(State()), pose, difficulty, rawAngle)
    {
      if pose.None? {
        return false;
      }
      var kneeAngle := CalculateKneeAngle(pose, rawAngle);
      var threshold := SquatThreshold(difficulty);
      if !lastSquatState {
        lastSquatState := kneeAngle <= threshold;
      } else {
        var newState := kneeAngle <= threshold;
        if newState != lastSquatState {
          squatStateCount := squatStateCount + 1;
          if squatStateCount >= DebounceFrames {
            lastSquatState := newState;
            squatStateCount := 0;
          }
        } else {
          squatStateCount := 0;
        }
      }
      squatting := lastSquatState;
    }
  }
}
