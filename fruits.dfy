/**
 * The falling-object model of fruit.js: a projectile spawned at the bottom
 * edge, moved by one explicit Euler step per frame, with a box hit test.
 * Positions and speeds are reals (an exact idealisation of JavaScript numbers);
 * the two `Math.random()` draws and `window.innerWidth/innerHeight` are parameters.
 */
module Fruits {
  import opened Common

  /** Size of a fruit sprite: `Math.floor(120 * Math.min(innerWidth, innerHeight) / 1000)`. */
  function FruitSize(innerWidth: int, innerHeight: int): (r: int)
    ensures var m := Min(innerWidth, innerHeight) as real;
      r as real <= 120.0 * (m / 1000.0) < r as real + 1.0
    ensures innerWidth >= 0 && innerHeight >= 0 ==> 0 <= r && 1000 * r <= 120 * Min(innerWidth, innerHeight)
  {
    (120.0 * (Min(innerWidth, innerHeight) as real / 1000.0)).Floor
  }

  /** `fruitImages[Math.floor(Math.random() * fruitImages.length)]`, as an index. */
  function ImageIndex(draw: real, imageCount: nat): (r: int)
    ensures 0.0 <= draw < 1.0 && imageCount > 0 ==> 0 <= r < imageCount
  {
    var scaled := draw * imageCount as real;
    assert 0.0 <= draw < 1.0 && imageCount > 0 ==> 0.0 <= scaled < imageCount as real by {
      if 0.0 <= draw < 1.0 && imageCount > 0 {
        ScaleBelowOne(draw, imageCount as real);
      }
    }
    scaled.Floor
  }

  /** `Math.random() * (range * 2) + (noseX - range)`: the spawn column. */
  function SpawnX(noseX: real, spawnPositionRange: real, draw: real): (x: real)
    ensures 0.0 <= draw < 1.0 && spawnPositionRange > 0.0 ==>
      noseX - spawnPositionRange <= x < noseX + spawnPositionRange
    ensures spawnPositionRange == 0.0 ==> x == noseX
  {
    var offset := draw * (spawnPositionRange * 2.0);
    OffsetBounds(draw, spawnPositionRange);
    offset + (noseX - spawnPositionRange)
  }

  lemma OffsetBounds(draw: real, range: real)
    ensures 0.0 <= draw < 1.0 && range > 0.0 ==> 0.0 <= draw * (range * 2.0) < range * 2.0
    ensures range == 0.0 ==> draw * (range * 2.0) == 0.0
  {
  }

  lemma ScaleBelowOne(draw: real, k: real)
    requires 0.0 <= draw < 1.0 && k > 0.0
    ensures 0.0 <= draw * k < k
  {
  }

  /** The value view of a fruit object: every field of the JavaScript `Fruit`. */
  datatype FruitState = FruitState(
    image: int, width: int, height: int,
    x: real, y: real, speedY: real, gravity: real)

  /** State of a fruit just built by the constructor. */
  function SpawnState(noseX: real, spawnPositionRange: real, screenHeight: real, imageCount: nat,
                      initialSpeed: real, gravity: real, innerWidth: int, innerHeight: int,
                      imageDraw: real, xDraw: real): (s: FruitState)
    ensures s.y == screenHeight && s.speedY == -initialSpeed && s.gravity == gravity
    ensures s.width == s.height == FruitSize(innerWidth, innerHeight)
    ensures s.x == SpawnX(noseX, spawnPositionRange, xDraw)
    ensures s.image == ImageIndex(imageDraw, imageCount)
  {
    var size := FruitSize(innerWidth, innerHeight);
    FruitState(ImageIndex(imageDraw, imageCount), size, size,
               SpawnX(noseX, spawnPositionRange, xDraw), screenHeight, -initialSpeed, gravity)
  }

  /**
   * One frame of `update()`: gravity is applied to the speed first, and the
   * position then moves by the new speed; no other field changes.
   */
  function Advance(s: FruitState): (r: FruitState)
    ensures r.speedY == s.speedY + s.gravity && r.y == s.y + r.speedY
    ensures r.(speedY := s.speedY, y := s.y) == s
  {
    var v := s.speedY + s.gravity;
    s.(speedY := v, y := s.y + v)
  }

  /** The state after `n` frames. */
  function Flight(s: FruitState, n: nat): FruitState {
    if n == 0 then s else Advance(Flight(s, n - 1))
  }

  /**
   * Closed form of the trajectory: after n updates from a spawn at height h with
   * launch speed v0, speedY = -v0 + n*g and y = h - n*v0 + g*n*(n+1)/2; nothing else moves.
   */
  lemma {:induction false} FlightClosedForm(s: FruitState, n: nat)
    ensures var t := Flight(s, n); var k := n as real;
      t.speedY == s.speedY + k * s.gravity
      && t.y == s.y + k * s.speedY + s.gravity * k * (k + 1.0) / 2.0
      && t.x == s.x && t.width == s.width && t.height == s.height
      && t.gravity == s.gravity && t.image == s.image
  {
    if n > 0 {
      FlightClosedForm(s, n - 1);
      var k := (n - 1) as real;
      assert s.gravity * (k + 1.0) * (k + 2.0) / 2.0
          == s.gravity * k * (k + 1.0) / 2.0 + (k + 1.0) * s.gravity;
    }
  }

  /** A fruit object; `update` moves it in place. */
  class Fruit {
    var image: int
    var width: int
    var height: int
    var x: real
    var y: real
    var speedY: real
    var gravity: real

    function State(): FruitState
      reads this
    {
      FruitState(image, width, height, x, y, speedY, gravity)
    }

    /**
     * `new Fruit(noseX, spawnPositionRange, screenHeight, fruitImages, initialSpeed, gravity)`,
     * with the image list reduced to its length and the two random draws explicit.
     */
    constructor (noseX: real, spawnPositionRange: real, screenHeight: real, imageCount: nat,
                 initialSpeed: real, gravity: real, innerWidth: int, innerHeight: int,
                 imageDraw: real, xDraw: real)
      ensures State() == SpawnState(noseX, spawnPositionRange, screenHeight, imageCount,
                                    initialSpeed, gravity, innerWidth, innerHeight, imageDraw, xDraw)
    {
      image := ImageIndex(imageDraw, imageCount);
      var screenRatio := Min(innerWidth, innerHeight) as real / 1000.0;
      width := (120.0 * screenRatio).Floor;
      height := (120.0 * screenRatio).Floor;
      x := xDraw * (spawnPositionRange * 2.0) + (noseX - spawnPositionRange);
      y := screenHeight;
      speedY := -initialSpeed;
      this.gravity := gravity;
    }

    /** `update()`: one Euler step; answers whether the fruit is still above the bottom edge. */
    method Update(innerHeight: real) returns (inView: bool)
      modifies this
      ensures State() == Advance(old(State()))
      ensures speedY == old(speedY) + gravity && y == old(y) + speedY
      ensures inView <==> y <= innerHeight
    {
      speedY := speedY + gravity;
      y := y + speedY;
      inView := y <= innerHeight;
    }

    /** `checkCollision(px, py)`: inclusive box of half-extents width/2, height/2 around (x, y). */
    predicate CheckCollision(px: real, py: real)
      reads this
      ensures CheckCollision(px, py) <==>
        Abs(px - x) <= width as real / 2.0 && Abs(py - y) <= height as real / 2.0
    {
      px >= x - width as real / 2.0 && px <= x + width as real / 2.0
      && py >= y - height as real / 2.0 && py <= y + height as real / 2.0
    }
  }
}
