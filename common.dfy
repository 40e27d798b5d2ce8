/** Small value helpers shared by every module of the model. */
module Common {

  /** A value that may be absent: JavaScript's `undefined` / missing property. */
  datatype Option<+T> = None | Some(value: T)

  /** Absolute value on reals (JavaScript's `Math.abs`). */
  function Abs(x: real): (r: real)
    ensures r >= 0.0
    ensures r == x || r == -x
  {
    if x < 0.0 then -x else x
  }

  /** `Math.min` on integers. */
  function Min(a: int, b: int): (r: int)
    ensures r <= a && r <= b
    ensures r == a || r == b
  {
    if a <= b then a else b
  }

  /** `Math.min(Math.max(v, lo), hi)`, the clamp used when the canvas is resized. */
  function Clamp(v: real, lo: real, hi: real): (r: real)
    ensures lo <= hi ==> lo <= r <= hi
    ensures lo <= v <= hi ==> r == v
  {
    var m := if v >= lo then v else lo;
    if m <= hi then m else hi
  }
}
