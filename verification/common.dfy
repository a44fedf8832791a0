/** Shared vocabulary of the dashboard model: optional values, the two
    injected numeric sources (the browser's uniform noise and the sine
    function), and the `max(lo, min(x, hi))` clamp that the detail chart and
    the tour tooltip both use. */
module Common {

  datatype Option<+T> = None | Some(value: T)

  /** A value returned by one call of the uniform noise source: [0, 1). */
  type Unit = r: real | 0.0 <= r < 1.0 witness 0.0

  /** A value of the sine function: [-1, 1]. */
  type Wave = w: real | -1.0 <= w <= 1.0 witness 0.0

  /** `Math.max(lo, Math.min(x, hi))`. When the window is empty (hi < lo) the
      lower bound wins, exactly as the nested max/min does. */
  function Clamp(lo: real, hi: real, x: real): (r: real)
    ensures lo <= r
    ensures lo <= hi ==> r <= hi
    ensures lo <= x <= hi ==> r == x
    ensures x < lo ==> r == lo
    ensures lo <= hi && hi < x ==> r == hi
  {
    var capped := if x < hi then x else hi;
    if lo < capped then capped else lo
  }

  /** Clamping a value twice into the same window changes nothing the
      second time, even when the window is empty. */
  lemma ClampIdempotent(lo: real, hi: real, x: real)
    ensures Clamp(lo, hi, Clamp(lo, hi, x)) == Clamp(lo, hi, x)
  {
  }
}
