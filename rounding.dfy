/** Python's `round(x, 2)`, taken on exact reals instead of IEEE doubles. */
module Rounding {

  /** The number of hundredths nearest to `x`; a tie goes to the even neighbour,
      as Python's `round` does. */
  function Hundredths(x: real): (h: int)
    ensures -0.5 <= 100.0 * x - h as real <= 0.5
    ensures (100.0 * x - h as real == 0.5 || 100.0 * x - h as real == -0.5) ==> h % 2 == 0
  {
    var scaled := 100.0 * x;
    var f := scaled.Floor;
    var frac := scaled - f as real;
    if frac < 0.5 then f
    else if frac > 0.5 then f + 1
    else if f % 2 == 0 then f
    else f + 1
  }

  /** `round(x, 2)`: the value within half a hundredth of `x` that is a whole
      number of hundredths (see `Hundredths`). */
  function Round2(x: real): (r: real)
    ensures -0.005 <= r - x <= 0.005
  {
    Hundredths(x) as real / 100.0
  }

  /** Rounding a rounded value changes nothing. */
  lemma Round2Idempotent(x: real)
    ensures Round2(Round2(x)) == Round2(x)
  {
    var h := Hundredths(x);
    assert 100.0 * Round2(x) == h as real;
    assert Hundredths(Round2(x)) == h;
  }
}
