/** Rounding and distance over the reals, as Python's `round` and `abs` have them. */
module Numbers {

  /** Nearest integer, ties to the even one. */
  function RoundHalfEven(x: real): int {
    var f := x.Floor;
    var frac := x - f as real;
    if frac < 0.5 then f
    else if frac > 0.5 then f + 1
    else if f % 2 == 0 then f else f + 1
  }

  function Abs(x: real): real {
    if x < 0.0 then -x else x
  }

  lemma RoundIsNearest(x: real, m: int)
    requires Abs(x - m as real) < 0.5
    ensures RoundHalfEven(x) == m
  {
    assert m <= x.Floor <= m || m - 1 <= x.Floor <= m;
  }
}
