/** Rounding of reals to integers. */
module Rounding {
  function Abs(x: real): real { if x < 0.0 then -x else x }

  /** `lrint` in the default rounding mode: to the nearest integer, ties to even. */
  function RoundHalfEven(x: real): (n: int)
    ensures Abs(x - n as real) <= 0.5
    ensures Abs(x - n as real) == 0.5 ==> n % 2 == 0
  {
    var f := x.Floor;
    var d := x - f as real;
    if d < 0.5 || (d == 0.5 && f % 2 == 0) then f else f + 1
  }

  /** Rounding to the nearest integer, ties away from zero, as av_rescale_q does. */
  function RoundHalfAway(x: real): (n: int)
    ensures Abs(x - n as real) <= 0.5
    ensures Abs(x - n as real) == 0.5 ==> Abs(n as real) > Abs(x)
    ensures x == x.Floor as real ==> n == x.Floor
  {
    if x >= 0.0 then (x + 0.5).Floor else -((0.5 - x).Floor)
  }

  lemma RoundHalfEvenAtLeast(x: real, n: int)
    requires x >= n as real
    ensures RoundHalfEven(x) >= n
  {
  }
}
