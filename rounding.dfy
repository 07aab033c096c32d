/** Python's built-in `round` on a number, which rounds to the nearest
    integer and breaks ties towards the even neighbour ("banker's rounding"). */
module Rounding {

  /** `round(v)`: the nearest integer, ties going to the even one. The two
      ensures clauses determine the result (see RoundHalfEvenUnique). */
  function RoundHalfEven(v: real): (r: int)
    ensures v - 0.5 <= r as real <= v + 0.5
    ensures (r as real - v == 0.5 || v - r as real == 0.5) ==> r % 2 == 0
  {
    var f := v.Floor;
    var frac := v - f as real;
    if frac < 0.5 then f
    else if frac > 0.5 then f + 1
    else if f % 2 == 0 then f else f + 1
  }

  /** Any integer within half a unit of `v` that is even whenever it sits
      exactly half a unit away is the rounded value. */
  lemma RoundHalfEvenUnique(v: real, n: int)
    requires v - 0.5 <= n as real <= v + 0.5
    requires (n as real - v == 0.5 || v - n as real == 0.5) ==> n % 2 == 0
    ensures n == RoundHalfEven(v)
  {
  }

  /** Rounding never reverses the order of two values. */
  lemma RoundHalfEvenMonotone(a: real, b: real)
    requires a <= b
    ensures RoundHalfEven(a) <= RoundHalfEven(b)
  {
  }
}
