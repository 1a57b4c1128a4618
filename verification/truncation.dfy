/** Python's `int()` applied to a float: it truncates toward zero, which for
    negative non-integral values is one more than the floor. */
module Truncation {

  /** `int(x)` for a finite float `x`. */
  function PyInt(x: real): (r: int)
    ensures 0.0 <= x ==> r as real <= x < r as real + 1.0
    ensures x < 0.0 ==> r as real - 1.0 < x <= r as real
  {
    if 0.0 <= x then x.Floor else -((-x).Floor)
  }

  /** Truncation never moves away from zero and never changes the sign. */
  lemma PyIntTowardZero(x: real)
    ensures 0.0 <= x ==> 0 <= PyInt(x) && PyInt(x) as real <= x
    ensures x <= 0.0 ==> PyInt(x) <= 0 && x <= PyInt(x) as real
    ensures -1.0 < x < 1.0 ==> PyInt(x) == 0
  {
  }

  /** Truncation agrees with the floor exactly on non-negative values and on
      whole numbers. */
  lemma PyIntIsFloorIff(x: real)
    ensures PyInt(x) == x.Floor <==> 0.0 <= x || x.Floor as real == x
  {
  }

  /** -3.7 becomes -3, not -4; 15.7 becomes 15. */
  lemma PyIntExamples()
    ensures PyInt(-3.7) == -3 && (-3.7).Floor == -4
    ensures PyInt(15.7) == 15
  {
  }
}
