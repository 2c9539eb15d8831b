/** The float32 arithmetic of the batch job, without rounding.

    A `Num` is what a float32 holds once rounding is ignored: an exact real, an
    infinity or NaN. Division and the comparisons follow IEEE 754 on those
    values. The sign of an infinity and of a zero is not tracked: with the
    non-negative counts the job reads, every infinity that arises is +Inf and
    every zero is +0.
 */
module Numbers {

  datatype Num = Finite(value: real) | Infinite | NotANumber

  /** float32(n) for an integer n, without rounding. */
  function FromInt(n: int): Num {
    Finite(n as real)
  }

  /** IEEE 754 division `a / b` on exact values. */
  function Div(a: Num, b: Num): (r: Num)
    ensures r.Finite? <==> a.Finite? && (b.Infinite? || (b.Finite? && b.value != 0.0))
    ensures r.NotANumber? <==>
              a.NotANumber? || b.NotANumber? || (a.Infinite? && b.Infinite?)
              || (a == Finite(0.0) && b == Finite(0.0))
    ensures a.Finite? && b.Finite? && b.value != 0.0 ==> r.value * b.value == a.value
    ensures a.Finite? && b.Infinite? ==> r == Finite(0.0)
  {
    match (a, b)
    case (NotANumber, _) => NotANumber
    case (_, NotANumber) => NotANumber
    case (Infinite, Infinite) => NotANumber
    case (Infinite, Finite(_)) => Infinite
    case (Finite(_), Infinite) => Finite(0.0)
    case (Finite(x), Finite(y)) =>
      if y != 0.0 then Finite(x / y)
      else if x == 0.0 then NotANumber
      else Infinite
  }

  /** IEEE 754 `a > b`: false whenever either side is NaN. */
  predicate Greater(a: Num, b: Num) {
    match (a, b)
    case (Finite(x), Finite(y)) => x > y
    case (Infinite, Finite(_)) => true
    case _ => false
  }

  /** IEEE 754 `a >= b`: false whenever either side is NaN. */
  predicate AtLeast(a: Num, b: Num) {
    match (a, b)
    case (Finite(x), Finite(y)) => x >= y
    case (Infinite, Finite(_)) => true
    case (Infinite, Infinite) => true
    case _ => false
  }

  /** On values that are not NaN, `>=` is a total order and `>` its strict part;
      NaN is comparable with nothing, not even itself. */
  lemma OrderWithoutNaN(a: Num, b: Num, c: Num)
    ensures !a.NotANumber? && !b.NotANumber? ==> (AtLeast(a, b) <==> !Greater(b, a))
    ensures AtLeast(a, b) && AtLeast(b, a) ==> a == b
    ensures AtLeast(a, b) && AtLeast(b, c) ==> AtLeast(a, c)
    ensures Greater(a, b) && AtLeast(b, c) ==> AtLeast(a, c)
    ensures a.NotANumber? ==> !AtLeast(a, b) && !AtLeast(b, a) && !Greater(a, b) && !Greater(b, a)
  {
  }
}
