/** Double-precision values and the arithmetic on them that is left open. */
module Doubles {
  import opened Ids
  import opened Json

  /** Zeros of either sign are one value. */
  datatype Double = Finite(r: real) | PositiveInfinity | NegativeInfinity | NotANumber

  /** Strictly less; nothing is less or greater than `NotANumber`. */
  predicate Below(a: Double, b: Double) {
    match (a, b)
    case (NotANumber, _) => false
    case (_, NotANumber) => false
    case (Finite(x), Finite(y)) => x < y
    case (NegativeInfinity, _) => !b.NegativeInfinity?
    case (PositiveInfinity, _) => false
    case (Finite(_), _) => b.PositiveInfinity?
  }

  /** `f64::max` and `f64::min`: a value that is not a number gives way to the other. */
  function Larger(a: Double, b: Double): Double {
    if a.NotANumber? then b else if b.NotANumber? then a else if Below(a, b) then b else a
  }

  function Smaller(a: Double, b: Double): Double {
    if a.NotANumber? then b else if b.NotANumber? then a else if Below(b, a) then b else a
  }

  /** JSON has no infinities and no NaN: they become null. */
  function ToValue(d: Double): Value {
    if d.Finite? then Num(Float(d.r)) else Null
  }

  /** Parsing, the rounding of integers, addition, and division by a count: with whatever rounding they have. */
  datatype Arithmetic = Arithmetic(
    parse: string -> Option<Double>,
    toF64: int -> real,
    add: (Double, Double) -> Double,
    divide: (Double, nat) -> Double)

  ghost predicate ExactAddition(m: Arithmetic) {
    forall x, y :: m.add(Finite(x), Finite(y)) == Finite(x + y)
  }

  ghost predicate ExactDivision(m: Arithmetic) {
    forall x, n: nat :: 0 < n ==> m.divide(Finite(x), n) == Finite(x / n as real)
  }

  lemma AddsExactly(m: Arithmetic, a: Double, b: Double)
    requires ExactAddition(m) && a.Finite? && b.Finite?
    ensures m.add(a, b) == Finite(a.r + b.r)
  {
    assert a == Finite(a.r) && b == Finite(b.r);
  }

  lemma DividesExactly(m: Arithmetic, a: Double, n: nat)
    requires ExactDivision(m) && a.Finite? && 0 < n
    ensures m.divide(a, n) == Finite(a.r / n as real)
  {
    assert a == Finite(a.r);
  }
}
