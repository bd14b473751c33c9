/** Floating-point numbers over the reals: rounding and the sign of zero are not modelled. */
module Floats {
  datatype Float = Finite(r: real) | NaN | Infinite(negative: bool)

  function Negated(n: Float): Float {
    match n
    case Finite(r) => Finite(-r)
    case NaN => NaN
    case Infinite(negative) => Infinite(!negative)
  }

  function Plus(a: Float, b: Float): Float {
    match (a, b)
    case (Finite(x), Finite(y)) => Finite(x + y)
    case (Infinite(m), Infinite(n)) => if m == n then a else NaN
    case (Infinite(_), Finite(_)) => a
    case (Finite(_), Infinite(_)) => b
    case (_, _) => NaN
  }

  function Times(a: Float, b: Float): Float {
    match (a, b)
    case (Finite(x), Finite(y)) => Finite(x * y)
    case (Infinite(m), Infinite(n)) => Infinite(m != n)
    case (Infinite(m), Finite(y)) => if y == 0.0 then NaN else Infinite(m != (y < 0.0))
    case (Finite(x), Infinite(n)) => if x == 0.0 then NaN else Infinite(n != (x < 0.0))
    case (_, _) => NaN
  }

  function Over(a: Float, b: Float): Float {
    match (a, b)
    case (Finite(x), Finite(y)) =>
      if y != 0.0 then Finite(x / y) else if x == 0.0 then NaN else Infinite(x < 0.0)
    case (Infinite(m), Finite(y)) => Infinite(m != (y < 0.0))
    case (Finite(_), Infinite(_)) => Finite(0.0)
    case (_, _) => NaN
  }

  predicate Above(a: Float, b: Float) {
    match (a, b)
    case (Finite(x), Finite(y)) => x > y
    case (Infinite(m), Finite(_)) => !m
    case (Finite(_), Infinite(n)) => n
    case (Infinite(m), Infinite(n)) => !m && n
    case (_, _) => false
  }

  // ---------------------------------------------------------------- beyond the finite

  /** Which side of zero. */
  predicate BelowZero(a: Float) { a == Infinite(true) || (a.Finite? && a.r < 0.0) }

  /** Opposite infinities have no sum; otherwise an infinite summand decides. */
  lemma PlusMeans(a: Float, b: Float)
    ensures Plus(a, b) == Plus(b, a)
    ensures Plus(a, b) == NaN <==> (a == NaN || b == NaN || (a.Infinite? && b == Negated(a)))
    ensures forall n :: Plus(a, b) == Infinite(n) <==>
      (a == Infinite(n) || b == Infinite(n)) && Plus(a, b) != NaN
    ensures a.Finite? && b.Finite? ==> Plus(Plus(a, b), Negated(b)) == a
  {
  }

  /** Nothing times infinity is no number; otherwise signs multiply. */
  lemma TimesMeans(a: Float, b: Float)
    ensures Times(a, b) == Times(b, a)
    ensures Times(a, b) == NaN <==>
      (a == NaN || b == NaN || (a.Infinite? && b == Finite(0.0)) || (b.Infinite? && a == Finite(0.0)))
    ensures Times(a, b).Infinite? <==> (a.Infinite? || b.Infinite?) && Times(a, b) != NaN
    ensures a.Finite? && b.Finite? && b.r != 0.0 ==> Over(Times(a, b), b) == a
    ensures Times(a, b).Infinite? ==> (Times(a, b).negative <==> BelowZero(a) != BelowZero(b))
  {
  }

  /** A quotient times the divisor is the dividend; dividing by zero or infinity goes to the other. */
  lemma OverMeans(a: Float, b: Float)
    ensures a.Finite? && b.Finite? && b.r != 0.0 ==> Over(a, b).Finite? && Over(a, b).r * b.r == a.r
    ensures a.Finite? && b.Infinite? ==> Over(a, b) == Finite(0.0)
    ensures Over(a, b) == NaN <==>
      (a == NaN || b == NaN || (a.Infinite? && b.Infinite?) || (a == Finite(0.0) && b == Finite(0.0)))
    ensures Over(a, b).Infinite? ==> (Over(a, b).negative <==> BelowZero(a) != BelowZero(b))
  {
  }

  /** An order on all but NaN, with the finite ones between the infinities. */
  lemma AboveOrders(a: Float, b: Float, c: Float)
    ensures !(Above(a, b) && Above(b, a))
    ensures a != NaN && b != NaN ==> Above(a, b) || Above(b, a) || a == b
    ensures Above(a, b) && Above(b, c) ==> Above(a, c)
    ensures Above(a, b) ==> a != NaN && b != NaN && a != Infinite(true) && b != Infinite(false)
    ensures a.Finite? && b.Finite? ==> (Above(a, b) <==> a.r - b.r > 0.0)
  {
  }
}
