/** JavaScript numbers as the statistics code meets them.

    Finite values are exact reals (the model does not round to IEEE-754
    doubles). What the model keeps from IEEE-754 is the special values that
    the unguarded divisions of the statistics code can produce: NaN and the
    two infinities, and how they propagate through `*`, `+` and `-`. */
module JsNumber {

  datatype Num = Finite(v: real) | NaN | Inf(negative: bool)

  /** JavaScript `a / b` for finite operands. A zero divisor is taken as +0,
      which is the only zero the statistics code divides by (a count or a
      sum of squares). */
  function Div(a: real, b: real): (q: Num)
    ensures q.Finite? <==> b != 0.0
    ensures q.Finite? ==> q.v * b == a
    ensures q.NaN? <==> a == 0.0 && b == 0.0
    ensures q.Inf? ==> q.negative == (a < 0.0)
  {
    if b != 0.0 then Finite(a / b)
    else if a == 0.0 then NaN
    else Inf(a < 0.0)
  }

  /** JavaScript `a * b`: NaN is absorbing, infinity times zero is NaN. */
  function Mul(a: Num, b: Num): (p: Num)
    ensures p.Finite? <==> a.Finite? && b.Finite?
    ensures a.NaN? || b.NaN? ==> p.NaN?
    ensures a.Finite? && b.Finite? ==> p.v == a.v * b.v
  {
    match (a, b)
    case (Finite(x), Finite(y)) => Finite(x * y)
    case (NaN, _) => NaN
    case (_, NaN) => NaN
    case (Inf(s), Finite(y)) => if y == 0.0 then NaN else Inf(s != (y < 0.0))
    case (Finite(x), Inf(s)) => if x == 0.0 then NaN else Inf(s != (x < 0.0))
    case (Inf(s), Inf(t)) => Inf(s != t)
  }

  /** JavaScript `a + b`: NaN is absorbing, opposite infinities give NaN. */
  function Add(a: Num, b: Num): (t: Num)
    ensures t.Finite? <==> a.Finite? && b.Finite?
    ensures a.NaN? || b.NaN? ==> t.NaN?
    ensures a.Finite? && b.Finite? ==> t.v == a.v + b.v
  {
    match (a, b)
    case (Finite(x), Finite(y)) => Finite(x + y)
    case (NaN, _) => NaN
    case (_, NaN) => NaN
    case (Inf(s), Finite(_)) => Inf(s)
    case (Finite(_), Inf(s)) => Inf(s)
    case (Inf(s), Inf(t)) => if s == t then Inf(s) else NaN
  }

  function Negate(a: Num): (n: Num)
    ensures n.Finite? <==> a.Finite?
    ensures n.NaN? <==> a.NaN?
    ensures a.Finite? ==> n.v == -a.v
  {
    match a
    case Finite(x) => Finite(-x)
    case NaN => NaN
    case Inf(s) => Inf(!s)
  }

  /** JavaScript `a - b`, which IEEE-754 defines as `a + (-b)`. */
  function Sub(a: Num, b: Num): (d: Num)
    ensures d.Finite? <==> a.Finite? && b.Finite?
    ensures a.NaN? || b.NaN? ==> d.NaN?
    ensures a.Finite? && b.Finite? ==> d.v == a.v - b.v
  {
    Add(a, Negate(b))
  }
}
