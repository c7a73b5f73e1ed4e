/** The interpreter's numbers are Java doubles. They are modelled as the extended reals
    with a NaN: arithmetic on finite values is exact (no rounding, no overflow to an
    infinity, no signed zero), and the infinities and NaN follow the IEEE 754 rules for
    the operations the interpreter uses. */
module Numbers {

  datatype Number = Finite(r: real) | PosInf | NegInf | NaN

  predicate IsInfinite(x: Number)
  {
    x.PosInf? || x.NegInf?
  }

  /** The sign of a non-NaN number: -1, 0 or 1. */
  function Sign(x: Number): (s: int)
    requires !x.NaN?
    ensures -1 <= s <= 1
    ensures s == 0 <==> x == Finite(0.0)
  {
    match x
    case PosInf => 1
    case NegInf => -1
    case Finite(r) => if r > 0.0 then 1 else if r < 0.0 then -1 else 0
  }

  /** The infinity with sign `s`. */
  function Infinity(s: int): (x: Number)
    requires s == 1 || s == -1
    ensures IsInfinite(x) && Sign(x) == s
  {
    if s == 1 then PosInf else NegInf
  }

  /** Unary minus. */
  function Neg(x: Number): (n: Number)
    ensures x.NaN? <==> n.NaN?
    ensures !x.NaN? ==> Sign(n) == -Sign(x)
    ensures x.Finite? <==> n.Finite?
    ensures x.Finite? ==> n.r == -x.r
  {
    match x
    case Finite(r) => Finite(-r)
    case PosInf => NegInf
    case NegInf => PosInf
    case NaN => NaN
  }

  /** `a + b`: NaN when either side is NaN or the sum is of opposite infinities; an
      infinity otherwise absorbs a finite value. */
  function Add(a: Number, b: Number): (s: Number)
    ensures s.NaN? <==> a.NaN? || b.NaN? || (IsInfinite(a) && IsInfinite(b) && a != b)
    ensures a.Finite? && b.Finite? ==> s == Finite(a.r + b.r)
    ensures IsInfinite(a) && !b.NaN? && !(IsInfinite(b) && a != b) ==> s == a
  {
    match (a, b)
    case (NaN, _) => NaN
    case (_, NaN) => NaN
    case (Finite(x), Finite(y)) => Finite(x + y)
    case (Finite(_), _) => b
    case (_, Finite(_)) => a
    case (_, _) => if a == b then a else NaN
  }

  /** `a - b`, which IEEE 754 defines as `a + (-b)`. */
  function Sub(a: Number, b: Number): (d: Number)
    ensures a.Finite? && b.Finite? ==> d == Finite(a.r - b.r)
    ensures d.NaN? <==> a.NaN? || b.NaN? || (IsInfinite(a) && a == b)
  {
    var nb := Neg(b);
    assert IsInfinite(a) && IsInfinite(nb) ==> (a != nb <==> a == b);
    Add(a, nb)
  }

  /** `a * b`: NaN when either side is NaN or an infinity meets zero; otherwise an
      infinity whose sign is the product of the signs. */
  function Mul(a: Number, b: Number): (p: Number)
    ensures p.NaN? <==> a.NaN? || b.NaN? || (IsInfinite(a) && b == Finite(0.0)) || (IsInfinite(b) && a == Finite(0.0))
    ensures a.Finite? && b.Finite? ==> p == Finite(a.r * b.r)
    ensures !p.NaN? && (IsInfinite(a) || IsInfinite(b)) ==> p == Infinity(Sign(a) * Sign(b))
  {
    if a.NaN? || b.NaN? then NaN
    else if a.Finite? && b.Finite? then Finite(a.r * b.r)
    else if Sign(a) * Sign(b) == 0 then NaN
    else Infinity(Sign(a) * Sign(b))
  }

  /** `a / b`: NaN for NaN operands, for 0 / 0 and for an infinity over an infinity; a
      non-zero finite value over zero is the infinity of its sign (zero is unsigned here,
      so it counts as +0); a finite value over an infinity is zero. */
  function Div(a: Number, b: Number): (q: Number)
    ensures q.NaN? <==> a.NaN? || b.NaN? || (a == Finite(0.0) && b == Finite(0.0)) || (IsInfinite(a) && IsInfinite(b))
    ensures a.Finite? && b.Finite? && b.r != 0.0 ==> q == Finite(a.r / b.r)
    ensures a.Finite? && a.r != 0.0 && b == Finite(0.0) ==> q == Infinity(Sign(a))
    ensures a.Finite? && IsInfinite(b) ==> q == Finite(0.0)
  {
    if a.NaN? || b.NaN? then NaN
    else if a.Finite? && b.Finite? then
      if b.r != 0.0 then Finite(a.r / b.r)
      else if a.r == 0.0 then NaN
      else Infinity(Sign(a))
    else if a.Finite? then Finite(0.0)
    else if b.Finite? then Infinity(Sign(a) * (if b.r < 0.0 then -1 else 1))
    else NaN
  }

  /** The order of the extended reals, `-inf < finite < +inf`; false whenever NaN is
      involved. */
  predicate Less(a: Number, b: Number)
  {
    match (a, b)
    case (Finite(x), Finite(y)) => x < y
    case (NegInf, Finite(_)) => true
    case (NegInf, PosInf) => true
    case (Finite(_), PosInf) => true
    case (_, _) => false
  }

  predicate LessEq(a: Number, b: Number)
  {
    !a.NaN? && !b.NaN? && (a == b || Less(a, b))
  }

  lemma NaNUnordered(x: Number)
    ensures !Less(NaN, x) && !Less(x, NaN) && !LessEq(NaN, x) && !LessEq(x, NaN)
  {
  }

  /** Apart from NaN the order is a strict total order, and `<=` is `<` or equal. */
  lemma LessIsTotalOrder(a: Number, b: Number, c: Number)
    ensures !Less(a, a)
    ensures Less(a, b) ==> !Less(b, a)
    ensures Less(a, b) && Less(b, c) ==> Less(a, c)
    ensures !a.NaN? && !b.NaN? ==> Less(a, b) || a == b || Less(b, a)
    ensures LessEq(a, b) <==> Less(a, b) || (a == b && !a.NaN?)
  {
  }

  /** Addition commutes and has zero as its unit, as in IEEE 754 (up to the sign of zero). */
  lemma AddCommutes(a: Number, b: Number)
    ensures Add(a, b) == Add(b, a)
    ensures Add(a, Finite(0.0)) == a
  {
  }

  lemma MulCommutes(a: Number, b: Number)
    ensures Mul(a, b) == Mul(b, a)
  {
  }
}
