/**
 * JavaScript numbers as the dashboard meets them.  Finite values are exact
 * reals (floating-point rounding is not modelled); NaN and the two
 * infinities appear only where a division or a parse can produce them.
 */
module Numbers {

  datatype Num = Finite(value: real) | NaN | PosInf | NegInf

  /** `a / b` for finite operands, with IEEE results for a zero divisor. */
  function Div(a: real, b: real): (r: Num)
    ensures r.Finite? <==> b != 0.0
    ensures r.Finite? ==> r.value * b == a
    ensures r.NaN? <==> a == 0.0 && b == 0.0
    ensures r.PosInf? <==> a > 0.0 && b == 0.0
  {
    if b != 0.0 then Finite(a / b)
    else if a > 0.0 then PosInf
    else if a < 0.0 then NegInf
    else NaN
  }

  /** `x * c` for a finite, positive constant `c`. */
  function Scale(x: Num, c: real): (r: Num)
    requires c > 0.0
    ensures r.Finite? <==> x.Finite?
    ensures r.NaN? <==> x.NaN?
    ensures x.Finite? ==> r.value == x.value * c
  {
    match x
    case Finite(v) => Finite(v * c)
    case _ => x
  }

  /** `x < c`: every comparison with NaN is false. */
  predicate Less(x: Num, c: real) {
    match x
    case Finite(v) => v < c
    case NegInf => true
    case _ => false
  }

  /** `x >= c`. */
  predicate AtLeast(x: Num, c: real) {
    match x
    case Finite(v) => v >= c
    case PosInf => true
    case _ => false
  }

  /** `x > c`. */
  predicate Greater(x: Num, c: real) {
    match x
    case Finite(v) => v > c
    case PosInf => true
    case _ => false
  }

  /** `x <= c`. */
  predicate AtMost(x: Num, c: real) {
    match x
    case Finite(v) => v <= c
    case NegInf => true
    case _ => false
  }

  /** `Math.ceil(a / b)` for integers and a positive divisor. */
  function CeilDiv(a: int, b: int): (q: int)
    requires b > 0
    ensures (q - 1) * b < a <= q * b
  {
    var f := (-a) / b;
    assert f * b <= -a < (f + 1) * b;
    -f
  }

  /** `Math.max(a, b)` on integers. */
  function Max(a: int, b: int): (m: int)
    ensures m >= a && m >= b && (m == a || m == b)
  {
    if a >= b then a else b
  }

  /** `Math.min(a, b)` on reals. */
  function MinReal(a: real, b: real): (m: real)
    ensures m <= a && m <= b && (m == a || m == b)
  {
    if a <= b then a else b
  }
}
