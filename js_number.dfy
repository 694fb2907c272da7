/**
  JavaScript number values as the gesture engine sees them.

  The engine never inspects the bits of a float: what matters is whether a value
  is a finite number, NaN, one of the two infinities, or one of the two
  non-numbers `null` and `undefined` that JavaScript arithmetic coerces. Finite
  values carry an exact real; rounding is not modelled.
 */
module JsNumber {

  datatype Num = Finite(v: real) | NaN | PosInf | NegInf | Null | Undefined

  const Zero: Num := Finite(0.0)
  const One: Num := Finite(1.0)

  /** A value of JavaScript's Number type (not null, not undefined). */
  predicate IsNumeric(n: Num) {
    !n.Null? && !n.Undefined?
  }

  /** ECMAScript ToNumber restricted to these values: null becomes +0, undefined becomes NaN. */
  function ToNumber(n: Num): (r: Num)
    ensures IsNumeric(r)
    ensures IsNumeric(n) ==> r == n
    ensures n == Null ==> r == Zero
  {
    match n
    case Null => Zero
    case Undefined => NaN
    case _ => n
  }

  /** The global `isNaN`, which coerces its argument first. */
  function IsNaN(n: Num): (b: bool)
    ensures b <==> n == NaN || n == Undefined
  {
    ToNumber(n) == NaN
  }

  /** Unary minus on a number. */
  function Negate(x: Num): (r: Num)
    requires IsNumeric(x)
    ensures IsNumeric(r)
    ensures x.Finite? <==> r.Finite?
    ensures x.Finite? ==> r.v == -x.v
  {
    match x
    case Finite(a) => Finite(-a)
    case PosInf => NegInf
    case NegInf => PosInf
    case _ => NaN
  }

  /** IEEE-754 addition of two numbers, without rounding or overflow. */
  function Add(x: Num, y: Num): (r: Num)
    requires IsNumeric(x) && IsNumeric(y)
    ensures IsNumeric(r)
    ensures x.Finite? && y.Finite? ==> r == Finite(x.v + y.v)
    ensures x == NaN || y == NaN ==> r == NaN
    ensures r.Finite? ==> x.Finite? && y.Finite?
  {
    if x == NaN || y == NaN then NaN
    else if x == PosInf then (if y == NegInf then NaN else PosInf)
    else if x == NegInf then (if y == PosInf then NaN else NegInf)
    else if y == PosInf || y == NegInf then y
    else Finite(x.v + y.v)
  }

  /** The binary `-` operator: both operands go through ToNumber, then IEEE subtraction. */
  function Sub(a: Num, b: Num): (r: Num)
    ensures IsNumeric(r)
    ensures IsNaN(a) || IsNaN(b) ==> r == NaN
    ensures ToNumber(a).Finite? && ToNumber(b).Finite? ==> r == Finite(ToNumber(a).v - ToNumber(b).v)
    ensures r.Finite? ==> ToNumber(a).Finite? && ToNumber(b).Finite?
    ensures b.Finite? && (a == PosInf || a == NegInf) ==> r == a
  {
    Add(ToNumber(a), Negate(ToNumber(b)))
  }

  /** A number that is not below zero, or NaN, or +Infinity: what a distance can be. */
  predicate NonNegativeOrNaN(n: Num) {
    n == NaN || n == PosInf || (n.Finite? && n.v >= 0.0)
  }

  /**
    The binary `/` operator: ToNumber on both operands, then IEEE division.
    A zero divisor is taken to be +0 (signed zero is not modelled).
   */
  function Div(a: Num, b: Num): (r: Num)
    ensures IsNumeric(r)
    ensures IsNaN(a) || IsNaN(b) ==> r == NaN
    ensures ToNumber(a).Finite? && ToNumber(b).Finite? && ToNumber(b).v != 0.0 ==>
              r == Finite(ToNumber(a).v / ToNumber(b).v)
    // dividing by a zero distance never yields a finite quotient
    ensures ToNumber(b) == Zero ==> !r.Finite?
    ensures NonNegativeOrNaN(a) && NonNegativeOrNaN(b) ==> NonNegativeOrNaN(r)
  {
    var x, y := ToNumber(a), ToNumber(b);
    if x == NaN || y == NaN then NaN
    else if x.Finite? && y.Finite? then
      if y.v != 0.0 then Finite(x.v / y.v)
      else if x.v == 0.0 then NaN
      else if x.v > 0.0 then PosInf
      else NegInf
    else if x.Finite? then Zero
    else if y.Finite? then (if y.v >= 0.0 then x else Negate(x))
    else NaN
  }

  /**
    The guard in front of accepting a new gesture scale: the value is not
    +Infinity, not null, not undefined and not NaN. It lets every finite number
    through, and also -Infinity, which the guard does not name.
   */
  function ScaleAccepted(n: Num): (ok: bool)
    ensures ok <==> n.Finite? || n == NegInf
  {
    n != PosInf && n != Null && n != Undefined && !IsNaN(n)
  }
}
