/**
 * The few JavaScript value semantics the table logic depends on: numbers with
 * NaN, `+` on numbers, truthiness, division by the exchange rate, and the
 * integer that `parseInt` reads back from a number.
 *
 * Numbers are exact reals: IEEE-754 rounding, infinities and -0 are not modelled.
 */
module JsValues {

  /** A JavaScript number: a finite value or NaN. */
  datatype Number = Finite(x: real) | NaN

  /** `undefined` or a value, for a property that a row may lack. */
  datatype Option<T> = None | Some(value: T)

  const Zero: Number := Finite(0.0)

  /** `a + b` on numbers: NaN on either side gives NaN. */
  function Add(a: Number, b: Number): Number
  {
    if a.Finite? && b.Finite? then Finite(Plus(a.x, b.x)) else NaN
  }

  /**
   * The sum of two finite values. It is `x + y` under a name of its own so
   * that `Add` of two literals is not evaluated to a new literal by the
   * verifier, which otherwise keeps re-applying `Add`'s definition.
   */
  function Plus(x: real, y: real): real
  {
    x + y
  }

  /** 0 is the identity of `+`, NaN included. */
  lemma AddZero(n: Number)
    ensures Add(Zero, n) == n
  {
  }

  /** `n / d` for a positive divisor: NaN stays NaN. */
  function Div(n: Number, d: real): Number
    requires d > 0.0
  {
    if n.Finite? then Finite(n.x / d) else NaN
  }

  /** JavaScript truthiness of a number: 0 and NaN are falsy, every other number is truthy. */
  predicate Truthy(n: Number)
  {
    n.Finite? && n.x != 0.0
  }

  /**
   * The integer `parseInt(String(x), 10)` reads from a finite number: its
   * decimal rendering is cut at the decimal point, so the fraction is dropped
   * toward zero.
   */
  function Truncate(x: real): (r: int)
    ensures 0.0 <= x ==> r as real <= x < r as real + 1.0
    ensures x < 0.0 ==> r as real - 1.0 < x <= r as real
  {
    if x >= 0.0 then x.Floor else -((-x).Floor)
  }
}
