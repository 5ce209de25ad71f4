/** Values of the JavaScript runtime that the stress tester's results carry:
    optional values (`undefined`/`null` or a missing response) and the
    IEEE results of a division, which may be NaN or an infinity. */
module JsValues {

  /** A value that may be absent: a missing response, `null`, or an
      argument left `undefined` so that its default applies. */
  datatype Option<+T> = None | Some(value: T) {
    /** The value, or `default` when absent (a JavaScript default parameter). */
    function GetOr(default: T): (r: T)
      ensures Some? ==> r == value
      ensures None? ==> r == default
    {
      match this
      case Some(v) => v
      case None => default
    }
  }

  /** The result of JavaScript's `/` on numbers, on exact reals.
      Negative zero is not distinguished from zero. */
  datatype JsNumber = Finite(value: real) | NaN | PosInfinity | NegInfinity

  /** `a / b` as JavaScript evaluates it: division by zero gives NaN for
      0/0 and an infinity carrying the dividend's sign otherwise. */
  function Divide(a: real, b: real): (r: JsNumber)
    ensures r.Finite? <==> b != 0.0
    ensures r.Finite? ==> r.value * b == a
    ensures r == NaN <==> a == 0.0 && b == 0.0
    ensures r == PosInfinity <==> a > 0.0 && b == 0.0
  {
    if b != 0.0 then Finite(a / b)
    else if a == 0.0 then NaN
    else if a > 0.0 then PosInfinity
    else NegInfinity
  }

  /** `n * k` for a positive constant `k`: NaN and the infinities are kept. */
  function ScaleBy(n: JsNumber, k: real): (r: JsNumber)
    requires k > 0.0
    ensures r.Finite? <==> n.Finite?
    ensures r.Finite? ==> r.value == n.value * k
    ensures !n.Finite? ==> r == n
  {
    match n
    case Finite(v) => Finite(v * k)
    case _ => n
  }
}
