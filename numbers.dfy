/**
  The two kinds of number the calculator handles: a Python `int` and a Python
  `float`. The tag records which kind a value is; it is observable, because
  `print` shows an `int` without a decimal point and a `float` with one.

  A `float` payload is modelled as an exact `real`: rounding, overflow to
  infinity and NaN are not part of this model.
*/
module Numbers {

  datatype Num = IntN(i: int) | FloatN(f: real)
  {
    /** The mathematical value, the one Python's `==` compares across the two kinds. */
    function Value(): real
    {
      match this
      case IntN(i) => i as real
      case FloatN(f) => f
    }

    /** Python's unary minus: keeps the kind and negates the value. */
    function Negate(): (r: Num)
      ensures r.IntN? <==> IntN?
      ensures r.Value() == -Value()
    {
      match this
      case IntN(i) => IntN(-i)
      case FloatN(f) => FloatN(-f)
    }
  }
}
