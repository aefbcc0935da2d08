/**
  `add`, `subtract`, `multiply` and `divide` (src/calculator.py:11-30).
  Python's mixed arithmetic decides the kind of the result: two `int`
  operands give an `int`, an `int` meeting a `float` is converted and the
  result is a `float`, and true division `/` always gives a `float`.
*/
module Arith {
  import opened Wrappers
  import opened Numbers

  /** Python's `ValueError`, carrying its message. */
  datatype ValueError = ValueError(message: string)

  const DIVIDE_BY_ZERO_MESSAGE := "Cannot divide by zero"

  /** True when both operands are `int`, the one case where `+`, `-` and `*` stay in `int`. */
  predicate BothInts(a: Num, b: Num)
  {
    a.IntN? && b.IntN?
  }

  function Add(a: Num, b: Num): (r: Num)
    ensures r.IntN? <==> BothInts(a, b)
    ensures BothInts(a, b) ==> r.i == a.i + b.i
    ensures r.Value() == a.Value() + b.Value()
  {
    if BothInts(a, b) then IntN(a.i + b.i) else FloatN(a.Value() + b.Value())
  }

  function Subtract(a: Num, b: Num): (r: Num)
    ensures r.IntN? <==> BothInts(a, b)
    ensures BothInts(a, b) ==> r.i == a.i - b.i
    ensures r.Value() == a.Value() - b.Value()
  {
    if BothInts(a, b) then IntN(a.i - b.i) else FloatN(a.Value() - b.Value())
  }

  function Multiply(a: Num, b: Num): (r: Num)
    ensures r.IntN? <==> BothInts(a, b)
    ensures BothInts(a, b) ==> r.i == a.i * b.i
    ensures r.Value() == a.Value() * b.Value()
  {
    if BothInts(a, b) then IntN(a.i * b.i) else FloatN(a.Value() * b.Value())
  }

  /** Checks for a zero divisor, of either kind, before dividing; the quotient is always a `float`. */
  function Divide(a: Num, b: Num): (r: Result<Num, ValueError>)
    ensures r.Err? <==> b.Value() == 0.0
    ensures r.Err? ==> r.error == ValueError(DIVIDE_BY_ZERO_MESSAGE)
    ensures r.Ok? ==> r.value.FloatN? && r.value.f == a.Value() / b.Value()
  {
    if b.Value() == 0.0 then Err(ValueError(DIVIDE_BY_ZERO_MESSAGE)) else Ok(FloatN(a.Value() / b.Value()))
  }

  lemma AddCommutes(a: Num, b: Num)
    ensures Add(a, b) == Add(b, a)
  {
  }

  lemma MultiplyCommutes(a: Num, b: Num)
    ensures Multiply(a, b) == Multiply(b, a)
  {
  }

  lemma SubtractAntisymmetric(a: Num, b: Num)
    ensures Subtract(a, b) == Subtract(b, a).Negate()
  {
  }

  /** Even a division with no remainder gives a `float`: `divide(6, 2) == 3.0`. */
  lemma ExactDivideIsFloat(x: int, y: int)
    requires y != 0 && x % y == 0
    ensures Divide(IntN(x), IntN(y)) == Ok(FloatN((x / y) as real))
  {
    var q := x / y;
    assert q * y == x;
    var xr, yr := x as real, y as real;
    assert (q as real) * yr == xr;
    assert xr / yr == q as real;
  }

  /**
    The addition test cases. Python's `==` compares values across kinds; these
    also fix the kind of each result.
  */
  lemma AddTestCases()
    ensures Add(IntN(2), IntN(3)) == IntN(5)
    ensures Add(IntN(-1), IntN(1)) == IntN(0)
    ensures Add(IntN(0), IntN(0)) == IntN(0)
    ensures Add(FloatN(2.5), FloatN(3.5)) == FloatN(6.0)
  {
  }

  lemma SubtractTestCases()
    ensures Subtract(IntN(5), IntN(3)) == IntN(2)
    ensures Subtract(IntN(1), IntN(1)) == IntN(0)
    ensures Subtract(IntN(0), IntN(5)) == IntN(-5)
    ensures Subtract(FloatN(5.5), FloatN(2.5)) == FloatN(3.0)
  {
  }

  /** Includes an `int` meeting a `float`: `multiply(2.5, 4) == 10.0`. */
  lemma MultiplyTestCases()
    ensures Multiply(IntN(2), IntN(3)) == IntN(6)
    ensures Multiply(IntN(0), IntN(5)) == IntN(0)
    ensures Multiply(IntN(-2), IntN(3)) == IntN(-6)
    ensures Multiply(FloatN(2.5), IntN(4)) == FloatN(10.0)
  {
  }

  /** Every quotient is a `float`, and a zero divisor is the "Cannot divide by zero" error. */
  lemma DivideTestCases()
    ensures Divide(IntN(6), IntN(2)) == Ok(FloatN(3.0))
    ensures Divide(IntN(5), IntN(2)) == Ok(FloatN(2.5))
    ensures Divide(IntN(-4), IntN(2)) == Ok(FloatN(-2.0))
    ensures Divide(IntN(0), IntN(5)) == Ok(FloatN(0.0))
    ensures Divide(IntN(5), IntN(0)) == Err(ValueError("Cannot divide by zero"))
  {
  }
}
