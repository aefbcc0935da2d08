/**
  The command line of `main` (src/calculator.py:43-96): the operation name
  restricted to four choices, the two operands converted by `parse_number`,
  the `if/elif` dispatch, and the mapping of its result to what is printed
  and to the exit code. Streams are not modelled: an outcome records the
  value `print` shows on standard output, or the message written to
  standard error, together with the exit code.
*/
module Cli {
  import opened Wrappers
  import opened Numbers
  import Decimal
  import Parser
  import Arith

  /** The closed set of `choices` of the `operation` argument. */
  datatype Operation = Add | Subtract | Multiply | Divide

  function Name(op: Operation): string
  {
    match op
    case Add => "add"
    case Subtract => "subtract"
    case Multiply => "multiply"
    case Divide => "divide"
  }

  /** argparse's `choices` check: only the four exact, case-sensitive names are accepted. */
  function ParseOperation(name: string): (r: Option<Operation>)
    ensures r.Some? <==> name in {"add", "subtract", "multiply", "divide"}
    ensures r.Some? ==> Name(r.value) == name
  {
    if name == "add" then Some(Add)
    else if name == "subtract" then Some(Subtract)
    else if name == "multiply" then Some(Multiply)
    else if name == "divide" then Some(Divide)
    else None
  }

  /** Why argparse stops before any computation. */
  datatype UsageReason = InvalidChoice(name: string) | BadOperand(error: Parser.ParseError)

  /** The `ValueError` message of `str` on an `int` beyond `Decimal.INT_MAX_STR_DIGITS` digits. */
  const STR_LIMIT_MESSAGE :=
    "Exceeds the limit (4300 digits) for integer string conversion; use sys.set_int_max_str_digits() to increase the limit"

  datatype Outcome =
    | Printed(value: Num)        // `print(result)`, return 0
    | Failed(message: string)    // a `ValueError` reported on standard error, return 1
    | UsageError(reason: UsageReason)  // argparse's usage error, before the `try`

  /** The process exit code; argparse exits with status 2 on a usage error. */
  function ExitCode(o: Outcome): (code: int)
    ensures code == 0 <==> o.Printed?
    ensures code == 1 <==> o.Failed?
  {
    match o
    case Printed(_) => 0
    case Failed(_) => 1
    case UsageError(_) => 2
  }

  /** The `if/elif` chain: each operation goes to its own function; only division can fail. */
  function Dispatch(op: Operation, a: Num, b: Num): (r: Result<Num, Arith.ValueError>)
    ensures r.Err? <==> op == Divide && b.Value() == 0.0
    ensures r.Err? ==> r.error.message == "Cannot divide by zero"
    ensures r.Ok? ==> (r.value.IntN? <==> op != Divide && a.IntN? && b.IntN?)
    ensures r.Ok? && op == Add ==> r.value.Value() == a.Value() + b.Value()
    ensures r.Ok? && op == Subtract ==> r.value.Value() == a.Value() - b.Value()
    ensures r.Ok? && op == Multiply ==> r.value.Value() == a.Value() * b.Value()
    ensures r.Ok? && op == Divide ==> r.value.Value() == a.Value() / b.Value()
  {
    match op
    case Add => Ok(Arith.Add(a, b))
    case Subtract => Ok(Arith.Subtract(a, b))
    case Multiply => Ok(Arith.Multiply(a, b))
    case Divide => Arith.Divide(a, b)
  }

  /** What `print` can show: every `float`, and every `int` whose decimal form is within the digit limit. */
  predicate Printable(n: Num)
  {
    !(n.IntN? && Decimal.ExceedsStrLimit(n.i))
  }

  /**
    The `try`/`except ValueError` around the dispatch and the `print`: a value is
    printed, and a `ValueError` from `divide` or from rendering an over-long
    `int` is reported.
  */
  function Report(r: Result<Num, Arith.ValueError>): (o: Outcome)
    ensures ExitCode(o) == 0 <==> r.Ok? && Printable(r.value)
    ensures r.Ok? && Printable(r.value) ==> o == Printed(r.value)
    ensures r.Ok? && !Printable(r.value) ==> o == Failed("Error: " + STR_LIMIT_MESSAGE)
    ensures r.Err? ==> o == Failed("Error: " + r.error.message)
  {
    match r
    case Ok(v) => if Printable(v) then Printed(v) else Failed("Error: " + STR_LIMIT_MESSAGE)
    case Err(e) => Failed("Error: " + e.message)
  }

  /**
    `main` once argparse has checked the operation name and converted both
    operands: the first bad argument is a usage error and nothing is computed;
    otherwise the dispatch runs and its result is reported.
  */
  function Evaluate(operation: string, first: Result<Num, Parser.ParseError>, second: Result<Num, Parser.ParseError>): (o: Outcome)
    ensures o.UsageError? <==> ParseOperation(operation).None? || first.Err? || second.Err?
    ensures ParseOperation(operation).None? ==> o == UsageError(InvalidChoice(operation))
    ensures ParseOperation(operation).Some? && first.Err? ==> o == UsageError(BadOperand(first.error))
    ensures ParseOperation(operation).Some? && first.Ok? && second.Err? ==> o == UsageError(BadOperand(second.error))
  {
    match ParseOperation(operation)
    case None => UsageError(InvalidChoice(operation))
    case Some(op) =>
      match first
      case Err(e) => UsageError(BadOperand(e))
      case Ok(a) =>
        match second
        case Err(e) => UsageError(BadOperand(e))
        case Ok(b) => Report(Dispatch(op, a, b))
  }

  /** One run of the program on its three arguments: operation, first, second. */
  function Run(operation: string, first: string, second: string): (o: Outcome)
    ensures o.UsageError? <==>
      ParseOperation(operation).None? || Parser.ParseNumber(first).Err? || Parser.ParseNumber(second).Err?
  {
    Evaluate(operation, Parser.ParseNumber(first), Parser.ParseNumber(second))
  }

  /**
    Exit code 0 exactly when the arguments are valid, it is not a division by
    zero, and the result can be printed.
  */
  lemma ExitCodeZeroExactlyOnSuccess(operation: string, first: Result<Num, Parser.ParseError>, second: Result<Num, Parser.ParseError>)
    ensures ExitCode(Evaluate(operation, first, second)) == 0 <==>
      && operation in {"add", "subtract", "multiply", "divide"}
      && first.Ok? && second.Ok?
      && !(operation == "divide" && second.value.Value() == 0.0)
      && Printable(Dispatch(ParseOperation(operation).value, first.value, second.value).value)
  {
  }

  /** Only an `int` result can fail to print, and only from 10^4300 in magnitude upwards. */
  lemma PrintableIffBelowLimit(n: Num)
    ensures Printable(n) <==> n.FloatN? || (if n.i < 0 then -n.i else n.i) < Decimal.Pow10(Decimal.INT_MAX_STR_DIGITS)
  {
    if n.IntN? {
      Decimal.ExceedsStrLimitIffLarge(n.i);
    }
  }

  /** Dividing by a zero of either kind prints the fixed message and exits with 1. */
  lemma DivideByZeroReported(a: Num, b: Num)
    requires b.Value() == 0.0
    ensures Evaluate("divide", Ok(a), Ok(b)) == Failed("Error: Cannot divide by zero")
    ensures ExitCode(Evaluate("divide", Ok(a), Ok(b))) == 1
  {
    var r := Dispatch(Divide, a, b);
    assert r == Err(Arith.ValueError(Arith.DIVIDE_BY_ZERO_MESSAGE));
    DivideByZeroText();
    assert ParseOperation("divide") == Some(Divide);
  }

  /** The line written to standard error for a division by zero. */
  lemma DivideByZeroText()
    ensures "Error: " + Arith.DIVIDE_BY_ZERO_MESSAGE == "Error: Cannot divide by zero"
  {
  }

  /** Once both operands parse, a run is the dispatch of the named operation, reported. */
  lemma RunOnParsedOperands(op: Operation, first: string, second: string, a: Num, b: Num)
    requires Parser.ParseNumber(first) == Ok(a) && Parser.ParseNumber(second) == Ok(b)
    ensures Run(Name(op), first, second) == Report(Dispatch(op, a, b))
  {
    assert ParseOperation(Name(op)) == Some(op);
  }

  /** Every operation name survives the `choices` check as itself. */
  lemma ParseOperationName(op: Operation)
    ensures ParseOperation(Name(op)) == Some(op)
  {
  }

  /** `add 5 3` prints the `int` 8, rendered "8". */
  lemma AddExample()
    ensures Run("add", "5", "3") == Printed(IntN(8))
    ensures ExitCode(Run("add", "5", "3")) == 0 && Decimal.ShowInt(8) == "8"
  {
    Parser.SingleDigitParses('5');
    Parser.SingleDigitParses('3');
    RunOnParsedOperands(Add, "5", "3", IntN(5), IntN(3));
    assert Name(Add) == "add";
  }

  /** `subtract 10 4` prints the `int` 6. */
  lemma SubtractExample()
    ensures Run("subtract", "10", "4") == Printed(IntN(6))
  {
    Parser.TwoDigitsParse('1', '0');
    Parser.SingleDigitParses('4');
    RunOnParsedOperands(Subtract, "10", "4", IntN(10), IntN(4));
    assert Name(Subtract) == "subtract";
  }

  /** `multiply 3 4` prints the `int` 12. */
  lemma MultiplyExample()
    ensures Run("multiply", "3", "4") == Printed(IntN(12))
  {
    Parser.SingleDigitParses('3');
    Parser.SingleDigitParses('4');
    RunOnParsedOperands(Multiply, "3", "4", IntN(3), IntN(4));
    assert Name(Multiply) == "multiply";
  }

  /** `divide 15 3` prints the `float` 5.0, although both operands are `int`. */
  lemma DivideExample()
    ensures Run("divide", "15", "3") == Printed(FloatN(5.0))
  {
    Parser.TwoDigitsParse('1', '5');
    Parser.SingleDigitParses('3');
    RunOnParsedOperands(Divide, "15", "3", IntN(15), IntN(3));
    assert Name(Divide) == "divide";
  }

  /** `divide 5 0` reports the division by zero and exits with 1. */
  lemma DivideByZeroExample()
    ensures Run("divide", "5", "0") == Failed("Error: Cannot divide by zero")
    ensures ExitCode(Run("divide", "5", "0")) == 1
  {
    Parser.SingleDigitParses('5');
    Parser.SingleDigitParses('0');
    DivideByZeroReported(IntN(5), IntN(0));
  }

  /** `add abc 3` is a usage error: non-zero exit, nothing printed. */
  lemma BadOperandExample()
    ensures Run("add", "abc", "3") == UsageError(BadOperand(Parser.InvalidNumber("abc")))
    ensures ExitCode(Run("add", "abc", "3")) != 0
  {
    Parser.RejectIntExamples();
    assert ParseOperation("add") == Some(Add);
  }
}
