# Calculator CLI — a verified Dafny model

The program is a command-line calculator: `calculator.py <operation> <first> <second>`
applies one of `add`, `subtract`, `multiply`, `divide` to two numbers and prints the
result. This project models its logic:

- the number parser `parse_number`. A token containing `'.'` becomes a Python `float`.
  Any other token becomes an `int`. Malformed text is a "not a valid number" error.
- the four arithmetic functions. Their result kind follows Python's rules: int with
  int stays int, any float makes a float, and `/` always makes a float. `divide`
  checks for a zero divisor first.
- the `if/elif` dispatch in `main`. It maps a result to exit code 0, and the
  divide-by-zero `ValueError` to `Error: Cannot divide by zero` with exit code 1.

Modules: `Wrappers` (Option, Result), `Numbers` (the tagged number `Num`),
`Decimal` (digit strings, the integer and dotted-decimal token forms, `str` of an int),
`Parser`, `Arith`, `Cli`.

Modelling choices:

- A Python `float` is an exact `real` in this model. What carries over to the program
  unchanged is the kind rules and the exact integer arithmetic.
- CPython limits the conversions between `int` and text to 4300 decimal digits
  (`Decimal.INT_MAX_STR_DIGITS`, the default from CPython 3.11 and in the 3.7.14,
  3.8.14, 3.9.14 and 3.10.7 security releases). `int()` rejects a longer token, which
  `parse_number` turns into "not a valid number". `print` of a longer `int` result
  raises `ValueError` inside the `try`, which `main` reports with exit code 1.
- `int()` and `float()` are modelled on an ASCII subset of Python's grammar. An integer
  token is an optional `-` and one to 4300 digits. A float token is an optional `-`,
  digits, one `.`, and digits, with at least one digit overall. The rule that `'.'`
  alone decides the kind holds whatever the token.
- argparse is modelled only by what reaches `main`. `Cli.Run` converts the three
  arguments and hands them to `Cli.Evaluate`, which is the rest of `main`. The
  operation must be one of the four `choices`. Each operand that argparse takes
  as a positional argument goes through `parse_number`; the model assumes every
  operand is taken that way (see "## Left out" for the `-`-prefixed ones that are
  not). The three arguments are checked in order, and the first bad one
  is a usage error with no computation. The usage error's exit status is 2, which
  is argparse's convention.
- `print` and the return value of `main` become an `Outcome`: the printed value, the
  error message, or the usage error, plus `ExitCode`.

## Model

| member | source | states |
|---|---|---|
| `Parser.ParseNumber` | src/calculator.py:33-40 | a parsed token is a float exactly when it contains `'.'`, and an int otherwise; a failure is `InvalidNumber` carrying the token |
| `Parser.ParseIntText` | src/calculator.py:38 | every integer token of at most 4300 digits parses, as an int, to the value its sign and digits denote |
| `Parser.ParseFloatText` | src/calculator.py:36-37 | every dotted decimal token parses, as a float, to the value its sign, integral and fractional digits denote |
| `Parser.ParsedIntIsToken` | src/calculator.py:36-38 | a text without `.` that `int()` accepts is an integer token of at most 4300 digits, read with that token's value |
| `Parser.ParsedFloatIsToken` | src/calculator.py:36-37 | a text that `float()` accepts is a float token, read with that token's value |
| `Parser.ParseNumberSound` | src/calculator.py:33-40 | whatever is accepted is an integer or float token of the grammar, and the parsed value is that token's value |
| `Parser.ParseNumberAcceptsExactlyTokens` | src/calculator.py:33-40 | the parser accepts a text if and only if it is an integer token (at most 4300 digits) or a float token; everything else is the "not a valid number" error |
| `Parser.RejectOverlongIntText` | src/calculator.py:38-40 | an integer token of more than 4300 digits is rejected with `InvalidNumber` |
| `Parser.ParseShowInt` | src/calculator.py:38 | parsing the decimal rendering of any int that `str` can render (at most 4300 digits) gives back that int, tagged int |
| `Parser.SingleDigitParses` | src/calculator.py:38 | a one-digit token is the int of that digit |
| `Parser.TwoDigitsParse` | src/calculator.py:38 | a two-digit token is the int of those two digits |
| `Parser.ParseIntExamples` | tests/test_calculator.py:56-60 | `"5"`, `"-10"`, `"0"` parse to the ints 5, -10, 0 |
| `Parser.ParseWholeFloatExample` | src/calculator.py:36-37 | `"5.0"` parses to the float 5.0, not the int 5: the kind follows the lexical form, not the value |
| `Parser.ParseFractionExample` | tests/test_calculator.py:64 | `"5.5"` parses to the float 5.5 |
| `Parser.ParseZeroFloatExample` | tests/test_calculator.py:66 | `"0.0"` parses to the float 0.0 (the int 0 for `"0"` is in `Parser.ParseIntExamples`) |
| `Parser.ParseNegativeFloatExample` | tests/test_calculator.py:65 | `"-3.14"` parses to the float -3.14 |
| `Parser.RejectIntExamples` | src/calculator.py:38-40 | `""` and `"abc"` fail the integer conversion and are rejected with `InvalidNumber` |
| `Parser.InvalidNumberMessage` | src/calculator.py:40 | the error for `abc` reads `'abc' is not a valid number` |
| `Parser.RejectFloatExample` | tests/test_calculator.py:73 | `"12.34.56"` is sent to the float conversion and rejected with `InvalidNumber` |
| `Decimal.NatToDigits` | src/calculator.py:88 | the rendering of a natural number is a non-empty digit string without leading zeros that denotes the number |
| `Decimal.ShowInt` | src/calculator.py:88 | the printed form of an int is non-empty and has no decimal point |
| `Decimal.DigitCountBound` | src/calculator.py:88 | a number has at most k decimal digits exactly when it is below 10^k |
| `Decimal.ExceedsStrLimitIffLarge` | src/calculator.py:88 | `str` of an int exceeds the 4300-digit limit exactly when its magnitude is at least 10^4300 |
| `Arith.Add` | src/calculator.py:11-13 | the result is an int exactly when both operands are ints, with the exact sum; otherwise a float of the sum |
| `Arith.Subtract` | src/calculator.py:16-18 | the same kind rule, with the exact difference |
| `Arith.Multiply` | src/calculator.py:21-23 | the same kind rule, with the exact product |
| `Arith.Divide` | src/calculator.py:26-30 | fails with `ValueError("Cannot divide by zero")` if and only if the divisor is zero, of either kind; otherwise a float holding the quotient |
| `Arith.AddCommutes` | src/calculator.py:11-13 | `add(a, b) == add(b, a)` for all operands, kind included |
| `Arith.MultiplyCommutes` | src/calculator.py:21-23 | `multiply(a, b) == multiply(b, a)` for all operands, kind included |
| `Arith.SubtractAntisymmetric` | src/calculator.py:16-18 | `subtract(a, b) == -subtract(b, a)` for all operands, kind included |
| `Arith.ExactDivideIsFloat` | src/calculator.py:30 | dividing two ints with no remainder still gives a float, such as `divide(6, 2) == 3.0` |
| `Arith.AddTestCases` | tests/test_calculator.py:19-24 | the four addition tests hold, with int results for int operands and a float for `add(2.5, 3.5)` |
| `Arith.SubtractTestCases` | tests/test_calculator.py:26-31 | the four subtraction tests hold, including `subtract(5.5, 2.5) == 3.0` as a float |
| `Arith.MultiplyTestCases` | tests/test_calculator.py:33-38 | the four multiplication tests hold, including `multiply(2.5, 4) == 10.0` as a float |
| `Arith.DivideTestCases` | tests/test_calculator.py:40-50 | the four division tests give floats, including `divide(0, 5) == 0.0`, and `divide(5, 0)` is the zero-divisor error |
| `Cli.ParseOperation` | src/calculator.py:57-61 | exactly the four case-sensitive names `add`, `subtract`, `multiply`, `divide` are accepted, each as the operation of that name |
| `Cli.ParseOperationName` | src/calculator.py:59 | each operation's name is accepted as that operation |
| `Cli.ExitCode` | src/calculator.py:89-93 | exit code 0 exactly for a printed result, 1 exactly for a reported `ValueError` |
| `Cli.Dispatch` | src/calculator.py:77-86 | fails if and only if the operation is divide and the divisor is zero; the result is an int exactly for a non-divide operation on two ints; its value is the sum, difference, product or quotient of the operands |
| `Cli.Report` | src/calculator.py:88-93 | a printable value is printed with exit code 0; an int over 4300 digits, which `print` cannot render, becomes `Error: Exceeds the limit (4300 digits) …` with exit code 1; a `ValueError` from the dispatch becomes `Error: <message>` with exit code 1 |
| `Cli.PrintableIffBelowLimit` | src/calculator.py:88 | every float prints, and an int prints exactly when its magnitude is below 10^4300 |
| `Cli.Evaluate` | src/calculator.py:57-93 | a usage error happens exactly when the operation name or an operand is invalid, naming the first bad argument, and then nothing is computed |
| `Cli.Run` | src/calculator.py:57-93 | a run on three argument strings is a usage error exactly when the operation name or an operand text is invalid |
| `Cli.ExitCodeZeroExactlyOnSuccess` | src/calculator.py:77-93 | the exit code is 0 if and only if the operation and both operands are valid, the run is not a division by zero, and the result can be printed |
| `Cli.RunOnParsedOperands` | src/calculator.py:77-93 | once both operands parse, a run is the dispatch of the named operation on them, reported |
| `Cli.DivideByZeroReported` | src/calculator.py:85-93 | `divide` with a divisor that is zero, int or float, ends with `Error: Cannot divide by zero` and exit code 1 |
| `Cli.DivideByZeroText` | src/calculator.py:92 | the reported line is `Error: ` followed by the `ValueError`'s message, `Error: Cannot divide by zero` |
| `Cli.AddExample` | src/calculator.py:50 | `add 5 3` prints the int 8, rendered `8`, with exit code 0 |
| `Cli.SubtractExample` | src/calculator.py:51 | `subtract 10 4` prints the int 6 |
| `Cli.MultiplyExample` | src/calculator.py:52 | `multiply 3 4` prints the int 12 |
| `Cli.DivideExample` | src/calculator.py:53 | `divide 15 3` prints the float 5.0 |
| `Cli.DivideByZeroExample` | src/calculator.py:85-93 | `divide 5 0` prints `Error: Cannot divide by zero` and exits with 1 |
| `Cli.BadOperandExample` | src/calculator.py:63-75 | `add abc 3` is a usage error for the operand `abc`, with a non-zero exit code and nothing printed |

## Left out

- Floating point: a `float` is an exact `real`. IEEE-754 rounding, the decimal-to-binary conversion error, overflow to `inf`, `nan` and the sign of zero are not modelled. `Arith.Divide` states the exact quotient, not a rounded one.
- `Parser.ParseNumber`: rejects text that Python's `int()`/`float()` accept. This covers surrounding whitespace, a `+` sign, `_` separators, non-ASCII digits, exponents such as `1.5e3`, and the `inf`/`nan` spellings. The model accepts only the ASCII subset described above.
- Only CPython's default 4300-digit limit is modelled. Raising or lowering it (`sys.set_int_max_str_digits`, `PYTHONINTMAXSTRDIGITS`, `-X int_max_str_digits`) is not, and neither are older Python versions, which have no limit.
- The `except Exception` branch (src/calculator.py:94-96) is not modelled. In Python it is reachable only through float overflow: an `OverflowError` when an int too large for a float meets a float operand, or when the true division of two ints has a quotient too large for a float (dividing two huge ints whose quotient is small, such as `10**400 / 10**399`, gives `10.0`). Unbounded reals have no such case.
- Output formatting of floats: an `Outcome` records the printed `Num`. Only the rendering of ints (`Decimal.ShowInt`) is modelled. Python's shortest-repr text for floats (`5.0`, `2.5`) is not.
- `Cli.Run`, `Cli.RunOnParsedOperands`: argparse's recognition of `-`-prefixed arguments as options is not modelled. `-h`, `--help` and their unambiguous prefixes such as `--he` print the help and exit with status 0. An operand starting with `-` that argparse's negative-number pattern (`^-\d+$|^-\d*\.\d+$` through Python 3.12) does not match, such as `-5.`, is taken as an unknown option and gives a usage error. The model instead passes every operand to `parse_number`, so it prints `-2.0` for `add -5. 3`.
- argparse itself (src/calculator.py:45-75): the help and epilog text, the wording and layout of usage messages, and a wrong number of arguments. A usage error records only its reason: the bad operation name or the operand's parse error. `Parser.ParseError.Message` is the text `parse_number` raises, which argparse would print inside its usage message; no outcome holds that rendered line.
- The standard streams and `sys.exit` (src/calculator.py:88, 92, 95, 100) are not modelled. The model keeps the printed value, the message and the exit code.
