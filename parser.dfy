/**
  `parse_number` (src/calculator.py:33-40): the `type=` converter for the two
  operands. A token containing '.' goes to `float()`, any other token to
  `int()`; a conversion that fails becomes the "not a valid number" error.

  `int()` and `float()` are modelled on an ASCII subset of Python's grammar:
  an integer token is an optional '-' and one or more digits; a float token is
  an optional '-', digits, one '.', digits, with at least one digit in all.
*/
module Parser {
  import opened Wrappers
  import opened Numbers
  import opened Decimal

  /**
    `argparse.ArgumentTypeError` raised by `parse_number`. argparse prints
    `Message()` inside its usage error; that rendering is outside this model,
    where a usage error keeps the `ParseError` itself.
  */
  datatype ParseError = InvalidNumber(token: string)
  {
    function Message(): string
    {
      "'" + token + "' is not a valid number"
    }
  }

  /** The position of the first `c` in `t`, if any. */
  function IndexOf(t: string, c: char): (r: Option<nat>)
    ensures r.None? <==> c !in t
    ensures r.Some? ==> r.value < |t| && t[r.value] == c && c !in t[..r.value]
    decreases |t|
  {
    if t == [] then None
    else if t[0] == c then Some(0)
    else
      match IndexOf(t[1..], c)
      case None => None
      case Some(k) =>
        assert t[..k + 1] == [t[0]] + t[1..][..k];
        Some(k + 1)
  }

  /** Whether a token starts with a minus sign, and what follows it. */
  function SplitSign(s: string): (bool, string)
  {
    if |s| > 0 && s[0] == '-' then (true, s[1..]) else (false, s)
  }

  /**
    `int(value)` on the modelled subset; None where Python raises ValueError,
    which includes a token of more than `INT_MAX_STR_DIGITS` digits.
  */
  function ParseInt(s: string): Option<int>
  {
    var (neg, d) := SplitSign(s);
    if |d| > 0 && AllDigits(d) && |d| <= INT_MAX_STR_DIGITS then Some(IntTextValue(neg, d)) else None
  }

  /** `float(value)` on the modelled subset of dotted tokens; None where Python raises ValueError. */
  function ParseFloat(s: string): Option<real>
  {
    var (neg, t) := SplitSign(s);
    match IndexOf(t, '.')
    case None => None
    case Some(k) =>
      var whole, frac := t[..k], t[k + 1..];
      if AllDigits(whole) && AllDigits(frac) && |whole| + |frac| > 0 then
        Some(FloatTextValue(neg, whole, frac))
      else
        None
  }

  /** `parse_number(value)`: the kind of number is chosen by the presence of '.', not by the value. */
  function ParseNumber(s: string): (r: Result<Num, ParseError>)
    ensures r.Ok? ==> (r.value.FloatN? <==> '.' in s)
    ensures r.Err? ==> r.error == InvalidNumber(s)
  {
    if '.' in s then
      match ParseFloat(s)
      case Some(f) => Ok(FloatN(f))
      case None => Err(InvalidNumber(s))
    else
      match ParseInt(s)
      case Some(i) => Ok(IntN(i))
      case None => Err(InvalidNumber(s))
  }

  /**
    The integer tokens of the modelled grammar, stated without reference to the
    parser; `int()` reads at most `INT_MAX_STR_DIGITS` digits.
  */
  ghost predicate IsIntToken(s: string)
  {
    exists neg: bool, d: string :: s == IntText(neg, d) && |d| > 0 && AllDigits(d) && |d| <= INT_MAX_STR_DIGITS
  }

  /** The float tokens of the modelled grammar, stated without reference to the parser. */
  ghost predicate IsFloatToken(s: string)
  {
    exists neg: bool, whole: string, frac: string ::
      s == FloatText(neg, whole, frac) && AllDigits(whole) && AllDigits(frac) && |whole| + |frac| > 0
  }

  lemma SplitSignOfText(neg: bool, d: string)
    requires |d| > 0 ==> d[0] != '-'
    ensures SplitSign(IntText(neg, d)) == (neg, d)
  {
  }

  /** Every integer token parses, as an `int`, to the value its digits denote. */
  lemma ParseIntText(neg: bool, d: string)
    requires |d| > 0 && AllDigits(d) && |d| <= INT_MAX_STR_DIGITS
    ensures ParseNumber(IntText(neg, d)) == Ok(IntN(IntTextValue(neg, d)))
  {
  }

  /** An integer token of more than `INT_MAX_STR_DIGITS` digits is "not a valid number". */
  lemma RejectOverlongIntText(neg: bool, d: string)
    requires |d| > INT_MAX_STR_DIGITS && AllDigits(d)
    ensures ParseNumber(IntText(neg, d)) == Err(InvalidNumber(IntText(neg, d)))
  {
    assert IsDigit(d[0]);
    SplitSignOfText(neg, d);
    assert '.' !in IntText(neg, d) by {
      if neg { assert IntText(neg, d) == ['-'] + d; }
    }
  }

  /** In a mantissa whose integral part is all digits, the first '.' is the one after that part. */
  lemma FirstDotAfterDigits(whole: string, frac: string)
    requires AllDigits(whole)
    ensures IndexOf(whole + "." + frac, '.') == Some(|whole|)
  {
    var t := whole + "." + frac;
    assert t[|whole|] == '.';
    assert t[..|whole|] == whole;
    assert '.' !in whole by {
      forall k | 0 <= k < |whole| ensures whole[k] != '.' {
        assert IsDigit(whole[k]);
      }
    }
  }

  /** A mantissa never starts with '-', so the sign of a float token is read back as written. */
  lemma SplitSignOfFloatText(neg: bool, whole: string, frac: string)
    requires AllDigits(whole)
    ensures SplitSign(FloatText(neg, whole, frac)) == (neg, whole + "." + frac)
  {
    var t := whole + "." + frac;
    if |whole| > 0 {
      assert t[0] == whole[0] && IsDigit(whole[0]);
    } else {
      assert t[0] == '.';
    }
    SplitSignOfText(neg, t);
  }

  /** Every float token parses, as a `float`, to the value its digits denote. */
  lemma ParseFloatText(neg: bool, whole: string, frac: string)
    requires AllDigits(whole) && AllDigits(frac) && |whole| + |frac| > 0
    ensures ParseNumber(FloatText(neg, whole, frac)) == Ok(FloatN(FloatTextValue(neg, whole, frac)))
  {
    var t := whole + "." + frac;
    var s := FloatText(neg, whole, frac);
    SplitSignOfFloatText(neg, whole, frac);
    FirstDotAfterDigits(whole, frac);
    assert t[..|whole|] == whole && t[|whole| + 1..] == frac;
    assert ParseFloat(s) == Some(FloatTextValue(neg, whole, frac));
    assert '.' in s by {
      if neg { assert s[|whole| + 1] == '.'; } else { assert s[|whole|] == '.'; }
    }
  }

  /** An accepted text without '.' is an integer token, read with its value. */
  lemma ParsedIntIsToken(s: string)
    requires '.' !in s && ParseInt(s).Some?
    ensures exists neg: bool, d: string ::
      s == IntText(neg, d) && |d| > 0 && AllDigits(d) && |d| <= INT_MAX_STR_DIGITS
      && ParseInt(s).value == IntTextValue(neg, d)
  {
    var (neg, d) := SplitSign(s);
    assert s == IntText(neg, d);
  }

  /** An accepted text with '.' is a float token, read with its value. */
  lemma ParsedFloatIsToken(s: string)
    requires ParseFloat(s).Some?
    ensures exists neg: bool, whole: string, frac: string ::
      s == FloatText(neg, whole, frac) && AllDigits(whole) && AllDigits(frac) && |whole| + |frac| > 0
      && ParseFloat(s).value == FloatTextValue(neg, whole, frac)
  {
    var (neg, t) := SplitSign(s);
    var k := IndexOf(t, '.').value;
    assert t == t[..k] + "." + t[k + 1..];
    assert s == FloatText(neg, t[..k], t[k + 1..]);
  }

  /** Whatever `parse_number` accepts is a token of the grammar, and its value is the token's value. */
  lemma ParseNumberSound(s: string)
    requires ParseNumber(s).Ok?
    ensures ParseNumber(s).value.IntN? ==>
      exists neg: bool, d: string ::
        s == IntText(neg, d) && |d| > 0 && AllDigits(d) && |d| <= INT_MAX_STR_DIGITS
        && ParseNumber(s).value.i == IntTextValue(neg, d)
    ensures ParseNumber(s).value.FloatN? ==>
      exists neg: bool, whole: string, frac: string ::
        s == FloatText(neg, whole, frac) && AllDigits(whole) && AllDigits(frac) && |whole| + |frac| > 0
        && ParseNumber(s).value.f == FloatTextValue(neg, whole, frac)
  {
    if '.' in s {
      ParsedFloatIsToken(s);
    } else {
      ParsedIntIsToken(s);
    }
  }

  /** `parse_number` fails exactly on the text that is neither an integer nor a float token. */
  lemma ParseNumberAcceptsExactlyTokens(s: string)
    ensures ParseNumber(s).Ok? <==> IsIntToken(s) || IsFloatToken(s)
  {
    if ParseNumber(s).Ok? {
      ParseNumberSound(s);
    } else if IsIntToken(s) {
      var neg, d :| s == IntText(neg, d) && |d| > 0 && AllDigits(d) && |d| <= INT_MAX_STR_DIGITS;
      ParseIntText(neg, d);
    } else if IsFloatToken(s) {
      var neg, whole, frac :| s == FloatText(neg, whole, frac) && AllDigits(whole) && AllDigits(frac) && |whole| + |frac| > 0;
      ParseFloatText(neg, whole, frac);
    }
  }

  /** Parsing the decimal rendering of any `int` that `str` can render gives back that `int`. */
  lemma ParseShowInt(i: int)
    requires !ExceedsStrLimit(i)
    ensures ParseNumber(ShowInt(i)) == Ok(IntN(i))
  {
  }

  /** A one-digit token is the `int` of that digit. */
  lemma SingleDigitParses(c: char)
    requires IsDigit(c)
    ensures ParseNumber([c]) == Ok(IntN(DigitValue(c)))
  {
    assert [c][..0] == [];
    assert DigitsValue([c]) == DigitValue(c);
    ParseIntText(false, [c]);
    assert IntText(false, [c]) == [c];
  }

  /** A two-digit token is the `int` of those two digits. */
  lemma TwoDigitsParse(c: char, e: char)
    requires IsDigit(c) && IsDigit(e)
    ensures ParseNumber([c, e]) == Ok(IntN(10 * DigitValue(c) + DigitValue(e)))
  {
    assert [c, e][..1] == [c];
    assert [c][..0] == [];
    assert DigitsValue([c]) == DigitValue(c);
    assert DigitsValue([c, e]) == 10 * DigitValue(c) + DigitValue(e);
    ParseIntText(false, [c, e]);
    assert IntText(false, [c, e]) == [c, e];
  }

  /** "5" is an `int` 5, "-10" an `int` -10, "0" an `int` 0. */
  lemma ParseIntExamples()
    ensures ParseNumber("5") == Ok(IntN(5))
    ensures ParseNumber("-10") == Ok(IntN(-10))
    ensures ParseNumber("0") == Ok(IntN(0))
  {
  }

  /** "5.0" is a `float` 5.0 although its value is whole: the kind follows the lexical form. */
  lemma ParseWholeFloatExample()
    ensures ParseNumber("5.0") == Ok(FloatN(5.0))
  {
    assert DigitsValue("5") == 5 by { assert "5"[..0] == []; }
    assert DigitsValue("0") == 0 by { assert "0"[..0] == []; }
    assert FloatTextValue(false, "5", "0") == 5.0;
    assert FloatText(false, "5", "0") == "5.0";
    ParseFloatText(false, "5", "0");
  }

  /** "5.5" is a `float` 5.5. */
  lemma ParseFractionExample()
    ensures ParseNumber("5.5") == Ok(FloatN(5.5))
  {
    assert DigitsValue("5") == 5 by { assert "5"[..0] == []; }
    assert FloatTextValue(false, "5", "5") == 5.5;
    assert FloatText(false, "5", "5") == "5.5";
    ParseFloatText(false, "5", "5");
  }

  /** "0.0" is a `float` zero, not the `int` 0 that "0" gives. */
  lemma ParseZeroFloatExample()
    ensures ParseNumber("0.0") == Ok(FloatN(0.0))
  {
    assert DigitsValue("0") == 0 by { assert "0"[..0] == []; }
    assert FloatTextValue(false, "0", "0") == 0.0;
    assert FloatText(false, "0", "0") == "0.0";
    ParseFloatText(false, "0", "0");
  }

  /** "-3.14" is a `float` -3.14. */
  lemma ParseNegativeFloatExample()
    ensures ParseNumber("-3.14") == Ok(FloatN(-3.14))
  {
    assert DigitsValue("3") == 3 by { assert "3"[..0] == []; }
    assert DigitsValue("14") == 14 by { assert "14"[..1] == "1"; assert "1"[..0] == []; }
    assert Pow10(2) == 100;
    assert FloatTextValue(true, "3", "14") == -3.14;
    assert FloatText(true, "3", "14") == "-3.14";
    ParseFloatText(true, "3", "14");
  }

  /** "" and "abc" fail the integer conversion. */
  lemma RejectIntExamples()
    ensures ParseNumber("") == Err(InvalidNumber(""))
    ensures ParseNumber("abc") == Err(InvalidNumber("abc"))
  {
    assert !IsDigit("abc"[0]);
  }

  /** The error names the rejected token. */
  lemma InvalidNumberMessage()
    ensures InvalidNumber("abc").Message() == "'abc' is not a valid number"
  {
  }

  /** "12.34.56" goes to the float conversion, which rejects its second '.'. */
  lemma RejectFloatExample()
    ensures ParseNumber("12.34.56") == Err(InvalidNumber("12.34.56"))
  {
    var t := "12.34.56";
    assert t[2] == '.';
    assert '.' !in t[..2];
    assert IndexOf(t, '.') == Some(2);
    assert t[3..][2] == '.';
  }
}
