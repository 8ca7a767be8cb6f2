/** The pipeline on concrete inputs: the general lemmas of module
    Properties instantiated, with the arithmetic carried out. */
module Examples {
  import opened Tokens
  import opened Scanner
  import opened Grammar
  import opened Precedence
  import opened Properties
  import Doubles

  /** A one-digit numeral is worth its digit. */
  lemma OneDigit(c: char)
    requires IsDigit(c)
    ensures DecimalValue([c]) == DigitValue(c) as real
  {
    assert [c][1..] == [];
  }

  /** x t1 y t2 z over one-digit numerals. */
  lemma ThreeDigits(a: char, o1: char, t1: Token, b: char, o2: char, t2: Token, c: char)
    requires IsDigit(a) && IsDigit(b) && IsDigit(c)
    requires Operator(o1) == Some(t1) && IsBinary(t1) && Operator(o2) == Some(t2) && IsBinary(t2)
    ensures Evaluate([a, o1, b, o2, c]) ==
            Ok(Combine(t1, t2, DigitValue(a) as real, DigitValue(b) as real, DigitValue(c) as real))
  {
    OneDigit(a);
    OneDigit(b);
    OneDigit(c);
    assert [a, o1, b, o2, c] == [a] + [o1] + [b] + [o2] + [c];
    ThreeOperands([a], o1, t1, [b], o2, t2, [c]);
  }

  /** A single numeral. */
  lemma Five()
    ensures Evaluate("5") == Ok(5.0)
  {
    OneDigit('5');
    OneNumeral("5");
  }

  /** `*` is applied before `/`: 6/(2*3), not (6/2)*3. */
  lemma MulBeforeDiv()
    ensures Evaluate("6/2*3") == Ok(1.0)
  {
    assert Combine(DIV, MUL, 6.0, 2.0, 3.0) == 1.0;
    ThreeDigits('6', '/', DIV, '2', '*', MUL, '3');
  }

  /** `^` folds from the left: (2^3)^2, not 2^(3^2). */
  lemma PowerFoldsLeft()
    ensures Evaluate("2^3^2") == Ok(64.0)
  {
    ThreeDigits('2', '^', EXP, '3', '^', EXP, '2');
    Doubles.PowNat(2.0, 3);
    Doubles.PowNat(8.0, 2);
  }

  /** `-` folds from the left: (8-3)-2. */
  lemma SubtractionFoldsLeft()
    ensures Evaluate("8-3-2") == Ok(3.0)
  {
    ThreeDigits('8', '-', MINUS, '3', '-', MINUS, '2');
  }

  /** `*` is applied before `+`. */
  lemma MulBeforeAdd()
    ensures Evaluate("2+3*4") == Ok(14.0)
  {
    assert Combine(PLUS, MUL, 2.0, 3.0, 4.0) == 14.0;
    ThreeDigits('2', '+', PLUS, '3', '*', MUL, '4');
  }

  /** The digits after the point are tenths, hundredths, ... */
  lemma OnePointFive()
    ensures Evaluate("1.5") == Ok(1.5)
  {
    OneDigit('1');
    assert FractionValue("5", 1) == 0.5 by {
      assert "5"[1..] == [];
      assert Shift(5.0, 0) == 5.0;
    }
    assert "1.5" == "1" + ['.'] + "5";
    DecimalNumber("1", '.', "5");
  }

  /** An operator with nothing after it, after a complete first operation. */
  lemma TrailingOperator()
    ensures Evaluate("2+5*") == Err(ExpressionIncomplete)
  {
    assert "2+5*" == "2" + ['+'] + "5" + ['*'];
    IncompleteAfterTwo("2", '+', PLUS, "5", '*', MUL);
  }
}
