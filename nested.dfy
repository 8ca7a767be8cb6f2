/** The pipeline on the nested inputs of the calculator's own tests:
    groups inside groups, a minus inside and before a group, and a group
    the input ends inside. Each input is read token by token with the
    lexer lemmas of module Properties, and the value is put together from
    the operand and level lemmas of module Precedence. */
module Nested {
  import opened Tokens
  import opened Scanner
  import opened Grammar
  import opened Precedence
  import opened Properties
  import Examples
  import Doubles

  // ---------------------------------------------------------------------
  // Single tokens

  /** The one-digit numeral `c` at `p`, ending at `e`. */
  lemma Digit(input: seq<char>, p: nat, e: nat, c: char, v: real, before: Token)
    requires e == p + 1 <= |input| && input[p] == c && IsDigit(c) && v == DigitValue(c) as real
    requires Boundary(input, e)
    ensures Consume(input, At(p, before)) == Ok(AtNumber(e, v))
  {
    assert input[p..e] == [c];
    Examples.OneDigit(c);
    ConsumeNumeral(input, p, e, [c], before);
  }

  /** The numeral "15" at `p`, ending at `e`. */
  lemma Fifteen(input: seq<char>, p: nat, e: nat, before: Token)
    requires e == p + 2 <= |input| && input[p] == '1' && input[p + 1] == '5' && Boundary(input, e)
    ensures Consume(input, At(p, before)) == Ok(AtNumber(e, 15.0))
  {
    assert input[p..e] == "15";
    assert DecimalValue("15") == 15.0 by {
      assert "15"[1..] == ['5'];
      Examples.OneDigit('5');
      assert Scale(1.0, 1) == 10.0;
    }
    ConsumeNumeral(input, p, e, "15", before);
  }

  /** `ConsumeOperator` right after a numeral worth `v`, written with
      `AtNumber` and with the end position named by the caller, for the
      reason given at `ConsumeSymbol`. */
  lemma OperatorAfter(input: seq<char>, p: nat, e: nat, v: real, t: Token)
    requires e == p + 1 <= |input| && Operator(input[p]) == Some(t)
    ensures Consume(input, AtNumber(p, v)) == Ok(At(e, t))
  {
    ConsumeOperator(input, p, v, NUMBER, t);
  }

  // ---------------------------------------------------------------------
  // 9/3*(-2+5)+1

  /** The group (-2+5) holds a negated operand; the group goes first, then
      `*` before `/`, then `+`: 9/(3*3)+1. */
  lemma ParenthesesFirst()
    ensures Evaluate("9/3*(-2+5)+1") == Ok(2.0)
  {
    var input := "9/3*(-2+5)+1";
    LeftTokens(input);
    RightTokens(input);
    ParseParenthesesFirst(input);
  }

  /** The tokens of "9/3*(-2+5)+1" up to the `-`. */
  lemma LeftTokens(input: seq<char>)
    requires input == "9/3*(-2+5)+1"
    ensures Consume(input, At(0, EOF)) == Ok(AtNumber(1, 9.0))
    ensures Consume(input, AtNumber(1, 9.0)) == Ok(At(2, DIV))
    ensures Consume(input, At(2, DIV)) == Ok(AtNumber(3, 3.0))
    ensures Consume(input, AtNumber(3, 3.0)) == Ok(At(4, MUL))
    ensures Consume(input, At(4, MUL)) == Ok(At(5, LPAR))
    ensures Consume(input, At(5, LPAR)) == Ok(At(6, MINUS))
  {
    assert input == "9/3*(" + "-2+5)+1";
    Digit(input, 0, 1, '9', 9.0, EOF);
    OperatorAfter(input, 1, 2, 9.0, DIV);
    Digit(input, 2, 3, '3', 3.0, DIV);
    OperatorAfter(input, 3, 4, 3.0, MUL);
    ConsumeSymbol(input, 4, 5, MUL, LPAR);
    ConsumeSymbol(input, 5, 6, LPAR, MINUS);
  }

  /** The tokens of "9/3*(-2+5)+1" after the `-`. */
  lemma RightTokens(input: seq<char>)
    requires input == "9/3*(-2+5)+1"
    ensures Consume(input, At(6, MINUS)) == Ok(AtNumber(7, 2.0))
    ensures Consume(input, AtNumber(7, 2.0)) == Ok(At(8, PLUS))
    ensures Consume(input, At(8, PLUS)) == Ok(AtNumber(9, 5.0))
    ensures Consume(input, AtNumber(9, 5.0)) == Ok(At(10, RPAR))
    ensures Consume(input, At(10, RPAR)) == Ok(At(11, PLUS))
    ensures Consume(input, At(11, PLUS)) == Ok(AtNumber(12, 1.0))
    ensures Consume(input, AtNumber(12, 1.0)) == Ok(At(12, EOF))
  {
    assert input == "9/3*(" + "-2+5)+1";
    Digit(input, 6, 7, '2', 2.0, MINUS);
    OperatorAfter(input, 7, 8, 2.0, PLUS);
    Digit(input, 8, 9, '5', 5.0, PLUS);
    OperatorAfter(input, 9, 10, 5.0, RPAR);
    ConsumeSymbol(input, 10, 11, RPAR, PLUS);
    Digit(input, 11, 12, '1', 1.0, PLUS);
    ConsumeEnd(input, 1.0, NUMBER);
  }

  /** (-2+5) is worth 3 and ends on the last `+`. */
  lemma GroupWithMinus(input: seq<char>)
    requires |input| == 12
    requires Consume(input, At(5, LPAR)) == Ok(At(6, MINUS))
    requires Consume(input, At(6, MINUS)) == Ok(AtNumber(7, 2.0))
    requires Consume(input, AtNumber(7, 2.0)) == Ok(At(8, PLUS))
    requires Consume(input, At(8, PLUS)) == Ok(AtNumber(9, 5.0))
    requires Consume(input, AtNumber(9, 5.0)) == Ok(At(10, RPAR))
    requires Consume(input, At(10, RPAR)) == Ok(At(11, PLUS))
    ensures Level(5, input, At(5, LPAR)) == Ok(Evaluated(3.0, At(11, PLUS)))
  {
    NumeralLevel(5, input, AtNumber(7, 2.0), At(8, PLUS));
    NegatedOperand(input, At(6, MINUS), AtNumber(7, 2.0), Evaluated(2.0, At(8, PLUS)));
    NumeralLevel(5, input, AtNumber(9, 5.0), At(10, RPAR));
    GroupedPair(input, At(5, LPAR), At(6, MINUS), Doubles.Neg(2.0), At(8, PLUS), AtNumber(9, 5.0), 5.0,
                At(10, RPAR), At(11, PLUS));
  }

  lemma ParseParenthesesFirst(input: seq<char>)
    requires |input| == 12
    requires Consume(input, At(0, EOF)) == Ok(AtNumber(1, 9.0))
    requires Consume(input, AtNumber(1, 9.0)) == Ok(At(2, DIV))
    requires Consume(input, At(2, DIV)) == Ok(AtNumber(3, 3.0))
    requires Consume(input, AtNumber(3, 3.0)) == Ok(At(4, MUL))
    requires Consume(input, At(4, MUL)) == Ok(At(5, LPAR))
    requires Consume(input, At(5, LPAR)) == Ok(At(6, MINUS))
    requires Consume(input, At(6, MINUS)) == Ok(AtNumber(7, 2.0))
    requires Consume(input, AtNumber(7, 2.0)) == Ok(At(8, PLUS))
    requires Consume(input, At(8, PLUS)) == Ok(AtNumber(9, 5.0))
    requires Consume(input, AtNumber(9, 5.0)) == Ok(At(10, RPAR))
    requires Consume(input, At(10, RPAR)) == Ok(At(11, PLUS))
    requires Consume(input, At(11, PLUS)) == Ok(AtNumber(12, 1.0))
    requires Consume(input, AtNumber(12, 1.0)) == Ok(At(12, EOF))
    ensures Evaluate(input) == Ok(2.0)
  {
    GroupWithMinus(input);
    // 9/3*3 at the tier of `/`: 9/(3*3)
    NumeralLevel(5, input, AtNumber(1, 9.0), At(2, DIV));
    NumeralLevel(5, input, AtNumber(3, 3.0), At(4, MUL));
    TripleLevel(2, input, AtNumber(1, 9.0), 9.0, At(2, DIV), AtNumber(3, 3.0), 3.0, At(4, MUL),
                At(5, LPAR), 3.0, At(11, PLUS));
    assert Combine(DIV, MUL, 9.0, 3.0, 3.0) == 1.0;
    // then + 1
    LevelThen(1, input, AtNumber(1, 9.0), Evaluated(1.0, At(11, PLUS)));
    NumeralLevel(2, input, AtNumber(12, 1.0), At(12, EOF));
    LoopStep(1, input, 1.0, At(11, PLUS), AtNumber(12, 1.0), Evaluated(1.0, At(12, EOF)));
    LoopExit(1, input, 2.0, At(12, EOF));
    EvaluateVia(input, AtNumber(1, 9.0), Evaluated(2.0, At(12, EOF)));
  }

  // ---------------------------------------------------------------------
  // (2*(15/((4+5)-(8*(2+1))))), its negation and its unclosed variant

  /** The characters "(2*(15/((4+5)-(8*(2+1))))" from `q` on: the nested
      expression without its last `)`. */
  predicate Core(input: seq<char>, q: nat) {
    q + 25 <= |input| &&
    input[q] == '(' && input[q + 1] == '2' && input[q + 2] == '*' && input[q + 3] == '(' &&
    input[q + 4] == '1' && input[q + 5] == '5' && input[q + 6] == '/' && input[q + 7] == '(' &&
    input[q + 8] == '(' && input[q + 9] == '4' && input[q + 10] == '+' && input[q + 11] == '5' &&
    input[q + 12] == ')' && input[q + 13] == '-' && input[q + 14] == '(' && input[q + 15] == '8' &&
    input[q + 16] == '*' && input[q + 17] == '(' && input[q + 18] == '2' && input[q + 19] == '+' &&
    input[q + 20] == '1' && input[q + 21] == ')' && input[q + 22] == ')' && input[q + 23] == ')' &&
    input[q + 24] == ')'
  }

  /** (2+1), read from its `(`. */
  lemma GroupA(input: seq<char>, q: nat)
    requires Core(input, q)
    ensures Level(5, input, At(q + 18, LPAR)) == Ok(Evaluated(3.0, At(q + 23, RPAR)))
  {
    Digit(input, q + 18, q + 19, '2', 2.0, LPAR);
    OperatorAfter(input, q + 19, q + 20, 2.0, PLUS);
    Digit(input, q + 20, q + 21, '1', 1.0, PLUS);
    OperatorAfter(input, q + 21, q + 22, 1.0, RPAR);
    ConsumeSymbol(input, q + 22, q + 23, RPAR, RPAR);
    NumeralLevel(5, input, AtNumber(q + 19, 2.0), At(q + 20, PLUS));
    NumeralLevel(5, input, AtNumber(q + 21, 1.0), At(q + 22, RPAR));
    GroupedPair(input, At(q + 18, LPAR), AtNumber(q + 19, 2.0), 2.0, At(q + 20, PLUS), AtNumber(q + 21, 1.0), 1.0,
                At(q + 22, RPAR), At(q + 23, RPAR));
  }

  /** (8*(2+1)): a numeral times a group. */
  lemma GroupB(input: seq<char>, q: nat)
    requires Core(input, q)
    ensures Level(5, input, At(q + 15, LPAR)) == Ok(Evaluated(24.0, At(q + 24, RPAR)))
  {
    GroupA(input, q);
    Digit(input, q + 15, q + 16, '8', 8.0, LPAR);
    OperatorAfter(input, q + 16, q + 17, 8.0, MUL);
    ConsumeSymbol(input, q + 17, q + 18, MUL, LPAR);
    ConsumeSymbol(input, q + 23, q + 24, RPAR, RPAR);
    NumeralLevel(5, input, AtNumber(q + 16, 8.0), At(q + 17, MUL));
    GroupedPair(input, At(q + 15, LPAR), AtNumber(q + 16, 8.0), 8.0, At(q + 17, MUL), At(q + 18, LPAR), 3.0,
                At(q + 23, RPAR), At(q + 24, RPAR));
  }

  /** (4+5). */
  lemma GroupC(input: seq<char>, q: nat)
    requires Core(input, q)
    ensures Level(5, input, At(q + 9, LPAR)) == Ok(Evaluated(9.0, At(q + 14, MINUS)))
  {
    Digit(input, q + 9, q + 10, '4', 4.0, LPAR);
    OperatorAfter(input, q + 10, q + 11, 4.0, PLUS);
    Digit(input, q + 11, q + 12, '5', 5.0, PLUS);
    OperatorAfter(input, q + 12, q + 13, 5.0, RPAR);
    ConsumeSymbol(input, q + 13, q + 14, RPAR, MINUS);
    NumeralLevel(5, input, AtNumber(q + 10, 4.0), At(q + 11, PLUS));
    NumeralLevel(5, input, AtNumber(q + 12, 5.0), At(q + 13, RPAR));
    GroupedPair(input, At(q + 9, LPAR), AtNumber(q + 10, 4.0), 4.0, At(q + 11, PLUS), AtNumber(q + 12, 5.0), 5.0,
                At(q + 13, RPAR), At(q + 14, MINUS));
  }

  /** ((4+5)-(8*(2+1))): a group minus a group. */
  lemma GroupD(input: seq<char>, q: nat)
    requires Core(input, q)
    ensures Level(5, input, At(q + 8, LPAR)) == Ok(Evaluated(-15.0, At(q + 25, RPAR)))
  {
    GroupB(input, q);
    GroupC(input, q);
    ConsumeSymbol(input, q + 8, q + 9, LPAR, LPAR);
    ConsumeSymbol(input, q + 14, q + 15, MINUS, LPAR);
    ConsumeSymbol(input, q + 24, q + 25, RPAR, RPAR);
    GroupedPair(input, At(q + 8, LPAR), At(q + 9, LPAR), 9.0, At(q + 14, MINUS), At(q + 15, LPAR), 24.0,
                At(q + 24, RPAR), At(q + 25, RPAR));
  }

  /** Inside the outermost group: 2*(15/(...)) is -2 and stops on what
      follows the 25 characters, a `)` or the end of the input. */
  lemma CoreValue(input: seq<char>, q: nat, after: PState)
    requires Core(input, q) && Consume(input, At(q + 25, RPAR)) == Ok(after) && Tier(after.symbol) == 0
    ensures Consume(input, At(q + 1, LPAR)) == Ok(AtNumber(q + 2, 2.0))
    ensures Level(1, input, AtNumber(q + 2, 2.0)) == Ok(Evaluated(-2.0, after))
  {
    GroupD(input, q);
    Digit(input, q + 1, q + 2, '2', 2.0, LPAR);
    OperatorAfter(input, q + 2, q + 3, 2.0, MUL);
    ConsumeSymbol(input, q + 3, q + 4, MUL, LPAR);
    Fifteen(input, q + 4, q + 6, LPAR);
    OperatorAfter(input, q + 6, q + 7, 15.0, DIV);
    ConsumeSymbol(input, q + 7, q + 8, DIV, LPAR);
    NumeralLevel(5, input, AtNumber(q + 6, 15.0), At(q + 7, DIV));
    GroupedPair(input, At(q + 4, LPAR), AtNumber(q + 6, 15.0), 15.0, At(q + 7, DIV), At(q + 8, LPAR), -15.0,
                At(q + 25, RPAR), after);
    NumeralLevel(5, input, AtNumber(q + 2, 2.0), At(q + 3, MUL));
    PairLevel(1, input, AtNumber(q + 2, 2.0), 2.0, At(q + 3, MUL), At(q + 4, LPAR), -1.0, after);
  }

  /** Inner groups are evaluated before outer ones: 2*(15/(9-24)). */
  lemma NestedGroups()
    ensures Evaluate("(2*(15/((4+5)-(8*(2+1)))))") == Ok(-2.0)
  {
    var input := "(2*(15/((4+5)-(8*(2+1)))))";
    NestedText(input);
    ParseNestedGroups(input);
  }

  lemma NestedText(input: seq<char>)
    requires input == "(2*(15/((4+5)-(8*(2+1)))))"
    ensures |input| == 26 && Core(input, 0) && input[25] == ')'
  {
    assert input == "(2*(15/(" + "(4+5)-(8" + "*(2+1)))))";
  }

  lemma ParseNestedGroups(input: seq<char>)
    requires |input| == 26 && Core(input, 0) && input[25] == ')'
    ensures Evaluate(input) == Ok(-2.0)
  {
    ConsumeSymbol(input, 0, 1, EOF, LPAR);
    ConsumeSymbol(input, 25, 26, RPAR, RPAR);
    ConsumeEndAt(input, 26, RPAR);
    CoreValue(input, 0, At(26, RPAR));
    GroupOperand(input, At(1, LPAR), AtNumber(2, 2.0), Evaluated(-2.0, At(26, RPAR)), At(26, EOF));
    OperandLevel(1, input, At(1, LPAR), Evaluated(-2.0, At(26, EOF)));
    EvaluateVia(input, At(1, LPAR), Evaluated(-2.0, At(26, EOF)));
  }

  /** A minus before the outermost group negates all of it. */
  lemma NegatedNestedGroups()
    ensures Evaluate("-(2*(15/((4+5)-(8*(2+1)))))") == Ok(2.0)
  {
    var input := "-(2*(15/((4+5)-(8*(2+1)))))";
    NegatedNestedText(input);
    ParseNegatedNestedGroups(input);
  }

  lemma NegatedNestedText(input: seq<char>)
    requires input == "-(2*(15/((4+5)-(8*(2+1)))))"
    ensures |input| == 27 && input[0] == '-' && Core(input, 1) && input[26] == ')'
  {
    assert input == "-(2*(15/" + "((4+5)-(" + "8*(2+1)))))";
  }

  lemma ParseNegatedNestedGroups(input: seq<char>)
    requires |input| == 27 && input[0] == '-' && Core(input, 1) && input[26] == ')'
    ensures Evaluate(input) == Ok(2.0)
  {
    ConsumeSymbol(input, 0, 1, EOF, MINUS);
    ConsumeSymbol(input, 1, 2, MINUS, LPAR);
    ConsumeSymbol(input, 26, 27, RPAR, RPAR);
    ConsumeEndAt(input, 27, RPAR);
    CoreValue(input, 1, At(27, RPAR));
    GroupOperand(input, At(2, LPAR), AtNumber(3, 2.0), Evaluated(-2.0, At(27, RPAR)), At(27, EOF));
    NegatedOperand(input, At(1, MINUS), At(2, LPAR), Evaluated(-2.0, At(27, EOF)));
    OperandLevel(1, input, At(1, MINUS), Evaluated(2.0, At(27, EOF)));
    EvaluateVia(input, At(1, MINUS), Evaluated(2.0, At(27, EOF)));
  }

  /** The same expression with its last `)` missing: every inner group is
      closed, the outermost one is not. */
  lemma UnclosedNestedGroups()
    ensures Evaluate("(2*(15/((4+5)-(8*(2+1))))") == Err(NoMatchingParenthesis)
  {
    var input := "(2*(15/((4+5)-(8*(2+1))))";
    UnclosedNestedText(input);
    ParseUnclosedNestedGroups(input);
  }

  lemma UnclosedNestedText(input: seq<char>)
    requires input == "(2*(15/((4+5)-(8*(2+1))))"
    ensures |input| == 25 && Core(input, 0)
  {
    assert input == "(2*(15/(" + "(4+5)-(8" + "*(2+1))))";
  }

  lemma ParseUnclosedNestedGroups(input: seq<char>)
    requires |input| == 25 && Core(input, 0)
    ensures Evaluate(input) == Err(NoMatchingParenthesis)
  {
    ConsumeSymbol(input, 0, 1, EOF, LPAR);
    ConsumeEndAt(input, 25, RPAR);
    CoreValue(input, 0, At(25, EOF));
    UnclosedOperand(input, At(1, LPAR), AtNumber(2, 2.0), Evaluated(-2.0, At(25, EOF)));
    ErrorLevel(1, 5, input, At(1, LPAR), NoMatchingParenthesis);
    EvaluateFails(input, At(1, LPAR), NoMatchingParenthesis);
  }
}
