/** What the whole pipeline, lexer and parser together, computes on small
    inputs built from numerals (non-empty runs of ASCII digits), for every
    choice of numerals and operators: which operator is applied to which
    operands in which order, and which failure is reported. */
module Properties {
  import opened Tokens
  import opened Scanner
  import opened Grammar
  import opened Precedence
  import Doubles

  predicate IsNumeral(a: seq<char>) {
    |a| > 0 && AllDigits(a)
  }

  /** The parser's state once the lexer has returned `t` and stands at `p`
      with the value and the counter reset. */
  function At(p: nat, t: Token): PState {
    PState(LexState(p, 0.0, 0), t)
  }

  /** The parser's state right after the lexer has read a numeral worth `v`
      that ends just before `p`. */
  function AtNumber(p: nat, v: real): PState {
    PState(LexState(p, v, 0), NUMBER)
  }

  /** No digit continues a run that ends at `p`. */
  predicate Boundary(input: seq<char>, p: nat) {
    p == |input| || (p < |input| && !IsDigit(input[p]))
  }

  // ---------------------------------------------------------------------
  // The lexer on numerals, operators and decimal points

  lemma {:induction false} RunEndAt(input: seq<char>, pos: nat, e: nat)
    requires pos <= e <= |input| && Boundary(input, e)
    requires forall i :: pos <= i < e ==> IsDigit(input[i])
    ensures RunEnd(input, pos) == e
    decreases e - pos
  {
    if pos < e {
      RunEndAt(input, pos + 1, e);
    }
  }

  /** The digit run at `q` is exactly the numeral `a`, ending at `e`. */
  lemma RunIs(input: seq<char>, q: nat, e: nat, a: seq<char>)
    requires IsNumeral(a) && e == q + |a| <= |input| && input[q..e] == a
    requires Boundary(input, e)
    ensures IsDigit(input[q]) && RunEnd(input, q) == e
  {
    forall i | q <= i < e
      ensures IsDigit(input[i])
    {
      assert input[i] == a[i - q];
    }
    RunEndAt(input, q, e);
    assert input[q] == a[0];
  }

  /** A numeral `a` from `q` to `e` with no dot before it is read as one
      NUMBER worth its base-10 value. */
  lemma ConsumeNumeral(input: seq<char>, q: nat, e: nat, a: seq<char>, before: Token)
    requires IsNumeral(a) && e == q + |a| <= |input| && input[q..e] == a
    requires Boundary(input, e)
    ensures Consume(input, At(q, before)) == Ok(AtNumber(e, DecimalValue(a)))
  {
    RunIs(input, q, e, a);
    StepIntegerRun(input, LexState(q, 0.0, 0), e, a);
  }

  /** A numeral `b` from `q` to `e` read after a dot: NUMBER worth its
      digits as the fractional digits from the first place after the
      point. */
  lemma ConsumeFraction(input: seq<char>, q: nat, e: nat, b: seq<char>)
    requires IsNumeral(b) && e == q + |b| <= |input| && input[q..e] == b
    requires Boundary(input, e)
    ensures Consume(input, PState(LexState(q, 0.0, 1), DOT)) == Ok(AtNumber(e, FractionValue(b, 1)))
  {
    StepFraction(input, q, e, b);
  }

  lemma StepFraction(input: seq<char>, q: nat, e: nat, b: seq<char>)
    requires IsNumeral(b) && e == q + |b| <= |input| && input[q..e] == b
    requires Boundary(input, e)
    ensures Step(input, LexState(q, 0.0, 1)) == Ok((NUMBER, LexState(e, FractionValue(b, 1), 0)))
  {
    RunIs(input, q, e, b);
    StepFractionRun(input, LexState(q, 0.0, 1), e, b, 1);
  }

  /** The operator at `p` becomes the symbol. */
  lemma ConsumeOperator(input: seq<char>, p: nat, v: real, before: Token, t: Token)
    requires p < |input| && Operator(input[p]) == Some(t)
    ensures Consume(input, PState(LexState(p, v, 0), before)) == Ok(At(p + 1, t))
  {
  }

  /** `ConsumeOperator` from a state written with `At`, with the end
      position named by the caller. Proofs that go on from `At(q, t)` then
      meet the very term they need, without arithmetic on positions or
      unfolding `At`, which keeps long token-by-token proofs cheap. */
  lemma ConsumeSymbol(input: seq<char>, p: nat, q: nat, before: Token, t: Token)
    requires q == p + 1 <= |input| && Operator(input[p]) == Some(t)
    ensures Consume(input, At(p, before)) == Ok(At(q, t))
  {
    ConsumeOperator(input, p, 0.0, before, t);
  }

  /** A decimal point at `p` gives DOT and starts the counter. */
  lemma ConsumeDecimalPoint(input: seq<char>, p: nat, v: real)
    requires p < |input| && IsDecimalPoint(input[p])
    ensures Consume(input, AtNumber(p, v)) == Ok(PState(LexState(p + 1, 0.0, 1), DOT))
  {
  }

  /** At the end of the input the symbol becomes EOF. */
  lemma ConsumeEnd(input: seq<char>, v: real, before: Token)
    ensures Consume(input, PState(LexState(|input|, v, 0), before)) == Ok(At(|input|, EOF))
  {
  }

  /** `ConsumeEnd` from a state written with `At`, at a position named by
      the caller rather than as `|input|`, for the same reason as
      `ConsumeSymbol`. */
  lemma ConsumeEndAt(input: seq<char>, p: nat, before: Token)
    requires p == |input|
    ensures Consume(input, At(p, before)) == Ok(At(p, EOF))
  {
  }

  /** A character that is no token stops the lexer with UnknownSymbol. */
  lemma ConsumeUnknown(input: seq<char>, p: nat, v: real, before: Token)
    requires p < |input| && input[p] != EndMarker && Operator(input[p]).None?
    requires !IsDecimalPoint(input[p]) && !IsDigit(input[p])
    ensures Consume(input, PState(LexState(p, v, 0), before)) == Err(UnknownSymbol)
  {
  }

  // ---------------------------------------------------------------------
  // From the first level to the whole statement

  lemma EvaluateVia(input: seq<char>, s0: PState, e: Evaluated)
    requires Consume(input, At(0, EOF)) == Ok(s0) && Level(1, input, s0) == Ok(e)
    ensures Evaluate(input) == Ok(e.value)
  {
  }

  lemma EvaluateFails(input: seq<char>, s0: PState, err: Error)
    requires Consume(input, At(0, EOF)) == Ok(s0) && Level(1, input, s0) == Err(err)
    ensures Evaluate(input) == Err(err)
  {
  }

  // ---------------------------------------------------------------------
  // Numerals joined by binary operators

  /** A numeral on its own evaluates to its base-10 value. */
  lemma OneNumeral(a: seq<char>)
    requires IsNumeral(a)
    ensures Evaluate(a) == Ok(DecimalValue(a))
  {
    var s0, s1 := AtNumber(|a|, DecimalValue(a)), At(|a|, EOF);
    assert a[0..|a|] == a;
    ConsumeNumeral(a, 0, |a|, a, EOF);
    ConsumeEnd(a, DecimalValue(a), NUMBER);
    NumeralLevel(1, a, s0, s1);
    EvaluateVia(a, s0, Evaluated(DecimalValue(a), s1));
  }

  /** a o b applies the operator `o` to the two values. */
  lemma TwoOperands(a: seq<char>, o: char, t: Token, b: seq<char>)
    requires IsNumeral(a) && IsNumeral(b) && Operator(o) == Some(t) && IsBinary(t)
    ensures Evaluate(a + [o] + b) == Ok(Apply(t, DecimalValue(a), DecimalValue(b)))
  {
    var input := a + [o] + b;
    var p := |a|;
    assert input[0..p] == a && input[p] == o && input[p + 1..|input|] == b;
    TwoOperandsAt(input, a, t, b, p);
  }

  lemma TwoOperandsAt(input: seq<char>, a: seq<char>, t: Token, b: seq<char>, p: nat)
    requires IsNumeral(a) && IsNumeral(b) && IsBinary(t)
    requires p == |a| && p + 1 + |b| == |input|
    requires input[0..p] == a && Operator(input[p]) == Some(t) && input[p + 1..|input|] == b
    ensures Evaluate(input) == Ok(Apply(t, DecimalValue(a), DecimalValue(b)))
  {
    NumeralThenOperator(input, 0, a, EOF, p, t);
    NumeralThenEnd(input, p + 1, b, t);
    ParseTwo(input, p, DecimalValue(a), DecimalValue(b), t);
  }

  /** The parse of x t y once the lexer has delivered its tokens. */
  lemma ParseTwo(input: seq<char>, p: nat, x: real, y: real, t: Token)
    requires p < |input| && IsBinary(t)
    requires Consume(input, At(0, EOF)) == Ok(AtNumber(p, x))
    requires Consume(input, AtNumber(p, x)) == Ok(At(p + 1, t))
    requires Consume(input, At(p + 1, t)) == Ok(AtNumber(|input|, y))
    requires Consume(input, AtNumber(|input|, y)) == Ok(At(|input|, EOF))
    ensures Evaluate(input) == Ok(Apply(t, x, y))
  {
    NumeralLevel(5, input, AtNumber(p, x), At(p + 1, t));
    NumeralLevel(5, input, AtNumber(|input|, y), At(|input|, EOF));
    PairLevel(1, input, AtNumber(p, x), x, At(p + 1, t), AtNumber(|input|, y), y, At(|input|, EOF));
    EvaluateVia(input, AtNumber(p, x), Evaluated(Apply(t, x, y), At(|input|, EOF)));
  }

  /** a o1 b o2 c groups as the precedence table says: the operator of the
      higher tier first, and from the left on equal tiers. */
  lemma ThreeOperands(a: seq<char>, o1: char, t1: Token, b: seq<char>, o2: char, t2: Token, c: seq<char>)
    requires IsNumeral(a) && IsNumeral(b) && IsNumeral(c)
    requires Operator(o1) == Some(t1) && IsBinary(t1) && Operator(o2) == Some(t2) && IsBinary(t2)
    ensures Evaluate(a + [o1] + b + [o2] + c) ==
            Ok(Combine(t1, t2, DecimalValue(a), DecimalValue(b), DecimalValue(c)))
  {
    var input := a + [o1] + b + [o2] + c;
    var (p1, p2) := (|a|, |a| + 1 + |b|);
    assert input[0..p1] == a && input[p1] == o1;
    assert input[p1 + 1..p2] == b && input[p2] == o2;
    assert input[p2 + 1..|input|] == c;
    ThreeOperandsAt(input, a, t1, b, t2, c, p1, p2);
  }

  lemma ThreeOperandsAt(input: seq<char>, a: seq<char>, t1: Token, b: seq<char>, t2: Token, c: seq<char>, p1: nat, p2: nat)
    requires IsNumeral(a) && IsNumeral(b) && IsNumeral(c) && IsBinary(t1) && IsBinary(t2)
    requires p1 == |a| && p2 == p1 + 1 + |b| && p2 + 1 + |c| == |input|
    requires input[0..p1] == a && Operator(input[p1]) == Some(t1)
    requires input[p1 + 1..p2] == b && Operator(input[p2]) == Some(t2)
    requires input[p2 + 1..|input|] == c
    ensures Evaluate(input) == Ok(Combine(t1, t2, DecimalValue(a), DecimalValue(b), DecimalValue(c)))
  {
    NumeralThenOperator(input, 0, a, EOF, p1, t1);
    NumeralThenOperator(input, p1 + 1, b, t1, p2, t2);
    NumeralThenEnd(input, p2 + 1, c, t2);
    ParseThree(input, p1, p2, DecimalValue(a), DecimalValue(b), DecimalValue(c), t1, t2);
  }

  /** The parse of x t1 y t2 z once the lexer has delivered its tokens. */
  lemma ParseThree(input: seq<char>, p1: nat, p2: nat, x: real, y: real, z: real, t1: Token, t2: Token)
    requires p1 < p2 < |input| && IsBinary(t1) && IsBinary(t2)
    requires Consume(input, At(0, EOF)) == Ok(AtNumber(p1, x))
    requires Consume(input, AtNumber(p1, x)) == Ok(At(p1 + 1, t1))
    requires Consume(input, At(p1 + 1, t1)) == Ok(AtNumber(p2, y))
    requires Consume(input, AtNumber(p2, y)) == Ok(At(p2 + 1, t2))
    requires Consume(input, At(p2 + 1, t2)) == Ok(AtNumber(|input|, z))
    requires Consume(input, AtNumber(|input|, z)) == Ok(At(|input|, EOF))
    ensures Evaluate(input) == Ok(Combine(t1, t2, x, y, z))
  {
    NumeralLevel(5, input, AtNumber(p1, x), At(p1 + 1, t1));
    NumeralLevel(5, input, AtNumber(p2, y), At(p2 + 1, t2));
    NumeralLevel(5, input, AtNumber(|input|, z), At(|input|, EOF));
    TripleLevel(1, input, AtNumber(p1, x), x, At(p1 + 1, t1), AtNumber(p2, y), y, At(p2 + 1, t2),
                AtNumber(|input|, z), z, At(|input|, EOF));
    EvaluateVia(input, AtNumber(p1, x), Evaluated(Combine(t1, t2, x, y, z), At(|input|, EOF)));
  }

  /** A numeral at `q` and the operator right after it. */
  lemma NumeralThenOperator(input: seq<char>, q: nat, a: seq<char>, before: Token, p: nat, t: Token)
    requires IsNumeral(a) && p == q + |a| < |input| && input[q..p] == a && Operator(input[p]) == Some(t)
    ensures Consume(input, At(q, before)) == Ok(AtNumber(p, DecimalValue(a)))
    ensures Consume(input, AtNumber(p, DecimalValue(a))) == Ok(At(p + 1, t))
  {
    ConsumeNumeral(input, q, p, a, before);
    ConsumeOperator(input, p, DecimalValue(a), NUMBER, t);
  }

  /** A numeral at `q` that ends the input, and the EOF after it. */
  lemma NumeralThenEnd(input: seq<char>, q: nat, a: seq<char>, before: Token)
    requires IsNumeral(a) && q + |a| == |input| && input[q..|input|] == a
    ensures Consume(input, At(q, before)) == Ok(AtNumber(|input|, DecimalValue(a)))
    ensures Consume(input, AtNumber(|input|, DecimalValue(a))) == Ok(At(|input|, EOF))
  {
    ConsumeNumeral(input, q, |input|, a, before);
    ConsumeEnd(input, DecimalValue(a), NUMBER);
  }

  // ---------------------------------------------------------------------
  // Decimal numbers

  /** a.b (or a,b) is the integer part plus the fractional digits. */
  lemma DecimalNumber(a: seq<char>, d: char, b: seq<char>)
    requires IsNumeral(a) && IsNumeral(b) && IsDecimalPoint(d)
    ensures Evaluate(a + [d] + b) == Ok(Doubles.Add(DecimalValue(a), FractionValue(b, 1)))
  {
    var input := a + [d] + b;
    assert input[0..|a|] == a && input[|a|] == d && input[|a| + 1..|input|] == b;
    DecimalNumberAt(input, a, b, |a|);
  }

  lemma DecimalNumberAt(input: seq<char>, a: seq<char>, b: seq<char>, p: nat)
    requires IsNumeral(a) && IsNumeral(b) && p == |a| && p + 1 + |b| == |input|
    requires input[0..p] == a && IsDecimalPoint(input[p]) && input[p + 1..|input|] == b
    ensures Evaluate(input) == Ok(Doubles.Add(DecimalValue(a), FractionValue(b, 1)))
  {
    ConsumeNumeral(input, 0, p, a, EOF);
    ConsumeDecimalPoint(input, p, DecimalValue(a));
    ConsumeFraction(input, p + 1, |input|, b);
    ConsumeEnd(input, FractionValue(b, 1), NUMBER);
    ParseDecimal(input, p, DecimalValue(a), FractionValue(b, 1));
  }

  /** The state after a decimal point at `p - 1`. */
  function AfterPoint(p: nat): PState {
    PState(LexState(p, 0.0, 1), DOT)
  }

  lemma ParseDecimal(input: seq<char>, p: nat, x: real, f: real)
    requires p < |input|
    requires Consume(input, At(0, EOF)) == Ok(AtNumber(p, x))
    requires Consume(input, AtNumber(p, x)) == Ok(AfterPoint(p + 1))
    requires Consume(input, AfterPoint(p + 1)) == Ok(AtNumber(|input|, f))
    requires Consume(input, AtNumber(|input|, f)) == Ok(At(|input|, EOF))
    ensures Evaluate(input) == Ok(Doubles.Add(x, f))
  {
    var e := Evaluated(Doubles.Add(x, f), At(|input|, EOF));
    assert Level(5, input, AtNumber(p, x)) == Ok(e);
    OperandLevel(1, input, AtNumber(p, x), e);
    EvaluateVia(input, AtNumber(p, x), e);
  }

  /** A second decimal point right after the fractional digits fails the
      parse, whatever follows it. */
  lemma TwoDecimalPoints(a: seq<char>, d1: char, b: seq<char>, d2: char, rest: seq<char>)
    requires IsNumeral(a) && IsNumeral(b) && IsDecimalPoint(d1) && IsDecimalPoint(d2)
    ensures Evaluate(a + [d1] + b + [d2] + rest) == Err(TwoDots)
  {
    var input := a + [d1] + b + [d2] + rest;
    var (p1, p2) := (|a|, |a| + 1 + |b|);
    assert input[0..p1] == a && input[p1] == d1;
    assert input[p1 + 1..p2] == b && input[p2] == d2;
    TwoDecimalPointsAt(input, a, b, p1, p2);
  }

  lemma TwoDecimalPointsAt(input: seq<char>, a: seq<char>, b: seq<char>, p1: nat, p2: nat)
    requires IsNumeral(a) && IsNumeral(b) && p1 == |a| && p2 == p1 + 1 + |b| < |input|
    requires input[0..p1] == a && IsDecimalPoint(input[p1])
    requires input[p1 + 1..p2] == b && IsDecimalPoint(input[p2])
    ensures Evaluate(input) == Err(TwoDots)
  {
    ConsumeNumeral(input, 0, p1, a, EOF);
    ConsumeDecimalPoint(input, p1, DecimalValue(a));
    ConsumeFraction(input, p1 + 1, p2, b);
    ConsumeDecimalPoint(input, p2, FractionValue(b, 1));
    ParseTwoDots(input, p1, p2, DecimalValue(a), FractionValue(b, 1));
  }

  lemma ParseTwoDots(input: seq<char>, p1: nat, p2: nat, x: real, f: real)
    requires p1 < p2 < |input|
    requires Consume(input, At(0, EOF)) == Ok(AtNumber(p1, x))
    requires Consume(input, AtNumber(p1, x)) == Ok(AfterPoint(p1 + 1))
    requires Consume(input, AfterPoint(p1 + 1)) == Ok(AtNumber(p2, f))
    requires Consume(input, AtNumber(p2, f)) == Ok(AfterPoint(p2 + 1))
    ensures Evaluate(input) == Err(TwoDots)
  {
    assert Level(5, input, AtNumber(p1, x)) == Err(TwoDots);
    ErrorLevel(1, 5, input, AtNumber(p1, x), TwoDots);
    EvaluateFails(input, AtNumber(p1, x), TwoDots);
  }

  // ---------------------------------------------------------------------
  // Groups and unary minus

  /** (a) is worth a, and the closing parenthesis is consumed. */
  lemma Parenthesised(a: seq<char>)
    requires IsNumeral(a)
    ensures Evaluate("(" + a + ")") == Ok(DecimalValue(a))
  {
    var input := "(" + a + ")";
    assert input[0] == '(' && input[1..1 + |a|] == a && input[1 + |a|] == ')';
    ParenthesisedAt(input, a, 1 + |a|);
  }

  lemma ParenthesisedAt(input: seq<char>, a: seq<char>, p: nat)
    requires IsNumeral(a) && p == 1 + |a| && p + 1 == |input|
    requires input[0] == '(' && input[1..p] == a && input[p] == ')'
    ensures Evaluate(input) == Ok(DecimalValue(a))
  {
    ConsumeOperator(input, 0, 0.0, EOF, LPAR);
    ConsumeNumeral(input, 1, p, a, LPAR);
    ConsumeOperator(input, p, DecimalValue(a), NUMBER, RPAR);
    ConsumeEnd(input, 0.0, RPAR);
    ParseParenthesised(input, p, DecimalValue(a));
  }

  lemma ParseParenthesised(input: seq<char>, p: nat, x: real)
    requires p + 1 == |input|
    requires Consume(input, At(0, EOF)) == Ok(At(1, LPAR))
    requires Consume(input, At(1, LPAR)) == Ok(AtNumber(p, x))
    requires Consume(input, AtNumber(p, x)) == Ok(At(p + 1, RPAR))
    requires Consume(input, At(p + 1, RPAR)) == Ok(At(|input|, EOF))
    ensures Evaluate(input) == Ok(x)
  {
    NumeralLevel(1, input, AtNumber(p, x), At(p + 1, RPAR));
    var e := Evaluated(x, At(|input|, EOF));
    assert Level(5, input, At(1, LPAR)) == Ok(e);
    OperandLevel(1, input, At(1, LPAR), e);
    EvaluateVia(input, At(1, LPAR), e);
  }

  /** A group that the input ends inside fails. */
  lemma Unclosed(a: seq<char>)
    requires IsNumeral(a)
    ensures Evaluate("(" + a) == Err(NoMatchingParenthesis)
  {
    var input := "(" + a;
    assert input[0] == '(' && input[1..|input|] == a;
    UnclosedAt(input, a);
  }

  lemma UnclosedAt(input: seq<char>, a: seq<char>)
    requires IsNumeral(a) && 1 + |a| == |input| && input[0] == '(' && input[1..|input|] == a
    ensures Evaluate(input) == Err(NoMatchingParenthesis)
  {
    ConsumeOperator(input, 0, 0.0, EOF, LPAR);
    NumeralThenEnd(input, 1, a, LPAR);
    ParseUnclosed(input, DecimalValue(a));
  }

  lemma ParseUnclosed(input: seq<char>, x: real)
    requires 1 <= |input|
    requires Consume(input, At(0, EOF)) == Ok(At(1, LPAR))
    requires Consume(input, At(1, LPAR)) == Ok(AtNumber(|input|, x))
    requires Consume(input, AtNumber(|input|, x)) == Ok(At(|input|, EOF))
    ensures Evaluate(input) == Err(NoMatchingParenthesis)
  {
    NumeralLevel(1, input, AtNumber(|input|, x), At(|input|, EOF));
    assert Level(5, input, At(1, LPAR)) == Err(NoMatchingParenthesis);
    ErrorLevel(1, 5, input, At(1, LPAR), NoMatchingParenthesis);
    EvaluateFails(input, At(1, LPAR), NoMatchingParenthesis);
  }

  /** -a is the negation of a. */
  lemma Negation(a: seq<char>)
    requires IsNumeral(a)
    ensures Evaluate("-" + a) == Ok(Doubles.Neg(DecimalValue(a)))
  {
    var input := "-" + a;
    assert input[0] == '-' && input[1..|input|] == a;
    NegationAt(input, a);
  }

  lemma NegationAt(input: seq<char>, a: seq<char>)
    requires IsNumeral(a) && 1 + |a| == |input| && input[0] == '-' && input[1..|input|] == a
    ensures Evaluate(input) == Ok(Doubles.Neg(DecimalValue(a)))
  {
    ConsumeOperator(input, 0, 0.0, EOF, MINUS);
    NumeralThenEnd(input, 1, a, MINUS);
    ParseNegation(input, DecimalValue(a));
  }

  lemma ParseNegation(input: seq<char>, x: real)
    requires 1 <= |input|
    requires Consume(input, At(0, EOF)) == Ok(At(1, MINUS))
    requires Consume(input, At(1, MINUS)) == Ok(AtNumber(|input|, x))
    requires Consume(input, AtNumber(|input|, x)) == Ok(At(|input|, EOF))
    ensures Evaluate(input) == Ok(Doubles.Neg(x))
  {
    NumeralLevel(5, input, AtNumber(|input|, x), At(|input|, EOF));
    var e := Evaluated(Doubles.Neg(x), At(|input|, EOF));
    assert Level(5, input, At(1, MINUS)) == Ok(e);
    OperandLevel(1, input, At(1, MINUS), e);
    EvaluateVia(input, At(1, MINUS), e);
  }

  /** The four `consume()` steps inside a group `(x t y)` whose `(` has
      just been read, up to its `)`. */
  predicate GroupSteps(input: seq<char>, r: nat, p1: nat, p2: nat, x: real, t: Token, y: real) {
    r <= p1 < p2 < |input| &&
    Consume(input, At(r, LPAR)) == Ok(AtNumber(p1, x)) &&
    Consume(input, AtNumber(p1, x)) == Ok(At(p1 + 1, t)) &&
    Consume(input, At(p1 + 1, t)) == Ok(AtNumber(p2, y)) &&
    Consume(input, AtNumber(p2, y)) == Ok(At(p2 + 1, RPAR))
  }

  /** The tokens of a group (a t b) whose `(` is at `q`. */
  lemma GroupTokens(input: seq<char>, before: Token, q: nat, r: nat, a: seq<char>, t: Token, b: seq<char>, p1: nat, p2: nat)
    requires IsNumeral(a) && IsNumeral(b) && IsBinary(t)
    requires r == q + 1 && p1 == r + |a| && p2 == p1 + 1 + |b| < |input|
    requires Operator(input[q]) == Some(LPAR) && input[r..p1] == a && Operator(input[p1]) == Some(t)
    requires input[p1 + 1..p2] == b && Operator(input[p2]) == Some(RPAR)
    ensures Consume(input, At(q, before)) == Ok(At(r, LPAR))
    ensures GroupSteps(input, r, p1, p2, DecimalValue(a), t, DecimalValue(b))
  {
    ConsumeSymbol(input, q, r, before, LPAR);
    NumeralThenOperator(input, r, a, LPAR, p1, t);
    NumeralThenOperator(input, p1 + 1, b, t, p2, RPAR);
  }

  /** A group (x t y) is an operand worth x t y, whatever follows it. */
  lemma GroupValue(input: seq<char>, r: nat, p1: nat, p2: nat, x: real, t: Token, y: real, after: PState)
    requires IsBinary(t) && GroupSteps(input, r, p1, p2, x, t, y)
    requires Consume(input, At(p2 + 1, RPAR)) == Ok(after)
    ensures Level(5, input, At(r, LPAR)) == Ok(Evaluated(Apply(t, x, y), after))
  {
    NumeralLevel(5, input, AtNumber(p1, x), At(p1 + 1, t));
    NumeralLevel(5, input, AtNumber(p2, y), At(p2 + 1, RPAR));
    PairLevel(1, input, AtNumber(p1, x), x, At(p1 + 1, t), AtNumber(p2, y), y, At(p2 + 1, RPAR));
    GroupOperand(input, At(r, LPAR), AtNumber(p1, x), Evaluated(Apply(t, x, y), At(p2 + 1, RPAR)), after);
  }

  /** a o1 (b o2 c): the group is evaluated first, whatever the tiers of
      the two operators. */
  lemma GroupRight(a: seq<char>, o1: char, t1: Token, b: seq<char>, o2: char, t2: Token, c: seq<char>)
    requires IsNumeral(a) && IsNumeral(b) && IsNumeral(c)
    requires Operator(o1) == Some(t1) && IsBinary(t1) && Operator(o2) == Some(t2) && IsBinary(t2)
    ensures Evaluate(a + [o1] + "(" + b + [o2] + c + ")") ==
            Ok(Apply(t1, DecimalValue(a), Apply(t2, DecimalValue(b), DecimalValue(c))))
  {
    var input := a + [o1] + "(" + b + [o2] + c + ")";
    var (p1, r1) := (|a|, |a| + 2);
    var p2 := r1 + |b|;
    var p3 := p2 + 1 + |c|;
    assert input[0..p1] == a && input[p1] == o1 && input[p1 + 1] == '(';
    assert input[r1..p2] == b && input[p2] == o2;
    assert input[p2 + 1..p3] == c && input[p3] == ')';
    GroupRightAt(input, a, t1, b, t2, c, p1, r1, p2, p3);
  }

  lemma GroupRightAt(input: seq<char>, a: seq<char>, t1: Token, b: seq<char>, t2: Token, c: seq<char>,
                     p1: nat, r1: nat, p2: nat, p3: nat)
    requires IsNumeral(a) && IsNumeral(b) && IsNumeral(c) && IsBinary(t1) && IsBinary(t2)
    requires p1 == |a| && r1 == p1 + 2 && p2 == r1 + |b| && p3 == p2 + 1 + |c| && p3 + 1 == |input|
    requires input[0..p1] == a && Operator(input[p1]) == Some(t1) && Operator(input[p1 + 1]) == Some(LPAR)
    requires input[r1..p2] == b && Operator(input[p2]) == Some(t2)
    requires input[p2 + 1..p3] == c && Operator(input[p3]) == Some(RPAR)
    ensures Evaluate(input) == Ok(Apply(t1, DecimalValue(a), Apply(t2, DecimalValue(b), DecimalValue(c))))
  {
    NumeralThenOperator(input, 0, a, EOF, p1, t1);
    GroupTokens(input, t1, p1 + 1, r1, b, t2, c, p2, p3);
    ConsumeEndAt(input, p3 + 1, RPAR);
    ParseGroupRight(input, p1, r1, p2, p3, DecimalValue(a), DecimalValue(b), DecimalValue(c), t1, t2);
  }

  lemma ParseGroupRight(input: seq<char>, p1: nat, r1: nat, p2: nat, p3: nat, x: real, y: real, z: real, t1: Token, t2: Token)
    requires r1 == p1 + 2 && p3 + 1 == |input| && IsBinary(t1) && IsBinary(t2)
    requires Consume(input, At(0, EOF)) == Ok(AtNumber(p1, x))
    requires Consume(input, AtNumber(p1, x)) == Ok(At(p1 + 1, t1))
    requires Consume(input, At(p1 + 1, t1)) == Ok(At(r1, LPAR))
    requires GroupSteps(input, r1, p2, p3, y, t2, z)
    requires Consume(input, At(p3 + 1, RPAR)) == Ok(At(p3 + 1, EOF))
    ensures Evaluate(input) == Ok(Apply(t1, x, Apply(t2, y, z)))
  {
    var g := Apply(t2, y, z);
    GroupValue(input, r1, p2, p3, y, t2, z, At(p3 + 1, EOF));
    NumeralLevel(5, input, AtNumber(p1, x), At(p1 + 1, t1));
    PairLevel(1, input, AtNumber(p1, x), x, At(p1 + 1, t1), At(r1, LPAR), g, At(p3 + 1, EOF));
    EvaluateVia(input, AtNumber(p1, x), Evaluated(Apply(t1, x, g), At(p3 + 1, EOF)));
  }

  /** (a o1 b) o2 c: the group is evaluated first, whatever the tiers of
      the two operators. */
  lemma GroupLeft(a: seq<char>, o1: char, t1: Token, b: seq<char>, o2: char, t2: Token, c: seq<char>)
    requires IsNumeral(a) && IsNumeral(b) && IsNumeral(c)
    requires Operator(o1) == Some(t1) && IsBinary(t1) && Operator(o2) == Some(t2) && IsBinary(t2)
    ensures Evaluate("(" + a + [o1] + b + ")" + [o2] + c) ==
            Ok(Apply(t2, Apply(t1, DecimalValue(a), DecimalValue(b)), DecimalValue(c)))
  {
    var input := "(" + a + [o1] + b + ")" + [o2] + c;
    var (p1, p2) := (1 + |a|, 2 + |a| + |b|);
    var p4 := p2 + 2;
    assert input[0] == '(' && input[1..p1] == a && input[p1] == o1;
    assert input[p1 + 1..p2] == b && input[p2] == ')' && input[p2 + 1] == o2;
    assert input[p4..|input|] == c;
    GroupLeftAt(input, a, t1, b, t2, c, p1, p2, p4);
  }

  lemma GroupLeftAt(input: seq<char>, a: seq<char>, t1: Token, b: seq<char>, t2: Token, c: seq<char>,
                    p1: nat, p2: nat, p4: nat)
    requires IsNumeral(a) && IsNumeral(b) && IsNumeral(c) && IsBinary(t1) && IsBinary(t2)
    requires p1 == 1 + |a| && p2 == p1 + 1 + |b| && p4 == p2 + 2 && p4 + |c| == |input|
    requires Operator(input[0]) == Some(LPAR) && input[1..p1] == a && Operator(input[p1]) == Some(t1)
    requires input[p1 + 1..p2] == b && Operator(input[p2]) == Some(RPAR) && Operator(input[p2 + 1]) == Some(t2)
    requires input[p4..|input|] == c
    ensures Evaluate(input) == Ok(Apply(t2, Apply(t1, DecimalValue(a), DecimalValue(b)), DecimalValue(c)))
  {
    GroupTokens(input, EOF, 0, 1, a, t1, b, p1, p2);
    ConsumeSymbol(input, p2 + 1, p4, RPAR, t2);
    NumeralThenEnd(input, p4, c, t2);
    ParseGroupLeft(input, p1, p2, p4, DecimalValue(a), DecimalValue(b), DecimalValue(c), t1, t2);
  }

  lemma ParseGroupLeft(input: seq<char>, p1: nat, p2: nat, p4: nat, x: real, y: real, z: real, t1: Token, t2: Token)
    requires p4 == p2 + 2 && p4 < |input| && IsBinary(t1) && IsBinary(t2)
    requires Consume(input, At(0, EOF)) == Ok(At(1, LPAR))
    requires GroupSteps(input, 1, p1, p2, x, t1, y)
    requires Consume(input, At(p2 + 1, RPAR)) == Ok(At(p4, t2))
    requires Consume(input, At(p4, t2)) == Ok(AtNumber(|input|, z))
    requires Consume(input, AtNumber(|input|, z)) == Ok(At(|input|, EOF))
    ensures Evaluate(input) == Ok(Apply(t2, Apply(t1, x, y), z))
  {
    var g := Apply(t1, x, y);
    GroupValue(input, 1, p1, p2, x, t1, y, At(p4, t2));
    NumeralLevel(5, input, AtNumber(|input|, z), At(|input|, EOF));
    PairLevel(1, input, At(1, LPAR), g, At(p4, t2), AtNumber(|input|, z), z, At(|input|, EOF));
    EvaluateVia(input, At(1, LPAR), Evaluated(Apply(t2, g, z), At(|input|, EOF)));
  }

  /** -(a o b) negates the whole group. */
  lemma NegatedGroup(a: seq<char>, o: char, t: Token, b: seq<char>)
    requires IsNumeral(a) && IsNumeral(b) && Operator(o) == Some(t) && IsBinary(t)
    ensures Evaluate("-(" + a + [o] + b + ")") == Ok(Doubles.Neg(Apply(t, DecimalValue(a), DecimalValue(b))))
  {
    var input := "-(" + a + [o] + b + ")";
    var (p1, p2) := (2 + |a|, 3 + |a| + |b|);
    assert input[0] == '-' && input[1] == '(' && input[2..p1] == a && input[p1] == o;
    assert input[p1 + 1..p2] == b && input[p2] == ')';
    NegatedGroupAt(input, a, t, b, p1, p2);
  }

  lemma NegatedGroupAt(input: seq<char>, a: seq<char>, t: Token, b: seq<char>, p1: nat, p2: nat)
    requires IsNumeral(a) && IsNumeral(b) && IsBinary(t)
    requires p1 == 2 + |a| && p2 == p1 + 1 + |b| && p2 + 1 == |input|
    requires Operator(input[0]) == Some(MINUS) && Operator(input[1]) == Some(LPAR)
    requires input[2..p1] == a && Operator(input[p1]) == Some(t)
    requires input[p1 + 1..p2] == b && Operator(input[p2]) == Some(RPAR)
    ensures Evaluate(input) == Ok(Doubles.Neg(Apply(t, DecimalValue(a), DecimalValue(b))))
  {
    ConsumeSymbol(input, 0, 1, EOF, MINUS);
    GroupTokens(input, MINUS, 1, 2, a, t, b, p1, p2);
    ConsumeEndAt(input, p2 + 1, RPAR);
    ParseNegatedGroup(input, p1, p2, DecimalValue(a), DecimalValue(b), t);
  }

  lemma ParseNegatedGroup(input: seq<char>, p1: nat, p2: nat, x: real, y: real, t: Token)
    requires p2 + 1 == |input| && IsBinary(t)
    requires Consume(input, At(0, EOF)) == Ok(At(1, MINUS))
    requires Consume(input, At(1, MINUS)) == Ok(At(2, LPAR))
    requires GroupSteps(input, 2, p1, p2, x, t, y)
    requires Consume(input, At(p2 + 1, RPAR)) == Ok(At(p2 + 1, EOF))
    ensures Evaluate(input) == Ok(Doubles.Neg(Apply(t, x, y)))
  {
    var e := Evaluated(Apply(t, x, y), At(p2 + 1, EOF));
    GroupValue(input, 2, p1, p2, x, t, y, e.state);
    NegatedOperand(input, At(1, MINUS), At(2, LPAR), e);
    OperandLevel(1, input, At(1, MINUS), Evaluated(Doubles.Neg(e.value), e.state));
    EvaluateVia(input, At(1, MINUS), Evaluated(Doubles.Neg(e.value), e.state));
  }

  /** -a o b: the minus belongs to the operand alone, before any binary
      operator is applied (so "-2^2" is (-2)^2). */
  lemma NegationFirst(a: seq<char>, o: char, t: Token, b: seq<char>)
    requires IsNumeral(a) && IsNumeral(b) && Operator(o) == Some(t) && IsBinary(t)
    ensures Evaluate("-" + a + [o] + b) == Ok(Apply(t, Doubles.Neg(DecimalValue(a)), DecimalValue(b)))
  {
    var input := "-" + a + [o] + b;
    var p := 1 + |a|;
    assert input[0] == '-' && input[1..p] == a && input[p] == o && input[p + 1..|input|] == b;
    NegationFirstAt(input, a, t, b, p);
  }

  lemma NegationFirstAt(input: seq<char>, a: seq<char>, t: Token, b: seq<char>, p: nat)
    requires IsNumeral(a) && IsNumeral(b) && IsBinary(t) && p == 1 + |a| && p + 1 + |b| == |input|
    requires Operator(input[0]) == Some(MINUS) && input[1..p] == a && Operator(input[p]) == Some(t) && input[p + 1..|input|] == b
    ensures Evaluate(input) == Ok(Apply(t, Doubles.Neg(DecimalValue(a)), DecimalValue(b)))
  {
    ConsumeSymbol(input, 0, 1, EOF, MINUS);
    NumeralThenOperator(input, 1, a, MINUS, p, t);
    NumeralThenEnd(input, p + 1, b, t);
    ParseNegationFirst(input, p, DecimalValue(a), DecimalValue(b), t);
  }

  lemma ParseNegationFirst(input: seq<char>, p: nat, x: real, y: real, t: Token)
    requires 1 <= p < |input| && IsBinary(t)
    requires Consume(input, At(0, EOF)) == Ok(At(1, MINUS))
    requires Consume(input, At(1, MINUS)) == Ok(AtNumber(p, x))
    requires Consume(input, AtNumber(p, x)) == Ok(At(p + 1, t))
    requires Consume(input, At(p + 1, t)) == Ok(AtNumber(|input|, y))
    requires Consume(input, AtNumber(|input|, y)) == Ok(At(|input|, EOF))
    ensures Evaluate(input) == Ok(Apply(t, Doubles.Neg(x), y))
  {
    NumeralLevel(5, input, AtNumber(p, x), At(p + 1, t));
    NegatedOperand(input, At(1, MINUS), AtNumber(p, x), Evaluated(x, At(p + 1, t)));
    NumeralLevel(5, input, AtNumber(|input|, y), At(|input|, EOF));
    PairLevel(1, input, At(1, MINUS), Doubles.Neg(x), At(p + 1, t), AtNumber(|input|, y), y, At(|input|, EOF));
    EvaluateVia(input, At(1, MINUS), Evaluated(Apply(t, Doubles.Neg(x), y), At(|input|, EOF)));
  }

  /** --a: a minus negates an operand that is itself negated. */
  lemma DoubleNegation(a: seq<char>)
    requires IsNumeral(a)
    ensures Evaluate("--" + a) == Ok(Doubles.Neg(Doubles.Neg(DecimalValue(a))))
  {
    var input := "--" + a;
    assert input[0] == '-' && input[1] == '-' && input[2..|input|] == a;
    ConsumeSymbol(input, 0, 1, EOF, MINUS);
    ConsumeSymbol(input, 1, 2, MINUS, MINUS);
    NumeralThenEnd(input, 2, a, MINUS);
    ParseDoubleNegation(input, DecimalValue(a));
  }

  lemma ParseDoubleNegation(input: seq<char>, x: real)
    requires 2 <= |input|
    requires Consume(input, At(0, EOF)) == Ok(At(1, MINUS))
    requires Consume(input, At(1, MINUS)) == Ok(At(2, MINUS))
    requires Consume(input, At(2, MINUS)) == Ok(AtNumber(|input|, x))
    requires Consume(input, AtNumber(|input|, x)) == Ok(At(|input|, EOF))
    ensures Evaluate(input) == Ok(Doubles.Neg(Doubles.Neg(x)))
  {
    var e := Evaluated(x, At(|input|, EOF));
    NumeralLevel(5, input, AtNumber(|input|, x), At(|input|, EOF));
    NegatedOperand(input, At(2, MINUS), AtNumber(|input|, x), e);
    NegatedOperand(input, At(1, MINUS), At(2, MINUS), Evaluated(Doubles.Neg(x), e.state));
    OperandLevel(1, input, At(1, MINUS), Evaluated(Doubles.Neg(Doubles.Neg(x)), e.state));
    EvaluateVia(input, At(1, MINUS), Evaluated(Doubles.Neg(Doubles.Neg(x)), e.state));
  }

  // ---------------------------------------------------------------------
  // Failures and what is not looked at

  /** An operator with nothing after it: the expression is incomplete. */
  lemma Incomplete(a: seq<char>, o: char, t: Token)
    requires IsNumeral(a) && Operator(o) == Some(t) && IsBinary(t)
    ensures Evaluate(a + [o]) == Err(ExpressionIncomplete)
  {
    var input := a + [o];
    assert input[0..|a|] == a && input[|a|] == o;
    NumeralThenOperator(input, 0, a, EOF, |a|, t);
    ParseIncomplete(input, |a|, DecimalValue(a), t);
  }

  lemma ParseIncomplete(input: seq<char>, p: nat, x: real, t: Token)
    requires p + 1 == |input| && IsBinary(t)
    requires Consume(input, At(0, EOF)) == Ok(AtNumber(p, x))
    requires Consume(input, AtNumber(p, x)) == Ok(At(p + 1, t))
    ensures Evaluate(input) == Err(ExpressionIncomplete)
  {
    var k := Tier(t);
    var (s0, s1, s2) := (AtNumber(p, x), At(p + 1, t), At(|input|, EOF));
    ConsumeEnd(input, 0.0, t);
    assert Level(5, input, s2) == Err(ExpressionIncomplete);
    ErrorLevel(k + 1, 5, input, s2, ExpressionIncomplete);
    NumeralLevel(k + 1, input, s0, s1);
    LevelThen(k, input, s0, Evaluated(x, s1));
    LoopStepError(k, input, x, s1, s2, ExpressionIncomplete);
    ErrorLevel(1, k, input, s0, ExpressionIncomplete);
    EvaluateFails(input, s0, ExpressionIncomplete);
  }

  /** Two operands and an operator after each: the second operator has
      nothing after it, whatever the tiers. */
  lemma IncompleteAfterTwo(a: seq<char>, o1: char, t1: Token, b: seq<char>, o2: char, t2: Token)
    requires IsNumeral(a) && IsNumeral(b)
    requires Operator(o1) == Some(t1) && IsBinary(t1) && Operator(o2) == Some(t2) && IsBinary(t2)
    ensures Evaluate(a + [o1] + b + [o2]) == Err(ExpressionIncomplete)
  {
    var input := a + [o1] + b + [o2];
    var (p1, p2) := (|a|, |a| + 1 + |b|);
    assert input[0..p1] == a && input[p1] == o1;
    assert input[p1 + 1..p2] == b && input[p2] == o2;
    NumeralThenOperator(input, 0, a, EOF, p1, t1);
    NumeralThenOperator(input, p1 + 1, b, t1, p2, t2);
    ParseIncompleteAfterTwo(input, p1, p2, DecimalValue(a), DecimalValue(b), t1, t2);
  }

  lemma ParseIncompleteAfterTwo(input: seq<char>, p1: nat, p2: nat, x: real, y: real, t1: Token, t2: Token)
    requires p1 < p2 && p2 + 1 == |input| && IsBinary(t1) && IsBinary(t2)
    requires Consume(input, At(0, EOF)) == Ok(AtNumber(p1, x))
    requires Consume(input, AtNumber(p1, x)) == Ok(At(p1 + 1, t1))
    requires Consume(input, At(p1 + 1, t1)) == Ok(AtNumber(p2, y))
    requires Consume(input, AtNumber(p2, y)) == Ok(At(p2 + 1, t2))
    ensures Evaluate(input) == Err(ExpressionIncomplete)
  {
    ConsumeEnd(input, 0.0, t2);
    NumeralLevel(5, input, AtNumber(p1, x), At(p1 + 1, t1));
    NumeralLevel(5, input, AtNumber(p2, y), At(p2 + 1, t2));
    TrailingTriple(1, input, AtNumber(p1, x), x, At(p1 + 1, t1), AtNumber(p2, y), y, At(p2 + 1, t2), At(|input|, EOF));
    EvaluateFails(input, AtNumber(p1, x), ExpressionIncomplete);
  }

  /** An empty input is an incomplete expression. */
  lemma EmptyInput()
    ensures Evaluate("") == Err(ExpressionIncomplete)
  {
    ConsumeEnd("", 0.0, EOF);
    assert Level(5, "", At(0, EOF)) == Err(ExpressionIncomplete);
    ErrorLevel(1, 5, "", At(0, EOF), ExpressionIncomplete);
    EvaluateFails("", At(0, EOF), ExpressionIncomplete);
  }

  /** Whatever follows a closing parenthesis that ends the expression is
      never read: a) followed by anything is worth a. */
  lemma TrailingInputIgnored(a: seq<char>, rest: seq<char>)
    requires IsNumeral(a)
    ensures Evaluate(a + ")" + rest) == Ok(DecimalValue(a))
  {
    var input := a + ")" + rest;
    assert input[0..|a|] == a && input[|a|] == ')';
    NumeralThenOperator(input, 0, a, EOF, |a|, RPAR);
    ParseTrailing(input, |a|, DecimalValue(a));
  }

  lemma ParseTrailing(input: seq<char>, p: nat, x: real)
    requires p < |input|
    requires Consume(input, At(0, EOF)) == Ok(AtNumber(p, x))
    requires Consume(input, AtNumber(p, x)) == Ok(At(p + 1, RPAR))
    ensures Evaluate(input) == Ok(x)
  {
    NumeralLevel(1, input, AtNumber(p, x), At(p + 1, RPAR));
    EvaluateVia(input, AtNumber(p, x), Evaluated(x, At(p + 1, RPAR)));
  }

  /** An input that starts with `)` is worth 0: the operand position holds
      a token that starts no operand, and nothing is consumed after it. */
  lemma LeadingParenthesis(rest: seq<char>)
    ensures Evaluate(")" + rest) == Ok(0.0)
  {
    var input := ")" + rest;
    assert input[0] == ')';
    ConsumeOperator(input, 0, 0.0, EOF, RPAR);
    ParseLeadingOther(input, At(1, RPAR));
  }

  lemma ParseLeadingOther(input: seq<char>, s0: PState)
    requires Consume(input, At(0, EOF)) == Ok(s0) && Tier(s0.symbol) == 0
    requires s0.symbol !in {NUMBER, LPAR, MINUS, EOF}
    ensures Evaluate(input) == Ok(0.0)
  {
    OtherOperand(input, s0);
    OperandLevel(1, input, s0, Evaluated(0.0, s0));
    EvaluateVia(input, s0, Evaluated(0.0, s0));
  }

  /** A character that is no token, met after a numeral, fails the parse
      with UnknownSymbol. */
  lemma UnknownCharacter(a: seq<char>, c: char, rest: seq<char>)
    requires IsNumeral(a) && c != EndMarker && Operator(c).None? && !IsDecimalPoint(c) && !IsDigit(c)
    ensures Evaluate(a + [c] + rest) == Err(UnknownSymbol)
  {
    var input := a + [c] + rest;
    assert input[0..|a|] == a && input[|a|] == c;
    ConsumeNumeral(input, 0, |a|, a, EOF);
    ConsumeUnknown(input, |a|, DecimalValue(a), NUMBER);
    ParseUnknown(input, |a|, DecimalValue(a));
  }

  lemma ParseUnknown(input: seq<char>, p: nat, x: real)
    requires p < |input|
    requires Consume(input, At(0, EOF)) == Ok(AtNumber(p, x))
    requires Consume(input, AtNumber(p, x)) == Err(UnknownSymbol)
    ensures Evaluate(input) == Err(UnknownSymbol)
  {
    assert Level(5, input, AtNumber(p, x)) == Err(UnknownSymbol);
    ErrorLevel(1, 5, input, AtNumber(p, x), UnknownSymbol);
    EvaluateFails(input, AtNumber(p, x), UnknownSymbol);
  }
}
