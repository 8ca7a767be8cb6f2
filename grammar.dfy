/** The parser as functions of its state: the lexer's fields together with
    the current symbol. Each rule returns the value it computed and the
    state it leaves, or the failure that aborts the parse. The `Parser`
    class in module Parsing is proved to compute exactly these functions.

    Tiers, loosest first: `Expr` (+ -), `Div` (/ %), `Mul` (*),
    `Exponentiation` (^), `Operand`. Each loop of the source is a `...Loop`
    function that folds from the left. */
module Grammar {
  import opened Tokens
  import opened Scanner
  import Doubles

  /** The parser's whole state: the lexer's fields and `symbol`. */
  datatype PState = PState(lex: LexState, symbol: Token)

  /** What a rule computed, and the state it stopped in. */
  datatype Evaluated = Evaluated(value: real, state: PState)

  predicate Valid(input: seq<char>, st: PState) {
    st.lex.pos <= |input|
  }

  /** Twice the unread input, plus one while the current symbol is not EOF.
      A symbol other than EOF has already been read off the input, so
      consuming it always lowers this measure. */
  function Measure(input: seq<char>, st: PState): nat
    requires Valid(input, st)
  {
    2 * (|input| - st.lex.pos) + (if st.symbol == EOF then 0 else 1)
  }

  /** `next` is a state that parsing from `st` may reach: no new input
      appears and the measure does not grow. */
  predicate Follows(input: seq<char>, st: PState, next: PState) {
    Valid(input, st) && Valid(input, next) && Measure(input, next) <= Measure(input, st)
  }

  /** The tokens at which each tier's loop keeps going. */
  predicate ContinuesExponentiation(t: Token) { t == EXP }
  predicate ContinuesMul(t: Token) { t == EXP || t == MUL }
  predicate ContinuesDiv(t: Token) { ContinuesMul(t) || t == DIV || t == REMAINDER }
  predicate ContinuesExpr(t: Token) { ContinuesDiv(t) || t == PLUS || t == MINUS }

  /** `consume()`: the next token from the lexer becomes the symbol. */
  function Consume(input: seq<char>, st: PState): (r: Result<PState>)
    requires Valid(input, st)
    ensures r.Ok? ==> Follows(input, st, r.value)
    ensures r.Ok? && st.symbol != EOF ==> Measure(input, r.value) < Measure(input, st)
  {
    match Step(input, st.lex)
    case Ok((t, ls)) => Ok(PState(ls, t))
    case Err(e) => Err(e)
  }

  /** `number()`: the lexer's value is read before the next token replaces
      it. */
  function Number(input: seq<char>, st: PState): (r: Result<Evaluated>)
    requires Valid(input, st)
    ensures r.Ok? ==> r.value.value == st.lex.value && Follows(input, st, r.value.state)
  {
    var next :- Consume(input, st);
    Ok(Evaluated(st.lex.value, next))
  }

  /** `expr()`: Div results joined by + and -, from the left. It stops only at
      a symbol that no tier can continue with. */
  function Expr(input: seq<char>, st: PState): (r: Result<Evaluated>)
    requires Valid(input, st)
    ensures r.Ok? ==> Follows(input, st, r.value.state) && !ContinuesExpr(r.value.state.symbol)
    decreases Measure(input, st), 8
  {
    var first :- Div(input, st);
    ExprLoop(input, first.value, first.state)
  }

  function ExprLoop(input: seq<char>, acc: real, st: PState): (r: Result<Evaluated>)
    requires Valid(input, st) && !ContinuesDiv(st.symbol)
    ensures r.Ok? ==> Follows(input, st, r.value.state) && !ContinuesExpr(r.value.state.symbol)
    decreases Measure(input, st), 7
  {
    if st.symbol == PLUS || st.symbol == MINUS then
      var next :- Consume(input, st);
      var rhs :- Div(input, next);
      ExprLoop(input, if st.symbol == PLUS then Doubles.Add(acc, rhs.value) else Doubles.Sub(acc, rhs.value), rhs.state)
    else
      Ok(Evaluated(acc, st))
  }

  /** `div()`: Mul results joined by / and %, from the left. */
  function Div(input: seq<char>, st: PState): (r: Result<Evaluated>)
    requires Valid(input, st)
    ensures r.Ok? ==> Follows(input, st, r.value.state) && !ContinuesDiv(r.value.state.symbol)
    decreases Measure(input, st), 6
  {
    var first :- Mul(input, st);
    DivLoop(input, first.value, first.state)
  }

  function DivLoop(input: seq<char>, acc: real, st: PState): (r: Result<Evaluated>)
    requires Valid(input, st) && !ContinuesMul(st.symbol)
    ensures r.Ok? ==> Follows(input, st, r.value.state) && !ContinuesDiv(r.value.state.symbol)
    decreases Measure(input, st), 5
  {
    if st.symbol == DIV || st.symbol == REMAINDER then
      var next :- Consume(input, st);
      var rhs :- Mul(input, next);
      DivLoop(input, if st.symbol == DIV then Doubles.Div(acc, rhs.value) else Doubles.Rem(acc, rhs.value), rhs.state)
    else
      Ok(Evaluated(acc, st))
  }

  /** `mul()`: Exponentiation results joined by *, from the left. */
  function Mul(input: seq<char>, st: PState): (r: Result<Evaluated>)
    requires Valid(input, st)
    ensures r.Ok? ==> Follows(input, st, r.value.state) && !ContinuesMul(r.value.state.symbol)
    decreases Measure(input, st), 4
  {
    var first :- Exponentiation(input, st);
    MulLoop(input, first.value, first.state)
  }

  function MulLoop(input: seq<char>, acc: real, st: PState): (r: Result<Evaluated>)
    requires Valid(input, st) && !ContinuesExponentiation(st.symbol)
    ensures r.Ok? ==> Follows(input, st, r.value.state) && !ContinuesMul(r.value.state.symbol)
    decreases Measure(input, st), 3
  {
    if st.symbol == MUL then
      var next :- Consume(input, st);
      var rhs :- Exponentiation(input, next);
      MulLoop(input, Doubles.Mul(acc, rhs.value), rhs.state)
    else
      Ok(Evaluated(acc, st))
  }

  /** `exponentiation()`: operands joined by ^, from the left, so that
      a^b^c is (a^b)^c. */
  function Exponentiation(input: seq<char>, st: PState): (r: Result<Evaluated>)
    requires Valid(input, st)
    ensures r.Ok? ==> Follows(input, st, r.value.state) && !ContinuesExponentiation(r.value.state.symbol)
    decreases Measure(input, st), 2
  {
    var first :- Operand(input, st);
    ExponentiationLoop(input, first.value, first.state)
  }

  function ExponentiationLoop(input: seq<char>, acc: real, st: PState): (r: Result<Evaluated>)
    requires Valid(input, st)
    ensures r.Ok? ==> Follows(input, st, r.value.state) && !ContinuesExponentiation(r.value.state.symbol)
    decreases Measure(input, st), 1
  {
    if st.symbol == EXP then
      var next :- Consume(input, st);
      var rhs :- Operand(input, next);
      ExponentiationLoop(input, Doubles.Pow(acc, rhs.value), rhs.state)
    else
      Ok(Evaluated(acc, st))
  }

  /** `operand()`: a number with an optional fractional part, a
      parenthesised group, a negated operand, or a failure at EOF; any other
      symbol is worth 0 and is left in place. */
  function Operand(input: seq<char>, st: PState): (r: Result<Evaluated>)
    requires Valid(input, st)
    ensures r.Ok? ==> Follows(input, st, r.value.state)
    decreases Measure(input, st), 0
  {
    match st.symbol
    case NUMBER =>
      var whole :- Number(input, st);
      if whole.state.symbol == DOT then
        var afterDot :- Consume(input, whole.state);
        var fraction :- Number(input, afterDot);
        if fraction.state.symbol == DOT then Err(TwoDots)
        else Ok(Evaluated(Doubles.Add(whole.value, fraction.value), fraction.state))
      else
        Ok(whole)
    case LPAR =>
      var inner :- Consume(input, st);
      var group :- Expr(input, inner);
      if group.state.symbol != RPAR then Err(NoMatchingParenthesis)
      else
        var next :- Consume(input, group.state);
        Ok(Evaluated(group.value, next))
    case MINUS =>
      var next :- Consume(input, st);
      var negated :- Operand(input, next);
      Ok(Evaluated(Doubles.Neg(negated.value), negated.state))
    case EOF => Err(ExpressionIncomplete)
    case _ => Ok(Evaluated(0.0, st))
  }

  /** `statement()`: one priming `consume()`, then `expr()`. Whatever
      follows the expression is not looked at. */
  function Statement(input: seq<char>, ls: LexState): Result<real>
    requires ls.pos <= |input|
  {
    var primed :- Consume(input, PState(ls, EOF));
    var e :- Expr(input, primed);
    Ok(e.value)
  }

  /** The whole pipeline on a fresh lexer. */
  function Evaluate(input: seq<char>): Result<real> {
    Statement(input, Initial)
  }
}
