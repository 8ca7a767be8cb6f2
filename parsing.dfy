/** The evaluating recursive-descent parser as the object the source has:
    one field `symbol` of lookahead, pulled from a `Lexer` it shares with no
    one. Every method is proved to compute the matching function of module
    Grammar, value and final state alike; the loops of `Expr`, `Div`, `Mul`
    and `Exponentiation` keep the invariant that what is left of the loop
    computes what the whole rule computes. */
module Parsing {
  import opened Tokens
  import opened Scanner
  import opened Grammar
  import Doubles

  class Parser {
    const lexer: Lexer
    var symbol: Token

    ghost predicate Valid()
      reads this, lexer
    {
      lexer.Valid()
    }

    ghost function State(): PState
      reads this, lexer
    {
      PState(lexer.State(), symbol)
    }

    /** `r` and the current state are what `spec` says a rule computes. */
    ghost predicate Agrees(r: Result<real>, spec: Result<Evaluated>)
      reads this, lexer
    {
      match spec
      case Ok(e) => r == Ok(e.value) && State() == e.state
      case Err(e) => r == Err(e)
    }

    /** A parser over a lexer that is present. The source leaves `symbol`
        unset until `statement()` primes it; here it starts as EOF, which no
        rule reads before the priming `Consume`. */
    constructor (lexer: Lexer)
      ensures this.lexer == lexer && symbol == EOF
    {
      this.lexer := lexer;
      symbol := EOF;
    }

    /** `statement()`: prime the lookahead and evaluate one expression. */
    method Statement() returns (r: Result<real>)
      requires Valid()
      modifies this, lexer
      ensures Valid()
      ensures r == Grammar.Statement(lexer.input, old(lexer.State()))
    {
      var primed := Consume();
      if primed.Err? {
        return Err(primed.error);
      }
      r := Expr();
    }

    method Expr() returns (r: Result<real>)
      requires Valid()
      modifies this, lexer
      decreases Measure(lexer.input, State()), 8
      ensures Valid()
      ensures Agrees(r, Grammar.Expr(lexer.input, old(State())))
    {
      ghost var input := lexer.input;
      ghost var start := State();
      var first := Div();
      if first.Err? {
        return first;
      }
      assert Grammar.Div(input, start) == Ok(Evaluated(first.value, State()));
      var value := first.value;
      while symbol == PLUS || symbol == MINUS
        invariant Valid() && Follows(input, start, State())
        invariant !ContinuesDiv(symbol)
        invariant Grammar.Expr(input, start) == ExprLoop(input, value, State())
        decreases Measure(input, State())
      {
        ghost var before := State();
        var plus := symbol == PLUS;
        var consumed := Consume();
        if consumed.Err? {
          return Err(consumed.error);
        }
        ghost var next := State();
        assert Grammar.Consume(input, before) == Ok(next);
        var rhs := Div();
        if rhs.Err? {
          return rhs;
        }
        assert Grammar.Div(input, next) == Ok(Evaluated(rhs.value, State()));
        assert ExprLoop(input, value, before) ==
               ExprLoop(input, if plus then Doubles.Add(value, rhs.value) else Doubles.Sub(value, rhs.value), State());
        value := if plus then Doubles.Add(value, rhs.value) else Doubles.Sub(value, rhs.value);
      }
      return Ok(value);
    }

    method Div() returns (r: Result<real>)
      requires Valid()
      modifies this, lexer
      decreases Measure(lexer.input, State()), 6
      ensures Valid()
      ensures Agrees(r, Grammar.Div(lexer.input, old(State())))
    {
      ghost var input := lexer.input;
      ghost var start := State();
      var first := Mul();
      if first.Err? {
        return first;
      }
      assert Grammar.Mul(input, start) == Ok(Evaluated(first.value, State()));
      var value := first.value;
      while symbol == DIV || symbol == REMAINDER
        invariant Valid() && Follows(input, start, State())
        invariant !ContinuesMul(symbol)
        invariant Grammar.Div(input, start) == DivLoop(input, value, State())
        decreases Measure(input, State())
      {
        ghost var before := State();
        var divide := symbol == DIV;
        var consumed := Consume();
        if consumed.Err? {
          return Err(consumed.error);
        }
        ghost var next := State();
        assert Grammar.Consume(input, before) == Ok(next);
        var rhs := Mul();
        if rhs.Err? {
          return rhs;
        }
        assert Grammar.Mul(input, next) == Ok(Evaluated(rhs.value, State()));
        assert DivLoop(input, value, before) ==
               DivLoop(input, if divide then Doubles.Div(value, rhs.value) else Doubles.Rem(value, rhs.value), State());
        if divide {
          value := Doubles.Div(value, rhs.value);
        } else {
          value := Doubles.Rem(value, rhs.value);
        }
      }
      return Ok(value);
    }

    method Mul() returns (r: Result<real>)
      requires Valid()
      modifies this, lexer
      decreases Measure(lexer.input, State()), 4
      ensures Valid()
      ensures Agrees(r, Grammar.Mul(lexer.input, old(State())))
    {
      ghost var input := lexer.input;
      ghost var start := State();
      var first := Exponentiation();
      if first.Err? {
        return first;
      }
      assert Grammar.Exponentiation(input, start) == Ok(Evaluated(first.value, State()));
      var value := first.value;
      while symbol == MUL
        invariant Valid() && Follows(input, start, State())
        invariant !ContinuesExponentiation(symbol)
        invariant Grammar.Mul(input, start) == MulLoop(input, value, State())
        decreases Measure(input, State())
      {
        ghost var before := State();
        var consumed := Consume();
        if consumed.Err? {
          return Err(consumed.error);
        }
        ghost var next := State();
        var rhs := Exponentiation();
        if rhs.Err? {
          return rhs;
        }
        assert Grammar.Consume(input, before) == Ok(next);
        assert Grammar.Exponentiation(input, next) == Ok(Evaluated(rhs.value, State()));
        assert MulLoop(input, value, before) == MulLoop(input, Doubles.Mul(value, rhs.value), State());
        value := Doubles.Mul(value, rhs.value);
      }
      return Ok(value);
    }

    method Exponentiation() returns (r: Result<real>)
      requires Valid()
      modifies this, lexer
      decreases Measure(lexer.input, State()), 2
      ensures Valid()
      ensures Agrees(r, Grammar.Exponentiation(lexer.input, old(State())))
    {
      ghost var input := lexer.input;
      ghost var start := State();
      var first := Operand();
      if first.Err? {
        return first;
      }
      assert Grammar.Operand(input, start) == Ok(Evaluated(first.value, State()));
      var value := first.value;
      while symbol == EXP
        invariant Valid() && Follows(input, start, State())
        invariant Grammar.Exponentiation(input, start) == ExponentiationLoop(input, value, State())
        decreases Measure(input, State())
      {
        ghost var before := State();
        var consumed := Consume();
        if consumed.Err? {
          return Err(consumed.error);
        }
        ghost var next := State();
        assert Grammar.Consume(input, before) == Ok(next);
        var rhs := Operand();
        if rhs.Err? {
          return rhs;
        }
        assert Grammar.Operand(input, next) == Ok(Evaluated(rhs.value, State()));
        value := Doubles.Pow(value, rhs.value);
      }
      return Ok(value);
    }

    method Operand() returns (r: Result<real>)
      requires Valid()
      modifies this, lexer
      decreases Measure(lexer.input, State()), 0
      ensures Valid()
      ensures Agrees(r, Grammar.Operand(lexer.input, old(State())))
    {
      ghost var input := lexer.input;
      ghost var start := State();
      var value := 0.0;
      match symbol {
      case NUMBER =>
        var whole := Number();
        if whole.Err? {
          return whole;
        }
        ghost var afterWhole := State();
        assert Grammar.Number(input, start) == Ok(Evaluated(whole.value, afterWhole));
        value := whole.value;
        if symbol == DOT {
          var consumed := Consume();
          if consumed.Err? {
            return Err(consumed.error);
          }
          ghost var afterDot := State();
          assert Grammar.Consume(input, afterWhole) == Ok(afterDot);
          var fraction := Number();
          if fraction.Err? {
            return fraction;
          }
          assert Grammar.Number(input, afterDot) == Ok(Evaluated(fraction.value, State()));
          value := Doubles.Add(value, fraction.value);
          if symbol == DOT {
            return Err(TwoDots);
          }
        }
      case LPAR =>
        var consumed := Consume();
        if consumed.Err? {
          return Err(consumed.error);
        }
        ghost var inner := State();
        assert Grammar.Consume(input, start) == Ok(inner);
        var group := Expr();
        if group.Err? {
          return group;
        }
        ghost var afterGroup := State();
        assert Grammar.Expr(input, inner) == Ok(Evaluated(group.value, afterGroup));
        value := group.value;
        if symbol != RPAR {
          return Err(NoMatchingParenthesis);
        }
        consumed := Consume();
        if consumed.Err? {
          return Err(consumed.error);
        }
        assert Grammar.Consume(input, afterGroup) == Ok(State());
      case MINUS =>
        var consumed := Consume();
        if consumed.Err? {
          return Err(consumed.error);
        }
        ghost var next := State();
        assert Grammar.Consume(input, start) == Ok(next);
        var negated := Operand();
        if negated.Err? {
          return negated;
        }
        assert Grammar.Operand(input, next) == Ok(Evaluated(negated.value, State()));
        value := Doubles.Neg(negated.value);
      case EOF =>
        return Err(ExpressionIncomplete);
      case _ =>
      }
      return Ok(value);
    }

    /** `number()`: the lexer's value is taken before the lookahead moves. */
    method Number() returns (r: Result<real>)
      requires Valid()
      modifies this, lexer
      ensures Valid()
      ensures Agrees(r, Grammar.Number(lexer.input, old(State())))
    {
      var value := lexer.GetValue();
      var consumed := Consume();
      if consumed.Err? {
        return Err(consumed.error);
      }
      return Ok(value);
    }

    /** `consume()`: the lexer's next token becomes the symbol. A lexer
        failure ends the parse. */
    method Consume() returns (r: Result<Token>)
      requires Valid()
      modifies this, lexer
      ensures Valid()
      ensures match Grammar.Consume(lexer.input, old(State()))
              case Ok(next) => r == Ok(next.symbol) && State() == next
              case Err(e) => r == Err(e)
    {
      r := lexer.NextToken();
      if r.Ok? {
        symbol := r.value;
      }
    }
  }

  /** `new Parser(lexer)`: a missing lexer is refused. */
  method Open(lexer: Lexer?) returns (r: Result<Parser>)
    ensures r.Err? <==> lexer == null
    ensures r.Err? ==> r.error == LexerNull
    ensures r.Ok? ==> fresh(r.value) && r.value.lexer == lexer
  {
    if lexer == null {
      return Err(LexerNull);
    }
    var parser := new Parser(lexer);
    return Ok(parser);
  }

  /** A fresh lexer and parser over the same characters always give the same
      outcome, `Evaluate(input)`: nothing carries over between parses. */
  method Calculate(input: seq<char>) returns (r: Result<real>)
    ensures r == Evaluate(input)
  {
    var lexer := new Lexer(input);
    var parser := new Parser(lexer);
    r := parser.Statement();
  }
}
