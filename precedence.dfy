/** The precedence table the parser implements, stated on its own and
    proved against the rules of module Grammar.

    Every binary operator has a tier: `+ -` 1, `/ %` 2, `*` 3, `^` 4. The
    rules are numbered the same way: level 1 is `Expr`, 2 `Div`, 3 `Mul`,
    4 `Exponentiation` and 5 `Operand`. Level `k` keeps folding while the
    symbol's tier is at least `k`, and asks level `k + 1` for each operand.
    The lemmas here say what each level computes on one, two and three
    numbers joined by operators, whatever the operators are; the main
    consequence, `Combine`, is that the tighter operator groups first and
    operators of the same tier group from the left. */
module Precedence {
  import opened Tokens
  import opened Grammar
  import Doubles

  /** The tier of a binary operator; 0 for every other token. */
  function Tier(t: Token): (n: nat)
    ensures n <= 4
    ensures n > 0 <==> t in {PLUS, MINUS, DIV, REMAINDER, MUL, EXP}
  {
    match t
    case PLUS => 1
    case MINUS => 1
    case DIV => 2
    case REMAINDER => 2
    case MUL => 3
    case EXP => 4
    case _ => 0
  }

  predicate IsBinary(t: Token) {
    Tier(t) > 0
  }

  /** The operation a binary operator applies to the value so far and the
      next operand. */
  function Apply(t: Token, x: real, y: real): real
    requires IsBinary(t)
  {
    match t
    case PLUS => Doubles.Add(x, y)
    case MINUS => Doubles.Sub(x, y)
    case DIV => Doubles.Div(x, y)
    case REMAINDER => Doubles.Rem(x, y)
    case MUL => Doubles.Mul(x, y)
    case EXP => Doubles.Pow(x, y)
  }

  /** The reference grouping of x t1 y t2 z: `t2` groups first exactly when
      its tier is higher; on equal tiers the left operator goes first. */
  function Combine(t1: Token, t2: Token, x: real, y: real, z: real): real
    requires IsBinary(t1) && IsBinary(t2)
  {
    if Tier(t2) > Tier(t1) then Apply(t1, x, Apply(t2, y, z))
    else Apply(t2, Apply(t1, x, y), z)
  }

  /** The loop of each tier stops exactly at the tokens below the tier. */
  lemma ContinuesIsTier(t: Token)
    ensures ContinuesExpr(t) <==> Tier(t) >= 1
    ensures ContinuesDiv(t) <==> Tier(t) >= 2
    ensures ContinuesMul(t) <==> Tier(t) >= 3
    ensures ContinuesExponentiation(t) <==> Tier(t) >= 4
  {
  }

  /** The rule at level `k`. */
  function Level(k: nat, input: seq<char>, st: PState): (r: Result<Evaluated>)
    requires 1 <= k <= 5 && Valid(input, st)
    ensures r.Ok? ==> Follows(input, st, r.value.state)
    ensures r.Ok? && k <= 4 ==> Tier(r.value.state.symbol) < k
  {
    if k == 1 then Expr(input, st)
    else if k == 2 then Div(input, st)
    else if k == 3 then Mul(input, st)
    else if k == 4 then Exponentiation(input, st)
    else Operand(input, st)
  }

  /** The loop of the rule at level `k`, from value `acc` in state `st`. */
  function LoopAt(k: nat, input: seq<char>, acc: real, st: PState): Result<Evaluated>
    requires 1 <= k <= 4 && Valid(input, st) && Tier(st.symbol) <= k
  {
    if k == 1 then ExprLoop(input, acc, st)
    else if k == 2 then DivLoop(input, acc, st)
    else if k == 3 then MulLoop(input, acc, st)
    else ExponentiationLoop(input, acc, st)
  }

  /** A level below `Operand` first asks the next level for an operand,
      then runs its loop from there. */
  lemma LevelThen(k: nat, input: seq<char>, st: PState, first: Evaluated)
    requires 1 <= k <= 4 && Valid(input, st) && Level(k + 1, input, st) == Ok(first)
    ensures Level(k, input, st) == LoopAt(k, input, first.value, first.state)
  {
  }

  /** One turn of the loop at level `k`: consume the operator, ask level
      `k + 1` for the right operand, apply the operator. */
  lemma LoopStep(k: nat, input: seq<char>, acc: real, st: PState, next: PState, rhs: Evaluated)
    requires 1 <= k <= 4 && Valid(input, st) && Tier(st.symbol) == k
    requires Consume(input, st) == Ok(next) && Level(k + 1, input, next) == Ok(rhs)
    ensures LoopAt(k, input, acc, st) == LoopAt(k, input, Apply(st.symbol, acc, rhs.value), rhs.state)
  {
  }

  /** A turn of the loop whose right operand fails fails the loop. */
  lemma LoopStepError(k: nat, input: seq<char>, acc: real, st: PState, next: PState, e: Error)
    requires 1 <= k <= 4 && Valid(input, st) && Tier(st.symbol) == k
    requires Consume(input, st) == Ok(next) && Level(k + 1, input, next) == Err(e)
    ensures LoopAt(k, input, acc, st) == Err(e)
  {
  }

  /** The loop at level `k` stops at once on a token below tier `k`. */
  lemma LoopExit(k: nat, input: seq<char>, acc: real, st: PState)
    requires 1 <= k <= 4 && Valid(input, st) && Tier(st.symbol) < k
    ensures LoopAt(k, input, acc, st) == Ok(Evaluated(acc, st))
  {
  }

  /** `st` holds a NUMBER; consuming it reaches `next`, which holds no DOT. */
  predicate NumberThen(input: seq<char>, st: PState, next: PState) {
    Valid(input, st) && st.symbol == NUMBER && Consume(input, st) == Ok(next) && next.symbol != DOT
  }

  /** Whatever an operand is worth, every level from `k` down returns it
      when the token after it is below tier `k`. */
  lemma {:induction false} OperandLevel(k: nat, input: seq<char>, st: PState, e: Evaluated)
    requires 1 <= k <= 5 && Valid(input, st) && Level(5, input, st) == Ok(e) && Tier(e.state.symbol) < k
    ensures Level(k, input, st) == Ok(e)
    decreases 5 - k
  {
    if k < 5 {
      OperandLevel(k + 1, input, st, e);
      LevelThen(k, input, st, e);
      LoopExit(k, input, e.value, e.state);
    }
  }

  /** A failure at level `j` is the failure of every level above it. */
  lemma {:induction false} ErrorLevel(k: nat, j: nat, input: seq<char>, st: PState, e: Error)
    requires 1 <= k <= j <= 5 && Valid(input, st) && Level(j, input, st) == Err(e)
    ensures Level(k, input, st) == Err(e)
    decreases j - k
  {
    if k < j {
      ErrorLevel(k + 1, j, input, st, e);
    }
  }

  /** An operand position holding a token that cannot start an operand:
      the operand is worth 0 and nothing is consumed. */
  lemma OtherOperand(input: seq<char>, st: PState)
    requires Valid(input, st) && st.symbol !in {NUMBER, LPAR, MINUS, EOF}
    ensures Level(5, input, st) == Ok(Evaluated(0.0, st))
  {
  }

  /** One number followed by an operator of a lower tier (or by any token
      that is not an operator): every level from `k` down returns the
      number and stops on that token. */
  lemma NumeralLevel(k: nat, input: seq<char>, st: PState, next: PState)
    requires 1 <= k <= 5 && NumberThen(input, st, next) && Tier(next.symbol) < k
    ensures Level(k, input, st) == Ok(Evaluated(st.lex.value, next))
  {
    OperandLevel(k, input, st, Evaluated(st.lex.value, next));
  }

  // ---------------------------------------------------------------------
  // Operands built from operands

  /** A group: `(`, an expression, `)`. The operand is worth the inner
      expression and ends after the closing parenthesis, whatever the inner
      expression is. */
  lemma GroupOperand(input: seq<char>, st: PState, inner: PState, e: Evaluated, after: PState)
    requires Valid(input, st) && st.symbol == LPAR && Consume(input, st) == Ok(inner)
    requires Level(1, input, inner) == Ok(e) && e.state.symbol == RPAR
    requires Consume(input, e.state) == Ok(after)
    ensures Level(5, input, st) == Ok(Evaluated(e.value, after))
  {
  }

  /** A group whose expression stops on anything but `)` fails. */
  lemma UnclosedOperand(input: seq<char>, st: PState, inner: PState, e: Evaluated)
    requires Valid(input, st) && st.symbol == LPAR && Consume(input, st) == Ok(inner)
    requires Level(1, input, inner) == Ok(e) && e.state.symbol != RPAR
    ensures Level(5, input, st) == Err(NoMatchingParenthesis)
  {
  }

  /** A leading minus negates the operand that follows, whatever it is. */
  lemma NegatedOperand(input: seq<char>, st: PState, next: PState, e: Evaluated)
    requires Valid(input, st) && st.symbol == MINUS && Consume(input, st) == Ok(next)
    requires Level(5, input, next) == Ok(e)
    ensures Level(5, input, st) == Ok(Evaluated(Doubles.Neg(e.value), e.state))
  {
  }

  /** A group holding two operands and one operator: the operand is worth
      the operator applied to them, whatever each operand is. */
  lemma GroupedPair(input: seq<char>, st: PState, inner: PState, x: real, op: PState, next: PState, y: real,
                    close: PState, after: PState)
    requires Valid(input, st) && st.symbol == LPAR && Consume(input, st) == Ok(inner)
    requires Valid(input, inner) && Level(5, input, inner) == Ok(Evaluated(x, op)) && IsBinary(op.symbol)
    requires Consume(input, op) == Ok(next) && Level(5, input, next) == Ok(Evaluated(y, close))
    requires close.symbol == RPAR && Consume(input, close) == Ok(after)
    ensures Level(5, input, st) == Ok(Evaluated(Apply(op.symbol, x, y), after))
  {
    PairLevel(1, input, inner, x, op, next, y, close);
    GroupOperand(input, st, inner, Evaluated(Apply(op.symbol, x, y), close), after);
  }

  /** The end of the input where an operand is expected fails every level. */
  lemma EndOperand(k: nat, input: seq<char>, st: PState)
    requires 1 <= k <= 5 && Valid(input, st) && st.symbol == EOF
    ensures Level(k, input, st) == Err(ExpressionIncomplete)
  {
    assert Level(5, input, st) == Err(ExpressionIncomplete);
    ErrorLevel(k, 5, input, st, ExpressionIncomplete);
  }

  // ---------------------------------------------------------------------
  // Two and three operands

  /** y t z followed by a token below tier `k`: a level at or below the
      tier of `t` applies it; a higher level stops before `t`. The operands
      may be anything `Operand` accepts. */
  lemma {:induction false} PairLevel(k: nat, input: seq<char>, s2: PState, y: real, s3: PState, s4: PState, z: real, s5: PState)
    requires 1 <= k <= 5 && Valid(input, s2) && Level(5, input, s2) == Ok(Evaluated(y, s3)) && IsBinary(s3.symbol)
    requires Consume(input, s3) == Ok(s4) && Level(5, input, s4) == Ok(Evaluated(z, s5)) && Tier(s5.symbol) < k
    ensures Tier(s3.symbol) < k ==> Level(k, input, s2) == Ok(Evaluated(y, s3))
    ensures Tier(s3.symbol) >= k ==> Level(k, input, s2) == Ok(Evaluated(Apply(s3.symbol, y, z), s5))
    decreases 5 - k
  {
    var t := s3.symbol;
    if Tier(t) < k {
      OperandLevel(k, input, s2, Evaluated(y, s3));
    } else if Tier(t) == k {
      OperandLevel(k + 1, input, s2, Evaluated(y, s3));
      LevelThen(k, input, s2, Evaluated(y, s3));
      OperandLevel(k + 1, input, s4, Evaluated(z, s5));
      LoopStep(k, input, y, s3, s4, Evaluated(z, s5));
      LoopExit(k, input, Apply(t, y, z), s5);
    } else {
      PairLevel(k + 1, input, s2, y, s3, s4, z, s5);
      LevelThen(k, input, s2, Evaluated(Apply(t, y, z), s5));
      LoopExit(k, input, Apply(t, y, z), s5);
    }
  }

  /** x t1 y t2 z followed by a token below tier `k`. Level `k` stops
      before the first operator below tier `k`; when both operators are at
      tier `k` or above it groups them as `Combine` says. */
  lemma {:induction false} TripleLevel(k: nat, input: seq<char>, s0: PState, x: real, s1: PState, s2: PState, y: real,
                                       s3: PState, s4: PState, z: real, s5: PState)
    requires 1 <= k <= 5 && Valid(input, s0) && Level(5, input, s0) == Ok(Evaluated(x, s1)) && IsBinary(s1.symbol)
    requires Consume(input, s1) == Ok(s2) && Level(5, input, s2) == Ok(Evaluated(y, s3)) && IsBinary(s3.symbol)
    requires Consume(input, s3) == Ok(s4) && Level(5, input, s4) == Ok(Evaluated(z, s5)) && Tier(s5.symbol) < k
    ensures Tier(s1.symbol) < k ==> Level(k, input, s0) == Ok(Evaluated(x, s1))
    ensures Tier(s1.symbol) >= k && Tier(s3.symbol) < k ==>
              Level(k, input, s0) == Ok(Evaluated(Apply(s1.symbol, x, y), s3))
    ensures Tier(s1.symbol) >= k && Tier(s3.symbol) >= k ==>
              Level(k, input, s0) == Ok(Evaluated(Combine(s1.symbol, s3.symbol, x, y, z), s5))
    decreases 5 - k
  {
    var (t1, t2) := (s1.symbol, s3.symbol);
    if Tier(t1) < k {
      OperandLevel(k, input, s0, Evaluated(x, s1));
    } else if Tier(t1) == k {
      OperandLevel(k + 1, input, s0, Evaluated(x, s1));
      LevelThen(k, input, s0, Evaluated(x, s1));
      PairLevel(k + 1, input, s2, y, s3, s4, z, s5);
      if Tier(t2) > k {
        LoopStep(k, input, x, s1, s2, Evaluated(Apply(t2, y, z), s5));
        LoopExit(k, input, Apply(t1, x, Apply(t2, y, z)), s5);
      } else {
        LoopStep(k, input, x, s1, s2, Evaluated(y, s3));
        FinishPair(k, input, Apply(t1, x, y), s3, s4, z, s5);
      }
    } else {
      TripleLevel(k + 1, input, s0, x, s1, s2, y, s3, s4, z, s5);
      if Tier(t2) > k {
        LevelThen(k, input, s0, Evaluated(Combine(t1, t2, x, y, z), s5));
        LoopExit(k, input, Combine(t1, t2, x, y, z), s5);
      } else {
        LevelThen(k, input, s0, Evaluated(Apply(t1, x, y), s3));
        FinishPair(k, input, Apply(t1, x, y), s3, s4, z, s5);
      }
    }
  }

  /** The loop at level `k` holding `acc` before the last `t z`: it applies
      `t` when `t` is at tier `k` and stops before it when lower. */
  lemma FinishPair(k: nat, input: seq<char>, acc: real, s3: PState, s4: PState, z: real, s5: PState)
    requires 1 <= k <= 4 && Valid(input, s3) && IsBinary(s3.symbol) && Tier(s3.symbol) <= k
    requires Consume(input, s3) == Ok(s4) && Level(5, input, s4) == Ok(Evaluated(z, s5)) && Tier(s5.symbol) < k
    ensures Tier(s3.symbol) < k ==> LoopAt(k, input, acc, s3) == Ok(Evaluated(acc, s3))
    ensures Tier(s3.symbol) == k ==> LoopAt(k, input, acc, s3) == Ok(Evaluated(Apply(s3.symbol, acc, z), s5))
  {
    if Tier(s3.symbol) == k {
      OperandLevel(k + 1, input, s4, Evaluated(z, s5));
      LoopStep(k, input, acc, s3, s4, Evaluated(z, s5));
      LoopExit(k, input, Apply(s3.symbol, acc, z), s5);
    } else {
      LoopExit(k, input, acc, s3);
    }
  }

  /** y t followed by the end of the input: a level at or below the tier
      of `t` fails for want of an operand; a higher level stops before `t`. */
  lemma {:induction false} TrailingPair(k: nat, input: seq<char>, s2: PState, y: real, s3: PState, s4: PState)
    requires 1 <= k <= 5 && Valid(input, s2) && Level(5, input, s2) == Ok(Evaluated(y, s3)) && IsBinary(s3.symbol)
    requires Consume(input, s3) == Ok(s4) && s4.symbol == EOF
    ensures Tier(s3.symbol) < k ==> Level(k, input, s2) == Ok(Evaluated(y, s3))
    ensures Tier(s3.symbol) >= k ==> Level(k, input, s2) == Err(ExpressionIncomplete)
    decreases 5 - k
  {
    var t := s3.symbol;
    if Tier(t) < k {
      OperandLevel(k, input, s2, Evaluated(y, s3));
    } else {
      var j := Tier(t);
      OperandLevel(j + 1, input, s2, Evaluated(y, s3));
      LevelThen(j, input, s2, Evaluated(y, s3));
      EndOperand(j + 1, input, s4);
      LoopStepError(j, input, y, s3, s4, ExpressionIncomplete);
      ErrorLevel(k, j, input, s2, ExpressionIncomplete);
    }
  }

  /** x t1 y t2 followed by the end of the input. Level `k` stops before
      the first operator below tier `k`; once it reaches `t2` it fails. */
  lemma {:induction false} TrailingTriple(k: nat, input: seq<char>, s0: PState, x: real, s1: PState, s2: PState, y: real,
                                          s3: PState, s4: PState)
    requires 1 <= k <= 5 && Valid(input, s0) && Level(5, input, s0) == Ok(Evaluated(x, s1)) && IsBinary(s1.symbol)
    requires Consume(input, s1) == Ok(s2) && Level(5, input, s2) == Ok(Evaluated(y, s3)) && IsBinary(s3.symbol)
    requires Consume(input, s3) == Ok(s4) && s4.symbol == EOF
    ensures Tier(s1.symbol) < k ==> Level(k, input, s0) == Ok(Evaluated(x, s1))
    ensures Tier(s1.symbol) >= k && Tier(s3.symbol) < k ==>
              Level(k, input, s0) == Ok(Evaluated(Apply(s1.symbol, x, y), s3))
    ensures Tier(s1.symbol) >= k && Tier(s3.symbol) >= k ==> Level(k, input, s0) == Err(ExpressionIncomplete)
    decreases 5 - k
  {
    var (t1, t2) := (s1.symbol, s3.symbol);
    if Tier(t1) < k {
      OperandLevel(k, input, s0, Evaluated(x, s1));
    } else if Tier(t1) == k {
      OperandLevel(k + 1, input, s0, Evaluated(x, s1));
      LevelThen(k, input, s0, Evaluated(x, s1));
      TrailingPair(k + 1, input, s2, y, s3, s4);
      if Tier(t2) > k {
        LoopStepError(k, input, x, s1, s2, ExpressionIncomplete);
      } else {
        LoopStep(k, input, x, s1, s2, Evaluated(y, s3));
        if Tier(t2) == k {
          EndOperand(k + 1, input, s4);
          LoopStepError(k, input, Apply(t1, x, y), s3, s4, ExpressionIncomplete);
        } else {
          LoopExit(k, input, Apply(t1, x, y), s3);
        }
      }
    } else {
      TrailingTriple(k + 1, input, s0, x, s1, s2, y, s3, s4);
      if Tier(t2) > k {
        ErrorLevel(k, k + 1, input, s0, ExpressionIncomplete);
      } else {
        LevelThen(k, input, s0, Evaluated(Apply(t1, x, y), s3));
        if Tier(t2) == k {
          EndOperand(k + 1, input, s4);
          LoopStepError(k, input, Apply(t1, x, y), s3, s4, ExpressionIncomplete);
        } else {
          LoopExit(k, input, Apply(t1, x, y), s3);
        }
      }
    }
  }

  // ---------------------------------------------------------------------
  // A chain of any length within one tier

  /** The operators `ts` applied from the left, starting from `acc`, with
      right operands `vs`. */
  function Fold(acc: real, ts: seq<Token>, vs: seq<real>): real
    requires |ts| == |vs| && forall i :: 0 <= i < |ts| ==> IsBinary(ts[i])
    decreases |ts|
  {
    if ts == [] then acc else Fold(Apply(ts[0], acc, vs[0]), ts[1..], vs[1..])
  }

  /** `sts[i]` holds the operator `ts[i]` of tier `k`; consuming it reaches
      `mids[i]`, where level `k + 1` reads an operand worth `vs[i]` and
      stops at `sts[i + 1]`. */
  predicate Chain(k: nat, input: seq<char>, ts: seq<Token>, sts: seq<PState>, mids: seq<PState>, vs: seq<real>) {
    1 <= k <= 4 && |ts| == |vs| == |mids| && |sts| == |vs| + 1 &&
    (forall i :: 0 <= i < |sts| ==> Valid(input, sts[i])) &&
    (forall i :: 0 <= i < |ts| ==> sts[i].symbol == ts[i] && Tier(ts[i]) == k) &&
    (forall i :: 0 <= i < |mids| ==>
       Consume(input, sts[i]) == Ok(mids[i]) && Valid(input, mids[i]) &&
       Level(k + 1, input, mids[i]) == Ok(Evaluated(vs[i], sts[i + 1])))
  }

  /** The loop of tier `k` over a chain of its own operators folds them
      from the left and stops at the first token below tier `k`. */
  lemma {:induction false} ChainLoop(k: nat, input: seq<char>, acc: real, ts: seq<Token>, sts: seq<PState>,
                                     mids: seq<PState>, vs: seq<real>)
    requires Chain(k, input, ts, sts, mids, vs) && Tier(sts[|vs|].symbol) < k
    ensures forall i :: 0 <= i < |ts| ==> IsBinary(ts[i])
    ensures LoopAt(k, input, acc, sts[0]) == Ok(Evaluated(Fold(acc, ts, vs), sts[|vs|]))
    decreases |vs|
  {
    if vs == [] {
      LoopExit(k, input, acc, sts[0]);
    } else {
      var next := Apply(ts[0], acc, vs[0]);
      LoopStep(k, input, acc, sts[0], mids[0], Evaluated(vs[0], sts[1]));
      assert Chain(k, input, ts[1..], sts[1..], mids[1..], vs[1..]);
      ChainLoop(k, input, next, ts[1..], sts[1..], mids[1..], vs[1..]);
    }
  }

  /** The whole rule of tier `k`: its first operand, then the chain. */
  lemma ChainLevel(k: nat, input: seq<char>, st: PState, v: real, ts: seq<Token>, sts: seq<PState>,
                   mids: seq<PState>, vs: seq<real>)
    requires Chain(k, input, ts, sts, mids, vs) && Tier(sts[|vs|].symbol) < k
    requires Valid(input, st) && Level(k + 1, input, st) == Ok(Evaluated(v, sts[0]))
    ensures forall i :: 0 <= i < |ts| ==> IsBinary(ts[i])
    ensures Level(k, input, st) == Ok(Evaluated(Fold(v, ts, vs), sts[|vs|]))
  {
    LevelThen(k, input, st, Evaluated(v, sts[0]));
    ChainLoop(k, input, v, ts, sts, mids, vs);
  }

  /** A chain of tier `k` that ends on one more operator of the tier
      followed by the end of the input fails. */
  lemma {:induction false} ChainIncomplete(k: nat, input: seq<char>, acc: real, ts: seq<Token>, sts: seq<PState>,
                                           mids: seq<PState>, vs: seq<real>, end: PState)
    requires Chain(k, input, ts, sts, mids, vs) && Tier(sts[|vs|].symbol) == k
    requires Consume(input, sts[|vs|]) == Ok(end) && end.symbol == EOF
    ensures LoopAt(k, input, acc, sts[0]) == Err(ExpressionIncomplete)
    decreases |vs|
  {
    if vs == [] {
      EndOperand(k + 1, input, end);
      LoopStepError(k, input, acc, sts[0], end, ExpressionIncomplete);
    } else {
      LoopStep(k, input, acc, sts[0], mids[0], Evaluated(vs[0], sts[1]));
      assert Chain(k, input, ts[1..], sts[1..], mids[1..], vs[1..]);
      ChainIncomplete(k, input, Apply(ts[0], acc, vs[0]), ts[1..], sts[1..], mids[1..], vs[1..], end);
    }
  }
}
