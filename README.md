# A verified model of the calculator's lexer and parser

The calculator reads one arithmetic expression from a character stream and
evaluates it as a `double`. A `Lexer` turns characters into tokens. It keeps
one character of lookahead and leaves the value of the last digit run in a
`value` field. A recursive-descent `Parser` pulls tokens one at a time and
evaluates while it parses.

The parser has five tiers, loosest first:

| tier | operators |
|---|---|
| `expr` | `+` `-` |
| `div` | `/` `%` |
| `mul` | `*` |
| `exponentiation` | `^` |
| `operand` | numbers with an optional decimal part, parenthesised groups, unary minus |

Multiplication therefore binds tighter than division, and every operator
groups from the left, `^` included.

The model has eight modules:

- `Tokens` holds the token kinds, the failure messages, and the `Result`
  wrapper that replaces Java exceptions.
- `Doubles` holds the operators the parser applies to its values, on `real`.
- `Scanner` holds `Step`, what one `nextToken()` call does as a function of
  the lexer's fields. It also holds the `Lexer` class, whose
  `NextToken`/`ReadRun` methods are proved to compute `Step`. The value of a
  digit run is tied to two reference definitions: base-10 (`DecimalValue`)
  and fractional digits (`FractionValue`).
- `Grammar` holds the parser's rules as functions. Their state is the
  lexer's fields plus `symbol`.
- `Parsing` holds the `Parser` class. Each of its methods is proved to
  compute the matching `Grammar` function: same value, same final state and
  same failure. `Calculate`, a fresh lexer and parser, gives `Evaluate(input)`.
- `Precedence` is an independent precedence table (tiers, `Apply`,
  `Combine`, `Fold`) proved against the grammar. Its lemmas take any
  operand the grammar accepts: a numeral, a decimal, a group or a negated
  operand. They cover two and three operands, chains of any length within
  one tier, groups and unary minus, and an operator with the end of the
  input after it.
- `Properties` and `Examples` state what whole inputs evaluate to:
  - numerals, with binary operators whatever they are;
  - decimals and two dots;
  - parentheses, matched and unclosed;
  - unary minus;
  - incomplete expressions, unknown characters and ignored trailing input;
  - groups beside operators, a minus before a group or a numeral, a double
    minus, and two operators with the end of the input after the second;
  - the concrete inputs of the project's tests (`5`, `6/2*3`, `2+5*`) and a
    few more.
- `Nested` evaluates the nested inputs of the project's tests:
  `9/3*(-2+5)+1`, `(2*(15/((4+5)-(8*(2+1)))))`, the same behind a minus,
  and the same with its last `)` missing.

The character stream is the whole input as a sequence with a cursor.
`input[pos]` is the lookahead that the source calls `current`, and
`pos == |input|` is the end of the stream. Doubles are modelled as exact
reals.

## Model

| member | source | states |
|---|---|---|
| Scanner.Lexer.constructor | src/main/java/Lexer.java:12-19 | a new lexer over a present reader starts with the cursor on the first character and the value and the dot counter at 0 |
| Scanner.Open | src/main/java/Lexer.java:12-14 | a missing reader is refused with "Reader cannot be null." and a present one gives a fresh lexer in the initial state |
| Scanner.Lexer.Consume | src/main/java/Lexer.java:80-86 | reading the next character advances the cursor by exactly one |
| Scanner.Lexer.NextToken | src/main/java/Lexer.java:21-78 | the token and the new fields are those of `Step`; on an unknown character the cursor and the counter stay put and the value is 0 |
| Scanner.Lexer.ReadRun | src/main/java/Lexer.java:63-71 | the do-while reads the whole maximal digit run, leaves its `RunValue` in `value` and resets the counter to 0 |
| Scanner.Step | src/main/java/Lexer.java:21-78 | one token never moves the cursor backwards, and the token is EOF exactly when the cursor does not move |
| Scanner.RunEnd | src/main/java/Lexer.java:63-69 | the run ends at the first non-digit or at the end of the input, and every character before it is a digit |
| Scanner.ShiftIsQuotient | src/main/java/Lexer.java:66 | adding `Shift(d, k)` is dividing the digit by `Math.pow(10, k)` |
| Scanner.RunValueStep | src/main/java/Lexer.java:63-69 | one turn of the digit loop extends the run's value by one `Accumulate` |
| Scanner.DecimalValueSnoc | src/main/java/Lexer.java:64-66 | appending a digit to a base-10 numeral multiplies its value by ten and adds the digit |
| Scanner.FractionValueSnoc | src/main/java/Lexer.java:66-69 | appending a fractional digit adds it divided by 10 to the power of its place |
| Scanner.IntegerRunValue | src/main/java/Lexer.java:63-69 | with the counter at 0 the loop computes the base-10 value of the run |
| Scanner.FractionRunValue | src/main/java/Lexer.java:63-69 | with the counter at k >= 1 the loop computes the run as fractional digits from place k |
| Scanner.StepOperator | src/main/java/Lexer.java:24-47 | each of the eight operator characters gives its token, moves one character, zeroes the value and keeps the counter |
| Scanner.OperatorChars | src/main/java/Lexer.java:24-47 | exactly the characters `+-/*()^%` are operators |
| Scanner.StepDecimalPoint | src/main/java/Lexer.java:48-52 | both `.` and `,` give DOT, move one character and increment the counter |
| Scanner.StepDigitRun | src/main/java/Lexer.java:53-72 | a digit gives NUMBER, worth the loop's value over the maximal run, ending after the run with the counter at 0 |
| Scanner.StepIntegerRun | src/main/java/Lexer.java:63-72 | a run with no dot before it is worth its base-10 value |
| Scanner.StepFractionRun | src/main/java/Lexer.java:63-72 | a run after k >= 1 dots is worth the sum of d_i / 10^(k+i) |
| Scanner.StepValueReset | src/main/java/Lexer.java:22 | after NUMBER the counter is 0 and the lookahead is no digit; after any other token the value is 0 |
| Scanner.StepEofSticky | src/main/java/Lexer.java:73-74 | EOF comes exactly at the end of the stream (or at U+FFFF), and it comes again on every later call |
| Scanner.EmptyInputIsEof | src/main/java/Lexer.java:73-74 | an empty stream gives EOF at once and leaves the state as it was |
| Scanner.StepUnknownSymbol | src/main/java/Lexer.java:75-76 | the only failure is "Unknown symbol.", raised exactly on a character that is neither end, operator, decimal point nor digit |
| Doubles.Div | src/main/java/Parser.java:45 | for a non-zero divisor the quotient times the divisor is the dividend |
| Doubles.Trunc | src/main/java/Parser.java:49 | truncation toward zero lies within one of its argument, on the side of zero |
| Doubles.RemSign | src/main/java/Parser.java:49 | `%` on doubles is smaller than the divisor in magnitude and has the sign of the dividend |
| Doubles.RemFraction | src/main/java/Parser.java:49 | the remainder is the divisor times the signed fractional part of the quotient |
| Doubles.Rem | src/main/java/Parser.java:49 | `%=`: what the remainder leaves, divided by the divisor, is the quotient truncated toward zero; `RemSign` and `RemFraction` bound it; a zero divisor gives 0 (see Left out) |
| Doubles.IntPow | src/main/java/Parser.java:73 | a power of a non-zero base is non-zero |
| Doubles.Pow | src/main/java/Parser.java:73 | `Math.pow`: x^0 is 1; a non-zero base to a whole power is non-zero, and to a negative whole power is the reciprocal of the positive power; a non-integral exponent gives 0 (see Left out) |
| Doubles.PowNat | src/main/java/Parser.java:73 | `Math.pow` with a whole-number exponent is repeated multiplication |
| Grammar.Consume | src/main/java/Parser.java:116-123 | consuming a token never adds input and strictly shrinks the measure unless the symbol is already EOF |
| Grammar.Number | src/main/java/Parser.java:109-114 | a number is worth the lexer's value read before the next token |
| Grammar.Statement | src/main/java/Parser.java:14-17 | `statement()`: a priming consume, then `expr`; its value and failures are stated by `Properties.EvaluateVia` and `Properties.EvaluateFails`, and `Parsing.Parser.Statement` is proved to compute it |
| Grammar.Evaluate | src/main/java/Parser.java:14-17 | `statement()` on a fresh lexer; `Parsing.Calculate` is proved to give it, and the Properties, Examples and Nested lemmas state its value on whole inputs |
| Grammar.Expr | src/main/java/Parser.java:19-36 | `expr` stops only on a symbol no tier continues with |
| Grammar.ExprLoop | src/main/java/Parser.java:22-33 | the `+`/`-` loop stops only on a symbol no tier continues with |
| Grammar.Div | src/main/java/Parser.java:38-55 | `div` stops only on a symbol that neither `div`, `mul` nor `exponentiation` continue with |
| Grammar.DivLoop | src/main/java/Parser.java:41-52 | the `/`/`%` loop stops on a symbol that is not `/`, `%`, `*` or `^` |
| Grammar.Mul | src/main/java/Parser.java:57-66 | `mul` stops only on a symbol other than `*` and `^` |
| Grammar.MulLoop | src/main/java/Parser.java:60-63 | the `*` loop stops on a symbol other than `*` and `^` |
| Grammar.Exponentiation | src/main/java/Parser.java:68-77 | `exponentiation` stops only on a symbol other than `^` |
| Grammar.ExponentiationLoop | src/main/java/Parser.java:71-74 | the `^` loop stops on a symbol other than `^` |
| Grammar.Operand | src/main/java/Parser.java:79-107 | an operand never adds input or grows the measure |
| Parsing.Parser.constructor | src/main/java/Parser.java:8-12 | the parser holds the given lexer |
| Parsing.Open | src/main/java/Parser.java:8-12 | a missing lexer is refused with "Lexer cannot be null." and a present one gives a parser over it |
| Parsing.Parser.Statement | src/main/java/Parser.java:14-17 | priming the lookahead and parsing one expression computes `Grammar.Statement` |
| Parsing.Parser.Expr | src/main/java/Parser.java:19-36 | value, final state and failure are those of `Grammar.Expr`; the loop keeps that what is left of the loop computes the whole rule |
| Parsing.Parser.Div | src/main/java/Parser.java:38-55 | value, final state and failure are those of `Grammar.Div` |
| Parsing.Parser.Mul | src/main/java/Parser.java:57-66 | value, final state and failure are those of `Grammar.Mul` |
| Parsing.Parser.Exponentiation | src/main/java/Parser.java:68-77 | value, final state and failure are those of `Grammar.Exponentiation` |
| Parsing.Parser.Operand | src/main/java/Parser.java:79-107 | value, final state and failure are those of `Grammar.Operand` |
| Parsing.Parser.Number | src/main/java/Parser.java:109-114 | value and final state are those of `Grammar.Number` |
| Parsing.Parser.Consume | src/main/java/Parser.java:116-123 | the symbol and the lexer's new fields are those of `Grammar.Consume`, and a lexer failure is passed on |
| Parsing.Calculate | src/main/java/Parser.java:14-17 | a fresh lexer and parser over the same characters always give `Evaluate(input)` |
| Precedence.Tier | src/main/java/Parser.java:19-77 | the four tiers are 1 to 4, and exactly the six binary operators have one |
| Precedence.ContinuesIsTier | src/main/java/Parser.java:19-77 | the loop of tier k continues exactly on the operators of tier k or higher |
| Precedence.Level | src/main/java/Parser.java:19-107 | a rule at level k <= 4 stops on a symbol below tier k |
| Precedence.LevelThen | src/main/java/Parser.java:19-77 | each level first asks the next level for an operand, then runs its loop |
| Precedence.LoopStep | src/main/java/Parser.java:22-74 | one turn of a loop consumes the operator, evaluates the right operand at the next level and applies the operator |
| Precedence.LoopStepError | src/main/java/Parser.java:22-74 | a failing right operand fails the loop |
| Precedence.LoopExit | src/main/java/Parser.java:19-77 | a loop stops at once on a symbol below its tier |
| Precedence.OperandLevel | src/main/java/Parser.java:19-77 | an operand followed by a symbol below tier k is returned unchanged by every level from k down |
| Precedence.ErrorLevel | src/main/java/Parser.java:19-77 | a failure at a deeper level is the failure of every level above it |
| Precedence.OtherOperand | src/main/java/Parser.java:79-107 | a symbol that starts no operand is worth 0 and is not consumed |
| Precedence.NumeralLevel | src/main/java/Parser.java:83-91 | a number without a dot, followed by a symbol below tier k, is its own value at every level from k down |
| Precedence.PairLevel | src/main/java/Parser.java:19-77 | `y t z`: level k applies t when t's tier is at least k and otherwise stops after y |
| Precedence.TripleLevel | src/main/java/Parser.java:19-77 | `x t1 y t2 z` groups as `Combine`: the higher tier first and equal tiers from the left |
| Precedence.FinishPair | src/main/java/Parser.java:22-74 | a loop holding a value before a last `t z` applies t when t is of its tier and stops otherwise |
| Precedence.GroupOperand | src/main/java/Parser.java:92-98 | `(` e `)` is an operand worth e and ends after the `)`, whatever expression e is |
| Precedence.UnclosedOperand | src/main/java/Parser.java:92-96 | a group whose expression stops on anything but `)` fails with "No matching parenthesis found.", whatever the expression is |
| Precedence.NegatedOperand | src/main/java/Parser.java:99-102 | a minus before any operand is an operand worth its negation, ending where that operand ends |
| Precedence.GroupedPair | src/main/java/Parser.java:92-98 | `(x t y)` with any operands x and y is an operand worth x t y |
| Precedence.EndOperand | src/main/java/Parser.java:103 | the end of the input where an operand is expected fails every level with "Expression is incomplete." |
| Precedence.TrailingPair | src/main/java/Parser.java:19-103 | `y t` then the end of the input: the levels at or below t's tier fail as incomplete, the higher ones stop after y |
| Precedence.TrailingTriple | src/main/java/Parser.java:19-103 | `x t1 y t2` then the end of the input: every level that reaches t2 fails as incomplete; a level below t1's tier stops with x, and one that takes t1 but stops before t2 gives t1 applied to x and y |
| Precedence.ChainLoop | src/main/java/Parser.java:22-74 | the loop of tier k over any number of its own operators is the left fold `Fold` of them, and stops at the first token below tier k |
| Precedence.ChainLevel | src/main/java/Parser.java:19-77 | a tier's rule is its first operand followed by the left fold of its chain, for chains of any length |
| Precedence.ChainIncomplete | src/main/java/Parser.java:22-74 | a chain of any length that ends on one more operator of its tier followed by the end of the input fails as incomplete |
| Properties.RunEndAt | src/main/java/Lexer.java:63-69 | the digit run ends exactly at the first non-digit |
| Properties.RunIs | src/main/java/Lexer.java:63-69 | a numeral followed by a non-digit is exactly the run the lexer reads |
| Properties.ConsumeNumeral | src/main/java/Lexer.java:53-72 | a numeral with no dot before it becomes one NUMBER worth its base-10 value |
| Properties.StepFraction | src/main/java/Lexer.java:63-72 | the digits after one dot are read as tenths, hundredths, and so on |
| Properties.ConsumeFraction | src/main/java/Lexer.java:63-72 | the digits after one dot become one NUMBER worth their fractional value |
| Properties.ConsumeOperator | src/main/java/Lexer.java:24-47 | an operator character becomes the symbol |
| Properties.ConsumeDecimalPoint | src/main/java/Lexer.java:48-52 | a decimal point becomes DOT with the counter at 1 |
| Properties.ConsumeEnd | src/main/java/Lexer.java:73-74 | at the end of the input the symbol becomes EOF |
| Properties.ConsumeUnknown | src/main/java/Lexer.java:75-76 | a character that is no token makes the lexer fail with "Unknown symbol."; in the model the consume that met it fails too |
| Properties.NumeralThenOperator | src/main/java/Lexer.java:24-72 | a numeral then an operator are read as NUMBER then the operator |
| Properties.NumeralThenEnd | src/main/java/Lexer.java:53-74 | a final numeral is read as NUMBER then EOF |
| Properties.EvaluateVia | src/main/java/Parser.java:14-17 | the statement's value is the value of `expr` after the priming consume |
| Properties.EvaluateFails | src/main/java/Parser.java:14-17 | the statement fails as `expr` fails after the priming consume |
| Properties.OneNumeral | src/main/java/Parser.java:83-91 | a numeral alone evaluates to its base-10 value |
| Properties.TwoOperands | src/main/java/Parser.java:19-77 | `a t b` evaluates to `t` applied to the two numerals, for every binary operator |
| Properties.TwoOperandsAt | src/main/java/Parser.java:19-77 | the same, with the operator's position given |
| Properties.ParseTwo | src/main/java/Parser.java:19-77 | parsing NUMBER t NUMBER EOF applies t |
| Properties.ThreeOperands | src/main/java/Parser.java:19-77 | `a t1 b t2 c` evaluates to `Combine`: the tighter operator first and operators of one tier from the left, for all 36 operator pairs |
| Properties.ThreeOperandsAt | src/main/java/Parser.java:19-77 | the same, with the operators' positions given |
| Properties.ParseThree | src/main/java/Parser.java:19-77 | parsing NUMBER t1 NUMBER t2 NUMBER EOF gives `Combine` |
| Properties.DecimalNumber | src/main/java/Parser.java:83-91 | `a.b` (or `a,b`) evaluates to the whole part plus the fractional digits |
| Properties.DecimalNumberAt | src/main/java/Parser.java:83-91 | the same, with the point's position given |
| Properties.ParseDecimal | src/main/java/Parser.java:83-91 | NUMBER DOT NUMBER EOF is the sum of the two values |
| Properties.TwoDecimalPoints | src/main/java/Parser.java:88-89 | `a.b.` followed by anything fails with "Decimals cannot have two dots." |
| Properties.TwoDecimalPointsAt | src/main/java/Parser.java:88-89 | the same, with the points' positions given |
| Properties.ParseTwoDots | src/main/java/Parser.java:88-89 | NUMBER DOT NUMBER DOT fails with the two-dots failure |
| Properties.Parenthesised | src/main/java/Parser.java:92-98 | `(a)` evaluates to the numeral's value |
| Properties.ParenthesisedAt | src/main/java/Parser.java:92-98 | the same, with the closing parenthesis's position given |
| Properties.ParseParenthesised | src/main/java/Parser.java:92-98 | LPAR NUMBER RPAR EOF is the inner value |
| Properties.Unclosed | src/main/java/Parser.java:95-96 | `(a` fails with "No matching parenthesis found." |
| Properties.UnclosedAt | src/main/java/Parser.java:95-96 | the same, at the level of positions |
| Properties.ParseUnclosed | src/main/java/Parser.java:95-96 | LPAR NUMBER EOF fails with the unmatched-parenthesis failure |
| Properties.Negation | src/main/java/Parser.java:99-102 | `-a` evaluates to the negated numeral |
| Properties.NegationAt | src/main/java/Parser.java:99-102 | the same, at the level of positions |
| Properties.ParseNegation | src/main/java/Parser.java:99-102 | MINUS NUMBER EOF is the negated value |
| Properties.Incomplete | src/main/java/Parser.java:103 | a numeral followed by a binary operator and nothing else fails with "Expression is incomplete." |
| Properties.ParseIncomplete | src/main/java/Parser.java:103 | NUMBER t EOF fails with the incomplete-expression failure |
| Properties.EmptyInput | src/main/java/Parser.java:103 | the empty input fails with "Expression is incomplete." |
| Properties.ConsumeSymbol | src/main/java/Lexer.java:24-47 | an operator character becomes the symbol and the cursor moves past it |
| Properties.ConsumeEndAt | src/main/java/Lexer.java:73-74 | at the end of the input the symbol becomes EOF and the cursor stays |
| Properties.GroupTokens | src/main/java/Lexer.java:24-72 | `(a t b)` is read as LPAR, NUMBER, t, NUMBER, RPAR, with the numerals' base-10 values |
| Properties.GroupValue | src/main/java/Parser.java:92-98 | those tokens form an operand worth a t b, whatever follows the `)` |
| Properties.GroupRight | src/main/java/Parser.java:92-98 | `a o1 (b o2 c)` evaluates the group first, whatever the tiers of o1 and o2 |
| Properties.GroupRightAt | src/main/java/Parser.java:92-98 | the same, with the positions given |
| Properties.ParseGroupRight | src/main/java/Parser.java:92-98 | NUMBER t1 LPAR NUMBER t2 NUMBER RPAR EOF is x t1 (y t2 z) |
| Properties.GroupLeft | src/main/java/Parser.java:92-98 | `(a o1 b) o2 c` evaluates the group first, whatever the tiers of o1 and o2 |
| Properties.GroupLeftAt | src/main/java/Parser.java:92-98 | the same, with the positions given |
| Properties.ParseGroupLeft | src/main/java/Parser.java:92-98 | LPAR NUMBER t1 NUMBER RPAR t2 NUMBER EOF is (x t1 y) t2 z |
| Properties.NegatedGroup | src/main/java/Parser.java:99-102 | `-(a o b)` negates the whole group |
| Properties.NegatedGroupAt | src/main/java/Parser.java:99-102 | the same, with the positions given |
| Properties.ParseNegatedGroup | src/main/java/Parser.java:99-102 | MINUS LPAR NUMBER t NUMBER RPAR EOF is -(x t y) |
| Properties.NegationFirst | src/main/java/Parser.java:99-102 | `-a o b` negates a alone, before any binary operator is applied |
| Properties.NegationFirstAt | src/main/java/Parser.java:99-102 | the same, with the operator's position given |
| Properties.ParseNegationFirst | src/main/java/Parser.java:99-102 | MINUS NUMBER t NUMBER EOF is (-x) t y |
| Properties.DoubleNegation | src/main/java/Parser.java:99-102 | `--a` is the negation of the negation of a |
| Properties.ParseDoubleNegation | src/main/java/Parser.java:99-102 | MINUS MINUS NUMBER EOF is -(-x) |
| Properties.IncompleteAfterTwo | src/main/java/Parser.java:103 | two numerals joined by an operator and followed by a second operator fail with "Expression is incomplete.", for every pair of operators |
| Properties.ParseIncompleteAfterTwo | src/main/java/Parser.java:103 | NUMBER t1 NUMBER t2 EOF fails as incomplete |
| Properties.TrailingInputIgnored | src/main/java/Parser.java:14-17 | `a)` followed by anything at all evaluates to the numeral: input after the expression is never read |
| Properties.ParseTrailing | src/main/java/Parser.java:14-17 | NUMBER RPAR ends the expression with the numeral's value |
| Properties.LeadingParenthesis | src/main/java/Parser.java:79-107 | `)` followed by anything evaluates to 0, because an operand that starts with no operand symbol is worth 0 |
| Properties.ParseLeadingOther | src/main/java/Parser.java:79-107 | an expression that starts on RPAR is 0 and stops there |
| Properties.UnknownCharacter | src/main/java/Lexer.java:75-76 | in the model, a numeral then a character that is no token ends the parse with the lexer's "Unknown symbol." (the source swallows it, see Left out) |
| Properties.ParseUnknown | src/main/java/Lexer.java:75-76 | in the model, a failed consume after a number ends the parse with the lexer's failure (the source swallows it, see Left out) |
| Examples.OneDigit | src/main/java/Lexer.java:66 | a one-digit numeral is worth its digit |
| Examples.ThreeDigits | src/main/java/Parser.java:19-77 | `ThreeOperands` on one-digit numerals |
| Examples.Five | src/test/java/CalculatorTests.java:31-42 | "5" evaluates to 5 |
| Examples.MulBeforeDiv | src/test/java/CalculatorTests.java:88-98 | "6/2*3" evaluates to 1, not 9 |
| Examples.PowerFoldsLeft | src/main/java/Parser.java:71-74 | "2^3^2" evaluates to 64: `^` groups from the left |
| Examples.SubtractionFoldsLeft | src/main/java/Parser.java:22-33 | "8-3-2" evaluates to 3 |
| Examples.MulBeforeAdd | src/main/java/Parser.java:19-66 | "2+3*4" evaluates to 14 |
| Examples.OnePointFive | src/main/java/Lexer.java:63-72 | "1.5" evaluates to 1.5 |
| Examples.TrailingOperator | src/test/java/CalculatorTests.java:156-170 | "2+5*" fails with "Expression is incomplete." |
| Nested.Digit | src/main/java/Lexer.java:53-72 | a one-digit numeral becomes NUMBER worth its digit |
| Nested.Fifteen | src/main/java/Lexer.java:53-72 | the numeral 15 becomes NUMBER worth 15 |
| Nested.OperatorAfter | src/main/java/Lexer.java:24-47 | an operator after a numeral becomes the symbol |
| Nested.ParenthesesFirst | src/test/java/CalculatorTests.java:101-118 | "9/3*(-2+5)+1" evaluates to 2 |
| Nested.LeftTokens | src/test/java/CalculatorTests.java:108 | the tokens of "9/3*(-2+5)+1" up to the minus |
| Nested.RightTokens | src/test/java/CalculatorTests.java:108 | the tokens of "9/3*(-2+5)+1" after the minus |
| Nested.GroupWithMinus | src/main/java/Parser.java:92-102 | the group (-2+5) is an operand worth 3 |
| Nested.ParseParenthesesFirst | src/main/java/Parser.java:19-107 | those tokens evaluate to 9/(3*3)+1 = 2 |
| Nested.GroupA | src/main/java/Parser.java:92-98 | (2+1) is an operand worth 3 |
| Nested.GroupB | src/main/java/Parser.java:92-98 | (8*(2+1)) is an operand worth 24 |
| Nested.GroupC | src/main/java/Parser.java:92-98 | (4+5) is an operand worth 9 |
| Nested.GroupD | src/main/java/Parser.java:92-98 | ((4+5)-(8*(2+1))) is an operand worth -15 |
| Nested.CoreValue | src/main/java/Parser.java:19-107 | inside the outermost group, 2*(15/(...)) is worth -2 whether a `)` or the end of the input follows |
| Nested.NestedGroups | src/test/java/CalculatorTests.java:120-138 | "(2*(15/((4+5)-(8*(2+1)))))" evaluates to -2 |
| Nested.ParseNestedGroups | src/main/java/Parser.java:92-98 | the outermost group of that input is worth -2 and the input ends after it |
| Nested.NegatedNestedGroups | src/test/java/CalculatorTests.java:172-190 | "-(2*(15/((4+5)-(8*(2+1)))))" evaluates to 2 |
| Nested.ParseNegatedNestedGroups | src/main/java/Parser.java:99-102 | the minus negates the whole outermost group |
| Nested.UnclosedNestedGroups | src/test/java/CalculatorTests.java:140-154 | "(2*(15/((4+5)-(8*(2+1))))" fails with "No matching parenthesis found." |
| Nested.ParseUnclosedNestedGroups | src/main/java/Parser.java:95-96 | every inner group closes, the outermost one meets the end of the input and fails |

## Left out

- I/O: the `Reader` is the whole input as a sequence. The "Reading failed." error of `Lexer.consume` (src/main/java/Lexer.java:83-84) cannot arise and is not modelled. `Main.java` (console and file handling) is not part of this model.
- Doubles are reals. Rounding, infinities and NaN are not modelled: a zero divisor, `%` by zero and a zero base to a negative power give 0 in the model, where the source gives an infinity or NaN.
- Doubles.Pow: every non-integral exponent gives 0 in the model, whatever the source's `Math.pow` returns. This is not a rounding difference: `Math.pow(4, 0.5)` is exactly 2.0 and the model gives 0. No property relies on this stand-in.
- Parsing.Parser.Consume: a lexer failure inside `Parser.consume` ends the parse with "Unknown symbol.". The source instead prints the stack trace and keeps the old symbol (src/main/java/Parser.java:116-123). What happens next depends on that symbol:
  - after a number the parse goes on as if the input had ended there, so "5?" gives 5;
  - "?" leaves the symbol null, and `switch (symbol)` (src/main/java/Parser.java:82) throws NullPointerException;
  - "(?" and "-?" keep the symbol LPAR or MINUS, and `operand` re-enters itself (src/main/java/Parser.java:94, 101) until the stack overflows;
  - "1.?" keeps the symbol DOT, so the parse fails with "Decimals cannot have two dots." (src/main/java/Parser.java:88);
  - "1+?" keeps the symbol PLUS, and the `+` loop never ends.
  The model does not capture these outcomes.
- Properties.UnknownCharacter: the model's `Err(UnknownSymbol)` is not what the source gives. In the source the failure is swallowed, the symbol stays NUMBER, and "5?" evaluates to 5.
- Properties.ParseUnknown: same deviation. The source keeps the numeral's value and returns it, instead of failing.
- Parsing.Parser.constructor: the source leaves `symbol` null until the first `consume()`. The model starts it at EOF, which no rule reads before that first `consume()`.
- Scanner.IsDigit: only the ASCII digits are digits. The source's `case '0'`…`'9'` enters the loop on ASCII digits only, but `Character.isDigit` and `getNumericValue` would also accept other Unicode decimal digits inside a run.
- Scanner.StepEofSticky: the end of the stream is the cursor at the end of the sequence. A literal U+FFFF in the input is read as end of input too, because the source casts `read()` to `char`.
- `Lexer.getValue` is `Scanner.Lexer.GetValue`. It has no contract of its own; what it returns is stated by `Grammar.Number` and `Parsing.Parser.Number`.
- The test for an unmatched parenthesis expects the message "No matching parentheses found.", while the code says "parenthesis". The model follows the code (`Tokens.Message`).
- Properties states whole-input results for numerals joined by up to two operators, groups of two numerals, a leading minus, decimals and the failure paths. Longer inputs are covered by the `Precedence` lemmas over any operands, and the tests' nested inputs by `Nested`. No lemma states the value of every input of arbitrary shape; `Parsing.Calculate` and the `Grammar` functions define it.
