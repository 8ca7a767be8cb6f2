/** The lexer: turns the characters of the input into tokens, one per call
    to `NextToken`, keeping one character of lookahead and leaving the value
    of the last digit run in the `value` field.

    The character source is the whole input as a sequence with a cursor:
    `input[pos]` is the lookahead character the source calls `current`,
    and `pos == |input|` is the end of the stream. */
module Scanner {
  import opened Tokens

  /** The character `(char) -1` that the reader's end-of-stream marker
      becomes once cast; a U+FFFF in the input reads the same way. */
  const EndMarker: char := '\U{FFFF}'

  predicate IsDigit(c: char) {
    '0' <= c <= '9'
  }

  function DigitValue(c: char): nat
    requires IsDigit(c)
  {
    c as int - '0' as int
  }

  predicate AllDigits(s: seq<char>) {
    forall i :: 0 <= i < |s| ==> IsDigit(s[i])
  }

  function Pow10(k: nat): (r: real)
    ensures r >= 1.0
  {
    if k == 0 then 1.0 else 10.0 * Pow10(k - 1)
  }

  /** `x` times 10^k, one factor of ten at a time. */
  function Scale(x: real, k: nat): real {
    if k == 0 then x else 10.0 * Scale(x, k - 1)
  }

  /** `x` divided by 10^k, one factor of ten at a time. */
  function Shift(x: real, k: nat): real {
    if k == 0 then x else Shift(x, k - 1) / 10.0
  }

  /** Shifting by `k` places is dividing by `Math.pow(10, k)`. */
  lemma {:induction false} ShiftIsQuotient(x: real, k: nat)
    ensures Shift(x, k) == x / Pow10(k)
  {
    if k > 0 {
      ShiftIsQuotient(x, k - 1);
      assert x / Pow10(k) == (x / Pow10(k - 1)) / 10.0;
    }
  }

  // ---------------------------------------------------------------------
  // What a digit run is worth: the reference definitions

  /** The base-10 value of the digits `ds`, most significant first. */
  function DecimalValue(ds: seq<char>): real
    requires AllDigits(ds)
  {
    if ds == [] then 0.0
    else Scale(DigitValue(ds[0]) as real, |ds| - 1) + DecimalValue(ds[1..])
  }

  /** The digits `ds` read as the fractional digits at positions
      `k`, `k + 1`, ... after a decimal point: the sum of d_i / 10^(k+i). */
  function FractionValue(ds: seq<char>, k: nat): real
    requires AllDigits(ds)
  {
    if ds == [] then 0.0
    else Shift(DigitValue(ds[0]) as real, k) + FractionValue(ds[1..], k + 1)
  }

  // ---------------------------------------------------------------------
  // What the lexer computes, one digit at a time

  /** The counter `positionAfterDot` after `n` digits of a run that began
      with the counter at `pad`: it stays 0 in an integer run and counts up
      in a fractional one. */
  function PadAfter(pad: nat, n: nat): nat {
    if pad == 0 then 0 else pad + n
  }

  /** One step of the digit loop: scale by ten in an integer run, then add
      the digit divided by 10^pad. */
  function Accumulate(value: real, pad: nat, c: char): real
    requires IsDigit(c)
  {
    (if pad == 0 then value * 10.0 else value) + Shift(DigitValue(c) as real, pad)
  }

  /** The value after the digit loop has read all of `ds`, starting from 0
      with the counter at `pad`. */
  function RunValue(ds: seq<char>, pad: nat): real
    requires AllDigits(ds)
  {
    if ds == [] then 0.0
    else Accumulate(RunValue(ds[..|ds| - 1], pad), PadAfter(pad, |ds| - 1), ds[|ds| - 1])
  }

  lemma {:induction false} DecimalValueSnoc(ds: seq<char>, c: char)
    requires AllDigits(ds) && IsDigit(c)
    ensures AllDigits(ds + [c])
    ensures DecimalValue(ds + [c]) == DecimalValue(ds) * 10.0 + DigitValue(c) as real
  {
    if ds != [] {
      assert (ds + [c])[1..] == ds[1..] + [c];
      DecimalValueSnoc(ds[1..], c);
    }
  }

  lemma {:induction false} FractionValueSnoc(ds: seq<char>, c: char, k: nat)
    requires AllDigits(ds) && IsDigit(c)
    ensures AllDigits(ds + [c])
    ensures FractionValue(ds + [c], k) == FractionValue(ds, k) + Shift(DigitValue(c) as real, k + |ds|)
  {
    if ds != [] {
      assert (ds + [c])[1..] == ds[1..] + [c];
      FractionValueSnoc(ds[1..], c, k + 1);
    }
  }

  /** Reading one more digit of the run at `start` is one more
      `Accumulate`. */
  lemma RunValueStep(input: seq<char>, start: nat, pos: nat, pad: nat)
    requires start <= pos < |input| && AllDigits(input[start..pos]) && IsDigit(input[pos])
    ensures AllDigits(input[start..pos + 1])
    ensures RunValue(input[start..pos + 1], pad) ==
            Accumulate(RunValue(input[start..pos], pad), PadAfter(pad, pos - start), input[pos])
  {
    assert input[start..pos + 1][..pos - start] == input[start..pos];
  }

  /** In an integer run (no dot before it) the loop computes the base-10
      value of the digits. */
  lemma {:induction false} IntegerRunValue(ds: seq<char>)
    requires AllDigits(ds)
    ensures RunValue(ds, 0) == DecimalValue(ds)
  {
    if ds != [] {
      var init := ds[..|ds| - 1];
      IntegerRunValue(init);
      DecimalValueSnoc(init, ds[|ds| - 1]);
      assert init + [ds[|ds| - 1]] == ds;
    }
  }

  /** In a run that follows `k >= 1` dots the loop computes the digits as a
      fraction whose first digit is worth 10^-k. */
  lemma {:induction false} FractionRunValue(ds: seq<char>, k: nat)
    requires AllDigits(ds) && k >= 1
    ensures RunValue(ds, k) == FractionValue(ds, k)
  {
    if ds != [] {
      var init := ds[..|ds| - 1];
      FractionRunValue(init, k);
      FractionValueSnoc(init, ds[|ds| - 1], k);
      assert init + [ds[|ds| - 1]] == ds;
    }
  }

  // ---------------------------------------------------------------------
  // The token step

  /** The single-character tokens other than the decimal point. */
  function Operator(c: char): Option<Token> {
    match c
    case '+' => Some(PLUS)
    case '-' => Some(MINUS)
    case '/' => Some(DIV)
    case '*' => Some(MUL)
    case '(' => Some(LPAR)
    case ')' => Some(RPAR)
    case '^' => Some(EXP)
    case '%' => Some(REMAINDER)
    case _ => None
  }

  predicate IsDecimalPoint(c: char) {
    c == '.' || c == ','
  }

  /** The lexer's fields: the cursor, the last value and the counter. */
  datatype LexState = LexState(pos: nat, value: real, positionAfterDot: nat)

  const Initial: LexState := LexState(0, 0.0, 0)

  predicate AtEnd(input: seq<char>, pos: nat) {
    pos >= |input| || input[pos] == EndMarker
  }

  /** The end of the maximal run of digits that starts at `pos`. */
  function RunEnd(input: seq<char>, pos: nat): (e: nat)
    requires pos <= |input|
    ensures pos <= e <= |input|
    ensures forall i :: pos <= i < e ==> IsDigit(input[i])
    ensures e == |input| || !IsDigit(input[e])
    decreases |input| - pos
  {
    if pos < |input| && IsDigit(input[pos]) then RunEnd(input, pos + 1) else pos
  }

  /** What one call of `nextToken` returns and leaves behind, from the
      lexer's state `ls`. A failure leaves the cursor and the counter alone
      (and the value at 0). */
  function Step(input: seq<char>, ls: LexState): (r: Result<(Token, LexState)>)
    requires ls.pos <= |input|
    ensures r.Ok? ==> ls.pos <= r.value.1.pos <= |input|
    ensures r.Ok? ==> (r.value.0 == EOF <==> r.value.1.pos == ls.pos)
  {
    if AtEnd(input, ls.pos) then
      Ok((EOF, LexState(ls.pos, 0.0, ls.positionAfterDot)))
    else
      var c := input[ls.pos];
      if Operator(c).Some? then
        Ok((Operator(c).value, LexState(ls.pos + 1, 0.0, ls.positionAfterDot)))
      else if IsDecimalPoint(c) then
        Ok((DOT, LexState(ls.pos + 1, 0.0, ls.positionAfterDot + 1)))
      else if IsDigit(c) then
        var e := RunEnd(input, ls.pos);
        Ok((NUMBER, LexState(e, RunValue(input[ls.pos..e], ls.positionAfterDot), 0)))
      else
        Err(UnknownSymbol)
  }

  // ---------------------------------------------------------------------
  // Properties of one step

  /** Each operator character gives its own token and moves past exactly
      that character; the value is reset and the counter kept. */
  lemma StepOperator(input: seq<char>, ls: LexState, c: char, t: Token)
    requires ls.pos < |input| && input[ls.pos] == c
    requires Operator(c) == Some(t)
    ensures Step(input, ls) == Ok((t, LexState(ls.pos + 1, 0.0, ls.positionAfterDot)))
    ensures t != DOT && t != NUMBER && t != EOF
  {
  }

  /** Only the eight operator characters are operators. */
  lemma OperatorChars(c: char)
    ensures Operator(c).Some? <==> c in "+-/*()^%"
  {
  }

  /** `.` and `,` both give DOT, move one character and bump the counter. */
  lemma StepDecimalPoint(input: seq<char>, ls: LexState)
    requires ls.pos < |input| && IsDecimalPoint(input[ls.pos])
    ensures Step(input, ls) == Ok((DOT, LexState(ls.pos + 1, 0.0, ls.positionAfterDot + 1)))
  {
  }

  /** A digit character starts a NUMBER token that runs to the end `e` of
      the maximal digit run; the counter goes back to 0. */
  lemma StepDigitRun(input: seq<char>, ls: LexState, e: nat)
    requires ls.pos < |input| && IsDigit(input[ls.pos]) && e == RunEnd(input, ls.pos)
    ensures ls.pos < e && AllDigits(input[ls.pos..e])
    ensures Step(input, ls) == Ok((NUMBER, LexState(e, RunValue(input[ls.pos..e], ls.positionAfterDot), 0)))
  {
  }

  /** A digit run `ds` read with no dot before it: NUMBER, worth the
      base-10 value of the maximal run, ending on a non-digit with the
      counter at 0. */
  lemma StepIntegerRun(input: seq<char>, ls: LexState, e: nat, ds: seq<char>)
    requires ls.pos < |input| && IsDigit(input[ls.pos]) && ls.positionAfterDot == 0
    requires e == RunEnd(input, ls.pos) && ds == input[ls.pos..e]
    ensures ls.pos < e && AllDigits(ds)
    ensures Step(input, ls) == Ok((NUMBER, LexState(e, DecimalValue(ds), 0)))
  {
    StepDigitRun(input, ls, e);
    IntegerRunValue(ds);
  }

  /** A digit run `ds` read after `k >= 1` dots: NUMBER, worth the sum of
      d_i / 10^(k+i-1), and the counter goes back to 0. */
  lemma StepFractionRun(input: seq<char>, ls: LexState, e: nat, ds: seq<char>, k: nat)
    requires ls.pos < |input| && IsDigit(input[ls.pos]) && ls.positionAfterDot == k >= 1
    requires e == RunEnd(input, ls.pos) && ds == input[ls.pos..e]
    ensures ls.pos < e && AllDigits(ds)
    ensures Step(input, ls) == Ok((NUMBER, LexState(e, FractionValue(ds, k), 0)))
  {
    StepDigitRun(input, ls, e);
    FractionRunValue(ds, k);
  }

  /** After a NUMBER the lookahead is not a digit and the counter is 0;
      after any other token the value is 0. */
  lemma StepValueReset(input: seq<char>, ls: LexState)
    requires ls.pos <= |input| && Step(input, ls).Ok?
    ensures var (t, next) := Step(input, ls).value;
            (t == NUMBER ==> next.positionAfterDot == 0 && (next.pos == |input| || !IsDigit(input[next.pos]))) &&
            (t != NUMBER ==> next.value == 0.0)
  {
  }

  /** EOF is sticky: it comes exactly at the end of the stream, leaves the
      cursor where it is, and so comes again on the next call. */
  lemma StepEofSticky(input: seq<char>, ls: LexState)
    requires ls.pos <= |input|
    ensures Step(input, ls).Ok? && Step(input, ls).value.0 == EOF <==> AtEnd(input, ls.pos)
    ensures AtEnd(input, ls.pos) ==> Step(input, Step(input, ls).value.1) == Step(input, ls)
  {
  }

  /** An empty input gives EOF straight away. */
  lemma EmptyInputIsEof()
    ensures Step([], Initial) == Ok((EOF, Initial))
  {
  }

  /** The only failure is an unrecognised lookahead character, and it leaves
      the lookahead where it was. */
  lemma StepUnknownSymbol(input: seq<char>, ls: LexState)
    requires ls.pos <= |input|
    ensures Step(input, ls).Err? <==>
              !AtEnd(input, ls.pos) && Operator(input[ls.pos]).None? &&
              !IsDecimalPoint(input[ls.pos]) && !IsDigit(input[ls.pos])
    ensures Step(input, ls).Err? ==> Step(input, ls).error == UnknownSymbol
  {
  }

  // ---------------------------------------------------------------------
  // The lexer object

  class Lexer {
    /** The characters the reader will deliver. */
    const input: seq<char>
    /** Index of the lookahead character `current`. */
    var pos: nat
    var value: real
    var positionAfterDot: nat

    ghost predicate Valid()
      reads this
    {
      pos <= |input|
    }

    ghost function State(): LexState
      reads this
    {
      LexState(pos, value, positionAfterDot)
    }

    /** A lexer over a reader that is present: the first character is read
        into the lookahead, the value and the counter start at 0. */
    constructor (input: seq<char>)
      ensures Valid() && this.input == input && State() == Initial
    {
      this.input := input;
      value := 0.0;
      positionAfterDot := 0;
      pos := 0;
    }

    /** Reads the next character into the lookahead. */
    method Consume()
      requires Valid() && pos < |input|
      modifies this`pos
      ensures Valid() && pos == old(pos) + 1
    {
      pos := pos + 1;
    }

    function GetValue(): real
      reads this
    {
      value
    }

    method NextToken() returns (r: Result<Token>)
      requires Valid()
      modifies this
      ensures Valid()
      ensures match Step(input, old(State()))
              case Ok((t, next)) => r == Ok(t) && State() == next
              case Err(e) => r == Err(e) && pos == old(pos) && value == 0.0 &&
                             positionAfterDot == old(positionAfterDot)
    {
      value := 0.0;
      if pos == |input| || input[pos] == EndMarker {
        return Ok(EOF);
      }
      var c := input[pos];
      var op := Operator(c);
      if op.Some? {
        Consume();
        return Ok(op.value);
      } else if c == '.' || c == ',' {
        Consume();
        positionAfterDot := positionAfterDot + 1;
        return Ok(DOT);
      } else if IsDigit(c) {
        ReadRun();
        return Ok(NUMBER);
      } else {
        return Err(UnknownSymbol);
      }
    }

    /** The digit case of `nextToken`: the do-while adds each digit of the
        run to `value` (scaled by ten in an integer run, divided by
        10^positionAfterDot after a dot), then resets the counter. */
    method ReadRun()
      requires Valid() && pos < |input| && IsDigit(input[pos]) && value == 0.0
      modifies this
      ensures Valid()
      ensures var e := RunEnd(input, old(pos));
              State() == LexState(e, RunValue(input[old(pos)..e], old(positionAfterDot)), 0)
    {
      ghost var start := pos;
      ghost var pad := positionAfterDot;
      // the do-while of the source: its first test is known to hold
      while pos < |input| && IsDigit(input[pos])
        invariant start <= pos <= RunEnd(input, start)
        invariant AllDigits(input[start..pos])
        invariant value == RunValue(input[start..pos], pad)
        invariant positionAfterDot == PadAfter(pad, pos - start)
        decreases |input| - pos
      {
        RunValueStep(input, start, pos, pad);
        ghost var next := Accumulate(value, positionAfterDot, input[pos]);
        if positionAfterDot == 0 {
          value := value * 10.0;
        }
        ShiftIsQuotient(DigitValue(input[pos]) as real, positionAfterDot);
        value := value + (DigitValue(input[pos]) as real) / Pow10(positionAfterDot);
        assert value == next;
        if positionAfterDot != 0 {
          positionAfterDot := positionAfterDot + 1;
        }
        Consume();
      }
      positionAfterDot := 0;
    }
  }

  /** `new Lexer(reader)`: a missing reader is refused before anything is
      read. */
  method Open(reader: Option<seq<char>>) returns (r: Result<Lexer>)
    ensures r.Err? <==> reader.None?
    ensures r.Err? ==> r.error == ReaderNull
    ensures r.Ok? ==> fresh(r.value) && r.value.Valid() &&
                      r.value.input == reader.value && r.value.State() == Initial
  {
    if reader.None? {
      return Err(ReaderNull);
    }
    var lexer := new Lexer(reader.value);
    return Ok(lexer);
  }
}
