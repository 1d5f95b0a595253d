/** Writing expressions as trigger logic strings, such as `(1 OR 2) AND 3`. */
module TriggerText {
  import opened Sequences
  import opened TriggerExpression
  import opened TriggerLogic

  function Decimal(n: nat): (digits: string)
    ensures digits != [] && AllDigits(digits)
    decreases n
  {
    var digit := ('0' as int + n % 10) as char;
    if n < 10 then [digit] else Decimal(n / 10) + [digit]
  }

  function TokenText(token: Token): string {
    match token
    case Open => "("
    case Close => ")"
    case Operation(op) => " " + OperatorText(op) + " "
    case Operand(n) => Decimal(n)
  }

  function Write(tokens: seq<Token>): string {
    if tokens == [] then [] else TokenText(tokens[0]) + Write(tokens[1..])
  }

  lemma {:induction false} ValueOfDecimal(n: nat)
    ensures Value(Decimal(n)) == n
    decreases n
  {
    var digits := Decimal(n);
    var digit := digits[|digits| - 1];
    assert (digit - '0') as nat == n % 10;
    if n < 10 {
      assert digits[..|digits| - 1] == [];
    } else {
      assert digits[..|digits| - 1] == Decimal(n / 10);
      ValueOfDecimal(n / 10);
    }
  }

  lemma {:induction false} TokenizeWrite(tokens: seq<Token>)
    requires ExpectOperand(tokens) || AfterOperand(tokens)
    ensures Tokenize(Write(tokens)) == tokens
    ensures AfterOperand(tokens) ==> NoLeadingDigit(Write(tokens))
    decreases |tokens|
  {
    if tokens == [] {
    } else {
      var tail := Write(tokens[1..]);
      TokenizeWrite(tokens[1..]);
      TokenizeTokenText(tokens[0], tail);
    }
  }

  lemma TokenizeTokenText(token: Token, tail: string)
    requires token.Operand? ==> NoLeadingDigit(tail)
    ensures Tokenize(TokenText(token) + tail) == [token] + Tokenize(tail)
  {
    match token
    case Open =>
      assert ("(" + tail)[1..] == tail;
    case Close =>
      assert (")" + tail)[1..] == tail;
    case Operation(op) =>
      TokenizeOperationText(op, tail);
    case Operand(n) =>
      ValueOfDecimal(n);
      TokenizeDigits(Decimal(n), tail);
  }

  lemma TokenizeOperationText(op: Operator, tail: string)
    ensures Tokenize(TokenText(Operation(op)) + tail) == [Operation(op)] + Tokenize(tail)
  {
    var text := OperatorText(op) + (" " + tail);
    SpaceBefore(text);
    TokenizeOperator(op, " " + tail);
    SpaceBefore(tail);
    AssociateFour(" ", OperatorText(op), " ", tail);
  }

  lemma SpaceBefore(s: string)
    ensures Tokenize(" " + s) == Tokenize(s)
  {
    SkipSpaces(1, s);
    assert Repeat(' ', 1) == " ";
  }

  lemma {:induction false} WriteExpectingOperand(tokens: seq<Token>) returns (t: Term, ls: seq<Link>)
    requires ExpectOperand(tokens)
    ensures IsTerm(t) && AreLinks(ls) && Write(tokens) == TermText(t) + LinksText(ls)
    decreases |tokens|
  {
    if tokens[0] == Open {
      t, ls := WriteExpectingOperand(tokens[1..]);
      OneMoreOpen(t, LinksText(ls));
      t := t.(opens := t.opens + 1);
    } else {
      var closes;
      closes, ls := WriteAfterOperand(tokens[1..]);
      t := Term(0, Decimal(tokens[0].number), closes);
      TermTextAppend(t, LinksText(ls));
      assert Repeat('(', 0) == [];
    }
  }

  lemma OneMoreOpen(t: Term, s: string)
    ensures TermText(t.(opens := t.opens + 1)) + s == "(" + (TermText(t) + s)
  {
    assert Repeat('(', t.opens + 1) == "(" + Repeat('(', t.opens);
  }

  lemma {:induction false} WriteAfterOperand(tokens: seq<Token>) returns (closes: nat, ls: seq<Link>)
    requires AfterOperand(tokens)
    ensures AreLinks(ls) && Write(tokens) == Repeat(')', closes) + LinksText(ls)
    decreases |tokens|
  {
    closes, ls := 0, [];
    if tokens == [] {
    } else {
      if tokens[0] == Close {
        closes, ls := WriteAfterOperand(tokens[1..]);
        assert Repeat(')', closes + 1) == ")" + Repeat(')', closes);
        closes := closes + 1;
      } else {
        var op := tokens[0].op;
        var t, ls' := WriteExpectingOperand(tokens[1..]);
        ls := [Link(1, op, 1, t)] + ls';
        assert ls[1..] == ls';
        assert Repeat(' ', 1) == " ";
        LinkTextAppend(ls[0], LinksText(ls'));
      }
    }
  }

  /** The token lists of the strings the pattern accepts are exactly those in which operands and operators alternate. */
  lemma PatternLanguage(tokens: seq<Token>)
    ensures ExpectOperand(tokens) <==> exists s :: MatchesPattern(s) && Tokenize(s) == tokens
  {
    if ExpectOperand(tokens) {
      var t, ls := WriteExpectingOperand(tokens);
      TokenizeWrite(tokens);
      assert MatchesPattern(Write(tokens));
    }
    forall s | MatchesPattern(s) && Tokenize(s) == tokens
      ensures ExpectOperand(tokens)
    {
      AcceptedTokens(s);
    }
  }

  lemma {:induction false} PrintExpectsOperand(e: Expr, rest: seq<Token>)
    requires AfterOperand(rest)
    ensures ExpectOperand(Print(e) + rest)
    decreases e
  {
    match e
    case Single(f) =>
      PrintFactorExpectsOperand(f, rest);
    case Binary(l, op, r) =>
      var right := PrintFactor(r) + rest;
      PrintFactorExpectsOperand(r, rest);
      OperatorFirst(op, right);
      PrintExpectsOperand(l, [Operation(op)] + right);
      AssociateFour(Print(l), [Operation(op)], PrintFactor(r), rest);
      assert Print(e) + rest == Print(l) + ([Operation(op)] + right);
  }

  lemma {:induction false} PrintFactorExpectsOperand(f: Factor, rest: seq<Token>)
    requires AfterOperand(rest)
    ensures ExpectOperand(PrintFactor(f) + rest)
    decreases f
  {
    match f
    case Leaf(n) =>
      OperandFirst(n, rest);
    case Paren(e) =>
      assert ([Close] + rest)[1..] == rest;
      PrintExpectsOperand(e, [Close] + rest);
      AssociateFour([Open], Print(e), [Close], rest);
      assert ([Open] + (Print(e) + ([Close] + rest)))[1..] == Print(e) + ([Close] + rest);
  }

  /** A written expression is a well-formed logic string, and evaluating the string gives the expression's meaning. */
  lemma WrittenExpressionEvaluates(e: Expr, conditions: seq<bool>)
    requires OperandsWithin(e, |conditions|)
    ensures MatchesPattern(Write(Print(e)))
    ensures EvaluateTriggerExpression(Write(Print(e)), conditions) == Result(Known(Meaning(e, conditions)))
  {
    var tokens := Print(e);
    assert tokens + [] == tokens;
    PrintExpectsOperand(e, []);
    var t, ls := WriteExpectingOperand(tokens);
    TokenizeWrite(tokens);
    ParseThenEvalIsMeaning(e, conditions);
  }

  /** The numbers of an expression from left to right. */
  function Leaves(e: Expr): seq<nat> {
    match e
    case Single(f) => LeavesOfFactor(f)
    case Binary(l, _, r) => Leaves(l) + LeavesOfFactor(r)
  }

  function LeavesOfFactor(f: Factor): seq<nat> {
    match f
    case Leaf(n) => [n]
    case Paren(e) => Leaves(e)
  }

  lemma {:induction false} NumbersOfPrint(e: Expr)
    ensures Numbers(Print(e)) == Leaves(e)
    decreases e
  {
    match e
    case Single(f) => NumbersOfFactor(f);
    case Binary(l, op, r) =>
      NumbersOfPrint(l);
      NumbersOfFactor(r);
      NumbersAppend(Print(l) + [Operation(op)], PrintFactor(r));
      NumbersAppend(Print(l), [Operation(op)]);
      assert Numbers([Operation(op)]) == [];
  }

  lemma {:induction false} NumbersOfFactor(f: Factor)
    ensures Numbers(PrintFactor(f)) == LeavesOfFactor(f)
    decreases f
  {
    match f
    case Leaf(n) => assert Numbers([Operand(n)]) == [n];
    case Paren(e) =>
      NumbersOfPrint(e);
      NumbersAppend([Open] + Print(e), [Close]);
      NumbersAppend([Open], Print(e));
      assert Numbers([Open]) == [] && Numbers([Close]) == [];
  }

  /**
   * The validator takes a written expression iff it names as many numbers as there are sources and none beyond them; it
   * never objects to its format.
   */
  lemma WrittenExpressionIsAcceptedIff(e: Expr, sources: nat)
    ensures ValidateTriggerLogic(Write(Print(e)), sources) ==
            if |Leaves(e)| == sources && forall i :: 0 <= i < sources ==> Leaves(e)[i] <= sources then Accepted
            else OperandsMismatch
  {
    var tokens := Print(e);
    assert tokens + [] == tokens;
    PrintExpectsOperand(e, []);
    var t, ls := WriteExpectingOperand(tokens);
    assert MatchesPattern(Write(tokens));
    TokenizeWrite(tokens);
    OperandsAreTokenNumbers(Write(tokens));
    NumbersOfPrint(e);
    assert OperandsOf(Write(tokens)) == Leaves(e);
    assert forall i :: 0 <= i < |Leaves(e)| ==> Leaves(e)[i] in Leaves(e);
  }

  /** The shortest logic string repeats its only condition. */
  lemma SingleCondition(condition: bool)
    ensures EvaluateTriggerExpression("1", [condition]) == Result(Known(condition))
  {
    WrittenExpressionEvaluates(Single(Leaf(1)), [condition]);
    TextOfOne();
  }

  lemma TextOfOne()
    ensures Write(Print(Single(Leaf(1)))) == "1"
  {
    assert Print(Single(Leaf(1))) == [Operand(1)];
    assert Write([Operand(1)]) == Decimal(1) + Write([]);
    assert Decimal(1) == "1";
  }

  /** The same for two conditions that must both hold. */
  lemma BothConditions(first: bool, second: bool)
    ensures EvaluateTriggerExpression("1 AND 2", [first, second]) == Result(Known(first && second))
  {
    MeaningOfBoth(first, second);
    WrittenExpressionEvaluates(Both(), [first, second]);
    TextOfBoth();
  }

  function Both(): Expr { Binary(Single(Leaf(1)), And, Leaf(2)) }

  lemma MeaningOfBoth(first: bool, second: bool)
    ensures OperandsWithin(Both(), |[first, second]|) && Meaning(Both(), [first, second]) == (first && second)
  {
    assert OperandsWithin(Single(Leaf(1)), 2) && FactorWithin(Leaf(2), 2);
    assert Meaning(Single(Leaf(1)), [first, second]) == first;
    assert MeaningOfFactor(Leaf(2), [first, second]) == second;
  }

  lemma TextOfBoth()
    ensures Write(Print(Both())) == "1 AND 2"
  {
    assert Print(Both()) == [Operand(1), Operation(And), Operand(2)];
    assert Write([Operand(2)]) == Decimal(2) + Write([]) && Decimal(2) == "2";
    assert [Operation(And), Operand(2)][1..] == [Operand(2)];
    assert Write([Operation(And), Operand(2)]) == " AND " + "2";
    assert [Operand(1), Operation(And), Operand(2)][1..] == [Operation(And), Operand(2)];
    assert Decimal(1) == "1";
  }
}
