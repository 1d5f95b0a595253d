/**
 * Trigger logic strings: the tokenizer of common/services/conditions-evaluator.service.ts and the validator of
 * scenarios/schemas/scenario.validators.ts, and what the evaluator makes of the strings the validator accepts.
 */
module TriggerLogic {
  import opened Options
  import opened Sequences
  import opened TriggerExpression

  predicate IsDigit(c: char) { '0' <= c <= '9' }

  predicate AllDigits(s: string) { forall i :: 0 <= i < |s| ==> IsDigit(s[i]) }

  /** The decimal value of a digit string. */
  function Value(digits: string): nat
    requires AllDigits(digits)
  {
    if digits == [] then 0
    else 10 * Value(digits[..|digits| - 1]) + (digits[|digits| - 1] - '0') as nat
  }

  /** The length of the longest digit run at the start of `s`. */
  function DigitRun(s: string): (n: nat)
    ensures n <= |s| && AllDigits(s[..n])
    ensures n < |s| ==> !IsDigit(s[n])
  {
    if s == [] || !IsDigit(s[0]) then 0
    else
      assert forall n: nat {:trigger s[1..][..n]} :: n < |s| ==> s[..n + 1] == [s[0]] + s[1..][..n];
      1 + DigitRun(s[1..])
  }

  /** All matches of `\(|\)|\d+|AND|OR`, scanning from the left and skipping what does not match. */
  function Tokenize(s: string): seq<Token>
    decreases |s|
  {
    if s == [] then []
    else if s[0] == '(' then [Open] + Tokenize(s[1..])
    else if s[0] == ')' then [Close] + Tokenize(s[1..])
    else if IsDigit(s[0]) then [Operand(Value(s[..DigitRun(s)]))] + Tokenize(s[DigitRun(s)..])
    else if "AND" <= s then [Operation(And)] + Tokenize(s[3..])
    else if "OR" <= s then [Operation(Or)] + Tokenize(s[2..])
    else Tokenize(s[1..])
  }

  /** All matches of `\d+` as numbers. */
  function OperandsOf(s: string): seq<nat>
    decreases |s|
  {
    if s == [] then []
    else if IsDigit(s[0]) then [Value(s[..DigitRun(s)])] + OperandsOf(s[DigitRun(s)..])
    else OperandsOf(s[1..])
  }

  datatype Evaluation = Threw | Result(truth: Truth)

  /** `match` yields null for a string without any token, and parsing null throws. */
  function EvaluateTriggerExpression(logic: string, conditions: seq<bool>): Evaluation {
    var tokens := Tokenize(logic);
    if tokens == [] then Threw else Result(Eval(Parse(tokens).items, conditions))
  }

  method EvaluateLogic(logic: string, conditions: seq<bool>) returns (evaluation: Evaluation)
    ensures evaluation == EvaluateTriggerExpression(logic, conditions)
  {
    var tokens := Tokenize(logic);
    if tokens == [] {
      return Threw;
    }
    var stream := new TokenStream(tokens);
    var items := ParseTriggerExpression(stream);
    var truth := EvaluateExpression(items, conditions);
    return Result(truth);
  }

  // ---------------------------------------------------------------------------------------------
  // The validator
  // ---------------------------------------------------------------------------------------------

  /** One match of `\(*\d+\)*`. */
  datatype Term = Term(opens: nat, digits: string, closes: nat)

  /** One match of ` *(?:AND|OR) *\(*\d+\)*`. */
  datatype Link = Link(before: nat, op: Operator, after: nat, term: Term)

  function Repeat(c: char, n: nat): string { seq(n, _ => c) }

  function OperatorText(op: Operator): string { if op == And then "AND" else "OR" }

  predicate IsTerm(t: Term) { t.digits != [] && AllDigits(t.digits) }

  function TermText(t: Term): string {
    Repeat('(', t.opens) + t.digits + Repeat(')', t.closes)
  }

  function LinkText(l: Link): string {
    Repeat(' ', l.before) + OperatorText(l.op) + Repeat(' ', l.after) + TermText(l.term)
  }

  function LinksText(ls: seq<Link>): string {
    if ls == [] then [] else LinkText(ls[0]) + LinksText(ls[1..])
  }

  ghost predicate AreLinks(ls: seq<Link>) { forall l :: l in ls ==> IsTerm(l.term) }

  /** The language of `^\(*\d+\)*(?: *(?:AND|OR) *\(*\d+\)*)*$`. */
  ghost predicate MatchesPattern(s: string) {
    exists t: Term, ls: seq<Link> :: IsTerm(t) && AreLinks(ls) && s == TermText(t) + LinksText(ls)
  }

  datatype Verdict = Accepted | InvalidFormat | OperandsMismatch

  /** `sources` is the number of trigger sources of the scenario. */
  ghost function ValidateTriggerLogic(value: string, sources: nat): Verdict {
    if !MatchesPattern(value) then InvalidFormat
    else if |OperandsOf(value)| != sources || exists o :: o in OperandsOf(value) && o > sources then OperandsMismatch
    else Accepted
  }

  // ---------------------------------------------------------------------------------------------
  // The tokens of accepted strings
  // ---------------------------------------------------------------------------------------------

  function Numbers(tokens: seq<Token>): seq<nat> {
    if tokens == [] then []
    else NumberOf(tokens[0]) + Numbers(tokens[1..])
  }

  function NumberOf(token: Token): seq<nat> {
    if token.Operand? then [token.number] else []
  }

  /** The operands the validator counts are the numbers the tokenizer delivers, for every string. */
  lemma {:induction false} OperandsAreTokenNumbers(s: string)
    ensures OperandsOf(s) == Numbers(Tokenize(s))
    decreases |s|
  {
    if s == [] {
    } else {
      if IsDigit(s[0]) {
        OperandsAreTokenNumbers(s[DigitRun(s)..]);
      } else if s[0] == '(' || s[0] == ')' {
        OperandsAreTokenNumbers(s[1..]);
      } else if "AND" <= s {
        SkipLetters(s, 3);
        OperandsAreTokenNumbers(s[3..]);
      } else if "OR" <= s {
        SkipLetters(s, 2);
        OperandsAreTokenNumbers(s[2..]);
      } else {
        OperandsAreTokenNumbers(s[1..]);
      }
    }
  }

  lemma {:induction false} SkipLetters(s: string, n: nat)
    requires n <= |s| && forall i :: 0 <= i < n ==> !IsDigit(s[i])
    ensures OperandsOf(s) == OperandsOf(s[n..])
    decreases n
  {
    if n == 0 {
    } else {
      SkipLetters(s[1..], n - 1);
      assert s[1..][n - 1..] == s[n..];
    }
  }

  /** The tokens of accepted strings: operands in any number of `(` and `)`, separated by single operators. */
  predicate ExpectOperand(tokens: seq<Token>)
    decreases |tokens|
  {
    tokens != [] &&
    match tokens[0]
    case Open => ExpectOperand(tokens[1..])
    case Operand(_) => AfterOperand(tokens[1..])
    case _ => false
  }

  predicate AfterOperand(tokens: seq<Token>)
    decreases |tokens|
  {
    tokens == [] ||
    match tokens[0]
    case Close => AfterOperand(tokens[1..])
    case Operation(_) => ExpectOperand(tokens[1..])
    case _ => false
  }

  predicate NoLeadingDigit(s: string) { s == [] || !IsDigit(s[0]) }

  lemma {:induction false} SkipSpaces(n: nat, s: string)
    ensures Tokenize(Repeat(' ', n) + s) == Tokenize(s)
  {
    var all := Repeat(' ', n) + s;
    if n == 0 {
      assert all == s;
    } else {
      assert all[1..] == Repeat(' ', n - 1) + s;
      SkipSpaces(n - 1, s);
    }
  }

  lemma {:induction false} TokenizeOpens(n: nat, s: string)
    requires ExpectOperand(Tokenize(s))
    ensures ExpectOperand(Tokenize(Repeat('(', n) + s))
  {
    var all := Repeat('(', n) + s;
    if n == 0 {
      assert all == s;
    } else {
      assert all[1..] == Repeat('(', n - 1) + s;
      TokenizeOpens(n - 1, s);
      assert Tokenize(all)[1..] == Tokenize(all[1..]);
    }
  }

  lemma {:induction false} TokenizeCloses(n: nat, s: string)
    requires AfterOperand(Tokenize(s)) && NoLeadingDigit(s)
    ensures AfterOperand(Tokenize(Repeat(')', n) + s)) && NoLeadingDigit(Repeat(')', n) + s)
  {
    var all := Repeat(')', n) + s;
    if n == 0 {
      assert all == s;
    } else {
      assert all[1..] == Repeat(')', n - 1) + s;
      TokenizeCloses(n - 1, s);
      assert Tokenize(all)[1..] == Tokenize(all[1..]);
    }
  }

  lemma {:induction false} DigitRunOf(digits: string, s: string)
    requires AllDigits(digits) && NoLeadingDigit(s)
    ensures DigitRun(digits + s) == |digits|
  {
    var all := digits + s;
    if digits == [] {
      assert all == s;
    } else {
      assert all[1..] == digits[1..] + s;
      DigitRunOf(digits[1..], s);
    }
  }

  lemma TokenizeDigits(digits: string, s: string)
    requires digits != [] && AllDigits(digits) && NoLeadingDigit(s)
    ensures Tokenize(digits + s) == [Operand(Value(digits))] + Tokenize(s)
  {
    DigitRunOf(digits, s);
    var all := digits + s;
    assert IsDigit(all[0]);
    assert all[..|digits|] == digits && all[|digits|..] == s;
  }

  lemma TokenizeTerm(t: Term, s: string)
    requires IsTerm(t) && AfterOperand(Tokenize(s)) && NoLeadingDigit(s)
    ensures ExpectOperand(Tokenize(TermText(t) + s))
  {
    var tail := Repeat(')', t.closes) + s;
    TokenizeCloses(t.closes, s);
    TokenizeDigits(t.digits, tail);
    OperandFirst(Value(t.digits), Tokenize(tail));
    TokenizeOpens(t.opens, t.digits + tail);
    TermTextAppend(t, s);
  }

  lemma TermTextAppend(t: Term, s: string)
    ensures TermText(t) + s == Repeat('(', t.opens) + (t.digits + (Repeat(')', t.closes) + s))
  {
  }

  lemma OperandFirst(n: nat, tokens: seq<Token>)
    requires AfterOperand(tokens)
    ensures ExpectOperand([Operand(n)] + tokens)
  {
    assert ([Operand(n)] + tokens)[1..] == tokens;
  }

  lemma OperatorFirst(op: Operator, tokens: seq<Token>)
    requires ExpectOperand(tokens)
    ensures AfterOperand([Operation(op)] + tokens)
  {
    assert ([Operation(op)] + tokens)[1..] == tokens;
  }

  lemma TokenizeOperator(op: Operator, s: string)
    ensures Tokenize(OperatorText(op) + s) == [Operation(op)] + Tokenize(s)
  {
    var all := OperatorText(op) + s;
    assert op == And ==> all[0] == 'A' && "AND" <= all && all[3..] == s;
    assert op == Or ==> all[0] == 'O' && "OR" <= all && all[2..] == s;
  }

  lemma TokenizeLink(l: Link, s: string)
    requires IsTerm(l.term) && AfterOperand(Tokenize(s)) && NoLeadingDigit(s)
    ensures AfterOperand(Tokenize(LinkText(l) + s)) && NoLeadingDigit(LinkText(l) + s)
  {
    var operand := TermText(l.term) + s;
    TokenizeTerm(l.term, s);
    SkipSpaces(l.after, operand);
    TokenizeOperator(l.op, Repeat(' ', l.after) + operand);
    OperatorFirst(l.op, Tokenize(operand));
    SkipSpaces(l.before, OperatorText(l.op) + (Repeat(' ', l.after) + operand));
    LinkTextAppend(l, s);
  }

  lemma LinkTextAppend(l: Link, s: string)
    ensures LinkText(l) + s
            == Repeat(' ', l.before) + (OperatorText(l.op) + (Repeat(' ', l.after) + (TermText(l.term) + s)))
    ensures NoLeadingDigit(LinkText(l) + s)
  {
    var text := LinkText(l) + s;
    assert text[0] == if l.before > 0 then ' ' else OperatorText(l.op)[0];
  }

  lemma {:induction false} TokenizeLinks(ls: seq<Link>)
    requires AreLinks(ls)
    ensures AfterOperand(Tokenize(LinksText(ls))) && NoLeadingDigit(LinksText(ls))
  {
    if ls == [] {
    } else {
      TokenizeLinks(ls[1..]);
      TokenizeLink(ls[0], LinksText(ls[1..]));
    }
  }

  lemma AcceptedTokens(s: string)
    requires MatchesPattern(s)
    ensures ExpectOperand(Tokenize(s))
  {
    var t: Term, ls: seq<Link> :| IsTerm(t) && AreLinks(ls) && s == TermText(t) + LinksText(ls);
    TokenizeLinks(ls);
    TokenizeTerm(t, LinksText(ls));
  }

  // ---------------------------------------------------------------------------------------------
  // The parsed form of accepted tokens
  // ---------------------------------------------------------------------------------------------

  predicate IsOperand(item: Item)
    decreases item, 1
  {
    item.Condition? || (item.Group? && Alternates(item.items))
  }

  /** Operands and operators alternate, starting and ending with an operand, on every level. */
  predicate Alternates(items: seq<Item>)
    decreases items, 0
  {
    && items != []
    && IsOperand(items[0])
    && (|items| > 1 ==> items[1].Connective? && Alternates(items[2..]))
  }

  /** All condition numbers of a parsed expression from left to right. */
  function Indices(items: seq<Item>): seq<nat>
    decreases items, 0
  {
    if items == [] then [] else ItemIndices(items[0]) + Indices(items[1..])
  }

  function ItemIndices(item: Item): seq<nat>
    decreases item, 1
  {
    match item
    case Condition(n) => [n]
    case Connective(_) => []
    case Group(items) => Indices(items)
  }

  lemma IndicesOfFirst(item: Item, tail: seq<Item>)
    ensures Indices([item] + tail) == ItemIndices(item) + Indices(tail)
  {
    assert ([item] + tail)[1..] == tail;
  }

  lemma {:induction false} IndicesAppend(a: seq<Item>, b: seq<Item>)
    ensures Indices(a + b) == Indices(a) + Indices(b)
    decreases |a|
  {
    if a == [] {
      assert a + b == b;
    } else {
      IndicesAppend(a[1..], b);
      IndicesOfFirst(a[0], a[1..] + b);
      assert a + b == [a[0]] + (a[1..] + b);
      Associate(ItemIndices(a[0]), Indices(a[1..]), Indices(b));
    }
  }

  /** What a parser call that expects an operand appends to `parsed`. */
  lemma {:induction false} ParseExpectingOperand(tokens: seq<Token>, parsed: seq<Item>) returns (x: seq<Item>)
    requires ExpectOperand(tokens)
    ensures var p := ParseFrom(tokens, parsed, []);
            && p.items == parsed + x && Alternates(x)
            && AfterOperand(p.rest) && Numbers(tokens) == Indices(x) + Numbers(p.rest)
    decreases |tokens|
  {
    var tail := tokens[1..];
    if tokens[0] == Open {
      var inner := ParseExpectingOperand(tail, []);
      var p := ParseFrom(tail, [], []);
      assert p.items == inner;
      assert [] + [Group(inner)] == [Group(inner)];
      x := ParseBehindOperand(p.rest, parsed, [Group(inner)], parsed, Group(inner));
    } else {
      var item := Condition(tokens[0].number);
      x := ParseBehindOperand(tail, parsed + [item], [], parsed, item);
    }
  }

  lemma {:induction false} ParseBehindOperand(tokens: seq<Token>, parsed: seq<Item>, group: seq<Item>,
                                              base: seq<Item>, item: Item) returns (x: seq<Item>)
    requires AfterOperand(tokens) && IsOperand(item)
    requires Flush(parsed, group) == base + [item]
    ensures var p := ParseFrom(tokens, parsed, group);
            && p.items == base + x && Alternates(x)
            && AfterOperand(p.rest) && ItemIndices(item) + Numbers(tokens) == Indices(x) + Numbers(p.rest)
    decreases |tokens|
  {
    if tokens != [] && tokens[0].Operation? {
      var op := tokens[0].op;
      var y := ParseExpectingOperand(tokens[1..], base + [item] + [Connective(op)]);
      x := [item, Connective(op)] + y;
      AppendPair(base, item, Connective(op), y);
      PrependOperand(item, op, y);
      NumbersBehindOperator(tokens);
      Associate(ItemIndices(item), Indices(y), Numbers(ParseFrom(tokens, parsed, group).rest));
    } else {
      x := [item];
      IndicesOfOne(item);
      ParsingStops(tokens, parsed, group);
    }
  }

  lemma NumbersBehindOperator(tokens: seq<Token>)
    requires tokens != [] && tokens[0].Operation?
    ensures Numbers(tokens) == Numbers(tokens[1..])
  {
    assert [] + Numbers(tokens[1..]) == Numbers(tokens[1..]);
  }

  lemma IndicesOfOne(item: Item)
    ensures Indices([item]) == ItemIndices(item)
  {
    assert ItemIndices(item) + [] == ItemIndices(item);
  }

  /** At the end, or at a `)`, the parser returns. */
  lemma ParsingStops(tokens: seq<Token>, parsed: seq<Item>, group: seq<Item>)
    requires AfterOperand(tokens) && (tokens != [] ==> !tokens[0].Operation?)
    ensures var p := ParseFrom(tokens, parsed, group);
            p.items == Flush(parsed, group) && AfterOperand(p.rest) && Numbers(tokens) == Numbers(p.rest)
  {
    if tokens != [] {
      assert [] + Numbers(tokens[1..]) == Numbers(tokens[1..]);
    }
  }

  lemma AppendPair(a: seq<Item>, x: Item, y: Item, b: seq<Item>)
    ensures a + [x] + [y] + b == a + ([x, y] + b)
  {
  }

  lemma PrependOperand(item: Item, op: Operator, items: seq<Item>)
    requires IsOperand(item) && Alternates(items)
    ensures Alternates([item, Connective(op)] + items)
    ensures Indices([item, Connective(op)] + items) == ItemIndices(item) + Indices(items)
  {
    PrependAlternates(item, op, items);
    IndicesOfPrepended(item, op, items);
  }

  lemma PrependAlternates(item: Item, op: Operator, items: seq<Item>)
    requires IsOperand(item) && Alternates(items)
    ensures Alternates([item, Connective(op)] + items)
  {
    var x := [item, Connective(op)] + items;
    assert x[2..] == items;
  }

  lemma IndicesOfPrepended(item: Item, op: Operator, items: seq<Item>)
    ensures Indices([item, Connective(op)] + items) == ItemIndices(item) + Indices(items)
  {
    assert [item, Connective(op)] + items == [item] + ([Connective(op)] + items);
    IndicesOfFirst(item, [Connective(op)] + items);
    IndicesOfFirst(Connective(op), items);
    assert [] + Indices(items) == Indices(items);
  }

  lemma NumbersOfFirst(token: Token, tail: seq<Token>)
    ensures Numbers([token] + tail) == NumberOf(token) + Numbers(tail)
  {
    assert ([token] + tail)[1..] == tail;
  }

  lemma {:induction false} NumbersAppend(a: seq<Token>, b: seq<Token>)
    ensures Numbers(a + b) == Numbers(a) + Numbers(b)
  {
    if a == [] {
      assert a + b == b;
    } else {
      NumbersAppend(a[1..], b);
      NumbersOfFirst(a[0], a[1..] + b);
      assert a + b == [a[0]] + (a[1..] + b);
      Associate(NumberOf(a[0]), Numbers(a[1..]), Numbers(b));
    }
  }

  /** Accepted tokens parse to an alternating expression over exactly the operands of the evaluated prefix. */
  lemma AcceptedShape(tokens: seq<Token>)
    requires ExpectOperand(tokens)
    ensures Alternates(Parse(tokens).items)
    ensures Indices(Parse(tokens).items) == Numbers(EvaluatedPrefix(tokens)) != []
  {
    var x := ParseExpectingOperand(tokens, []);
    assert [] + x == x;
    ParseDependsOnPrefixOnly(tokens);
    if UnmatchedClose(tokens, 0) < |tokens| {
      NumbersOfPrefix(tokens);
      CancelRight(Indices(x), Numbers(EvaluatedPrefix(tokens)), Numbers(Parse(tokens).rest));
    } else {
      assert EvaluatedPrefix(tokens) == tokens;
      assert Indices(x) + Numbers([]) == Indices(x);
    }
    AlternatesHasIndex(x);
  }

  lemma NumbersOfPrefix(tokens: seq<Token>)
    ensures var k := UnmatchedClose(tokens, 0);
            Numbers(tokens)
              == Numbers(EvaluatedPrefix(tokens)) + (if k < |tokens| then Numbers(tokens[k + 1..]) else [])
  {
    if UnmatchedClose(tokens, 0) < |tokens| {
      var p, s := CutAtUnmatchedClose(tokens);
      NumbersAroundClose(p, s);
    } else {
      assert EvaluatedPrefix(tokens) == tokens;
    }
  }

  lemma NumbersAroundClose(p: seq<Token>, s: seq<Token>)
    ensures Numbers(p + [Close] + s) == Numbers(p) + Numbers(s)
  {
    Associate(p, [Close], s);
    NumbersAppend(p, [Close] + s);
    NumbersOfFirst(Close, s);
  }

  lemma CancelRight(a: seq<nat>, b: seq<nat>, c: seq<nat>)
    requires a + c == b + c
    ensures a == b
  {
    assert |a| == |b|;
    assert a == (a + c)[..|a|] && b == (b + c)[..|b|];
  }

  lemma {:induction false} AlternatesHasIndex(items: seq<Item>)
    requires Alternates(items)
    ensures Indices(items) != []
    decreases items
  {
    if items[0].Group? {
      AlternatesHasIndex(items[0].items);
    }
  }

  // ---------------------------------------------------------------------------------------------
  // When the value is a boolean
  // ---------------------------------------------------------------------------------------------

  function Last(ns: seq<nat>): nat
    requires ns != []
  {
    ns[|ns| - 1]
  }

  lemma {:induction false} LastIndex(items: seq<Item>)
    requires Alternates(items)
    ensures Indices(items) != []
    ensures |items| > 1 ==> Indices(items[2..]) != [] && Last(Indices(items)) == Last(Indices(items[2..]))
    ensures |items| == 1 ==> Indices(items) == ItemIndices(items[0])
  {
    AlternatesHasIndex(items);
    if |items| > 1 {
      AlternatesHasIndex(items[2..]);
      assert items[1..][1..] == items[2..];
      assert Indices(items) == ItemIndices(items[0]) + (ItemIndices(items[1]) + Indices(items[2..]));
    } else {
      assert Indices(items[1..]) == [];
    }
  }

  /** An alternating expression whose last operand names a condition evaluates to a boolean. */
  lemma {:induction false} LastOperandDecides(items: seq<Item>, conditions: seq<bool>, p: Progress)
    requires Alternates(items) && Indices(items) != [] && 1 <= Last(Indices(items)) <= |conditions|
    ensures Run(items, conditions, p).result.Known?
    decreases items
  {
    LastIndex(items);
    var q := Step(items[0], conditions, p);
    if |items| == 1 {
      if items[0].Group? {
        LastOperandDecides(items[0].items, conditions, START);
      }
      assert Run(items[1..], conditions, q) == q;
    } else {
      assert items[1..][1..] == items[2..];
      LastOperandDecides(items[2..], conditions, Step(items[1], conditions, q));
    }
  }

  /** Whatever the parentheses, a stored logic string whose last evaluated operand is not 0 yields a boolean. */
  lemma AcceptedLogicYieldsBoolean(logic: string, conditions: seq<bool>)
    requires ValidateTriggerLogic(logic, |conditions|) == Accepted
    requires Numbers(EvaluatedPrefix(Tokenize(logic))) != [] ==> Last(Numbers(EvaluatedPrefix(Tokenize(logic)))) >= 1
    ensures EvaluateTriggerExpression(logic, conditions).Result?
    ensures EvaluateTriggerExpression(logic, conditions).truth.Known?
  {
    AcceptedOperands(logic, |conditions|);
    assert Last(Numbers(EvaluatedPrefix(Tokenize(logic)))) in Numbers(EvaluatedPrefix(Tokenize(logic)));
    LastOperandDecides(Parse(Tokenize(logic)).items, conditions, START);
  }

  lemma AcceptedOperands(logic: string, sources: nat)
    requires ValidateTriggerLogic(logic, sources) == Accepted
    ensures var tokens := Tokenize(logic);
            && tokens != []
            && Alternates(Parse(tokens).items)
            && Indices(Parse(tokens).items) == Numbers(EvaluatedPrefix(tokens)) != []
            && forall n :: n in Numbers(EvaluatedPrefix(tokens)) ==> n <= sources
  {
    AcceptedTokens(logic);
    var tokens := Tokenize(logic);
    AcceptedShape(tokens);
    PrefixOperands(logic);
  }

  lemma PrefixOperands(logic: string)
    ensures forall n :: n in Numbers(EvaluatedPrefix(Tokenize(logic))) ==> n in OperandsOf(logic)
  {
    OperandsAreTokenNumbers(logic);
    NumbersOfPrefix(Tokenize(logic));
  }

  /** In particular, operands of at least 1 throughout are enough. */
  lemma PositiveOperandsYieldBoolean(logic: string, conditions: seq<bool>)
    requires ValidateTriggerLogic(logic, |conditions|) == Accepted
    requires forall o :: o in OperandsOf(logic) ==> o >= 1
    ensures EvaluateTriggerExpression(logic, conditions).Result?
    ensures EvaluateTriggerExpression(logic, conditions).truth.Known?
  {
    PrefixOperands(logic);
    var ns := Numbers(EvaluatedPrefix(Tokenize(logic)));
    assert ns != [] ==> Last(ns) in ns;
    AcceptedLogicYieldsBoolean(logic, conditions);
  }

  lemma IndicesParts(items: seq<Item>)
    requires items != []
    ensures forall n :: n in ItemIndices(items[0]) || n in Indices(items[1..]) ==> n in Indices(items)
  {
  }

  /** Conditions that all equal `value` on the indices of `items` keep the result at `value` or undefined. */
  lemma {:induction false} UniformRun(items: seq<Item>, conditions: seq<bool>, value: bool, p: Progress)
    requires forall n :: n in Indices(items) && 1 <= n <= |conditions| ==> conditions[n - 1] == value
    requires p.result == Undefined || p.result == Known(value)
    ensures var r := Run(items, conditions, p).result; r == Undefined || r == Known(value)
    decreases items
  {
    if items == [] {
    } else {
      IndicesParts(items);
      if items[0].Group? {
        assert ItemIndices(items[0]) == Indices(items[0].items);
        UniformRun(items[0].items, conditions, value, START);
      } else if items[0].Condition? {
        assert items[0].index in ItemIndices(items[0]);
      }
      UniformRun(items[1..], conditions, value, Step(items[0], conditions, p));
    }
  }

  lemma {:induction false} RunFrame(items: seq<Item>, c: seq<bool>, c': seq<bool>, p: Progress)
    requires |c| == |c'|
    requires forall n :: n in Indices(items) && 1 <= n <= |c| ==> c[n - 1] == c'[n - 1]
    ensures Run(items, c, p) == Run(items, c', p)
    decreases items
  {
    if items == [] {
    } else {
      IndicesParts(items);
      if items[0].Group? {
        assert ItemIndices(items[0]) == Indices(items[0].items);
        RunFrame(items[0].items, c, c', START);
      } else if items[0].Condition? {
        assert items[0].index in ItemIndices(items[0]);
      }
      RunFrame(items[1..], c, c', Step(items[0], c, p));
    }
  }

  ghost predicate DistinctOperands(ns: seq<nat>) {
    forall i, j :: 0 <= i < j < |ns| && ns[i] >= 1 ==> ns[i] != ns[j]
  }

  lemma DistinctSuffix(a: seq<nat>, b: seq<nat>)
    requires DistinctOperands(a + b)
    ensures DistinctOperands(b)
    ensures forall n :: n in a && n in b ==> n == 0
  {
    forall i, j | 0 <= i < j < |b| && b[i] >= 1
      ensures b[i] != b[j]
    {
      assert (a + b)[|a| + i] == b[i] && (a + b)[|a| + j] == b[j];
    }
    forall n | n in a && n in b
      ensures n == 0
    {
      var i :| 0 <= i < |a| && a[i] == n;
      var j :| 0 <= j < |b| && b[j] == n;
      assert (a + b)[i] == n && (a + b)[|a| + j] == n;
    }
  }

  function SetAll(c: seq<bool>, ns: seq<nat>, value: bool): seq<bool> {
    seq(|c|, i requires 0 <= i < |c| => if i + 1 in ns then value else c[i])
  }

  /** The last operand of an alternating expression with more than one operand, and what stands before it. */
  lemma {:induction false} SplitLast(items: seq<Item>)
    requires Alternates(items) && |items| > 1
    ensures |items| >= 3 && items[|items| - 2].Connective? && IsOperand(items[|items| - 1])
    ensures var n := |items|;
            Indices(items) == Indices(items[..n - 2]) + ItemIndices(items[n - 1])
    decreases |items|
  {
    var n := |items|;
    if |items[2..]| <= 1 {
    } else {
      SplitLast(items[2..]);
    }
    assert items[n - 2].Connective? && IsOperand(items[n - 1]);
    var tail := [items[n - 2], items[n - 1]];
    assert items == items[..n - 2] + tail;
    IndicesAppend(items[..n - 2], tail);
    assert tail[1..] == [items[n - 1]] && tail[1..][1..] == [];
    assert Indices(tail[1..]) == ItemIndices(items[n - 1]) + [];
  }

  function OperandValue(item: Item, c: seq<bool>): Truth
    requires !item.Connective?
  {
    if item.Condition? then ConditionAt(c, item.index) else Eval(item.items, c)
  }

  /** Setting the conditions in front of an undefined last operand so that they do not hide it. */
  lemma UndefinedSnoc(front: seq<Item>, op: Operator, last: Item, c: seq<bool>)
    requires !last.Connective? && OperandValue(last, c) == Undefined
    requires forall n :: n in Indices(front) && n in ItemIndices(last) ==> n == 0
    ensures Eval(front + [Connective(op), last], SetAll(c, Indices(front), op == And)) == Undefined
  {
    var c' := SetAll(c, Indices(front), op == And);
    UniformRun(front, c', op == And, START);
    if last.Group? {
      assert ItemIndices(last) == Indices(last.items);
      RunFrame(last.items, c, c', START);
    } else {
      assert last.index in ItemIndices(last);
    }
    RunSnoc(front, op, last, c');
  }

  /** With a last operand 0 and otherwise distinct operands, some conditions leave the value undefined. */
  lemma {:induction false} MakeUndefined(items: seq<Item>, c: seq<bool>) returns (c': seq<bool>)
    requires Alternates(items) && Indices(items) != [] && Last(Indices(items)) == 0
    requires DistinctOperands(Indices(items))
    ensures |c'| == |c|
    ensures Eval(items, c') == Undefined
    decreases items
  {
    var n := |items|;
    var last := items[n - 1];
    c' := c;
    if n == 1 {
      LastIndex(items);
      if last.Group? {
        c' := MakeUndefined(last.items, c);
      }
      RunSingle(last, c', START);
      assert items == [last];
    } else {
      SplitLast(items);
      var front := items[..n - 2];
      DistinctSuffix(Indices(front), ItemIndices(last));
      if last.Group? {
        AlternatesHasIndex(last.items);
        c' := MakeUndefined(last.items, c);
      }
      UndefinedSnoc(front, items[n - 2].op, last, c');
      c' := SetAll(c', Indices(front), items[n - 2].op == And);
      assert items == front + [items[n - 2], last];
    }
  }

  lemma RunSingle(item: Item, c: seq<bool>, p: Progress)
    ensures Run([item], c, p) == Step(item, c, p)
  {
    assert Run([item][1..], c, Step(item, c, p)) == Step(item, c, p);
  }

  lemma RunSnoc(front: seq<Item>, op: Operator, last: Item, c: seq<bool>)
    ensures Run(front + [Connective(op), last], c, START)
            == Step(last, c, Run(front, c, START).(operator := Some(op)))
  {
    RunAppend(front, [Connective(op), last], c, START);
    assert [Connective(op), last][1..] == [last];
    RunSingle(last, c, Run(front, c, START).(operator := Some(op)));
  }

  /** What stands in front of the last operand of an expression, and the operator between them. */
  datatype Front = Front(items: seq<Item>, op: Operator)

  /** The fronts met on the way to the last condition number, from the outermost expression inwards. */
  function LastPath(items: seq<Item>): seq<Front>
    decreases items
  {
    if items == [] then []
    else
      var n := |items|;
      (if n >= 2 && items[n - 2].Connective? then [Front(items[..n - 2], items[n - 2].op)] else [])
      + PathWithin(items[n - 1])
  }

  function PathWithin(item: Item): seq<Front>
    decreases item
  {
    if item.Group? then LastPath(item.items) else []
  }

  /** The value of the front alone decides: true before OR, false before AND. */
  predicate Decides(f: Front, c: seq<bool>) { Eval(f.items, c) == Known(f.op == Or) }

  ghost predicate SomeDecides(path: seq<Front>, c: seq<bool>) { exists f :: f in path && Decides(f, c) }

  lemma SomeDecidesFirst(f: Front, rest: seq<Front>, c: seq<bool>)
    ensures SomeDecides([f] + rest, c) <==> Decides(f, c) || SomeDecides(rest, c)
    ensures SomeDecides([] + rest, c) <==> SomeDecides(rest, c)
  {
    assert [] + rest == rest;
    assert ([f] + rest)[0] == f && forall g :: g in [f] + rest <==> g == f || g in rest;
  }

  lemma EvalOfOne(items: seq<Item>, c: seq<bool>)
    requires Alternates(items) && |items| == 1
    ensures !items[0].Connective? && Eval(items, c) == OperandValue(items[0], c)
  {
    assert items == [items[0]];
    RunSingle(items[0], c, START);
  }

  lemma EvalOfFront(front: seq<Item>, op: Operator, last: Item, c: seq<bool>)
    requires !last.Connective?
    ensures Eval(front + [Connective(op), last], c) ==
            if Decides(Front(front, op), c) then Known(op == Or) else OperandValue(last, c)
  {
    RunSnoc(front, op, last, c);
  }

  lemma LastOfLast(items: seq<Item>)
    requires Alternates(items)
    ensures var last := items[|items| - 1];
            && IsOperand(last) && Indices(items) != [] && ItemIndices(last) != []
            && Last(Indices(items)) == Last(ItemIndices(last))
  {
    AlternatesHasIndex(items);
    if |items| == 1 {
      LastIndex(items);
    } else {
      SplitLast(items);
      if items[|items| - 1].Group? {
        AlternatesHasIndex(items[|items| - 1].items);
      }
    }
  }

  lemma PathOfLast(items: seq<Item>)
    requires Alternates(items)
    ensures var n := |items|;
            && (n == 1 ==> LastPath(items) == PathWithin(items[0]))
            && (n > 1 ==>
                  && items[n - 2].Connective?
                  && items == items[..n - 2] + [Connective(items[n - 2].op), items[n - 1]]
                  && LastPath(items) == [Front(items[..n - 2], items[n - 2].op)] + PathWithin(items[n - 1]))
  {
    if |items| == 1 {
      assert [] + PathWithin(items[0]) == PathWithin(items[0]);
    } else {
      SplitLast(items);
    }
  }

  /** The value is undefined exactly when the last operand names no condition and no front on the way to it decides. */
  lemma {:induction false} UndefinedIff(items: seq<Item>, c: seq<bool>)
    requires Alternates(items)
    ensures Indices(items) != []
    ensures Eval(items, c) == Undefined <==> !(1 <= Last(Indices(items)) <= |c|) && !SomeDecides(LastPath(items), c)
    decreases items
  {
    var n := |items|;
    LastOfLast(items);
    PathOfLast(items);
    UndefinedOperandIff(items[n - 1], c);
    if n == 1 {
      EvalOfOne(items, c);
    } else {
      EvalOfFront(items[..n - 2], items[n - 2].op, items[n - 1], c);
      SomeDecidesFirst(Front(items[..n - 2], items[n - 2].op), PathWithin(items[n - 1]), c);
    }
  }

  lemma {:induction false} UndefinedOperandIff(item: Item, c: seq<bool>)
    requires IsOperand(item)
    ensures !item.Connective? && ItemIndices(item) != []
    ensures OperandValue(item, c) == Undefined <==>
              !(1 <= Last(ItemIndices(item)) <= |c|) && !SomeDecides(PathWithin(item), c)
    decreases item
  {
    if item.Condition? {
    } else {
      UndefinedIff(item.items, c);
    }
  }

  /**
   * Exactly when a stored logic string fails to be a boolean under given conditions: its last operand before the first
   * unmatched `)` is 0, and nothing in front of that operand decides the value of an expression around it.
   */
  lemma UndefinedIffZeroIsExposed(logic: string, c: seq<bool>)
    requires ValidateTriggerLogic(logic, |c|) == Accepted
    ensures Numbers(EvaluatedPrefix(Tokenize(logic))) != [] && EvaluateTriggerExpression(logic, c).Result?
    ensures EvaluateTriggerExpression(logic, c) == Result(Undefined) <==>
            && Last(Numbers(EvaluatedPrefix(Tokenize(logic)))) == 0
            && !SomeDecides(LastPath(Parse(Tokenize(logic)).items), c)
  {
    AcceptedOperands(logic, |c|);
    var items := Parse(Tokenize(logic)).items;
    UndefinedIff(items, c);
    assert Last(Indices(items)) in Numbers(EvaluatedPrefix(Tokenize(logic)));
  }

  /** Exactly when a stored logic string is a boolean under all conditions, however often it names them. */
  lemma AlwaysBooleanIff(logic: string, sources: nat)
    requires ValidateTriggerLogic(logic, sources) == Accepted
    ensures Numbers(EvaluatedPrefix(Tokenize(logic))) != []
    ensures (forall c: seq<bool> :: |c| == sources ==> EvaluateTriggerExpression(logic, c) != Result(Undefined)) <==>
            || Last(Numbers(EvaluatedPrefix(Tokenize(logic)))) >= 1
            || forall c: seq<bool> :: |c| == sources ==> SomeDecides(LastPath(Parse(Tokenize(logic)).items), c)
  {
    AcceptedOperands(logic, sources);
    forall c: seq<bool> | |c| == sources
      ensures EvaluateTriggerExpression(logic, c) == Result(Undefined) <==>
              && Last(Numbers(EvaluatedPrefix(Tokenize(logic)))) == 0
              && !SomeDecides(LastPath(Parse(Tokenize(logic)).items), c)
    {
      UndefinedIffZeroIsExposed(logic, c);
    }
  }

  /**
   * Exactly when a stored logic string is a boolean expression: for operands that name each condition at most once,
   * it yields a boolean under all conditions iff the last operand before the first unmatched `)` is not 0.
   */
  lemma BooleanIffLastOperandPositive(logic: string, sources: nat)
    requires ValidateTriggerLogic(logic, sources) == Accepted
    requires DistinctOperands(Numbers(EvaluatedPrefix(Tokenize(logic))))
    ensures Numbers(EvaluatedPrefix(Tokenize(logic))) != []
    ensures (forall c: seq<bool> :: |c| == sources ==>
               EvaluateTriggerExpression(logic, c).Result? && EvaluateTriggerExpression(logic, c).truth.Known?)
            <==> Last(Numbers(EvaluatedPrefix(Tokenize(logic)))) >= 1
  {
    AcceptedOperands(logic, sources);
    var items := Parse(Tokenize(logic)).items;
    if Last(Indices(items)) >= 1 {
      forall c: seq<bool> | |c| == sources
        ensures EvaluateTriggerExpression(logic, c).Result? && EvaluateTriggerExpression(logic, c).truth.Known?
      {
        AcceptedLogicYieldsBoolean(logic, c);
      }
    } else {
      var c := MakeUndefined(items, seq(sources, _ => true));
      assert EvaluateTriggerExpression(logic, c) == Result(Undefined);
    }
  }

  /** The validator does accept an operand 0, and the value is then undefined. */
  lemma ZeroOperandIsAccepted(condition: bool)
    ensures ValidateTriggerLogic("0", 1) == Accepted
    ensures EvaluateTriggerExpression("0", [condition]) == Result(Undefined)
  {
    ZeroText();
    assert Numbers([Operand(0)]) == [0] + Numbers([]);
    ParseSingleOperand();
    RunSingle(Condition(0), [condition], START);
  }

  lemma ZeroText()
    ensures MatchesPattern("0") && Tokenize("0") == [Operand(0)] && OperandsOf("0") == Numbers([Operand(0)])
  {
    ZeroMatches();
    ZeroTokens();
    OperandsAreTokenNumbers("0");
  }

  lemma ZeroMatches()
    ensures MatchesPattern("0")
  {
    var t := Term(0, "0", 0);
    assert TermText(t) + LinksText([]) == "0";
    assert IsTerm(t) && AreLinks([]);
  }

  lemma ZeroTokens()
    ensures Tokenize("0") == [Operand(0)]
  {
    TokenizeDigits("0", []);
    assert "0" + [] == "0";
    assert Value("0") == 10 * Value([]) + 0;
    assert Tokenize([]) == [];
  }

  lemma ParseSingleOperand()
    ensures Parse([Operand(0)]).items == [Condition(0)]
  {
    assert [Operand(0)][1..] == [];
    assert [] + [Condition(0)] == [Condition(0)];
  }
}
