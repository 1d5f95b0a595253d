/** Parsing and evaluation of scenario trigger expressions (common/services/conditions-evaluator.service.ts). */
module TriggerExpression {
  import opened Options
  import opened Sequences

  datatype Operator = And | Or

  datatype Token = Open | Close | Operand(number: nat) | Operation(op: Operator)

  /** An element of a parsed expression: a 1-based condition number, an operator, or a nested expression. */
  datatype Item = Condition(index: nat) | Connective(op: Operator) | Group(items: seq<Item>)

  /** A JavaScript value that is either `undefined` or a boolean. */
  datatype Truth = Undefined | Known(value: bool)

  datatype Parsed = Parsed(items: seq<Item>, rest: seq<Token>)

  // ---------------------------------------------------------------------------------------------
  // The parser
  // ---------------------------------------------------------------------------------------------

  /** The object whose tokens every (nested) parser call shifts off the front. */
  class TokenStream {
    var tokens: seq<Token>

    constructor (tokens: seq<Token>)
      ensures this.tokens == tokens
    {
      this.tokens := tokens;
    }

    method Shift() returns (token: Token)
      requires tokens != []
      modifies this
      ensures [token] + tokens == old(tokens)
    {
      token := tokens[0];
      tokens := tokens[1..];
    }
  }

  /** `parsed` after the pending parenthesised groups have been moved onto it. */
  function Flush(parsed: seq<Item>, group: seq<Item>): seq<Item> {
    if |group| == 0 then parsed
    else if |group| == 1 then parsed + group
    else parsed + [Group(group)]
  }

  /** What one parser call still does when it has collected `parsed` and the pending `group`. */
  function ParseFrom(tokens: seq<Token>, parsed: seq<Item>, group: seq<Item>): (p: Parsed)
    ensures |p.rest| <= |tokens|
    decreases |tokens|
  {
    if tokens == [] then Parsed(Flush(parsed, group), [])
    else
      match tokens[0]
      case Open =>
        var inner := ParseFrom(tokens[1..], [], []);
        ParseFrom(inner.rest, parsed, group + [Group(inner.items)])
      case Close => Parsed(Flush(parsed, group), tokens[1..])
      case Operation(op) => ParseFrom(tokens[1..], Flush(parsed, group) + [Connective(op)], [])
      case Operand(n) => ParseFrom(tokens[1..], parsed + [Condition(n)], group)
  }

  function Parse(tokens: seq<Token>): Parsed {
    ParseFrom(tokens, [], [])
  }

  method ParseTriggerExpression(stream: TokenStream) returns (items: seq<Item>)
    modifies stream
    ensures Parsed(items, stream.tokens) == Parse(old(stream.tokens))
    decreases |stream.tokens|
  {
    items := [];
    var group: seq<Item> := [];
    while stream.tokens != []
      invariant |stream.tokens| <= |old(stream.tokens)|
      invariant ParseFrom(stream.tokens, items, group) == Parse(old(stream.tokens))
      decreases |stream.tokens|
    {
      ghost var before := stream.tokens;
      var token := stream.Shift();
      assert stream.tokens == before[1..];
      match token
      case Open =>
        var nested := ParseTriggerExpression(stream);
        group := group + [Group(nested)];
      case Close =>
        items := Flush(items, group);
        return;
      case Operation(op) =>
        items, group := Flush(items, group) + [Connective(op)], [];
      case Operand(n) =>
        items := items + [Condition(n)];
    }
    items := Flush(items, group);
  }

  // ---------------------------------------------------------------------------------------------
  // The evaluator
  // ---------------------------------------------------------------------------------------------

  /** The two variables of the evaluation loop. */
  datatype Progress = Progress(result: Truth, operator: Option<Operator>)

  const START := Progress(Undefined, None)

  /** `conditions[index - 1]`, which is `undefined` outside of the array. */
  function ConditionAt(conditions: seq<bool>, index: nat): Truth {
    if 1 <= index <= |conditions| then Known(conditions[index - 1]) else Undefined
  }

  /** `result ||= condition` and `result &&= condition` once `result` is a boolean. */
  function Combine(op: Operator, result: bool, condition: Truth): Truth {
    match op
    case Or => if result then Known(true) else condition
    case And => if result then condition else Known(false)
  }

  function Absorb(p: Progress, condition: Truth): Progress {
    if p.result.Known? && p.operator.Some?
    then p.(result := Combine(p.operator.value, p.result.value, condition))
    else p.(result := condition)
  }

  function Step(item: Item, conditions: seq<bool>, p: Progress): Progress
    decreases item, 1
  {
    match item
    case Connective(op) => p.(operator := Some(op))
    case Condition(n) => Absorb(p, ConditionAt(conditions, n))
    case Group(items) => Absorb(p, Run(items, conditions, START).result)
  }

  function Run(items: seq<Item>, conditions: seq<bool>, p: Progress): Progress
    decreases items
  {
    if items == [] then p else Run(items[1..], conditions, Step(items[0], conditions, p))
  }

  function Eval(items: seq<Item>, conditions: seq<bool>): Truth {
    Run(items, conditions, START).result
  }

  method EvaluateExpression(items: seq<Item>, conditions: seq<bool>) returns (result: Truth)
    ensures result == Eval(items, conditions)
    decreases items
  {
    result := Undefined;
    var operator: Option<Operator> := None;
    for i := 0 to |items|
      invariant Run(items[i..], conditions, Progress(result, operator)) == Run(items, conditions, START)
    {
      assert items[i..][0] == items[i] && items[i..][1..] == items[i + 1..];
      match items[i]
      case Connective(op) =>
        operator := Some(op);
      case Condition(n) =>
        var condition := ConditionAt(conditions, n);
        if result != Undefined && operator != None {
          result := Combine(operator.value, result.value, condition);
        } else {
          result := condition;
        }
      case Group(nested) =>
        var condition := EvaluateExpression(nested, conditions);
        if result != Undefined && operator != None {
          result := Combine(operator.value, result.value, condition);
        } else {
          result := condition;
        }
    }
  }

  lemma {:induction false} RunAppend(a: seq<Item>, b: seq<Item>, conditions: seq<bool>, p: Progress)
    ensures Run(a + b, conditions, p) == Run(b, conditions, Run(a, conditions, p))
    decreases |a|
  {
    if a == [] {
      assert a + b == b;
    } else {
      assert (a + b)[0] == a[0] && (a + b)[1..] == a[1..] + b;
      RunAppend(a[1..], b, conditions, Step(a[0], conditions, p));
    }
  }

  // ---------------------------------------------------------------------------------------------
  // Printed expressions: parsing inverts printing, evaluation is the left-associative meaning
  // ---------------------------------------------------------------------------------------------

  /** An AND/OR expression without precedence: operators associate to the left. */
  datatype Expr = Single(factor: Factor) | Binary(left: Expr, op: Operator, right: Factor)
  datatype Factor = Leaf(number: nat) | Paren(inner: Expr)

  function Print(e: Expr): seq<Token> {
    match e
    case Single(f) => PrintFactor(f)
    case Binary(l, op, r) => Print(l) + [Operation(op)] + PrintFactor(r)
  }

  function PrintFactor(f: Factor): seq<Token> {
    match f
    case Leaf(n) => [Operand(n)]
    case Paren(e) => [Open] + Print(e) + [Close]
  }

  /** The tree the parser is expected to build for an expression. */
  function Tree(e: Expr): seq<Item> {
    match e
    case Single(f) => [TreeOfFactor(f)]
    case Binary(l, op, r) => Tree(l) + [Connective(op), TreeOfFactor(r)]
  }

  function TreeOfFactor(f: Factor): Item {
    match f
    case Leaf(n) => Condition(n)
    case Paren(e) => Group(Tree(e))
  }

  ghost predicate OperandsWithin(e: Expr, count: nat) {
    match e
    case Single(f) => FactorWithin(f, count)
    case Binary(l, _, r) => OperandsWithin(l, count) && FactorWithin(r, count)
  }

  ghost predicate FactorWithin(f: Factor, count: nat) {
    match f
    case Leaf(n) => 1 <= n <= count
    case Paren(e) => OperandsWithin(e, count)
  }

  ghost function Meaning(e: Expr, conditions: seq<bool>): bool
    requires OperandsWithin(e, |conditions|)
  {
    match e
    case Single(f) => MeaningOfFactor(f, conditions)
    case Binary(l, And, r) => Meaning(l, conditions) && MeaningOfFactor(r, conditions)
    case Binary(l, Or, r) => Meaning(l, conditions) || MeaningOfFactor(r, conditions)
  }

  ghost function MeaningOfFactor(f: Factor, conditions: seq<bool>): bool
    requires FactorWithin(f, |conditions|)
  {
    match f
    case Leaf(n) => conditions[n - 1]
    case Paren(e) => Meaning(e, conditions)
  }

  /** The (parsed, group) pair of the parser loop right after the tokens of `e`. */
  function ParsedAfter(e: Expr): (seq<Item>, seq<Item>) {
    match e
    case Single(f) => AfterFactor([], f)
    case Binary(l, op, r) => AfterFactor(Tree(l) + [Connective(op)], r)
  }

  function AfterFactor(parsed: seq<Item>, f: Factor): (seq<Item>, seq<Item>) {
    if f.Leaf? then (parsed + [TreeOfFactor(f)], []) else (parsed, [TreeOfFactor(f)])
  }

  lemma {:induction false} ParseFromPrint(e: Expr, rest: seq<Token>)
    ensures ParseFrom(Print(e) + rest, [], []) == ParseFrom(rest, ParsedAfter(e).0, ParsedAfter(e).1)
    ensures Flush(ParsedAfter(e).0, ParsedAfter(e).1) == Tree(e)
    decreases e
  {
    match e
    case Single(f) =>
      ParseFromFactor(f, [], rest);
    case Binary(l, op, r) =>
      var tail := PrintFactor(r) + rest;
      AssociateFour(Print(l), [Operation(op)], PrintFactor(r), rest);
      ParseFromPrint(l, [Operation(op)] + tail);
      ParseFromOperator(op, tail, ParsedAfter(l).0, ParsedAfter(l).1);
      ParseFromFactor(r, Tree(l) + [Connective(op)], rest);
      assert Tree(e) == Tree(l) + [Connective(op)] + [TreeOfFactor(r)];
  }

  lemma ParseFromOperator(op: Operator, tail: seq<Token>, parsed: seq<Item>, group: seq<Item>)
    ensures ParseFrom([Operation(op)] + tail, parsed, group)
            == ParseFrom(tail, Flush(parsed, group) + [Connective(op)], [])
  {
    assert ([Operation(op)] + tail)[1..] == tail;
  }

  lemma {:induction false} ParseFromFactor(f: Factor, parsed: seq<Item>, rest: seq<Token>)
    ensures ParseFrom(PrintFactor(f) + rest, parsed, [])
            == ParseFrom(rest, AfterFactor(parsed, f).0, AfterFactor(parsed, f).1)
    decreases f
  {
    match f
    case Leaf(n) =>
      assert ([Operand(n)] + rest)[1..] == rest;
    case Paren(e) =>
      var inner := Print(e) + ([Close] + rest);
      AssociateFour([Open], Print(e), [Close], rest);
      assert ([Open] + inner)[1..] == inner;
      ParseFromPrint(e, [Close] + rest);
      assert ([Close] + rest)[1..] == rest;
      assert ParseFrom(inner, [], []) == Parsed(Tree(e), rest);
      assert [] + [Group(Tree(e))] == [TreeOfFactor(f)];
  }

  /** Parsing a printed expression, followed by nothing or by an unmatched `)`, returns its tree and its tokens only. */
  lemma ParseInvertsPrint(e: Expr, rest: seq<Token>)
    requires rest == [] || rest[0] == Close
    ensures Parse(Print(e) + rest) == Parsed(Tree(e), if rest == [] then [] else rest[1..])
  {
    ParseFromPrint(e, rest);
  }

  lemma {:induction false} PrintIsInjective(a: Expr, b: Expr)
    ensures Print(a) == Print(b) <==> a == b
  {
    if Print(a) == Print(b) {
      assert Print(a) + [] == Print(a) && Print(b) + [] == Print(b);
      ParseInvertsPrint(a, []);
      ParseInvertsPrint(b, []);
      TreeIsInjective(a, b);
    }
  }

  lemma {:induction false} TreeIsInjective(a: Expr, b: Expr)
    requires Tree(a) == Tree(b)
    ensures a == b
    decreases a
  {
    assert |Tree(a)| == 1 <==> a.Single?;
    assert |Tree(b)| == 1 <==> b.Single?;
    var fa := if a.Single? then a.factor else a.right;
    var fb := if b.Single? then b.factor else b.right;
    assert Tree(a)[|Tree(a)| - 1] == TreeOfFactor(fa);
    assert Tree(b)[|Tree(b)| - 1] == TreeOfFactor(fb);
    if fa.Paren? && fb.Paren? {
      TreeIsInjective(fa.inner, fb.inner);
    }
    if a.Binary? {
      var n := |Tree(a)|;
      assert Tree(a)[n - 2] == Connective(a.op) && Tree(b)[n - 2] == Connective(b.op);
      assert Tree(a.left) == Tree(a)[..n - 2] == Tree(b)[..n - 2] == Tree(b.left);
      TreeIsInjective(a.left, b.left);
    }
  }

  lemma {:induction false} EvalOfTree(e: Expr, conditions: seq<bool>)
    requires OperandsWithin(e, |conditions|)
    ensures Eval(Tree(e), conditions) == Known(Meaning(e, conditions))
    decreases e
  {
    match e
    case Single(f) =>
      StepOfFactor(f, conditions, START);
      assert Run([TreeOfFactor(f)], conditions, START) == Step(TreeOfFactor(f), conditions, START);
    case Binary(l, op, r) =>
      EvalOfTree(l, conditions);
      RunAppend(Tree(l), [Connective(op), TreeOfFactor(r)], conditions, START);
      var p := Run(Tree(l), conditions, START);
      var q := Step(Connective(op), conditions, p);
      StepOfFactor(r, conditions, q);
      assert [Connective(op), TreeOfFactor(r)][1..] == [TreeOfFactor(r)];
      assert Run([TreeOfFactor(r)], conditions, q) == Step(TreeOfFactor(r), conditions, q);
      assert q == Progress(Known(Meaning(l, conditions)), Some(op));
  }

  lemma {:induction false} StepOfFactor(f: Factor, conditions: seq<bool>, p: Progress)
    requires FactorWithin(f, |conditions|)
    ensures Step(TreeOfFactor(f), conditions, p) == Absorb(p, Known(MeaningOfFactor(f, conditions)))
    decreases f
  {
    if f.Paren? {
      EvalOfTree(f.inner, conditions);
    }
  }

  /** Tokens of an expression evaluate to its left-associative boolean meaning. */
  lemma ParseThenEvalIsMeaning(e: Expr, conditions: seq<bool>)
    requires OperandsWithin(e, |conditions|)
    ensures Eval(Parse(Print(e)).items, conditions) == Known(Meaning(e, conditions))
  {
    assert Print(e) + [] == Print(e);
    ParseInvertsPrint(e, []);
    EvalOfTree(e, conditions);
  }

  // ---------------------------------------------------------------------------------------------
  // Arbitrary token lists
  // ---------------------------------------------------------------------------------------------

  function DepthAfter(token: Token, depth: nat): nat
    requires !(token == Close && depth == 0)
  {
    match token case Open => depth + 1 case Close => depth - 1 case _ => depth
  }

  /** The position of the first `)` met at depth 0 when starting at `depth`, or the length of the list. */
  function UnmatchedClose(tokens: seq<Token>, depth: nat): (k: nat)
    ensures k <= |tokens|
    ensures k < |tokens| ==> tokens[k] == Close
  {
    if tokens == [] || (tokens[0] == Close && depth == 0) then 0
    else 1 + UnmatchedClose(tokens[1..], DepthAfter(tokens[0], depth))
  }

  /** The tokens before the first `)` that has no matching `(`. */
  function EvaluatedPrefix(tokens: seq<Token>): seq<Token> {
    tokens[..UnmatchedClose(tokens, 0)]
  }

  /** The tokens close all of the `depth` levels they start in and all they open, and no more. */
  predicate ClosesLevels(tokens: seq<Token>, depth: nat) {
    if tokens == [] then depth == 0
    else !(tokens[0] == Close && depth == 0) && ClosesLevels(tokens[1..], DepthAfter(tokens[0], depth))
  }

  lemma {:induction false} PrefixClosesLevels(tokens: seq<Token>, depth: nat)
    requires UnmatchedClose(tokens, depth) < |tokens|
    ensures ClosesLevels(tokens[..UnmatchedClose(tokens, depth)], depth)
  {
    if !(tokens[0] == Close && depth == 0) {
      var depth' := DepthAfter(tokens[0], depth);
      PrefixClosesLevels(tokens[1..], depth');
      var k := UnmatchedClose(tokens[1..], depth');
      assert tokens[..k + 1][1..] == tokens[1..][..k];
    }
  }

  lemma {:induction false} SplitAtMatchingClose(tokens: seq<Token>, depth: nat) returns (a: seq<Token>, b: seq<Token>)
    requires ClosesLevels(tokens, depth + 1)
    ensures tokens == a + [Close] + b && ClosesLevels(a, depth) && ClosesLevels(b, 0)
  {
    if tokens[0] == Close && depth == 0 {
      a, b := [], tokens[1..];
    } else {
      a, b := SplitAtMatchingClose(tokens[1..], DepthAfter(tokens[0], depth));
      a := [tokens[0]] + a;
      assert a[1..] + [Close] + b == tokens[1..];
    }
  }

  /** A parser call returns at the first unmatched `)` with what the tokens before it give, and leaves the rest. */
  lemma {:induction false} ParseFromStopsAtClose(p: seq<Token>, s: seq<Token>, parsed: seq<Item>, group: seq<Item>)
    requires ClosesLevels(p, 0)
    ensures ParseFrom(p + [Close] + s, parsed, group) == Parsed(ParseFrom(p, parsed, group).items, s)
    decreases |p|
  {
    var all := p + [Close] + s;
    if p == [] {
      assert all[1..] == s;
    } else {
      assert all[0] == p[0] && all[1..] == p[1..] + [Close] + s;
      match p[0]
      case Open =>
        var a, b := SplitAtMatchingClose(p[1..], 0);
        var outer := b + [Close] + s;
        assert all[1..] == a + [Close] + outer;
        ParseFromStopsAtClose(a, outer, [], []);
        ParseFromStopsAtClose(a, b, [], []);
        ParseFromStopsAtClose(b, s, parsed, group + [Group(ParseFrom(a, [], []).items)]);
      case Operation(op) =>
        ParseFromStopsAtClose(p[1..], s, Flush(parsed, group) + [Connective(op)], []);
      case Operand(n) =>
        ParseFromStopsAtClose(p[1..], s, parsed + [Condition(n)], group);
    }
  }

  lemma {:induction false} UnmatchedCloseBehind(a: seq<Token>, b: seq<Token>, depth: nat)
    requires ClosesLevels(a, depth)
    ensures UnmatchedClose(a + [Close] + b, depth + 1) == |a| + 1 + UnmatchedClose(b, 0)
    ensures UnmatchedClose(a + [Close] + b, depth) == |a|
    decreases |a|
  {
    var all := a + [Close] + b;
    if a == [] {
      assert all[1..] == b;
    } else {
      assert all[1..] == a[1..] + [Close] + b;
      UnmatchedCloseBehind(a[1..], b, DepthAfter(a[0], depth));
    }
  }

  lemma RestBehindGroup(tokens: seq<Token>)
    requires UnmatchedClose(tokens, 0) < |tokens| == UnmatchedClose(tokens, 1)
    ensures var rest := ParseFrom(tokens, [], []).rest; UnmatchedClose(rest, 0) == |rest|
  {
    var a, b := CutAtUnmatchedClose(tokens);
    LengthAroundClose(a, b);
    UnmatchedCloseBehind(a, b, 0);
    assert UnmatchedClose(b, 0) == |b|;
    ParseFromStopsAtClose(a, b, [], []);
  }

  lemma LengthAroundClose(a: seq<Token>, b: seq<Token>)
    ensures |a + [Close] + b| == |a| + 1 + |b|
  {
  }

  /** Without an unmatched `)` a parser call reads all of its tokens. */
  lemma {:induction false} ParseFromReadsAll(tokens: seq<Token>, parsed: seq<Item>, group: seq<Item>)
    requires UnmatchedClose(tokens, 0) == |tokens|
    ensures ParseFrom(tokens, parsed, group).rest == []
    decreases |tokens|
  {
    if tokens == [] {
    } else {
      var tail := tokens[1..];
      match tokens[0]
      case Open =>
        var inner := ParseFrom(tail, [], []);
        if UnmatchedClose(tail, 0) < |tail| {
          RestBehindGroup(tail);
        } else {
          ParseFromReadsAll(tail, [], []);
        }
        ParseFromReadsAll(inner.rest, parsed, group + [Group(inner.items)]);
      case Operation(op) =>
        ParseFromReadsAll(tail, Flush(parsed, group) + [Connective(op)], []);
      case Operand(n) =>
        ParseFromReadsAll(tail, parsed + [Condition(n)], group);
    }
  }

  /**
   * Whatever the tokens are, the parsed expression depends only on those before the first unmatched `)`,
   * and the parser leaves exactly those behind it.
   */
  lemma ParseDependsOnPrefixOnly(tokens: seq<Token>)
    ensures Parse(tokens).items == Parse(EvaluatedPrefix(tokens)).items
    ensures var k := UnmatchedClose(tokens, 0); Parse(tokens).rest == if k < |tokens| then tokens[k + 1..] else []
  {
    var k := UnmatchedClose(tokens, 0);
    if k < |tokens| {
      var p, s := CutAtUnmatchedClose(tokens);
      ParseFromStopsAtClose(p, s, [], []);
    } else {
      ParseFromReadsAll(tokens, [], []);
      assert tokens[..k] == tokens;
    }
  }

  lemma CutAtUnmatchedClose(tokens: seq<Token>) returns (p: seq<Token>, s: seq<Token>)
    requires UnmatchedClose(tokens, 0) < |tokens|
    ensures p == EvaluatedPrefix(tokens) && s == tokens[UnmatchedClose(tokens, 0) + 1..]
    ensures tokens == p + [Close] + s && ClosesLevels(p, 0)
  {
    var k := UnmatchedClose(tokens, 0);
    p, s := tokens[..k], tokens[k + 1..];
    PrefixClosesLevels(tokens, 0);
  }

  function Closes(n: nat): seq<Token> {
    seq(n, _ => Close)
  }

  /** Appending closing parentheses never changes what a parser call returns. */
  lemma {:induction false} ParseFromIgnoresTrailingCloses(tokens: seq<Token>, parsed: seq<Item>, group: seq<Item>,
                                                          n: nat)
    ensures var p, q := ParseFrom(tokens, parsed, group), ParseFrom(tokens + Closes(n), parsed, group);
            q.items == p.items && exists m: nat :: m <= n && q.rest == p.rest + Closes(m)
    decreases |tokens|
  {
    var all := tokens + Closes(n);
    var p := ParseFrom(tokens, parsed, group);
    if tokens == [] {
      if n > 0 {
        assert all[0] == Close && all[1..] == [] + Closes(n - 1);
      } else {
        assert all == [] && [] == [] + Closes(0);
      }
    } else {
      var tail := tokens[1..];
      assert all[0] == tokens[0] && all[1..] == tail + Closes(n);
      match tokens[0]
      case Open =>
        ParseFromIgnoresTrailingCloses(tail, [], [], n);
        var inner, inner' := ParseFrom(tail, [], []), ParseFrom(tail + Closes(n), [], []);
        var m: nat :| m <= n && inner'.rest == inner.rest + Closes(m);
        ParseFromIgnoresTrailingCloses(inner.rest, parsed, group + [Group(inner.items)], m);
      case Close =>
      case Operation(op) =>
        ParseFromIgnoresTrailingCloses(tail, Flush(parsed, group) + [Connective(op)], [], n);
      case Operand(k) =>
        ParseFromIgnoresTrailingCloses(tail, parsed + [Condition(k)], group, n);
    }
  }

  lemma ParseIgnoresTrailingCloses(tokens: seq<Token>, n: nat)
    ensures Parse(tokens + Closes(n)).items == Parse(tokens).items
  {
    ParseFromIgnoresTrailingCloses(tokens, [], [], n);
  }
}
