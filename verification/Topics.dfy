/** Substituting parameters into MQTT topics and extracting them again (mqtt/mqtt.service.ts). */
module Topics {
  import opened Options
  import opened Sequences
  import opened Strings

  function IndexOfPlus(s: string): (i: nat)
    ensures i <= |s|
  {
    if s == [] || s[0] == '+' then 0 else 1 + IndexOfPlus(s[1..])
  }

  /** The replacement patterns of `String.prototype.replace`: `$$`, `$&` and the texts around the match. */
  function Expand(param: string, before: string, after: string): string {
    if |param| < 2 then param
    else if param[0] != '$' then [param[0]] + Expand(param[1..], before, after)
    else if param[1] == '$' then "$" + Expand(param[2..], before, after)
    else if param[1] == '&' then "+" + Expand(param[2..], before, after)
    else if param[1] == '`' then before + Expand(param[2..], before, after)
    else if param[1] == '\'' then after + Expand(param[2..], before, after)
    else "$" + Expand(param[1..], before, after)
  }

  /** `topic.replace('+', param)`: the first occurrence only. */
  function ReplacePlus(topic: string, param: string): string {
    var i := IndexOfPlus(topic);
    if i == |topic| then topic else ReplaceCharacter(topic, i, Expand(param, topic[..i], topic[i + 1..]))
  }

  function ReplaceCharacter(s: string, i: nat, text: string): string
    requires i < |s|
  {
    s[..i] + text + s[i + 1..]
  }

  function Substitute(topic: string, params: seq<string>): string
    decreases |params|
  {
    if params == [] then topic else Substitute(ReplacePlus(topic, params[0]), params[1..])
  }

  method CompleteTopic(topic: string, params: seq<string>) returns (complete: string)
    ensures complete == Substitute(topic, params)
  {
    complete := topic;
    for i := 0 to |params|
      invariant Substitute(complete, params[i..]) == Substitute(topic, params)
    {
      assert params[i..][0] == params[i] && params[i..][1..] == params[i + 1..];
      complete := ReplacePlus(complete, params[i]);
    }
    assert params[|params|..] == [];
  }

  /** The levels of the topic at the places where the pattern has a wildcard; a missing level is undefined. */
  function WildcardValues(pattern: seq<string>, topic: seq<string>): seq<Option<string>> {
    if pattern == [] then []
    else
      (if pattern[0] == "+" then [if topic == [] then None else Some(topic[0])] else [])
      + WildcardValues(pattern[1..], if topic == [] then [] else topic[1..])
  }

  function ExtractTopicWildcards(pattern: string, topic: string): seq<Option<string>> {
    WildcardValues(Split(pattern, '/'), Split(topic, '/'))
  }

  function From(parts: seq<string>, i: nat): seq<string> {
    if i <= |parts| then parts[i..] else []
  }

  lemma NextLevel(pattern: seq<string>, topic: seq<string>, i: nat)
    requires i < |pattern|
    ensures WildcardValues(pattern[i..], From(topic, i))
            == (if pattern[i] == "+" then [if i < |topic| then Some(topic[i]) else None] else [])
               + WildcardValues(pattern[i + 1..], From(topic, i + 1))
  {
    assert pattern[i..][1..] == pattern[i + 1..];
    if i < |topic| {
      assert From(topic, i)[1..] == From(topic, i + 1);
    }
  }

  method ExtractWildcards(pattern: string, topic: string) returns (values: seq<Option<string>>)
    ensures values == ExtractTopicWildcards(pattern, topic)
  {
    var patternParts, topicParts := Split(pattern, '/'), Split(topic, '/');
    values := [];
    for i := 0 to |patternParts|
      invariant values + WildcardValues(patternParts[i..], From(topicParts, i))
                == WildcardValues(patternParts, topicParts)
    {
      NextLevel(patternParts, topicParts, i);
      ghost var before := values;
      if patternParts[i] == "+" {
        values := values + [if i < |topicParts| then Some(topicParts[i]) else None];
        Associate(before, [values[|before|]], WildcardValues(patternParts[i + 1..], From(topicParts, i + 1)));
      }
    }
    assert patternParts[|patternParts|..] == [];
  }

  // ---------------------------------------------------------------------------------------------
  // Extraction inverts substitution
  // ---------------------------------------------------------------------------------------------

  /** Wildcards fill whole levels. */
  predicate WholeLevels(levels: seq<string>) {
    forall l :: l in levels ==> l == "+" || '+' !in l
  }

  function CountWildcards(levels: seq<string>): nat {
    if levels == [] then 0 else (if levels[0] == "+" then 1 else 0) + CountWildcards(levels[1..])
  }

  /** There is one value for each wildcard, in order: the topic's level at its place, undefined where there is none. */
  lemma {:induction false} ValueAtWildcard(pattern: seq<string>, topic: seq<string>, i: nat)
    requires i < |pattern| && pattern[i] == "+"
    ensures |WildcardValues(pattern, topic)| == CountWildcards(pattern) > CountWildcards(pattern[..i])
    ensures WildcardValues(pattern, topic)[CountWildcards(pattern[..i])]
            == if i < |topic| then Some(topic[i]) else None
    decreases |pattern|
  {
    var rest, behind := pattern[1..], if topic == [] then [] else topic[1..];
    OneValuePerWildcard(rest, behind);
    if i == 0 {
    } else {
      assert pattern[..i][0] == pattern[0] && pattern[..i][1..] == rest[..i - 1];
      ValueAtWildcard(rest, behind, i - 1);
    }
  }

  lemma {:induction false} OneValuePerWildcard(pattern: seq<string>, topic: seq<string>)
    ensures |WildcardValues(pattern, topic)| == CountWildcards(pattern)
    decreases |pattern|
  {
    if pattern == [] {
    } else {
      OneValuePerWildcard(pattern[1..], if topic == [] then [] else topic[1..]);
    }
  }

  predicate PlainParam(param: string) {
    '/' !in param && '+' !in param
  }

  /** The parameter with every `$` doubled: what to submit for the parameter to be inserted as it is. */
  function Escaped(param: string): string {
    if param == [] then [] else (if param[0] == '$' then "$$" else [param[0]]) + Escaped(param[1..])
  }

  function AllEscaped(params: seq<string>): seq<string> {
    if params == [] then [] else [Escaped(params[0])] + AllEscaped(params[1..])
  }

  /** The levels with their wildcards filled in order. */
  function Fill(levels: seq<string>, params: seq<string>): seq<string> {
    if levels == [] || params == [] then levels
    else if levels[0] == "+" then [params[0]] + Fill(levels[1..], params[1..])
    else [levels[0]] + Fill(levels[1..], params)
  }

  lemma {:induction false} ExpandEscaped(param: string, before: string, after: string)
    ensures Expand(Escaped(param), before, after) == param
  {
    if param == [] {
    } else {
      var rest, escaped := Escaped(param[1..]), Escaped(param);
      ExpandEscaped(param[1..], before, after);
      assert param == [param[0]] + param[1..];
      if param[0] == '$' {
        assert escaped[2..] == rest;
      } else {
        assert escaped[1..] == rest;
        assert rest == [] ==> param[1..] == [];
      }
    }
  }

  /** A parameter without `$` is submitted as it is. */
  lemma {:induction false} EscapedPlain(param: string)
    requires '$' !in param
    ensures Escaped(param) == param
  {
    if param == [] {
    } else {
      assert param[0] in param && forall c :: c in param[1..] ==> c in param;
      EscapedPlain(param[1..]);
      assert param == [param[0]] + param[1..];
    }
  }

  lemma {:induction false} AllEscapedPlain(params: seq<string>)
    requires forall p :: p in params ==> '$' !in p
    ensures AllEscaped(params) == params
  {
    if params == [] {
    } else {
      EscapedPlain(params[0]);
      AllEscapedPlain(params[1..]);
    }
  }

  lemma {:induction false} IndexBehind(a: string, b: string)
    requires '+' !in a
    ensures IndexOfPlus(a + b) == |a| + IndexOfPlus(b)
  {
    if a == [] {
      assert a + b == b;
    } else {
      assert a[0] in a && forall c :: c in a[1..] ==> c in a;
      assert (a + b)[1..] == a[1..] + b;
      IndexBehind(a[1..], b);
    }
  }

  lemma ReplaceAt(t: string, i: nat, param: string)
    requires i == IndexOfPlus(t) < |t|
    ensures ReplacePlus(t, Escaped(param)) == ReplaceCharacter(t, i, param)
  {
    ExpandEscaped(param, t[..i], t[i + 1..]);
    ReplaceUnfolds(t, i, Escaped(param));
  }

  lemma ReplaceUnfolds(t: string, i: nat, param: string)
    requires i == IndexOfPlus(t) < |t|
    ensures ReplacePlus(t, param) == ReplaceCharacter(t, i, Expand(param, t[..i], t[i + 1..]))
  {
  }

  lemma ReplaceBehind(a: string, b: string, param: string)
    requires '+' !in a
    ensures ReplacePlus(a + b, Escaped(param)) == a + ReplacePlus(b, Escaped(param))
  {
    IndexBehind(a, b);
    var i := IndexOfPlus(b);
    if i < |b| {
      SliceBehind(a, b, i);
      ReplaceAt(a + b, |a| + i, param);
      ReplaceAt(b, i, param);
      AssociateFour(a, b[..i], param, b[i + 1..]);
    } else {
      assert |a + b| == |a| + |b|;
    }
  }

  lemma SliceBehind(a: string, b: string, i: nat)
    requires i < |b|
    ensures (a + b)[..|a| + i] == a + b[..i] && (a + b)[|a| + i + 1..] == b[i + 1..]
  {
  }

  /** The text behind a level: all further levels, each with the separator in front of it. */
  function Tail(levels: seq<string>): string {
    if levels == [] then [] else "/" + (levels[0] + Tail(levels[1..]))
  }

  lemma TailCons(first: string, rest: seq<string>)
    ensures Tail([first] + rest) == "/" + (first + Tail(rest))
  {
    assert ([first] + rest)[1..] == rest;
  }

  lemma {:induction false} TailIsJoin(levels: seq<string>)
    requires levels != []
    ensures Tail(levels) == "/" + Join(levels, '/')
  {
    if |levels| <= 1 {
    } else {
      TailIsJoin(levels[1..]);
      assert levels[0] + "/" + Join(levels[1..], '/') == levels[0] + ("/" + Join(levels[1..], '/'));
    }
  }

  /** Replacing fills the first wildcard level. */
  lemma {:induction false} ReplaceInTail(levels: seq<string>, param: string)
    requires WholeLevels(levels)
    ensures ReplacePlus(Tail(levels), Escaped(param)) == Tail(Fill(levels, [param]))
    decreases |levels|
  {
    if levels == [] {
    } else {
      var first, rest := levels[0], levels[1..];
      assert first in levels && forall l :: l in rest ==> l in levels;
      ReplaceBehind("/", first + Tail(rest), param);
      if first == "+" {
        ReplaceLeading(Tail(rest), param);
        FillNothing(rest);
        TailCons(param, rest);
      } else {
        ReplaceBehind(first, Tail(rest), param);
        ReplaceInTail(rest, param);
        TailCons(first, Fill(rest, [param]));
      }
    }
  }

  lemma ReplaceFillsFirst(levels: seq<string>, param: string)
    requires levels != [] && WholeLevels(levels)
    ensures ReplacePlus(Join(levels, '/'), Escaped(param)) == Join(Fill(levels, [param]), '/')
  {
    ReplaceInTail(levels, param);
    FillLength(levels, [param]);
    TailIsJoin(levels);
    TailIsJoin(Fill(levels, [param]));
    ReplaceBehind("/", Join(levels, '/'), param);
    CancelSlash(ReplacePlus(Join(levels, '/'), Escaped(param)), Join(Fill(levels, [param]), '/'));
  }

  lemma CancelSlash(a: string, b: string)
    requires "/" + a == "/" + b
    ensures a == b
  {
    assert ("/" + a)[1..] == a && ("/" + b)[1..] == b;
  }

  lemma ReplaceLeading(tail: string, param: string)
    ensures ReplacePlus("+" + tail, Escaped(param)) == param + tail
  {
    var t := "+" + tail;
    assert t[0] == '+' && IndexOfPlus(t) == 0;
    ReplaceAt(t, 0, param);
    ReplacedFirst("+", tail, param);
  }

  lemma ReplacedFirst(first: string, tail: string, text: string)
    requires |first| == 1
    ensures ReplaceCharacter(first + tail, 0, text) == text + tail
  {
    assert (first + tail)[..0] == [] && (first + tail)[1..] == tail;
    assert [] + text + tail == text + tail;
  }

  lemma FillNothing(levels: seq<string>)
    ensures Fill(levels, []) == levels
  {
  }

  lemma {:induction false} FillLength(levels: seq<string>, params: seq<string>)
    ensures |Fill(levels, params)| == |levels|
    decreases |levels|
  {
    if levels != [] && params != [] {
      FillLength(levels[1..], params[1..]);
      FillLength(levels[1..], params);
    }
  }

  /** Filling one wildcard leaves the rest to be filled by the remaining parameters. */
  lemma {:induction false} FillInTurn(levels: seq<string>, params: seq<string>)
    requires WholeLevels(levels) && params != [] && PlainParam(params[0])
    ensures WholeLevels(Fill(levels, [params[0]]))
    ensures Fill(Fill(levels, [params[0]]), params[1..]) == Fill(levels, params)
    decreases |levels|
  {
    if levels == [] {
    } else {
      var rest := levels[1..];
      assert levels[0] in levels && forall l :: l in rest ==> l in levels;
      if levels[0] == "+" {
        FillNothing(rest);
        var next := [params[0]] + rest;
        assert Fill(levels, [params[0]]) == next && next[1..] == rest;
        assert '+' in "+";
        assert params[1..] == [] ==> Fill(rest, params[1..]) == rest;
      } else {
        FillInTurn(rest, params);
        var next := [levels[0]] + Fill(rest, [params[0]]);
        assert Fill(levels, [params[0]]) == next && next[1..] == Fill(rest, [params[0]]);
        FillNothing(next);
        FillNothing(Fill(rest, [params[0]]));
      }
    }
  }

  lemma {:induction false} SubstituteFills(levels: seq<string>, params: seq<string>)
    requires levels != [] && WholeLevels(levels) && forall p :: p in params ==> PlainParam(p)
    ensures Substitute(Join(levels, '/'), AllEscaped(params)) == Join(Fill(levels, params), '/')
    decreases |params|
  {
    if params == [] {
      FillNothing(levels);
    } else {
      assert AllEscaped(params)[0] == Escaped(params[0]) && AllEscaped(params)[1..] == AllEscaped(params[1..]);
      assert params[0] in params && forall p :: p in params[1..] ==> p in params;
      ReplaceFillsFirst(levels, params[0]);
      FillInTurn(levels, params);
      FillLength(levels, [params[0]]);
      SubstituteFills(Fill(levels, [params[0]]), params[1..]);
    }
  }

  lemma {:induction false} FilledValues(levels: seq<string>, params: seq<string>)
    requires |params| == CountWildcards(levels)
    ensures WildcardValues(levels, Fill(levels, params))
            == seq(|params|, i requires 0 <= i < |params| => Some(params[i]))
    ensures forall l :: l in Fill(levels, params) ==> l in levels || l in params
    decreases |levels|
  {
    if levels == [] {
    } else {
      var rest := levels[1..];
      if levels[0] == "+" {
        FilledValues(rest, params[1..]);
        var filled := [params[0]] + Fill(rest, params[1..]);
        assert filled[1..] == Fill(rest, params[1..]);
      } else {
        FilledValues(rest, params);
        FillNothing(levels);
        FillNothing(rest);
        var filled := [levels[0]] + Fill(rest, params);
        assert Fill(levels, params) == filled && filled[1..] == Fill(rest, params);
      }
    }
  }

  /** Extracting from a published topic gives back the parameters in order, those without `$` as they were submitted. */
  lemma ExtractInvertsPublish(pattern: string, params: seq<string>)
    requires WholeLevels(Split(pattern, '/')) && |params| == CountWildcards(Split(pattern, '/'))
    requires forall p :: p in params ==> PlainParam(p)
    ensures ExtractTopicWildcards(pattern, Substitute(pattern, AllEscaped(params)))
            == seq(|params|, i requires 0 <= i < |params| => Some(params[i]))
    ensures (forall p :: p in params ==> '$' !in p) ==> AllEscaped(params) == params
  {
    if forall p :: p in params ==> '$' !in p {
      AllEscapedPlain(params);
    }
    var levels := Split(pattern, '/');
    JoinOfSplit(pattern, '/');
    SubstituteFills(levels, params);
    FilledValues(levels, params);
    FillLength(levels, params);
    SplitOfJoin(Fill(levels, params), '/');
  }

  /**
   * A parameter with a replacement pattern is lost: `$&` becomes the wildcard again, the others the topic in front of
   * the wildcard or behind it.
   */
  lemma DollarParamsAreLost()
    ensures Substitute("a/+/b", ["$&"]) == "a/+/b"
    ensures Substitute("a/+/b", ["$`"]) == "a/a//b"
    ensures Substitute("a/+/b", ["$'"]) == "a//b/b"
  {
    FirstWildcard();
    assert Expand("", "a/", "/b") == "" && "$&"[2..] == "" && "$`"[2..] == "" && "$'"[2..] == "";
    assert Expand("$&", "a/", "/b") == "+" + "" && Expand("$`", "a/", "/b") == "a/" + "";
    assert Expand("$'", "a/", "/b") == "/b" + "";
    SubstituteOne("a/+/b", "$&");
    SubstituteOne("a/+/b", "$`");
    SubstituteOne("a/+/b", "$'");
  }

  lemma FirstWildcard()
    ensures IndexOfPlus("a/+/b") == 2 && "a/+/b"[..2] == "a/" && "a/+/b"[3..] == "/b"
  {
    assert "a/+/b"[1..] == "/+/b" && "/+/b"[1..] == "+/b";
    assert IndexOfPlus("+/b") == 0 && IndexOfPlus("/+/b") == 1;
  }

  lemma SubstituteOne(topic: string, param: string)
    ensures Substitute(topic, [param]) == ReplacePlus(topic, param)
  {
    assert [param][1..] == [];
  }
}
