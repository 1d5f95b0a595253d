/** `String.prototype.split` and `Array.prototype.join` for a one-character separator. */
module Strings {
  function Split(s: string, sep: char): (parts: seq<string>)
    ensures parts != []
  {
    if s == [] then [[]]
    else
      var rest := Split(s[1..], sep);
      if s[0] == sep then [[]] + rest else [[s[0]] + rest[0]] + rest[1..]
  }

  function Join(parts: seq<string>, sep: char): string {
    if parts == [] then []
    else if |parts| == 1 then parts[0]
    else parts[0] + [sep] + Join(parts[1..], sep)
  }

  ghost predicate Free(s: string, c: char) {
    c !in s
  }

  ghost predicate AllFree(parts: seq<string>, c: char) {
    forall p :: p in parts ==> Free(p, c)
  }

  /** Splitting undoes joining when no part contains the separator. */
  lemma {:induction false} SplitOfJoin(parts: seq<string>, sep: char)
    requires parts != [] && AllFree(parts, sep)
    ensures Split(Join(parts, sep), sep) == parts
    decreases |parts|, |parts[0]|
  {
    var p := parts[0];
    if p != [] {
      var parts' := [p[1..]] + parts[1..];
      assert p in parts && p[0] in p && forall c :: c in p[1..] ==> c in p;
      assert Free(p[1..], sep) && forall q :: q in parts' ==> q in parts || q == p[1..];
      SplitOfJoin(parts', sep);
      assert parts == [p] + parts[1..];
      JoinFirst(p, parts[1..], sep);
      assert Join(parts, sep)[1..] == Join(parts', sep);
      assert parts'[1..] == parts[1..] && [p[0]] + p[1..] == p;
    } else if |parts| > 1 {
      SplitOfJoin(parts[1..], sep);
      assert Join(parts, sep)[1..] == Join(parts[1..], sep);
      assert Join(parts, sep)[0] == sep;
    }
  }

  lemma JoinFirst(p: string, rest: seq<string>, sep: char)
    requires p != []
    ensures Join([p] + rest, sep) == [p[0]] + Join([p[1..]] + rest, sep)
  {
    assert ([p] + rest)[1..] == rest == ([p[1..]] + rest)[1..];
    if rest == [] {
      assert p == [p[0]] + p[1..];
    } else {
      assert p + [sep] + Join(rest, sep) == [p[0]] + (p[1..] + [sep] + Join(rest, sep));
    }
  }

  /** Joining undoes splitting, and no part of a split contains the separator. */
  lemma {:induction false} JoinOfSplit(s: string, sep: char)
    ensures Join(Split(s, sep), sep) == s
    ensures AllFree(Split(s, sep), sep)
  {
    if s == [] {
    } else {
      JoinOfSplit(s[1..], sep);
      var rest := Split(s[1..], sep);
      if s[0] == sep {
        assert ([[]] + rest)[1..] == rest;
        assert [] + [sep] + s[1..] == s;
      } else {
        var parts := [[s[0]] + rest[0]] + rest[1..];
        assert parts[1..] == rest[1..];
        assert rest == [rest[0]] + rest[1..];
        JoinFirst([s[0]] + rest[0], rest[1..], sep);
        assert ([s[0]] + rest[0])[1..] == rest[0];
        assert [s[0]] + s[1..] == s;
        assert rest[0] in rest && Free(rest[0], sep);
        assert forall q :: q in parts ==> q == parts[0] || q in rest;
      }
    }
  }
}
