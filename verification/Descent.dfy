/**
 * Lexicographic descent with bounded growth. A step either lowers the size and raises no pair, or it lowers some pair
 * without raising those before it, and then the pairs behind it and the size may grow again, but only by so much.
 */
module Descent {
  datatype Pair = Pair(major: nat, minor: nat)

  datatype Measure = Measure(pairs: seq<Pair>, size: nat)

  predicate Below(p: Pair, q: Pair) {
    p.major < q.major || (p.major == q.major && p.minor < q.minor)
  }

  predicate AtMost(p: Pair, q: Pair) { p == q || Below(p, q) }

  /** No entry exceeds the size, except for the major one of the first pair. */
  predicate Fits(m: Measure) {
    forall i :: 0 <= i < |m.pairs| ==> m.pairs[i].minor <= m.size && (i > 0 ==> m.pairs[i].major <= m.size)
  }

  predicate LowersSize(m: Measure, m': Measure) {
    && |m'.pairs| == |m.pairs| && m'.size < m.size
    && forall i :: 0 <= i < |m.pairs| ==> AtMost(m'.pairs[i], m.pairs[i])
  }

  predicate LowersPair(grow: nat, m: Measure, m': Measure, i: nat) {
    && |m'.pairs| == |m.pairs| && i < |m.pairs| && m'.size <= m.size + grow
    && Below(m'.pairs[i], m.pairs[i])
    && forall j :: 0 <= j < i ==> AtMost(m'.pairs[j], m.pairs[j])
  }

  ghost predicate Descends(grow: nat, m: Measure, m': Measure) {
    LowersSize(m, m') || exists i: nat :: LowersPair(grow, m, m', i)
  }

  // ---------------------------------------------------------------------------------------------
  // A bound on the number of steps
  // ---------------------------------------------------------------------------------------------

  /** The bound for `k` pairs when nothing exceeds `size`. */
  function Peak(grow: nat, k: nat, size: nat): nat
    decreases k, 1, 0, 0
  {
    if k == 0 then size else Reach(grow, k, size, size, Peak(grow, k - 1, size))
  }

  /** The bound for `k` pairs, of which the first is given and the others are bounded by `inner`. */
  function Reach(grow: nat, k: nat, major: nat, minor: nat, inner: nat): nat
    requires k >= 1
    decreases k, 0, major, minor
  {
    var regrown := Peak(grow, k - 1, inner + grow);
    inner + 1
    + (if minor > 0 then Reach(grow, k, major, minor - 1, regrown) else 0)
    + (if major > 0 then Reach(grow, k, major - 1, inner + grow, regrown) else 0)
  }

  function Height(grow: nat, pairs: seq<Pair>, size: nat): nat {
    if pairs == [] then size
    else Reach(grow, |pairs|, pairs[0].major, pairs[0].minor, Height(grow, pairs[1..], size))
  }

  lemma {:induction false} PeakMonotone(grow: nat, k: nat, size: nat, size': nat)
    requires size <= size'
    ensures Peak(grow, k, size) <= Peak(grow, k, size')
    decreases k, 1, 0, 0
  {
    if k == 0 {
    } else {
      PeakMonotone(grow, k - 1, size, size');
      ReachMonotone(grow, k, size, size, Peak(grow, k - 1, size), size', size', Peak(grow, k - 1, size'));
    }
  }

  lemma {:induction false} ReachMonotone(grow: nat, k: nat, major: nat, minor: nat, inner: nat,
                                         major': nat, minor': nat, inner': nat)
    requires k >= 1 && major <= major' && minor <= minor' && inner <= inner'
    ensures Reach(grow, k, major, minor, inner) + (inner' - inner) <= Reach(grow, k, major', minor', inner')
    decreases k, 0, major', minor'
  {
    var regrown, regrown' := Peak(grow, k - 1, inner + grow), Peak(grow, k - 1, inner' + grow);
    PeakMonotone(grow, k - 1, inner + grow, inner' + grow);
    if minor > 0 {
      ReachMonotone(grow, k, major, minor - 1, regrown, major', minor' - 1, regrown');
    }
    if major > 0 {
      ReachMonotone(grow, k, major - 1, inner + grow, regrown, major' - 1, inner' + grow, regrown');
    }
  }

  lemma {:induction false} HeightCoversSize(grow: nat, pairs: seq<Pair>, size: nat)
    ensures size <= Height(grow, pairs, size)
  {
    if pairs == [] {
    } else {
      HeightCoversSize(grow, pairs[1..], size);
    }
  }

  lemma {:induction false} HeightWithinPeak(grow: nat, pairs: seq<Pair>, size: nat, limit: nat)
    requires size <= limit
    requires forall i :: 0 <= i < |pairs| ==> pairs[i].major <= limit && pairs[i].minor <= limit
    ensures Height(grow, pairs, size) <= Peak(grow, |pairs|, limit)
  {
    if pairs == [] {
    } else {
      HeightWithinPeak(grow, pairs[1..], size, limit);
      var k := |pairs|;
      ReachMonotone(grow, k, pairs[0].major, pairs[0].minor, Height(grow, pairs[1..], size),
                    limit, limit, Peak(grow, k - 1, limit));
    }
  }

  /** When the first pair is lowered, the others cannot make up for it. */
  lemma LoweredFirstPair(grow: nat, k: nat, p: Pair, p': Pair, inner: nat, inner': nat)
    requires k >= 1 && Below(p', p) && p'.minor <= inner + grow && inner' <= Peak(grow, k - 1, inner + grow)
    ensures Reach(grow, k, p'.major, p'.minor, inner') < Reach(grow, k, p.major, p.minor, inner)
  {
    var regrown := Peak(grow, k - 1, inner + grow);
    if p'.major < p.major {
      ReachMonotone(grow, k, p'.major, p'.minor, inner', p.major - 1, inner + grow, regrown);
    } else {
      ReachMonotone(grow, k, p'.major, p'.minor, inner', p.major, p.minor - 1, regrown);
    }
  }

  /** Every step lowers the bound. */
  lemma {:induction false} DescentLowersHeight(grow: nat, m: Measure, m': Measure)
    requires Descends(grow, m, m') && Fits(m')
    ensures Height(grow, m'.pairs, m'.size) < Height(grow, m.pairs, m.size)
    decreases |m.pairs|
  {
    if m.pairs == [] {
    } else {
      var inner, inner' := Height(grow, m.pairs[1..], m.size), Height(grow, m'.pairs[1..], m'.size);
      if Below(m'.pairs[0], m.pairs[0]) {
        HeightCoversSize(grow, m.pairs[1..], m.size);
        HeightWithinPeak(grow, m'.pairs[1..], m'.size, inner + grow);
        LoweredFirstPair(grow, |m.pairs|, m.pairs[0], m'.pairs[0], inner, inner');
      } else {
        RestDescends(grow, m, m');
        DescentLowersHeight(grow, Measure(m.pairs[1..], m.size), Measure(m'.pairs[1..], m'.size));
        ReachMonotone(grow, |m.pairs|, m.pairs[0].major, m.pairs[0].minor, inner',
                      m.pairs[0].major, m.pairs[0].minor, inner);
      }
    }
  }

  lemma RestDescends(grow: nat, m: Measure, m': Measure)
    requires Descends(grow, m, m') && m.pairs != [] && !Below(m'.pairs[0], m.pairs[0])
    ensures m'.pairs[0] == m.pairs[0]
    ensures Descends(grow, Measure(m.pairs[1..], m.size), Measure(m'.pairs[1..], m'.size))
  {
    if !LowersSize(m, m') {
      var i: nat :| LowersPair(grow, m, m', i);
      assert LowersPair(grow, Measure(m.pairs[1..], m.size), Measure(m'.pairs[1..], m'.size), i - 1);
    }
  }
}
