/** Sequences of states in which each follows from the one before, for any relation between states. */
module Chains {
  ghost predicate IsChain<T(!new)>(next: (T, T) -> bool, ts: seq<T>) {
    ts != [] && forall i, j :: 0 <= i < j < |ts| && j == i + 1 ==> next(ts[i], ts[j])
  }

  lemma RestOfChain<T(!new)>(next: (T, T) -> bool, ts: seq<T>)
    requires IsChain(next, ts) && |ts| > 1
    ensures next(ts[0], ts[1]) && IsChain(next, ts[1..])
  {
  }

  lemma Prepend<T(!new)>(next: (T, T) -> bool, t: T, ts: seq<T>)
    requires IsChain(next, ts) && next(t, ts[0])
    ensures IsChain(next, [t] + ts)
  {
    var longer := [t] + ts;
    forall i, j | 0 <= i < j < |longer| && j == i + 1
      ensures next(longer[i], longer[j])
    {
      assert longer[j] == ts[i] && (i > 0 ==> longer[i] == ts[i - 1]);
    }
  }

  /** Two steps that raise `count` can be made `n` times, one after the other. */
  ghost predicate Rounds<T(!new)>(next: (T, T) -> bool, count: T -> int, t: T, n: nat)
    decreases n
  {
    n > 0 ==>
      exists mid, after :: IsRound(next, count, t, mid, after) && Rounds(next, count, after, n - 1)
  }

  ghost predicate IsRound<T(!new)>(next: (T, T) -> bool, count: T -> int, t: T, mid: T, after: T) {
    next(t, mid) && next(mid, after) && count(after) >= count(t) + 1
  }

  /** From a ready state, two steps that raise `count` lead to a ready state again. */
  ghost predicate Recurs<T(!new)>(next: (T, T) -> bool, count: T -> int, ready: T -> bool, t: T) {
    exists mid, after :: IsRound(next, count, t, mid, after) && ready(after)
  }

  lemma {:induction false} RecurringRounds<T(!new)>(next: (T, T) -> bool, count: T -> int, ready: T -> bool, t: T,
                                                    n: nat)
    requires ready(t)
    requires forall s {:trigger Recurs(next, count, ready, s)} :: ready(s) ==> Recurs(next, count, ready, s)
    ensures Rounds(next, count, t, n)
    decreases n
  {
    if n == 0 {
    } else {
      assert Recurs(next, count, ready, t);
      var mid, after :| IsRound(next, count, t, mid, after) && ready(after);
      RecurringRounds(next, count, ready, after, n - 1);
    }
  }

  lemma {:induction false} RoundsAreChain<T(!new)>(next: (T, T) -> bool, count: T -> int, t: T, n: nat)
    returns (ts: seq<T>)
    requires Rounds(next, count, t, n)
    ensures IsChain(next, ts) && ts[0] == t && |ts| == 2 * n + 1
    ensures count(ts[|ts| - 1]) >= count(t) + n
    decreases n
  {
    if n == 0 {
      ts := [t];
    } else {
      var mid, after :| IsRound(next, count, t, mid, after) && Rounds(next, count, after, n - 1);
      var rest := RoundsAreChain(next, count, after, n - 1);
      Prepend(next, mid, rest);
      Prepend(next, t, [mid] + rest);
      ts := [t] + ([mid] + rest);
    }
  }
}
