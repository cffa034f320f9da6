/** Runs of a step system that is given by the events a state enables and the state after an event. */
module StepSystems {

  /** Every event is enabled when its turn comes. */
  predicate LegalRun<S, E>(enabled: (S, E) -> bool, next: (S, E) -> S, s: S, es: seq<E>)
    decreases |es|
  {
    es == [] || (enabled(s, es[0]) && LegalRun(enabled, next, next(s, es[0]), es[1..]))
  }

  /** The state after a run. */
  function EndOf<S, E>(next: (S, E) -> S, s: S, es: seq<E>): S
    decreases |es|
  {
    if es == [] then s else EndOf(next, next(s, es[0]), es[1..])
  }

  /** What every enabled event keeps, every legal run keeps. */
  lemma {:induction false} RunKeeps<S(!new), E(!new)>(enabled: (S, E) -> bool, next: (S, E) -> S, inv: S -> bool,
      s: S, es: seq<E>)
    requires forall r, e :: inv(r) && enabled(r, e) ==> inv(next(r, e))
    requires inv(s) && LegalRun(enabled, next, s, es)
    ensures inv(EndOf(next, s, es))
    decreases |es|
  {
    if es != [] {
      RunKeeps(enabled, next, inv, next(s, es[0]), es[1..]);
    }
  }

  /** The first event of a run, taken on its own. */
  lemma Unfold<S, E>(enabled: (S, E) -> bool, next: (S, E) -> S, s: S, e: E, rest: seq<E>)
    ensures LegalRun(enabled, next, s, [e] + rest) <==> enabled(s, e) && LegalRun(enabled, next, next(s, e), rest)
    ensures EndOf(next, s, [e] + rest) == EndOf(next, next(s, e), rest)
  {
    assert ([e] + rest)[1..] == rest;
  }

  /** The first three events of a run. */
  lemma UnfoldThree<S, E>(enabled: (S, E) -> bool, next: (S, E) -> S, s: S, a: E, b: E, c: E, rest: seq<E>)
    ensures LegalRun(enabled, next, s, [a, b, c] + rest) <==>
      && enabled(s, a)
      && enabled(next(s, a), b)
      && enabled(next(next(s, a), b), c)
      && LegalRun(enabled, next, next(next(next(s, a), b), c), rest)
    ensures EndOf(next, s, [a, b, c] + rest) == EndOf(next, next(next(next(s, a), b), c), rest)
  {
    assert [a, b, c] + rest == [a] + ([b] + ([c] + rest));
    Unfold(enabled, next, s, a, [b] + ([c] + rest));
    Unfold(enabled, next, next(s, a), b, [c] + rest);
    Unfold(enabled, next, next(next(s, a), b), c, rest);
  }

  /** A run in two parts. */
  lemma {:induction false} RunAppend<S, E>(enabled: (S, E) -> bool, next: (S, E) -> S, s: S, a: seq<E>, b: seq<E>)
    ensures LegalRun(enabled, next, s, a + b) <==>
      LegalRun(enabled, next, s, a) && LegalRun(enabled, next, EndOf(next, s, a), b)
    ensures EndOf(next, s, a + b) == EndOf(next, EndOf(next, s, a), b)
    decreases |a|
  {
    if a == [] {
      assert a + b == b;
    } else {
      assert a + b == [a[0]] + (a[1..] + b);
      Unfold(enabled, next, s, a[0], a[1..] + b);
      RunAppend(enabled, next, next(s, a[0]), a[1..], b);
    }
  }
}
