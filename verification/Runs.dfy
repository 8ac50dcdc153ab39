/** Runs of a machine: sequences of steps, each enabled where it is taken. */
module Runs {

  ghost predicate Can<S(!new), E(!new)>(s: S, es: seq<E>, enabled: (S, E) -> bool, step: (S, E) -> S)
    decreases |es|
  {
    es == [] || (enabled(s, es[0]) && Can(step(s, es[0]), es[1..], enabled, step))
  }

  ghost function After<S(!new), E(!new)>(s: S, es: seq<E>, step: (S, E) -> S): S
    decreases |es|
  {
    if es == [] then s else After(step(s, es[0]), es[1..], step)
  }

  lemma {:induction false} Snoc<S(!new), E(!new)>(s: S, es: seq<E>, e: E, enabled: (S, E) -> bool, step: (S, E) -> S)
    requires Can(s, es, enabled, step) && enabled(After(s, es, step), e)
    ensures Can(s, es + [e], enabled, step) && After(s, es + [e], step) == step(After(s, es, step), e)
    decreases |es|
  {
    if es == [] {
      assert es + [e] == [e];
    } else {
      assert (es + [e])[1..] == es[1..] + [e];
      Snoc(step(s, es[0]), es[1..], e, enabled, step);
    }
  }

  /** One more step of a run. */
  lemma Extend<S(!new), E(!new)>(s0: S, es: seq<E>, s: S, e: E, enabled: (S, E) -> bool, step: (S, E) -> S)
    returns (es': seq<E>, s': S)
    requires Can(s0, es, enabled, step) && After(s0, es, step) == s && enabled(s, e)
    ensures Can(s0, es', enabled, step) && After(s0, es', step) == s' == step(s, e) && es' == es + [e]
  {
    Snoc(s0, es, e, enabled, step);
    es', s' := es + [e], step(s, e);
  }
}
