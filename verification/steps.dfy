/**
 * Event handlers as step lists: a handler is modelled by the ordered list of
 * state updates and effects it performs, and the page state after it by folding
 * the state updates over that list.
 */
module Steps {

  /** The state after applying `update` to each step of `steps` in order. */
  function Run<S, E>(update: (S, E) -> S, s: S, steps: seq<E>): S
    decreases |steps|
  {
    if |steps| == 0 then s else Run(update, update(s, steps[0]), steps[1..])
  }

  /** Running two step lists one after the other is running their concatenation. */
  lemma {:induction false} RunConcat<S, E>(update: (S, E) -> S, s: S, a: seq<E>, b: seq<E>)
    ensures Run(update, s, a + b) == Run(update, Run(update, s, a), b)
    decreases |a|
  {
    if |a| == 0 {
      assert a + b == b;
    } else {
      assert (a + b)[0] == a[0];
      assert (a + b)[1..] == a[1..] + b;
      RunConcat(update, update(s, a[0]), a[1..], b);
    }
  }

  /** The state after a single step. */
  lemma RunOne<S, E>(update: (S, E) -> S, s: S, e: E)
    ensures Run(update, s, [e]) == update(s, e)
  {
    assert [e][1..] == [];
  }

  /** The state after two steps. */
  lemma RunTwo<S, E>(update: (S, E) -> S, s: S, e1: E, e2: E)
    ensures Run(update, s, [e1, e2]) == update(update(s, e1), e2)
  {
    assert [e1, e2][1..] == [e2];
    RunOne(update, update(s, e1), e2);
  }
}
