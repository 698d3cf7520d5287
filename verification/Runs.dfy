/** Runs of a transition system whose steps may be impossible. */
module Runs {
  import opened Packets

  /** The state after the events have happened one after the other, if all of them can. */
  ghost function Run<S, E>(step: (S, E) -> Option<S>, s: S, events: seq<E>): Option<S>
    decreases |events|
  {
    if events == [] then Some(s)
    else match step(s, events[0])
      case None => None
      case Some(s1) => Run(step, s1, events[1..])
  }

  lemma RunFirst<S, E>(step: (S, E) -> Option<S>, s: S, event: E, events: seq<E>)
    requires step(s, event).Some?
    ensures Run(step, s, [event] + events) == Run(step, step(s, event).value, events)
  {
    assert ([event] + events)[1..] == events;
  }

  lemma RunOne<S, E>(step: (S, E) -> Option<S>, s: S, event: E)
    ensures Run(step, s, [event]) == step(s, event)
  {
    assert [event][1..] == [];
  }

  lemma {:induction false} RunAppend<S, E>(step: (S, E) -> Option<S>, s: S, a: seq<E>, b: seq<E>)
    requires Run(step, s, a).Some?
    ensures Run(step, s, a + b) == Run(step, Run(step, s, a).value, b)
    decreases |a|
  {
    if a == [] {
      assert a + b == b;
    } else {
      RunAppend(step, step(s, a[0]).value, a[1..], b);
      assert a + b == [a[0]] + (a[1..] + b);
      RunFirst(step, s, a[0], a[1..] + b);
    }
  }
}
