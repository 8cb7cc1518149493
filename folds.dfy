/** Loops that append, for each item in turn, the events of handling it. */
module Folds {
  /**
   * The events of a loop that handles `items` in order, where `step(n, x)` is what handling
   * `x` appends when the log already holds `n` events.
   */
  function Sequenced<E, T>(step: (nat, T) -> seq<E>, at: nat, items: seq<T>): seq<E>
    decreases |items|
  {
    if items == [] then []
    else step(at, items[0]) + Sequenced(step, at + |step(at, items[0])|, items[1..])
  }

  lemma SequencedUnfold<E, T>(step: (nat, T) -> seq<E>, at: nat, items: seq<T>)
    requires items != []
    ensures Sequenced(step, at, items)
         == step(at, items[0]) + Sequenced(step, at + |step(at, items[0])|, items[1..])
  {
  }

  /** The loop from item `i` on: item `i`'s events, then the rest's. */
  lemma SequencedFrom<E, T>(step: (nat, T) -> seq<E>, before: seq<E>, items: seq<T>, i: nat)
    requires i < |items|
    ensures Sequenced(step, |before|, items[i..])
         == step(|before|, items[i]) + Sequenced(step, |before| + |step(|before|, items[i])|, items[i + 1..])
  {
    var tail := items[i..];
    SequencedUnfold(step, |before|, tail);
    assert tail[0] == items[i];
    assert tail[1..] == items[i + 1..];
  }

  lemma SequencedAfterStep<E, T>(step: (nat, T) -> seq<E>, before: seq<E>, after: seq<E>, items: seq<T>, i: nat)
    requires i < |items|
    requires after == before + step(|before|, items[i])
    ensures Sequenced(step, |after|, items[i + 1..])
         == Sequenced(step, |before| + |step(|before|, items[i])|, items[i + 1..])
  {
  }

  /** One more turn of such a loop keeps `log + Sequenced(step, |log|, items[i..])` fixed. */
  lemma SequencedTurn<E, T>(step: (nat, T) -> seq<E>, before: seq<E>, after: seq<E>, items: seq<T>, i: nat)
    requires i < |items|
    requires after == before + step(|before|, items[i])
    ensures after + Sequenced(step, |after|, items[i + 1..]) == before + Sequenced(step, |before|, items[i..])
  {
    SequencedFrom(step, before, items, i);
    SequencedAfterStep(step, before, after, items, i);
    RegroupAppend(before, after, step(|before|, items[i]), Sequenced(step, |after|, items[i + 1..]),
         Sequenced(step, |before| + |step(|before|, items[i])|, items[i + 1..]), Sequenced(step, |before|, items[i..]));
  }

  lemma RegroupAppend<E>(before: seq<E>, after: seq<E>, first: seq<E>, rest: seq<E>, rest': seq<E>, whole: seq<E>)
    requires after == before + first
    requires rest == rest'
    requires whole == first + rest'
    ensures after + rest == before + whole
  {
  }

  /**
   * The events of a loop that carries a state from item to item: `step(n, s, x)` is the
   * new state and the events of handling `x` in state `s` when the log holds `n` events.
   */
  function Threaded<S, E, T>(step: (nat, S, T) -> (S, seq<E>), at: nat, state: S, items: seq<T>): seq<E>
    decreases |items|
  {
    if items == [] then []
    else step(at, state, items[0]).1
         + Threaded(step, at + |step(at, state, items[0]).1|, step(at, state, items[0]).0, items[1..])
  }

  lemma ThreadedUnfold<S, E, T>(step: (nat, S, T) -> (S, seq<E>), at: nat, state: S, items: seq<T>)
    requires items != []
    ensures Threaded(step, at, state, items)
         == step(at, state, items[0]).1
            + Threaded(step, at + |step(at, state, items[0]).1|, step(at, state, items[0]).0, items[1..])
  {
  }

  /** The loop from item `i` on: item `i`'s events, then the rest's from the state item `i` leaves. */
  lemma ThreadedFrom<S, E, T>(step: (nat, S, T) -> (S, seq<E>), before: seq<E>, state: S, items: seq<T>, i: nat)
    requires i < |items|
    ensures Threaded(step, |before|, state, items[i..])
         == step(|before|, state, items[i]).1
            + Threaded(step, |before| + |step(|before|, state, items[i]).1|, step(|before|, state, items[i]).0, items[i + 1..])
  {
    var tail := items[i..];
    ThreadedUnfold(step, |before|, state, tail);
    assert tail[0] == items[i];
    assert tail[1..] == items[i + 1..];
  }

  lemma ThreadedAfterStep<S, E, T>(step: (nat, S, T) -> (S, seq<E>), before: seq<E>, after: seq<E>,
                                   state: S, next: S, items: seq<T>, i: nat)
    requires i < |items|
    requires after == before + step(|before|, state, items[i]).1
    requires next == step(|before|, state, items[i]).0
    ensures Threaded(step, |after|, next, items[i + 1..])
         == Threaded(step, |before| + |step(|before|, state, items[i]).1|, step(|before|, state, items[i]).0, items[i + 1..])
  {
  }

  /** One more turn of such a loop keeps `log + Threaded(step, |log|, state, items[i..])` fixed. */
  lemma ThreadedTurn<S, E, T>(step: (nat, S, T) -> (S, seq<E>), before: seq<E>, after: seq<E>,
                              state: S, next: S, items: seq<T>, i: nat)
    requires i < |items|
    requires after == before + step(|before|, state, items[i]).1
    requires next == step(|before|, state, items[i]).0
    ensures after + Threaded(step, |after|, next, items[i + 1..]) == before + Threaded(step, |before|, state, items[i..])
  {
    ThreadedFrom(step, before, state, items, i);
    ThreadedAfterStep(step, before, after, state, next, items, i);
    RegroupAppend(before, after, step(|before|, state, items[i]).1, Threaded(step, |after|, next, items[i + 1..]),
         Threaded(step, |before| + |step(|before|, state, items[i]).1|, step(|before|, state, items[i]).0, items[i + 1..]),
         Threaded(step, |before|, state, items[i..]));
  }

  lemma TailItems<T>(items: seq<T>)
    requires items != []
    ensures forall k :: 0 <= k < |items[1..]| ==> items[1..][k] == items[k + 1]
  {
  }
}
