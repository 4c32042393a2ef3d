/** What every watch loop's run has in common: once it has ended, further turns change nothing. */
module Runs {
  /** A run that has ended is not moved by one more turn. */
  ghost predicate Stops<S, T(!new)>(run: seq<T> -> S, ended: S -> bool) {
    forall turns: seq<T> :: turns != [] && ended(run(turns[..|turns| - 1])) ==> run(turns) == run(turns[..|turns| - 1])
  }

  lemma {:induction false} EndedStaysEnded<S, T(!new)>(run: seq<T> -> S, ended: S -> bool, turns: seq<T>, i: nat)
    requires Stops(run, ended) && i <= |turns| && ended(run(turns[..i]))
    ensures run(turns) == run(turns[..i])
    decreases |turns|
  {
    if i == |turns| {
      assert turns[..i] == turns;
    } else {
      assert turns[..|turns| - 1][..i] == turns[..i];
      EndedStaysEnded(run, ended, turns[..|turns| - 1], i);
    }
  }
}
