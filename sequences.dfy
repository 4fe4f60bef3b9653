/** Small facts about sequences used when rows are moved around. */
module Sequences {

  /** A sequence is its prefix, the element at `i` and its suffix. */
  lemma SplitAt<T>(b: seq<T>, i: int)
    requires 0 <= i < |b|
    ensures b == b[..i] + [b[i]] + b[i + 1..]
  {
  }

  /** Removing the element at `i` removes one copy of it from the multiset. */
  lemma MultisetRemove<T>(b: seq<T>, i: int)
    requires 0 <= i < |b|
    ensures multiset(b[..i] + b[i + 1..]) == multiset(b) - multiset{b[i]}
  {
    SplitAt(b, i);
    assert multiset(b) == multiset(b[..i]) + multiset{b[i]} + multiset(b[i + 1..]);
  }
}
