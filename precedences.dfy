/** Binding strengths of the Pratt parser, numbered from 1 as Go's `iota` block does. */
module Precedences {
  const Lowest: int := 1
  const Equals: int := 2
  const LessGreater: int := 3
  const Sum: int := 4
  const Product: int := 5
  const Prefix: int := 6
  const Call: int := 7

  /** The levels from weakest to strongest. */
  const Levels: seq<int> := [Lowest, Equals, LessGreater, Sum, Product, Prefix, Call]

  /** The levels are consecutive from 1 to 7 and strictly increasing. */
  lemma LevelsStrictlyIncrease()
    ensures |Levels| == 7 && Levels[0] == 1 && Levels[6] == 7
    ensures forall i :: 0 <= i < |Levels| ==> Levels[i] == i + 1
    ensures forall i, j :: 0 <= i < j < |Levels| ==> Levels[i] < Levels[j]
  {
  }
}
