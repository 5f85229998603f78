/**
 * Python's random.shuffle: the in-place Fisher-Yates pass, with the random
 * draws as a parameter. Used by the relational generator (shuffled keys) and
 * the masking service (shuffled characters).
 */
module Shuffling {
  /** The list with positions i and j exchanged. */
  function Swap<T>(s: seq<T>, i: nat, j: nat): (r: seq<T>)
    requires i < |s| && j < |s|
    ensures |r| == |s|
  {
    s[i := s[j]][j := s[i]]
  }

  lemma SwapPermutes<T>(s: seq<T>, i: nat, j: nat)
    requires i < |s| && j < |s|
    ensures multiset(Swap(s, i, j)) == multiset(s)
  {
  }

  /** The Fisher-Yates pass of `random.shuffle` over positions i down to 1: position i swaps with `randbelow(i + 1)`. */
  function FisherYates<T>(s: seq<T>, i: nat, draw: nat -> nat): (r: seq<T>)
    requires i < |s|
    ensures |r| == |s|
    decreases i
  {
    if i == 0 then s else FisherYates(Swap(s, i, draw(i) % (i + 1)), i - 1, draw)
  }

  function Shuffled<T>(s: seq<T>, draw: nat -> nat): (r: seq<T>)
    ensures |r| == |s|
  {
    if |s| <= 1 then s else FisherYates(s, |s| - 1, draw)
  }

  lemma {:induction false} FisherYatesPermutes<T>(s: seq<T>, i: nat, draw: nat -> nat)
    requires i < |s|
    ensures multiset(FisherYates(s, i, draw)) == multiset(s)
    decreases i
  {
    if i > 0 {
      SwapPermutes(s, i, draw(i) % (i + 1));
      FisherYatesPermutes(Swap(s, i, draw(i) % (i + 1)), i - 1, draw);
    }
  }

  /** `random.shuffle` returns a permutation of its input. */
  lemma ShuffledPermutes<T>(s: seq<T>, draw: nat -> nat)
    ensures multiset(Shuffled(s, draw)) == multiset(s)
  {
    if |s| > 1 {
      FisherYatesPermutes(s, |s| - 1, draw);
    }
  }

  /** `random.shuffle(shuffled)`: the in-place Fisher-Yates loop. */
  method Shuffle<T>(s: seq<T>, draw: nat -> nat) returns (shuffled: seq<T>)
    ensures shuffled == Shuffled(s, draw)
    ensures multiset(shuffled) == multiset(s)
  {
    shuffled := s;
    ShuffledPermutes(s, draw);
    if |s| <= 1 {
      return;
    }
    var i := |s| - 1;
    while i > 0
      invariant 0 <= i < |s| && |shuffled| == |s|
      invariant FisherYates(shuffled, i, draw) == Shuffled(s, draw)
    {
      var j := draw(i) % (i + 1);
      shuffled := shuffled[i := shuffled[j]][j := shuffled[i]];
      i := i - 1;
    }
  }
}
