/** Small facts about sequences that the other modules use in crowded
    contexts, where proving them in place is expensive. */
module Seqs {
  lemma LastSplit<T>(s: seq<T>)
    requires s != []
    ensures s == s[..|s| - 1] + [s[|s| - 1]]
  {
  }

  lemma TakeSnoc<T>(s: seq<T>, x: T)
    ensures (s + [x])[..|s|] == s
    ensures (s + [x])[|s|] == x
  {
  }

  lemma SnocUpdate<T>(s: seq<T>, x: T, y: T)
    ensures (s + [x])[|s| := y] == s + [y]
  {
  }

  lemma TakeNext<T>(s: seq<T>, n: nat)
    requires 0 < n <= |s|
    ensures s[..n] == s[..n - 1] + [s[n - 1]]
  {
  }

  lemma AppendAssoc<T>(a: seq<T>, b: seq<T>, c: seq<T>)
    ensures (a + b) + c == a + (b + c)
  {
  }

  /** The sum of a list of weights, `sum(ws)`. */
  function Sum(ws: seq<nat>): nat {
    if ws == [] then 0 else Sum(ws[..|ws| - 1]) + ws[|ws| - 1]
  }

  lemma SumSingle(w: nat)
    ensures Sum([w]) == w
  {
    assert [w][..0] == [];
  }

  lemma SumSnoc(xs: seq<nat>, w: nat)
    ensures Sum(xs + [w]) == Sum(xs) + w
  {
    assert (xs + [w])[..|xs|] == xs;
  }
}
