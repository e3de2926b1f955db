/** The indicator dots: a projection of which card holds the featured position. */
module Indicators {
  import opened Positions

  /** The index of the first card at position 1, or -1 when no card is there
      (the behaviour of a find-index over the cards). */
  function FeaturedIndex(s: seq<int>): (r: int)
    ensures r == -1 <==> forall k :: 0 <= k < |s| ==> s[k] != 1
    ensures r != -1 ==> 0 <= r < |s| && s[r] == 1 && forall k :: 0 <= k < r ==> s[k] != 1
  {
    if |s| == 0 then -1
    else if s[0] == 1 then 0
    else
      var r := FeaturedIndex(s[1..]);
      if r == -1 then -1 else r + 1
  }

  /** The selected flag of every dot: dot k is selected when k is the featured index. */
  function Selection(s: seq<int>): seq<bool> {
    seq(|s|, k => k == FeaturedIndex(s))
  }

  /** With distinct positions, dot k is selected exactly when card k holds position 1. */
  lemma SelectedIffFeatured(s: seq<int>, k: nat)
    requires WellFormed(s) && k < |s|
    ensures Selection(s)[k] <==> s[k] == 1
  {
  }

  /** At most one dot is ever selected. */
  lemma AtMostOneSelected(s: seq<int>, j: nat, k: nat)
    requires j < |s| && k < |s| && Selection(s)[j] && Selection(s)[k]
    ensures j == k
  {
  }

  /** A sequence of distinct values has as many distinct values as elements. */
  lemma {:induction false} DistinctValues(s: seq<int>)
    requires forall j, k :: 0 <= j < k < |s| ==> s[j] != s[k]
    ensures |set x | x in s| == |s|
  {
    if |s| > 0 {
      DistinctValues(s[1..]);
      assert (set x | x in s) == {s[0]} + (set x | x in s[1..]);
      assert s[0] !in (set x | x in s[1..]);
    }
  }

  /** A subset is no larger than its superset. */
  lemma SubsetNoLarger(a: set<int>, b: set<int>)
    requires a <= b
    ensures |a| <= |b|
  {
    var rest := b - a;
    assert b == a + rest;
    assert a * rest == {};
  }

  /** Six cards with distinct positions in 1..6 always include the featured one. */
  lemma FullSetHasFeatured(s: seq<int>)
    requires WellFormed(s) && |s| == Slots
    ensures exists k :: 0 <= k < |s| && s[k] == 1
  {
    DistinctValues(s);
    var values := set x | x in s;
    if forall k :: 0 <= k < |s| ==> s[k] != 1 {
      var others := {2, 3, 4, 5, 6};
      assert values <= others;
      assert |others| == 5;
      SubsetNoLarger(values, others);
      assert false;
    }
  }

  /** With six cards exactly one dot is selected: the one of the featured card. */
  lemma ExactlyOneSelectedWhenFull(s: seq<int>)
    requires WellFormed(s) && |s| == Slots
    ensures 0 <= FeaturedIndex(s) < |s|
    ensures forall k :: 0 <= k < |s| ==> (Selection(s)[k] <==> s[k] == 1)
  {
    FullSetHasFeatured(s);
  }

  /** With any number of cards from 2 to 5, as many forward steps from the
      start-up positions leave no card at position 1, so no dot is selected. */
  lemma NoDotSelectedBelowSix(n: nat)
    requires 2 <= n < Slots
    ensures |ForwardN(Identity(n), n)| == n
    ensures forall k :: 0 <= k < n ==> ForwardN(Identity(n), n)[k] != 1
    ensures FeaturedIndex(ForwardN(Identity(n), n)) == -1
    ensures forall k :: 0 <= k < n ==> !Selection(ForwardN(Identity(n), n))[k]
  {
    ForwardNAt(Identity(n), n);
    forall k | 0 <= k < n
      ensures ForwardN(Identity(n), n)[k] != 1
    {
      DecNCongruent(k + 1, n);
    }
  }

  /** The smallest case: two cards at 1 and 2 reach 5 and 6 after two forward steps. */
  lemma NoDotSelectedWithTwoCards()
    ensures ForwardN([1, 2], 2) == [5, 6]
    ensures Selection(ForwardN([1, 2], 2)) == [false, false]
  {
    assert Forward([1, 2]) == [6, 1];
    assert ForwardN([1, 2], 1) == [6, 1];
    assert Forward([6, 1]) == [5, 6];
    assert FeaturedIndex([5, 6]) == -1;
  }
}
