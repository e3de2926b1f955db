/** The cyclic position arithmetic of the team carousel. Every card holds a
    position in 1..6; position 1 is the featured slot. A forward step moves
    every card one slot down the cycle, a backward step one slot up. */
module Positions {

  /** Number of slots in the cycle, which is also the most cards the carousel keeps. */
  const Slots: int := 6

  predicate InRange(p: int) {
    1 <= p <= Slots
  }

  /** Positions of a set of cards are well formed: each in 1..6, no two equal. */
  predicate WellFormed(s: seq<int>) {
    && (forall k :: 0 <= k < |s| ==> InRange(s[k]))
    && (forall j, k :: 0 <= j < k < |s| ==> s[j] != s[k])
  }

  /** The positions 1..n in card order, as the carousel assigns them at start-up. */
  function Identity(n: nat): (s: seq<int>)
    requires n <= Slots
    ensures |s| == n && WellFormed(s)
    ensures forall k :: 0 <= k < n ==> s[k] == k + 1
  {
    seq(n, k => k + 1)
  }

  /** A card's position after a forward step: its predecessor in the cycle. */
  function Dec(p: int): (r: int)
    ensures InRange(p) ==> InRange(r) && (r + 1) % Slots == p % Slots
  {
    if p == 1 then Slots else p - 1
  }

  /** A card's position after a backward step: its successor in the cycle. */
  function Inc(p: int): (r: int)
    ensures InRange(p) ==> InRange(r) && r % Slots == (p + 1) % Slots
  {
    if p == Slots then 1 else p + 1
  }

  /** A forward step applied to every card. */
  function Forward(s: seq<int>): seq<int> {
    seq(|s|, k requires 0 <= k < |s| => Dec(s[k]))
  }

  /** A backward step applied to every card. */
  function Backward(s: seq<int>): seq<int> {
    seq(|s|, k requires 0 <= k < |s| => Inc(s[k]))
  }

  /** n successive increments of one position. */
  function IncN(p: int, n: nat): int {
    if n == 0 then p else Inc(IncN(p, n - 1))
  }

  /** n successive decrements of one position. */
  function DecN(p: int, n: nat): int {
    if n == 0 then p else Dec(DecN(p, n - 1))
  }

  /** n successive backward steps of every card. */
  function BackwardN(s: seq<int>, n: nat): seq<int> {
    if n == 0 then s else Backward(BackwardN(s, n - 1))
  }

  /** n successive forward steps of every card. */
  function ForwardN(s: seq<int>, n: nat): seq<int> {
    if n == 0 then s else Forward(ForwardN(s, n - 1))
  }

  /** The number of increments the jump applies to bring a card at t to position 1. */
  function JumpShift(t: int): int {
    (Slots - t + 1) % Slots
  }

  /** The positions after bringing card i to the featured slot: nothing changes
      when it is already there, otherwise every card is incremented JumpShift times. */
  function Jumped(s: seq<int>, i: nat): seq<int>
    requires i < |s|
  {
    if s[i] == 1 then s else BackwardN(s, JumpShift(s[i]))
  }

  // ---- Single positions ----

  /** Two positions in 1..6 that agree modulo 6 are equal. */
  lemma CongruentInRange(a: int, b: int)
    requires InRange(a) && InRange(b) && a % Slots == b % Slots
    ensures a == b
  {
  }

  /** A backward step undoes a forward step and vice versa, on every position in 1..6. */
  lemma IncDecInverse(p: int)
    requires InRange(p)
    ensures Inc(Dec(p)) == p && Dec(Inc(p)) == p
  {
  }

  /** n increments stay in 1..6 and add n modulo 6. */
  lemma {:induction false} IncNCongruent(p: int, n: nat)
    requires InRange(p)
    ensures InRange(IncN(p, n)) && IncN(p, n) % Slots == (p + n) % Slots
  {
    if n > 0 {
      IncNCongruent(p, n - 1);
    }
  }

  /** n decrements stay in 1..6 and subtract n modulo 6. */
  lemma {:induction false} DecNCongruent(p: int, n: nat)
    requires InRange(p)
    ensures InRange(DecN(p, n)) && DecN(p, n) % Slots == (p - n) % Slots
  {
    if n > 0 {
      DecNCongruent(p, n - 1);
      assert (DecN(p, n) + 1) % Slots == DecN(p, n - 1) % Slots;
    }
  }

  // ---- Whole card sets ----

  /** A forward step keeps positions distinct and in 1..6, and moves each p to
      p - 1 with 1 wrapping to 6. */
  lemma ForwardWellFormed(s: seq<int>)
    requires WellFormed(s)
    ensures |Forward(s)| == |s| && WellFormed(Forward(s))
    ensures forall k :: 0 <= k < |s| ==> Forward(s)[k] == (if s[k] == 1 then 6 else s[k] - 1)
  {
  }

  /** A backward step keeps positions distinct and in 1..6, and moves each p to
      p + 1 with 6 wrapping to 1. */
  lemma BackwardWellFormed(s: seq<int>)
    requires WellFormed(s)
    ensures |Backward(s)| == |s| && WellFormed(Backward(s))
    ensures forall k :: 0 <= k < |s| ==> Backward(s)[k] == (if s[k] == 6 then 1 else s[k] + 1)
  {
  }

  /** Forward and backward steps are inverse to each other. */
  lemma StepsInverse(s: seq<int>)
    requires forall k :: 0 <= k < |s| ==> InRange(s[k])
    ensures Backward(Forward(s)) == s
    ensures Forward(Backward(s)) == s
  {
    forall k | 0 <= k < |s|
      ensures Backward(Forward(s))[k] == s[k] && Forward(Backward(s))[k] == s[k]
    {
      IncDecInverse(s[k]);
    }
  }

  /** Any number of backward steps moves every card by the same number of increments. */
  lemma {:induction false} BackwardNAt(s: seq<int>, n: nat)
    ensures |BackwardN(s, n)| == |s|
    ensures forall k :: 0 <= k < |s| ==> BackwardN(s, n)[k] == IncN(s[k], n)
  {
    if n > 0 {
      BackwardNAt(s, n - 1);
    }
  }

  /** Any number of forward steps moves every card by the same number of decrements. */
  lemma {:induction false} ForwardNAt(s: seq<int>, n: nat)
    ensures |ForwardN(s, n)| == |s|
    ensures forall k :: 0 <= k < |s| ==> ForwardN(s, n)[k] == DecN(s[k], n)
  {
    if n > 0 {
      ForwardNAt(s, n - 1);
    }
  }

  /** Any number of forward steps keeps the positions distinct and in 1..6. */
  lemma {:induction false} ForwardNWellFormed(s: seq<int>, n: nat)
    requires WellFormed(s)
    ensures WellFormed(ForwardN(s, n))
  {
    if n > 0 {
      ForwardNWellFormed(s, n - 1);
      ForwardWellFormed(ForwardN(s, n - 1));
    }
  }

  /** Any number of backward steps keeps the positions distinct and in 1..6. */
  lemma {:induction false} BackwardNWellFormed(s: seq<int>, n: nat)
    requires WellFormed(s)
    ensures WellFormed(BackwardN(s, n))
  {
    if n > 0 {
      BackwardNWellFormed(s, n - 1);
      BackwardWellFormed(BackwardN(s, n - 1));
    }
  }

  /** Six forward steps bring every card back to where it started. */
  lemma FullCycle(s: seq<int>)
    requires WellFormed(s)
    ensures ForwardN(s, Slots) == s
  {
    ForwardNAt(s, Slots);
    forall k | 0 <= k < |s|
      ensures ForwardN(s, Slots)[k] == s[k]
    {
      DecNCongruent(s[k], Slots);
      CongruentInRange(DecN(s[k], Slots), s[k]);
    }
  }

  // ---- The jump to the featured slot ----

  /** The jump's shift is 0 exactly for the featured card and otherwise lies in 1..5. */
  lemma JumpShiftBounds(t: int)
    requires InRange(t)
    ensures 0 <= JumpShift(t) < Slots
    ensures JumpShift(t) == 0 <==> t == 1
  {
  }

  /** No smaller number of increments than the jump's shift brings t to position 1. */
  lemma JumpShiftMinimal(t: int, j: nat)
    requires InRange(t) && j < JumpShift(t)
    ensures IncN(t, j) != 1
  {
    IncNCongruent(t, j);
  }

  /** The jump keeps positions well formed, puts card i at position 1, and moves
      every card by the same shift, which is 0 when card i was already featured. */
  lemma JumpFeatures(s: seq<int>, i: nat)
    requires WellFormed(s) && i < |s|
    ensures |Jumped(s, i)| == |s| && WellFormed(Jumped(s, i))
    ensures Jumped(s, i)[i] == 1
    ensures 0 <= JumpShift(s[i]) < Slots && (JumpShift(s[i]) == 0 <==> s[i] == 1)
    ensures forall k :: 0 <= k < |s| ==> Jumped(s, i)[k] == IncN(s[k], JumpShift(s[i]))
  {
    var d := JumpShift(s[i]);
    BackwardNAt(s, d);
    BackwardNWellFormed(s, d);
    IncNCongruent(s[i], d);
    CongruentInRange(IncN(s[i], d), 1);
  }

  /** Adding none or one whole cycle does not change a residue. */
  lemma ShiftByCycle(x: int, c: int)
    requires c == 0 || c == Slots
    ensures (x + c) % Slots == x % Slots
  {
  }

  /** The jump's increments land where s[i] - 1 forward steps would: the jump
      rotates in the backward direction, yet reaches the same arrangement. */
  lemma JumpIsForwardSteps(s: seq<int>, i: nat)
    requires WellFormed(s) && i < |s|
    ensures Jumped(s, i) == ForwardN(s, s[i] - 1)
  {
    var d := JumpShift(s[i]);
    var m := s[i] - 1;
    JumpFeatures(s, i);
    ForwardNAt(s, m);
    assert d + m == 0 || d + m == Slots;
    forall k | 0 <= k < |s|
      ensures Jumped(s, i)[k] == ForwardN(s, m)[k]
    {
      IncNCongruent(s[k], d);
      DecNCongruent(s[k], m);
      ShiftByCycle(s[k] - m, d + m);
      CongruentInRange(IncN(s[k], d), DecN(s[k], m));
    }
  }
}
