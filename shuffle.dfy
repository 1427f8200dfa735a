/**
  Kotlin's `CharArray.shuffle()`: for i from the last index down to 1, draw
  j = nextInt(i + 1) and swap the characters at i and j. The random source is an
  oracle: `draws[i]` is the draw made at step i, read as `draws[i] % (i + 1)`
  (so `draws[0]` is never used). Uniformity is not modelled.
 */
module Shuffling {

  /** The index that `Random.nextInt(i + 1)` returns at step i of a shuffle. */
  function Choice(draws: seq<nat>, i: nat): (j: nat)
    requires i < |draws|
    ensures j <= i
  {
    draws[i] % (i + 1)
  }

  function Swap(s: seq<char>, i: nat, j: nat): (t: seq<char>)
    requires i < |s| && j < |s|
    ensures |t| == |s|
  {
    s[i := s[j]][j := s[i]]
  }

  /** Steps i, i - 1, ..., 1 of the shuffle, applied to s. */
  function ShuffleSteps(s: seq<char>, draws: seq<nat>, i: nat): (t: seq<char>)
    requires i < |s| <= |draws|
    ensures |t| == |s|
    decreases i
  {
    if i == 0 then s else ShuffleSteps(Swap(s, i, Choice(draws, i)), draws, i - 1)
  }

  /** The whole shuffle of s under one round of draws. */
  function Shuffled(s: seq<char>, draws: seq<nat>): (t: seq<char>)
    requires |draws| == |s|
    ensures |t| == |s|
    ensures |s| <= 1 ==> t == s
  {
    if |s| == 0 then s else ShuffleSteps(s, draws, |s| - 1)
  }

  lemma SwapIsPermutation(s: seq<char>, i: nat, j: nat)
    requires i < |s| && j < |s|
    ensures multiset(Swap(s, i, j)) == multiset(s)
  {
  }

  lemma {:induction false} ShuffleStepsArePermutation(s: seq<char>, draws: seq<nat>, i: nat)
    requires i < |s| <= |draws|
    ensures multiset(ShuffleSteps(s, draws, i)) == multiset(s)
    decreases i
  {
    if i > 0 {
      SwapIsPermutation(s, i, Choice(draws, i));
      ShuffleStepsArePermutation(Swap(s, i, Choice(draws, i)), draws, i - 1);
    }
  }

  /** A shuffle only rearranges: same length, same characters with the same counts. */
  lemma ShuffledIsPermutation(s: seq<char>, draws: seq<nat>)
    requires |draws| == |s|
    ensures |Shuffled(s, draws)| == |s|
    ensures multiset(Shuffled(s, draws)) == multiset(s)
  {
    if |s| > 0 {
      ShuffleStepsArePermutation(s, draws, |s| - 1);
    }
  }

  /** The in-place shuffle of the character array. */
  method Shuffle(a: array<char>, draws: seq<nat>)
    requires |draws| == a.Length
    modifies a
    ensures a[..] == Shuffled(old(a[..]), draws)
  {
    if a.Length == 0 {
      return;
    }
    var i := a.Length - 1;
    while i > 0
      invariant 0 <= i < a.Length
      invariant ShuffleSteps(a[..], draws, i) == Shuffled(old(a[..]), draws)
    {
      ghost var before := a[..];
      var j := Choice(draws, i);
      var copy := a[i];
      a[i] := a[j];
      a[j] := copy;
      assert a[..] == Swap(before, i, j);
      i := i - 1;
    }
  }

  /** A word has at least two different characters. */
  predicate TwoDistinct(w: string)
  {
    exists i, j :: 0 <= i < |w| && 0 <= j < |w| && w[i] != w[j]
  }

  /**
    A word whose characters are all the same has no other arrangement: every
    string with its characters is the word itself.
   */
  lemma {:induction false} OnlyArrangement(w: string, t: string)
    requires !TwoDistinct(w)
    requires multiset(t) == multiset(w)
    ensures t == w
  {
    assert |t| == |multiset(t)| == |w|;
    forall k | 0 <= k < |t|
      ensures t[k] == w[k]
    {
      assert t[k] in multiset(w);
      var m :| 0 <= m < |w| && w[m] == t[k];
    }
  }

  /** So only a word with two different characters can be moved by a shuffle. */
  lemma ShuffleMovesOnlyTwoDistinct(w: string, draws: seq<nat>)
    requires |draws| == |w|
    requires Shuffled(w, draws) != w
    ensures TwoDistinct(w)
  {
    if !TwoDistinct(w) {
      ShuffledIsPermutation(w, draws);
      OnlyArrangement(w, Shuffled(w, draws));
    }
  }

  /** Steps whose draws pick their own index swap nothing. */
  lemma {:induction false} IdleSteps(s: seq<char>, draws: seq<nat>, i: nat)
    requires i < |s| <= |draws|
    requires forall k :: 0 < k <= i ==> Choice(draws, k) == k
    ensures ShuffleSteps(s, draws, i) == s
    decreases i
  {
    if i > 0 {
      assert Swap(s, i, i) == s;
      IdleSteps(s, draws, i - 1);
    }
  }

  /** Idle steps above `low` leave all the work to steps low, ..., 1. */
  lemma {:induction false} IdleStepsAbove(s: seq<char>, draws: seq<nat>, i: nat, low: nat)
    requires low <= i < |s| <= |draws|
    requires forall k :: low < k <= i ==> Choice(draws, k) == k
    ensures ShuffleSteps(s, draws, i) == ShuffleSteps(s, draws, low)
    decreases i
  {
    if i > low {
      assert Swap(s, i, i) == s;
      IdleStepsAbove(s, draws, i - 1, low);
    }
  }

  lemma SmallRemainder(a: nat, b: nat)
    requires a < b
    ensures a % b == a
  {
  }

  /**
    Conversely, every word with two different characters has some round of draws
    whose shuffle differs from it: the one that swaps just those two positions.
   */
  lemma ShuffleCanMove(w: string)
    requires TwoDistinct(w)
    ensures exists draws: seq<nat> :: |draws| == |w| && Shuffled(w, draws) != w
  {
    var i, j :| 0 <= i < |w| && 0 <= j < |w| && w[i] != w[j];
    var lo, hi := if i < j then i else j, if i < j then j else i;
    var draws := seq(|w|, k requires 0 <= k < |w| => if k == hi then lo else k);
    forall k | 0 < k < |w| && k != hi
      ensures Choice(draws, k) == k
    {
      SmallRemainder(draws[k], k + 1);
    }
    assert draws[hi] == lo;
    SmallRemainder(draws[hi], hi + 1);
    SingleSwap(w, draws, lo, hi);
    assert Shuffled(w, draws)[hi] == w[lo];
  }

  /** A round whose only working step is step hi, drawing lo, swaps positions lo and hi. */
  lemma SingleSwap(w: string, draws: seq<nat>, lo: nat, hi: nat)
    requires lo < hi < |w| == |draws|
    requires Choice(draws, hi) == lo
    requires forall k :: 0 < k < |w| && k != hi ==> Choice(draws, k) == k
    ensures Shuffled(w, draws) == Swap(w, hi, lo)
  {
    IdleStepsAbove(w, draws, |w| - 1, hi);
    IdleSteps(Swap(w, hi, lo), draws, hi - 1);
  }
}
