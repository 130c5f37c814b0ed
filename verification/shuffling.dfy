/** The Fisher-Yates shuffle of the deck. The random index drawn for each
    position is an input: `js[i]` is the index swapped with position `i`. */
module Shuffling {

  /** One pick per position, each within `0..i` as `floor(random * (i + 1))` is. */
  predicate ValidPicks(js: seq<nat>, n: nat) {
    |js| == n && forall i | 0 <= i < n :: js[i] <= i
  }

  /** Exchange the elements at positions `i` and `j`. */
  function Swap<T>(s: seq<T>, i: nat, j: nat): (r: seq<T>)
    requires i < |s| && j < |s|
    ensures |r| == |s|
  {
    s[i := s[j]][j := s[i]]
  }

  lemma SwapPermutes<T>(s: seq<T>, i: nat, j: nat)
    requires i < |s| && j < |s|
    ensures multiset(Swap(s, i, j)) == multiset(s)
  {
  }

  /** The swaps for positions `i`, `i - 1`, ..., `1`, in that order. */
  function ShuffleFrom<T>(s: seq<T>, js: seq<nat>, i: nat): seq<T>
    requires i < |s| && ValidPicks(js, |s|)
    decreases i
  {
    if i == 0 then s else ShuffleFrom(Swap(s, i, js[i]), js, i - 1)
  }

  /** The whole shuffle: positions from the last down to 1. */
  function FisherYates<T>(s: seq<T>, js: seq<nat>): seq<T>
    requires ValidPicks(js, |s|)
  {
    if |s| == 0 then s else ShuffleFrom(s, js, |s| - 1)
  }

  lemma {:induction false} ShuffleFromPermutes<T>(s: seq<T>, js: seq<nat>, i: nat)
    requires i < |s| && ValidPicks(js, |s|)
    ensures |ShuffleFrom(s, js, i)| == |s|
    ensures multiset(ShuffleFrom(s, js, i)) == multiset(s)
    decreases i
  {
    if i > 0 {
      SwapPermutes(s, i, js[i]);
      ShuffleFromPermutes(Swap(s, i, js[i]), js, i - 1);
    }
  }

  /** The shuffle keeps the length and the multiset of cards. */
  lemma FisherYatesPermutes<T>(s: seq<T>, js: seq<nat>)
    requires ValidPicks(js, |s|)
    ensures |FisherYates(s, js)| == |s|
    ensures multiset(FisherYates(s, js)) == multiset(s)
  {
    if |s| > 0 {
      ShuffleFromPermutes(s, js, |s| - 1);
    }
  }

  /** The in-place shuffle over an array, walking `i` from the last index down to 1. */
  method ShuffleDeck<T>(deck: seq<T>, js: seq<nat>) returns (r: seq<T>)
    requires ValidPicks(js, |deck|)
    ensures r == FisherYates(deck, js)
    ensures |r| == |deck|
    ensures multiset(r) == multiset(deck)
  {
    var a := new T[|deck|](k requires 0 <= k < |deck| => deck[k]);
    assert a[..] == deck;
    var i: int := |deck| - 1;
    while i > 0
      invariant -1 <= i < |deck| == a.Length
      invariant i == -1 ==> |deck| == 0
      invariant i >= 0 ==> ShuffleFrom(a[..], js, i) == FisherYates(deck, js)
      invariant multiset(a[..]) == multiset(deck)
    {
      var j := js[i];
      ghost var before := a[..];
      var t := a[i];
      a[i] := a[j];
      a[j] := t;
      assert a[..] == Swap(before, i, j);
      SwapPermutes(before, i, j);
      i := i - 1;
    }
    r := a[..];
  }
}
