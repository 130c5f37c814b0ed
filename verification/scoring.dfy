/** Hand scoring: face-down cards are skipped, every Ace first counts 11, and
    10 is taken off per Ace while the total is over 21. */
module Scoring {
  import opened Cards

  const Bust: int := 21

  /** The sum of the face-up values, Aces counted at their stored 11. */
  function VisibleTotal(cards: seq<Card>): nat {
    if |cards| == 0 then 0
    else VisibleTotal(cards[..|cards| - 1]) + (if cards[|cards| - 1].hidden then 0 else cards[|cards| - 1].value)
  }

  /** The number of face-up Aces. */
  function VisibleAces(cards: seq<Card>): nat {
    if |cards| == 0 then 0
    else VisibleAces(cards[..|cards| - 1]) + (if !cards[|cards| - 1].hidden && cards[|cards| - 1].isAce then 1 else 0)
  }

  /** The lowering loop: while over 21 and an Ace still counts 11, count it 1. */
  function Soften(total: int, aces: nat): (r: int)
    decreases aces
  {
    if total > Bust && aces > 0 then Soften(total - 10, aces - 1) else total
  }

  /** The score of a hand. */
  function HandScore(cards: seq<Card>): int {
    Soften(VisibleTotal(cards), VisibleAces(cards))
  }

  /** The total with every face-up Ace counted 1: no score is below it. */
  function HardTotal(cards: seq<Card>): int {
    VisibleTotal(cards) - 10 * VisibleAces(cards)
  }

  /** `k` Aces lowered from 11 to 1 is the least number that brings `total`
      to 21 or below, or every Ace when no number does. */
  predicate LeastLowering(total: int, aces: nat, k: nat) {
    && k <= aces
    && (total - 10 * k <= Bust || k == aces)
    && (k == 0 || total - 10 * (k - 1) > Bust)
  }

  lemma {:induction false} SoftenLowersLeast(total: int, aces: nat)
    ensures Soften(total, aces) <= total
    ensures LeastLowering(total, aces, (total - Soften(total, aces)) / 10)
    ensures Soften(total, aces) == total - 10 * ((total - Soften(total, aces)) / 10)
    decreases aces
  {
    if total > Bust && aces > 0 {
      SoftenLowersLeast(total - 10, aces - 1);
    }
  }

  lemma LeastLoweringUnique(total: int, aces: nat, k: nat, k': nat)
    requires LeastLowering(total, aces, k) && LeastLowering(total, aces, k')
    ensures k == k'
  {
  }

  /** `t` is the visible total of `cards` with exactly `k` Aces lowered, `k`
      being the least lowering. */
  predicate LoweredBy(cards: seq<Card>, k: nat, t: int) {
    LeastLowering(VisibleTotal(cards), VisibleAces(cards), k) && t == VisibleTotal(cards) - 10 * k
  }

  /** The score is the total less 10 for each of the least number of Aces whose
      lowering brings it to 21 or below (or all of them): both directions. */
  lemma ScoreIsLeastLowering(cards: seq<Card>, t: int)
    ensures t == HandScore(cards) <==> exists k: nat :: LoweredBy(cards, k, t)
  {
    var total, aces := VisibleTotal(cards), VisibleAces(cards);
    SoftenLowersLeast(total, aces);
    var k0: nat := (total - Soften(total, aces)) / 10;
    assert LoweredBy(cards, k0, HandScore(cards));
    forall k: nat | LoweredBy(cards, k, t)
      ensures t == HandScore(cards)
    {
      LeastLoweringUnique(total, aces, k, k0);
    }
  }

  lemma {:induction false} SoftenBounds(total: int, aces: nat)
    ensures total - 10 * aces <= Soften(total, aces) <= total
    ensures Soften(total, aces) > Bust ==> Soften(total, aces) == total - 10 * aces
    decreases aces
  {
    if total > Bust && aces > 0 {
      SoftenBounds(total - 10, aces - 1);
    }
  }

  /** A score never drops below the all-Aces-low total, and a score over 21
      means every Ace is already counted 1. */
  lemma ScoreBounds(cards: seq<Card>)
    ensures HardTotal(cards) <= HandScore(cards) <= VisibleTotal(cards)
    ensures HandScore(cards) > Bust ==> HandScore(cards) == HardTotal(cards)
  {
    SoftenBounds(VisibleTotal(cards), VisibleAces(cards));
  }

  /** Adding one card changes the sums by that card alone. */
  lemma AppendCard(cards: seq<Card>, c: Card)
    ensures VisibleTotal(cards + [c]) == VisibleTotal(cards) + (if c.hidden then 0 else c.value)
    ensures VisibleAces(cards + [c]) == VisibleAces(cards) + (if !c.hidden && c.isAce then 1 else 0)
  {
    assert (cards + [c])[..|cards|] == cards;
  }

  /** The sums of a face-up hand of two or three cards. */
  lemma ThreeCardSums(a: Card, b: Card, c: Card)
    requires !a.hidden && !b.hidden && !c.hidden
    ensures VisibleTotal([a, b]) == a.value + b.value
    ensures VisibleAces([a, b]) == (if a.isAce then 1 else 0) + (if b.isAce then 1 else 0)
    ensures VisibleTotal([a, b, c]) == a.value + b.value + c.value
    ensures VisibleAces([a, b, c]) == (if a.isAce then 1 else 0) + (if b.isAce then 1 else 0) + (if c.isAce then 1 else 0)
  {
    AppendCard([], a);
    AppendCard([a], b);
    AppendCard([a, b], c);
    assert [] + [a] == [a] && [a] + [b] == [a, b] && [a, b] + [c] == [a, b, c];
  }

  /** Worked cases: two Aces and a nine lower one Ace and make 21; an Ace and
      a six make a soft 17; King, Queen and five bust at 25. */
  lemma ScoreExamples()
    ensures HandScore([MakeCard(Spades, Ace), MakeCard(Hearts, Ace), MakeCard(Clubs, Pip(9))]) == 21
    ensures HandScore([MakeCard(Spades, Ace), MakeCard(Hearts, Pip(6))]) == 17
    ensures HandScore([MakeCard(Spades, King), MakeCard(Hearts, Queen), MakeCard(Clubs, Pip(5))]) == 25
  {
    ThreeCardSums(MakeCard(Spades, Ace), MakeCard(Hearts, Ace), MakeCard(Clubs, Pip(9)));
    ThreeCardSums(MakeCard(Spades, Ace), MakeCard(Hearts, Pip(6)), MakeCard(Clubs, Pip(9)));
    ThreeCardSums(MakeCard(Spades, King), MakeCard(Hearts, Queen), MakeCard(Clubs, Pip(5)));
  }

  /** Adding a well-formed face-up card raises the all-Aces-low total by at least 1. */
  lemma HardTotalGrows(cards: seq<Card>, c: Card)
    requires WellFormed(c) && !c.hidden
    ensures HardTotal(cards + [c]) >= HardTotal(cards) + 1
  {
    AppendCard(cards, c);
  }

  /** The face-up cards of a hand, in order. */
  function Visible(cards: seq<Card>): (r: seq<Card>)
    ensures forall i | 0 <= i < |r| :: !r[i].hidden
    ensures forall c :: c in r <==> c in cards && !c.hidden
    ensures multiset(r) <= multiset(cards)
    ensures |r| <= |cards|
  {
    if |cards| == 0 then []
    else
      var init, last := cards[..|cards| - 1], cards[|cards| - 1];
      assert cards == init + [last];
      if last.hidden then Visible(init) else Visible(init) + [last]
  }

  /** Face-down cards play no part in the score. */
  lemma {:induction false} ScoreIgnoresHidden(cards: seq<Card>)
    ensures VisibleTotal(Visible(cards)) == VisibleTotal(cards)
    ensures VisibleAces(Visible(cards)) == VisibleAces(cards)
    ensures HandScore(Visible(cards)) == HandScore(cards)
  {
    if |cards| > 0 {
      var init := cards[..|cards| - 1];
      var last := cards[|cards| - 1];
      ScoreIgnoresHidden(init);
      if !last.hidden {
        AppendCard(Visible(init), last);
      }
    }
  }

  /** The score computed as the program computes it: one pass over the cards,
      then the lowering loop. */
  method CalculateHandScore(cards: seq<Card>) returns (score: int)
    ensures score == HandScore(cards)
    ensures exists k: nat :: LoweredBy(cards, k, score)
  {
    score := 0;
    var aceCount: int := 0;
    var n := 0;
    while n < |cards|
      invariant 0 <= n <= |cards|
      invariant score == VisibleTotal(cards[..n])
      invariant aceCount == VisibleAces(cards[..n])
    {
      assert cards[..n + 1][..n] == cards[..n];
      if !cards[n].hidden {
        score := score + cards[n].value;
        if cards[n].isAce {
          aceCount := aceCount + 1;
        }
      }
      n := n + 1;
    }
    assert cards[..n] == cards;
    while score > Bust && aceCount > 0
      invariant 0 <= aceCount
      invariant Soften(score, aceCount) == HandScore(cards)
    {
      score := score - 10;
      aceCount := aceCount - 1;
    }
    ScoreIsLeastLowering(cards, score);
  }
}
