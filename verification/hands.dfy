/** A player hand: its cards, its bet and where it stands in the round; and
    the dealer's hole-card reveal. */
module Hands {
  import opened Cards
  import opened Scoring

  /** The status strings a hand takes during a round. */
  datatype Status = Active | Stood | Busted | Blackjack | BlackjackWin | Push

  /** One player hand. Its score is not stored: the program recomputes it from
      the cards after every deal, so it is always `Score(h)`. */
  datatype Hand = Hand(cards: seq<Card>, bet: nat, status: Status, canDouble: bool, isSplitAceHand: bool)

  function Score(h: Hand): int {
    HandScore(h.cards)
  }

  /** Two hands that differ at most in their status. */
  predicate SameExceptStatus(a: Hand, b: Hand) {
    a.cards == b.cards && a.bet == b.bet && a.canDouble == b.canDouble && a.isSplitAceHand == b.isSplitAceHand
  }

  /** The sum of the bets on the table. */
  function TotalBets(hands: seq<Hand>): nat {
    if |hands| == 0 then 0 else TotalBets(hands[..|hands| - 1]) + hands[|hands| - 1].bet
  }

  lemma {:induction false} TotalBetsAppend(a: seq<Hand>, b: seq<Hand>)
    ensures TotalBets(a + b) == TotalBets(a) + TotalBets(b)
    decreases |b|
  {
    if |b| > 0 {
      assert (a + b)[..|a + b| - 1] == a + b[..|b| - 1];
      TotalBetsAppend(a, b[..|b| - 1]);
    } else {
      assert a + b == a;
    }
  }

  /** Replacing one hand changes the total by the difference of the two bets. */
  lemma TotalBetsReplace(hands: seq<Hand>, i: nat, h: Hand)
    requires i < |hands|
    ensures TotalBets(hands[i := h]) + hands[i].bet == TotalBets(hands) + h.bet
  {
    assert hands == hands[..i] + [hands[i]] + hands[i + 1..];
    assert hands[i := h] == hands[..i] + [h] + hands[i + 1..];
    TotalBetsAppend(hands[..i] + [hands[i]], hands[i + 1..]);
    TotalBetsAppend(hands[..i] + [h], hands[i + 1..]);
    TotalBetsAppend(hands[..i], [hands[i]]);
    TotalBetsAppend(hands[..i], [h]);
  }

  /** Hands whose bets agree position by position carry the same total. */
  lemma {:induction false} TotalBetsSame(a: seq<Hand>, b: seq<Hand>)
    requires |a| == |b|
    requires forall k | 0 <= k < |a| :: a[k].bet == b[k].bet
    ensures TotalBets(a) == TotalBets(b)
    decreases |a|
  {
    if |a| > 0 {
      TotalBetsSame(a[..|a| - 1], b[..|b| - 1]);
    }
  }

  /** The index of the first face-down card (`find(card => card.hidden)`),
      or the length when there is none. */
  function FirstHidden(cards: seq<Card>): (k: nat)
    ensures k <= |cards|
    ensures k < |cards| ==> cards[k].hidden
    ensures forall i | 0 <= i < k :: !cards[i].hidden
  {
    if |cards| == 0 then 0 else if cards[0].hidden then 0 else 1 + FirstHidden(cards[1..])
  }

  /** Turn the first face-down card face up, if there is one. */
  function Reveal(cards: seq<Card>): (r: seq<Card>)
    ensures |r| == |cards|
    ensures forall i | 0 <= i < |r| :: Face(r[i]) == Face(cards[i])
    ensures forall i | 0 <= i < |r| && i != FirstHidden(cards) :: r[i] == cards[i]
    ensures forall i | 0 <= i < |r| && i <= FirstHidden(cards) :: !r[i].hidden
  {
    var k := FirstHidden(cards);
    if k < |cards| then cards[k := Face(cards[k])] else cards
  }

  /** With at most one face-down card, the reveal leaves none. */
  lemma RevealShowsAll(cards: seq<Card>)
    requires forall i, j | 0 <= i < j < |cards| :: !(cards[i].hidden && cards[j].hidden)
    ensures forall i | 0 <= i < |Reveal(cards)| :: !Reveal(cards)[i].hidden
  {
  }
}
