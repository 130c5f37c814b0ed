/** Per-hand settlement at the end of a round: the ordered chain of cases in
    endRound, the amount returned to the balance and the tag recorded in the
    round history. */
module Payouts {
  import opened Hands

  /** The status recorded for a hand in the history: its own status, or one
      of the outcome names the settlement chain writes over it. */
  datatype Tag =
    | Kept(status: Status)
    | WinDealerBusted
    | Win
    | Loss
    | WinSplitAce21
    | LossDealerBlackjack
    | LossDealerBlackjackVsSplitAce

  /** What one hand settles to: the amount paid back (stake included), the
      history tag, whether it counts as a win for the round summary, and
      whether it rules out the "push on every hand" summary. */
  datatype Settlement = Settlement(payout: real, tag: Tag, won: bool, decisive: bool)

  /** The settlement chain, case by case in the order endRound tests them.
      The dealer's card count only matters to the two dealer-blackjack
      cases, which no hand reaches (see `DeadBranches`). */
  function Settle(h: Hand, dealerScore: int, dealerCards: nat): (s: Settlement)
    ensures s.payout >= 0.0
    ensures h.status == BlackjackWin ==> s.payout == 2.5 * h.bet as real && s.tag == Kept(BlackjackWin) && s.won
    ensures h.status == Busted ==> s.payout == 0.0 && s.tag == Kept(Busted) && !s.won && s.decisive
    ensures h.status == Push ==> s.payout == h.bet as real && s.tag == Kept(Push) && !s.won && !s.decisive
    ensures h.status == Stood && dealerScore > 21 ==>
              s.payout == 2.0 * h.bet as real && s.tag == WinDealerBusted && s.won
    ensures h.status == Stood && dealerScore <= 21 && Score(h) == dealerScore ==>
              s.payout == h.bet as real && s.tag == Kept(Stood) && !s.decisive
    ensures h.status == Stood && dealerScore <= 21 && Score(h) > dealerScore ==>
              s.payout == 2.0 * h.bet as real && s.tag == Win && s.won
    ensures h.status == Stood && dealerScore <= 21 && Score(h) < dealerScore ==>
              s.payout == 0.0 && s.tag == Loss && !s.won && s.decisive
    ensures h.status in {Active, Blackjack} ==> s == Settlement(0.0, Kept(h.status), false, false)
  {
    var bet := h.bet as real;
    var score := Score(h);
    if h.status == BlackjackWin then Settlement(bet + bet * 1.5, Kept(h.status), true, true)
    else if h.status == Busted then Settlement(0.0, Kept(h.status), false, true)
    else if h.status == Push || (h.status == Stood && score == dealerScore && dealerScore <= 21) then
      Settlement(bet, Kept(h.status), false, false)
    else if dealerScore > 21 && h.status == Stood then Settlement(bet * 2.0, WinDealerBusted, true, true)
    else if h.status == Stood && score > dealerScore then Settlement(bet * 2.0, Win, true, true)
    else if h.status == Stood && score < dealerScore && dealerScore <= 21 then Settlement(0.0, Loss, false, true)
    else if h.status == Stood && score == 21 && h.isSplitAceHand && dealerScore != 21 then
      Settlement(bet * 2.0, WinSplitAce21, true, true)
    else if h.status == Stood then
      if dealerScore == 21 && dealerCards == 2 && !h.isSplitAceHand then Settlement(0.0, LossDealerBlackjack, false, true)
      else if dealerScore == 21 && dealerCards == 2 && h.isSplitAceHand then
        Settlement(0.0, LossDealerBlackjackVsSplitAce, false, true)
      else Settlement(0.0, Kept(h.status), false, false)
    else Settlement(0.0, Kept(h.status), false, false)
  }

  /** The split-Ace-21 win and the dealer-blackjack losses are never reached:
      every stood hand is caught by the tie, dealer-bust, higher or lower case
      first. So the dealer's card count never changes a settlement. */
  lemma DeadBranches(h: Hand, dealerScore: int, dealerCards: nat, otherCards: nat)
    ensures Settle(h, dealerScore, dealerCards).tag !in {WinSplitAce21, LossDealerBlackjack, LossDealerBlackjackVsSplitAce}
    ensures Settle(h, dealerScore, dealerCards) == Settle(h, dealerScore, otherCards)
  {
  }

  /** A stood 20 against a two-card dealer 21 is recorded as a plain loss. */
  lemma StoodTwentyAgainstDealerBlackjack(h: Hand)
    requires h.status == Stood && Score(h) == 20
    ensures Settle(h, 21, 2) == Settlement(0.0, Loss, false, true)
  {
  }

  /** A stood 21 reached with more than two cards ties a dealer blackjack. */
  lemma StoodTwentyOneAgainstDealerBlackjack(h: Hand)
    requires h.status == Stood && Score(h) == 21
    ensures Settle(h, 21, 2).payout == h.bet as real && Settle(h, 21, 2).tag == Kept(Stood)
  {
  }

  /** The settlements of all hands against one dealer result. */
  function SettleAll(hands: seq<Hand>, dealerScore: int, dealerCards: nat): (ss: seq<Settlement>)
    ensures |ss| == |hands|
    ensures forall k | 0 <= k < |ss| :: ss[k] == Settle(hands[k], dealerScore, dealerCards)
  {
    seq(|hands|, k requires 0 <= k < |hands| => Settle(hands[k], dealerScore, dealerCards))
  }

  /** The total paid back to the balance. */
  function TotalPayout(ss: seq<Settlement>): real {
    if |ss| == 0 then 0.0 else TotalPayout(ss[..|ss| - 1]) + ss[|ss| - 1].payout
  }

  /** Nothing is ever taken from the balance at settlement, and no hand is
      paid more than two and a half times its bet. */
  lemma {:induction false} TotalPayoutBounds(hands: seq<Hand>, dealerScore: int, dealerCards: nat)
    ensures 0.0 <= TotalPayout(SettleAll(hands, dealerScore, dealerCards)) <= 2.5 * TotalBets(hands) as real
    decreases |hands|
  {
    if |hands| > 0 {
      var init := hands[..|hands| - 1];
      TotalPayoutBounds(init, dealerScore, dealerCards);
      assert SettleAll(hands, dealerScore, dealerCards)[..|hands| - 1] == SettleAll(init, dealerScore, dealerCards);
    }
  }
}
