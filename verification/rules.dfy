/** What the round state machine does, stated against the rules of the
    game: the opening deal, each player action, moving from hand to hand,
    the dealer's drawing rule and the settlement at the end of a round. */
module Rules {
  import opened Cards
  import opened Scoring
  import opened Shoes
  import opened Hands
  import opened Payouts
  import opened History
  import opened Engine

  // ---------------------------------------------------------------------
  // Start of a round

  /** A bet that is not a positive number within the balance changes nothing. */
  lemma StartGameRejects(g: Game, bet: BetInput, random: Random)
    requires !ValidBet(g.balance, bet)
    ensures StartGame(g, bet, random) == g
  {
  }

  /** A deal from a non-empty pile to a player hand puts the pile's last card,
      face up, on the end of that hand. */
  lemma DealToHandTop(g: Game, i: nat, random: Random)
    requires i < |g.hands| && |g.shoe.cards| > 0
    ensures var n := |g.shoe.cards|;
            var r := DealToHand(g, i, random);
            && r.shoe == Shoe(g.shoe.cards[..n - 1], g.shoe.entropyUsed)
            && r.hands == g.hands[i := g.hands[i].(cards := g.hands[i].cards + [Face(g.shoe.cards[n - 1])])]
            && r == g.(shoe := r.shoe, hands := r.hands)
  {
  }

  /** A deal from a non-empty pile to the dealer puts the pile's last card on
      the end of the dealer's cards, face down when asked. */
  lemma DealToDealerTop(g: Game, hidden: bool, random: Random)
    requires |g.shoe.cards| > 0
    ensures var n := |g.shoe.cards|;
            var r := DealToDealer(g, hidden, random);
            && r.shoe == Shoe(g.shoe.cards[..n - 1], g.shoe.entropyUsed)
            && r.dealer == g.dealer + [g.shoe.cards[n - 1].(hidden := hidden)]
            && r == g.(shoe := r.shoe, dealer := r.dealer)
  {
  }

  /** A player card then a dealer card (face down when asked) from a pile of
      at least two face-up cards: the last card to the only hand, the one
      before it to the dealer. */
  lemma DealPair(s: Game, hidden: bool, random: Random)
    requires |s.hands| == 1 && |s.shoe.cards| >= 2
    requires !s.shoe.cards[|s.shoe.cards| - 1].hidden
    ensures var c := s.shoe.cards;
            var n := |c|;
            var r := DealToDealer(DealToHand(s, 0, random), hidden, random);
            && r.hands == [s.hands[0].(cards := s.hands[0].cards + [c[n - 1]])]
            && r.dealer == s.dealer + [c[n - 2].(hidden := hidden)]
            && r.shoe == Shoe(c[..n - 2], s.shoe.entropyUsed)
            && r == s.(shoe := r.shoe, hands := r.hands, dealer := r.dealer)
  {
    var c := s.shoe.cards;
    var n := |c|;
    assert Face(c[n - 1]) == c[n - 1];
    DealToHandTop(s, 0, random);
    var s1 := DealToHand(s, 0, random);
    assert s1.shoe.cards == c[..n - 1];
    DealToDealerTop(s1, hidden, random);
  }

  /** The four opening deals from a pile of at least four face-up cards. */
  lemma InitialDealOrder(s: Game, random: Random)
    requires |s.hands| == 1 && s.hands[0].cards == [] && s.dealer == []
    requires |s.shoe.cards| >= 4
    requires var c := s.shoe.cards; !c[|c| - 1].hidden && !c[|c| - 3].hidden && !c[|c| - 4].hidden
    ensures var c := s.shoe.cards;
            var n := |c|;
            var r := InitialDeal(s, random);
            && r.hands == [s.hands[0].(cards := [c[n - 1], c[n - 3]])]
            && r.dealer == [c[n - 2].(hidden := true), c[n - 4]]
            && r.shoe == Shoe(c[..n - 4], s.shoe.entropyUsed)
            && r == s.(shoe := r.shoe, hands := r.hands, dealer := r.dealer)
  {
    var c := s.shoe.cards;
    var n := |c|;
    DealPair(s, true, random);
    var s2 := DealToDealer(DealToHand(s, 0, random), true, random);
    assert s2.shoe.cards == c[..n - 2];
    DealPair(s2, false, random);
    assert c[n - 4].(hidden := false) == c[n - 4];
    assert s.hands[0].cards + [c[n - 1]] + [c[n - 3]] == [c[n - 1], c[n - 3]];
    assert [] + [c[n - 2].(hidden := true)] + [c[n - 4]] == [c[n - 2].(hidden := true), c[n - 4]];
  }

  /** The opening deal takes cards from the end of the freshly shuffled deck
      in the order player, dealer (face down), player, dealer, and the bet
      leaves the balance. */
  lemma OpenRoundDeal(g: Game, bet: nat, deck: Shoe, random: Random)
    requires WellFormedShoe(deck) && |deck.cards| == DeckSize
    requires forall k | 0 <= k < |deck.cards| :: !deck.cards[k].hidden
    ensures var c := deck.cards;
            var r := OpenRound(g, bet, deck, random);
            && r.balance == g.balance - bet as real
            && r.inProgress && r.current == 0 && r.history == g.history
            && r.hands == [Hand([c[51], c[49]], bet, Active, true, false)]
            && r.dealer == [c[50].(hidden := true), c[48]]
            && r.shoe == Shoe(c[..48], deck.entropyUsed)
  {
    var s0 := g.(
      balance := g.balance - bet as real,
      inProgress := true,
      current := 0,
      hands := [Hand([], bet, Active, true, false)],
      dealer := [],
      shoe := deck);
    InitialDealOrder(s0, random);
  }

  // ---------------------------------------------------------------------
  // End of a round

  /** Every card face up. */
  predicate FaceUp(cards: seq<Card>) {
    forall k | 0 <= k < |cards| :: !cards[k].hidden
  }

  /** At most the first card (the dealer's hole card) is face down. */
  predicate HoleCardOnly(cards: seq<Card>) {
    forall k | 0 < k < |cards| :: !cards[k].hidden
  }

  lemma RevealHoleCard(cards: seq<Card>)
    requires HoleCardOnly(cards)
    ensures FaceUp(Reveal(cards))
    ensures forall k | 0 <= k < |cards| :: Reveal(cards)[k] == Face(cards[k])
  {
    RevealShowsAll(cards);
  }

  /** endRound stops the round, turns the hole card up, pays every hand its
      settlement against the dealer's final cards (never less than nothing,
      never more than two and a half times the bets), and puts the round at
      the front of the history; hands, pile and turn are left as they are. */
  lemma EndRoundSettles(g: Game, reason: RoundResult)
    ensures var r := EndRound(g, reason);
            && !r.inProgress
            && r == g.(inProgress := false, dealer := r.dealer, balance := r.balance, history := r.history)
            && |r.dealer| == |g.dealer|
            && (forall k | 0 <= k < |r.dealer| :: Face(r.dealer[k]) == Face(g.dealer[k]))
            && (HoleCardOnly(g.dealer) ==> FaceUp(r.dealer))
            && r.balance == g.balance + RoundPayout(r)
            && g.balance <= r.balance <= g.balance + 2.5 * TotalBets(g.hands) as real
            && r.history == AddRoundToHistory(g.history, RoundEntry(g.hands, r.dealer, reason))
  {
    var r := EndRound(g, reason);
    TotalPayoutBounds(g.hands, HandScore(r.dealer), |r.dealer|);
    if HoleCardOnly(g.dealer) {
      RevealHoleCard(g.dealer);
    }
  }

  /** checkBlackjack on an opening natural: the round ends, a push when the
      dealer also holds a two-card 21 (the bet comes back), otherwise a
      blackjack win paying three to two (the bet and one and a half times it
      come back). */
  lemma NaturalSettles(g: Game)
    requires |g.hands| == 1 && NaturalBlackjack(g.hands[0])
    requires |g.dealer| == 2 && HoleCardOnly(g.dealer)
    ensures var r := CheckBlackjack(g);
            var both := DealerNatural([Face(g.dealer[0]), g.dealer[1]]);
            var bet := g.hands[0].bet as real;
            var hands := [g.hands[0].(status := if both then Push else BlackjackWin)];
            var dealer := [Face(g.dealer[0]), g.dealer[1]];
            && r == g.(inProgress := false, dealer := dealer, hands := hands, balance := r.balance, history := r.history)
            && r.balance == g.balance + (if both then bet else 2.5 * bet)
            && r.history == AddRoundToHistory(g.history, RoundEntry(hands, dealer, if both then BothBlackjack else PlayerBlackjack))
  {
    var shown := g.(dealer := Reveal(g.dealer));
    RevealHoleCard(g.dealer);
    assert shown.dealer == [Face(g.dealer[0]), g.dealer[1]];
    var both := DealerNatural(shown.dealer);
    var s := SetStatus(shown, 0, if both then Push else BlackjackWin);
    RevealHoleCard(s.dealer);
    assert Reveal(s.dealer) == s.dealer;
    var ss := SettleAll(s.hands, HandScore(s.dealer), 2);
    assert TotalPayout(ss) == ss[0].payout by {
      assert ss[..0] == [];
    }
  }

  /** An accepted bet on a full face-up deck: without a natural the round
      waits on the first hand with the dealer's first card face down;
      with a player natural the hole card is turned and the round is over,
      a push when the dealer also holds a natural and a 3:2 win otherwise. */
  lemma BeginRoundDeal(g: Game, bet: nat, deck: Shoe, random: Random)
    requires WellFormedShoe(deck) && |deck.cards| == DeckSize && FaceUp(deck.cards)
    ensures var c := deck.cards;
            var h := Hand([c[51], c[49]], bet, Active, true, false);
            var both := DealerNatural([c[50], c[48]]);
            var r := BeginRound(g, bet, deck, random);
            && r.current == 0 && r.shoe == Shoe(c[..48], deck.entropyUsed)
            && (Score(h) != 21 ==>
                  && r.inProgress && r.hands == [h]
                  && r.dealer == [c[50].(hidden := true), c[48]]
                  && r.balance == g.balance - bet as real && r.history == g.history)
            && (Score(h) == 21 ==>
                  && !r.inProgress
                  && r.hands == [h.(status := if both then Push else BlackjackWin)]
                  && r.dealer == [c[50], c[48]]
                  && r.balance == g.balance - bet as real + (if both then bet as real else 2.5 * bet as real)
                  && r.history == AddRoundToHistory(g.history, RoundEntry(r.hands, r.dealer, if both then BothBlackjack else PlayerBlackjack)))
  {
    OpenRoundDeal(g, bet, deck, random);
    var c := deck.cards;
    var o := OpenRound(g, bet, deck, random);
    assert !c[48].hidden && !c[50].hidden;
    assert Face(c[50].(hidden := true)) == c[50];
    var h := o.hands[0];
    if Score(h) == 21 {
      NaturalSettles(SetStatus(o, 0, Blackjack));
    }
  }

  /** startGame with a valid bet: the round is dealt from a fresh shuffled
      deck as BeginRoundDeal describes. */
  lemma StartGameAccepts(g: Game, bet: BetInput, random: Random)
    requires ValidBet(g.balance, bet)
    ensures var c := FreshShoe(random, g.shoe.entropyUsed).cards;
            var h := Hand([c[51], c[49]], bet.n, Active, true, false);
            var both := DealerNatural([c[50], c[48]]);
            var r := StartGame(g, bet, random);
            && r.current == 0
            && (Score(h) != 21 ==>
                  && r.inProgress && r.hands == [h]
                  && r.dealer == [c[50].(hidden := true), c[48]]
                  && r.balance == g.balance - bet.n as real)
            && (Score(h) == 21 ==>
                  && !r.inProgress
                  && r.hands == [h.(status := if both then Push else BlackjackWin)]
                  && r.dealer == [c[50], c[48]]
                  && r.balance == g.balance - bet.n as real + (if both then bet.n as real else 2.5 * bet.n as real))
  {
    BeginRoundDeal(g, bet.n, FreshShoe(random, g.shoe.entropyUsed), random);
  }

  // ---------------------------------------------------------------------
  // The dealer

  /** `d` is `a` followed by face-up cards, each drawn while the score of
      the cards before it was under 17. */
  predicate DrawnBelowSeventeen(a: seq<Card>, d: seq<Card>) {
    && |d| >= |a| && d[..|a|] == a
    && forall k | |a| <= k < |d| :: HandScore(d[..k]) < DealerStandsAt && !d[k].hidden
  }

  lemma DrawnBelowSeventeenCons(a: seq<Card>, c: Card, d: seq<Card>)
    requires HandScore(a) < DealerStandsAt && !c.hidden
    requires DrawnBelowSeventeen(a + [c], d)
    ensures DrawnBelowSeventeen(a, d)
  {
    var n := |a|;
    assert d[..n] == d[..n + 1][..n];
    assert d[n] == d[..n + 1][n];
  }

  /** The dealer's loop ends at 17 or more, only ever adds face-up cards to
      the end, draws each of them while the score is under 17, and draws
      nothing on 17 or more (a soft 17 included). Nothing but the pile and the
      dealer's cards changes. */
  lemma {:induction false} DealerDrawSpec(g: Game, random: Random)
    requires WellFormedShoe(g.shoe)
    ensures var r := DealerDraw(g, random);
            && HandScore(r.dealer) >= DealerStandsAt
            && DrawnBelowSeventeen(g.dealer, r.dealer)
            && (HandScore(g.dealer) >= DealerStandsAt ==> r == g)
            && r == g.(shoe := r.shoe, dealer := r.dealer)
    decreases DealerStandsAt - HardTotal(g.dealer)
  {
    if HandScore(g.dealer) < DealerStandsAt {
      var c := DealtCard(g.shoe, random, false);
      var next := DealToDealer(g, false, random);
      ScoreBounds(g.dealer);
      HardTotalGrows(g.dealer, c);
      DealerDrawSpec(next, random);
      DrawnBelowSeventeenCons(g.dealer, c, DealerDraw(next, random).dealer);
    } else {
      assert g.dealer[..|g.dealer|] == g.dealer;
    }
  }

  lemma RevealFaceUp(cards: seq<Card>)
    requires FaceUp(cards)
    ensures Reveal(cards) == cards
  {
    assert FirstHidden(cards) == |cards|;
  }

  /** dealerTurn: the dealer draws to 17 or more, then the round ends with the
      dealer standing or busted; every dealer card ends face up. */
  lemma DealerTurnSpec(g: Game, random: Random)
    requires WellFormedShoe(g.shoe) && FaceUp(g.dealer)
    ensures var r := DealerTurn(g, random);
            var final := HandScore(r.dealer);
            && !r.inProgress && r.hands == g.hands && r.current == g.current
            && FaceUp(r.dealer) && final >= DealerStandsAt
            && |r.dealer| >= |g.dealer| && r.dealer[..|g.dealer|] == g.dealer
            && r.balance == g.balance + RoundPayout(r)
            && r.history == AddRoundToHistory(g.history, RoundEntry(g.hands, r.dealer, DealerResult(final)))
  {
    var drawn := DealerDraw(g, random);
    DealerDrawSpec(g, random);
    var n := |g.dealer|;
    forall k | 0 <= k < |drawn.dealer|
      ensures !drawn.dealer[k].hidden
    {
      if k < n {
        assert drawn.dealer[k] == drawn.dealer[..n][k];
      }
    }
    RevealFaceUp(drawn.dealer);
    EndRoundSettles(drawn, DealerResult(HandScore(drawn.dealer)));
  }

  /** Concluding ends the round and leaves the hands and the turn alone. */
  lemma ConcludeFrame(g: Game, random: Random)
    requires WellFormedShoe(g.shoe)
    ensures var r := Conclude(g, random);
            !r.inProgress && r.hands == g.hands && r.current == g.current
  {
    if AnyHandInPlay(g.hands) && !DealerNatural(Reveal(g.dealer)) {
      DealerDrawSpec(g.(dealer := Reveal(g.dealer)), random);
    }
  }

  /** Concluding pays the hands their settlement against the dealer's final
      cards. */
  lemma ConcludePays(g: Game, random: Random)
    requires WellFormedShoe(g.shoe)
    ensures var r := Conclude(g, random);
            r.balance == g.balance + RoundPayout(r)
  {
    var shown := g.(dealer := Reveal(g.dealer));
    if !AnyHandInPlay(g.hands) {
      EndRoundSettles(g, AllBusted);
    } else if DealerNatural(shown.dealer) {
      EndRoundSettles(shown, DealerBlackjack);
    } else {
      DealerDrawSpec(shown, random);
      var drawn := DealerDraw(shown, random);
      EndRoundSettles(drawn, DealerResult(HandScore(drawn.dealer)));
    }
  }

  /** Once no hand is left to play the round is over: the hands are paid
      against the dealer's final cards, all of them face up, which begin with
      the revealed opening two. */
  lemma ConcludeEnds(g: Game, random: Random)
    requires WellFormedShoe(g.shoe) && HoleCardOnly(g.dealer)
    ensures var r := Conclude(g, random);
            && !r.inProgress && r.hands == g.hands && r.current == g.current
            && FaceUp(r.dealer) && |r.dealer| >= |g.dealer| && r.dealer[..|g.dealer|] == Reveal(g.dealer)
            && r.balance == g.balance + RoundPayout(r)
            && |r.history| > 0 && r.history == AddRoundToHistory(g.history, r.history[0])
  {
    var shown := Reveal(g.dealer);
    RevealHoleCard(g.dealer);
    assert shown[..|g.dealer|] == shown;
    if !AnyHandInPlay(g.hands) {
      EndRoundSettles(g, AllBusted);
    } else {
      RevealFaceUp(shown);
      var s := g.(dealer := shown);
      if DealerNatural(shown) {
        EndRoundSettles(s, DealerBlackjack);
      } else {
        DealerTurnSpec(s, random);
      }
    }
  }

  /** With every hand lost the round ends at once, the hole card turned up
      and nothing drawn. */
  lemma ConcludeAllLost(g: Game, random: Random)
    requires WellFormedShoe(g.shoe) && !AnyHandInPlay(g.hands)
    ensures var r := Conclude(g, random);
            && r.dealer == Reveal(g.dealer)
            && r.history == AddRoundToHistory(g.history, RoundEntry(g.hands, r.dealer, AllBusted))
  {
    EndRoundSettles(g, AllBusted);
  }

  /** Otherwise the hole card is turned up and a dealer two-card 21 ends the
      round with nothing drawn. */
  lemma ConcludeDealerNatural(g: Game, random: Random)
    requires WellFormedShoe(g.shoe) && HoleCardOnly(g.dealer)
    requires AnyHandInPlay(g.hands) && DealerNatural(Reveal(g.dealer))
    ensures var r := Conclude(g, random);
            && r.dealer == Reveal(g.dealer)
            && r.history == AddRoundToHistory(g.history, RoundEntry(g.hands, r.dealer, DealerBlackjack))
  {
    RevealHoleCard(g.dealer);
    RevealFaceUp(Reveal(g.dealer));
    EndRoundSettles(g.(dealer := Reveal(g.dealer)), DealerBlackjack);
  }

  /** And anything else lets the dealer draw to 17 or more. */
  lemma ConcludeDealerPlays(g: Game, random: Random)
    requires WellFormedShoe(g.shoe) && HoleCardOnly(g.dealer)
    requires AnyHandInPlay(g.hands) && !DealerNatural(Reveal(g.dealer))
    ensures var r := Conclude(g, random);
            && HandScore(r.dealer) >= DealerStandsAt
            && r.history == AddRoundToHistory(g.history, RoundEntry(g.hands, r.dealer, DealerResult(HandScore(r.dealer))))
  {
    RevealHoleCard(g.dealer);
    DealerTurnSpec(g.(dealer := Reveal(g.dealer)), random);
  }

  // ---------------------------------------------------------------------
  // Moving on from a finished hand

  /** A hand the turn moved past: it was not active, or it was a two-card
      split-Ace hand made to stand on the way. */
  predicate Passed(before: Hand, after: Hand) {
    && after.status != Active
    && (after == before || (ForcedStand(before) && after == before.(status := Stood)))
  }

  /** One step of nextHandOrDealerTurn: the hand at the turn is made to stand
      if it is a two-card split-Ace hand, and the turn moves to the next hand. */
  function StepOn(g: Game): (r: Game)
    requires OnTurn(g)
  {
    var i := g.current;
    var g1 := if ForcedStand(g.hands[i]) then SetStatus(g, i, Stood) else g;
    g1.(current := i + 1)
  }

  /** How the hands of `r` stand to those of `g` after the turn moved on from
      `g.current` to `r.current`: only statuses changed, the hands before the
      old turn and from the new turn onward are as they were, the old hand
      went through `StepOn`, and every hand in between was passed. */
  predicate MovedOn(g: Game, r: Game)
    requires OnTurn(g)
  {
    && |r.hands| == |g.hands|
    && g.current < r.current <= |g.hands|
    && (forall k | 0 <= k < |g.hands| :: SameExceptStatus(r.hands[k], g.hands[k]))
    && (forall k | 0 <= k < g.current :: r.hands[k] == g.hands[k])
    && (forall k | r.current <= k < |g.hands| :: r.hands[k] == g.hands[k])
    && r.hands[g.current] == StepOn(g).hands[g.current]
    && (forall k | g.current < k < r.current :: Passed(g.hands[k], r.hands[k]))
  }

  /** The hand after the turn, as the next step of the walk finds it: a
      two-card split-Ace hand still active is made to stand first. */
  function Landing(g: Game): (r: Game)
    requires OnTurn(g) && g.current + 1 < |g.hands|
  {
    var g2 := StepOn(g);
    if ForcedStand(g2.hands[g.current + 1]) then SetStatus(g2, g.current + 1, Stood) else g2
  }

  lemma LandingShape(g: Game)
    requires OnTurn(g) && g.current + 1 < |g.hands|
    ensures var l := Landing(g);
            var i := g.current;
            && l.current == i + 1 && |l.hands| == |g.hands|
            && l.hands[i] == StepOn(g).hands[i]
            && l.hands[i + 1] == (if ForcedStand(g.hands[i + 1]) then g.hands[i + 1].(status := Stood) else g.hands[i + 1])
            && (forall k | 0 <= k < |g.hands| && k != i && k != i + 1 :: l.hands[k] == g.hands[k])
            && (forall k | 0 <= k < |g.hands| :: SameExceptStatus(l.hands[k], g.hands[k]))
  {
  }

  /** One step of the walk composes with the rest of it. */
  lemma MovedOnStep(g: Game, r: Game)
    requires OnTurn(g) && g.current + 1 < |g.hands|
    requires g.hands[g.current + 1].status != Active || ForcedStand(g.hands[g.current + 1])
    requires MovedOn(Landing(g), r)
    ensures MovedOn(g, r)
  {
    var i := g.current;
    var g1 := Landing(g);
    LandingShape(g);
    assert g1.hands[i + 1] == StepOn(g1).hands[i + 1];
    forall k | i < k < r.current
      ensures Passed(g.hands[k], r.hands[k])
    {
      if k > i + 1 {
        assert Passed(g1.hands[k], r.hands[k]);
      }
    }
  }

  /** nextHandOrDealerTurn, one step at a time: past the last hand it
      concludes; a later hand that is finished, or is a two-card split-Ace
      hand (which is made to stand), is walked past; any other active hand
      takes the turn. */
  lemma AdvanceCases(g: Game, random: Random)
    requires OnTurn(g) && WellFormedShoe(g.shoe)
    ensures var i := g.current;
            && (i + 1 == |g.hands| ==> Advance(g, random) == Conclude(StepOn(g), random))
            && (i + 1 < |g.hands| && (g.hands[i + 1].status != Active || ForcedStand(g.hands[i + 1])) ==>
                  Advance(g, random) == Advance(Landing(g), random))
            && (i + 1 < |g.hands| && g.hands[i + 1].status == Active && !ForcedStand(g.hands[i + 1]) ==>
                  Advance(g, random) == StepOn(g))
  {
  }

  /** Moving on only changes statuses, leaves the earlier hands and the hands
      from the new turn onward as they were, passes over every hand in
      between and moves the turn forward. */
  lemma {:induction false} AdvanceMovesOn(g: Game, random: Random)
    requires OnTurn(g) && WellFormedShoe(g.shoe)
    ensures MovedOn(g, Advance(g, random))
    decreases |g.hands| - g.current
  {
    var i := g.current;
    AdvanceCases(g, random);
    if i + 1 < |g.hands| {
      var h := g.hands[i + 1];
      if h.status != Active || ForcedStand(h) {
        AdvanceMovesOn(Landing(g), random);
        MovedOnStep(g, Advance(g, random));
      }
    } else {
      ConcludeFrame(StepOn(g), random);
    }
  }

  /** The walk either hands the turn to an active hand that is not a
      two-card split-Ace hand, with nothing but the hands and the turn
      changed, or runs past the last hand and concludes the round. */
  lemma AdvanceStops(g: Game, random: Random)
    requires OnTurn(g) && WellFormedShoe(g.shoe)
    ensures var r := Advance(g, random);
            && (r.inProgress ==>
                  && r.current < |r.hands| && r.hands[r.current].status == Active && !ForcedStand(r.hands[r.current])
                  && r == g.(hands := r.hands, current := r.current))
            && (!r.inProgress ==>
                  r.current == |g.hands| && r == Conclude(g.(hands := r.hands, current := |g.hands|), random))
  {
    AdvanceStopsOnHand(g, random);
    AdvanceConcludes(g, random);
  }

  /** Where the walk stops with the round still running. */
  lemma {:induction false} AdvanceStopsOnHand(g: Game, random: Random)
    requires OnTurn(g) && WellFormedShoe(g.shoe)
    ensures var r := Advance(g, random);
            r.inProgress ==>
              && r.current < |r.hands| && r.hands[r.current].status == Active && !ForcedStand(r.hands[r.current])
              && r == g.(hands := r.hands, current := r.current)
    decreases |g.hands| - g.current
  {
    var i := g.current;
    AdvanceCases(g, random);
    if i + 1 < |g.hands| {
      var h := g.hands[i + 1];
      if h.status != Active || ForcedStand(h) {
        AdvanceStopsOnHand(Landing(g), random);
      }
    } else {
      ConcludeFrame(StepOn(g), random);
    }
  }

  /** Where the walk runs past the last hand. */
  lemma {:induction false} AdvanceConcludes(g: Game, random: Random)
    requires OnTurn(g) && WellFormedShoe(g.shoe)
    ensures var r := Advance(g, random);
            !r.inProgress ==> r.current == |g.hands| && r == Conclude(g.(hands := r.hands, current := |g.hands|), random)
    decreases |g.hands| - g.current
  {
    var i := g.current;
    AdvanceCases(g, random);
    if i + 1 < |g.hands| {
      var h := g.hands[i + 1];
      if h.status != Active || ForcedStand(h) {
        AdvanceConcludes(Landing(g), random);
      }
    } else {
      ConcludeFrame(StepOn(g), random);
    }
  }

  /** Moving on keeps the bets on the table; the balance changes only when
      the round is concluded, by what the round pays. */
  lemma AdvanceSettles(g: Game, random: Random)
    requires OnTurn(g) && WellFormedShoe(g.shoe)
    ensures var r := Advance(g, random);
            && TotalBets(r.hands) == TotalBets(g.hands)
            && (r.inProgress ==> r.balance == g.balance)
            && (!r.inProgress ==> r.balance == g.balance + RoundPayout(r))
  {
    var r := Advance(g, random);
    AdvanceMovesOn(g, random);
    AdvanceStops(g, random);
    TotalBetsSame(r.hands, g.hands);
    if !r.inProgress {
      ConcludePays(g.(hands := r.hands, current := |g.hands|), random);
    }
  }

  // ---------------------------------------------------------------------
  // Player actions

  /** A command whose guard fails changes nothing. */
  lemma RefusedCommands(g: Game, random: Random)
    requires WellFormedShoe(g.shoe)
    ensures !CanHit(g) ==> PlayerHit(g, random) == g
    ensures !CanStand(g) ==> PlayerStand(g, random) == g
    ensures !CanDoubleDown(g) ==> PlayerDoubleDown(g, random) == g
    ensures !CanSplit(g) ==> PlayerSplit(g, random) == g
  {
  }

  /** Where the turn goes once the hand at `i` is finished: past the later
      hands that are no longer active (a two-card split-Ace hand is made to
      stand on the way), and onto the first playable hand, or past the last
      hand to the dealer. Hands from the landing on are as they were. */
  predicate WalkedOn(g: Game, i: nat, r: Game)
    requires i < |g.hands|
  {
    && |r.hands| == |g.hands|
    && i < r.current <= |g.hands|
    && (forall k | i < k < r.current :: Passed(g.hands[k], r.hands[k]))
    && (forall k | r.current <= k < |g.hands| :: r.hands[k] == g.hands[k])
    && (r.inProgress ==> r.current < |r.hands| && r.hands[r.current].status == Active && !ForcedStand(r.hands[r.current]))
    && (!r.inProgress ==> r.current == |g.hands|)
  }

  /** A walk from a state that differs from `g` only at the turn's hand lands
      as WalkedOn describes, measured against `g`'s hands. */
  lemma WalkFrom(g: Game, d: Game, r: Game)
    requires OnTurn(g) && OnTurn(d) && d.current == g.current && |d.hands| == |g.hands|
    requires forall k | g.current < k < |g.hands| :: d.hands[k] == g.hands[k]
    requires MovedOn(d, r)
    requires r.inProgress ==> r.current < |r.hands| && r.hands[r.current].status == Active && !ForcedStand(r.hands[r.current])
    requires !r.inProgress ==> r.current == |d.hands|
    ensures WalkedOn(g, g.current, r)
  {
  }

  /** playerHit: the hand takes one card from the pile and can no longer be
      doubled; under 21 it stays active and keeps the turn, over 21 it busts
      and at 21 it stands, and either way the turn moves on. */
  lemma HitSpec(g: Game, random: Random)
    requires WellFormedShoe(g.shoe) && CanHit(g)
    ensures var i := g.current;
            var h := g.hands[i];
            var hit := h.(cards := h.cards + [DealtCard(g.shoe, random, false)], canDouble := false);
            var s := Score(hit);
            var r := PlayerHit(g, random);
            && |r.hands| == |g.hands|
            && r.hands[i] == hit.(status := if s > 21 then Busted else if s == 21 then Stood else Active)
            && (forall k | 0 <= k < i :: r.hands[k] == g.hands[k])
            && (s < 21 ==> r == g.(shoe := Draw(g.shoe, random).rest, hands := g.hands[i := hit]))
            && (s >= 21 ==> r.current > i && WalkedOn(g, i, r))
  {
    var i := g.current;
    var h := g.hands[i];
    var g1 := DealToHand(g.(hands := g.hands[i := h.(canDouble := false)]), i, random);
    var s := Score(g1.hands[i]);
    if s >= 21 {
      var g2 := SetStatus(g1, i, if s > 21 then Busted else Stood);
      AdvanceMovesOn(g2, random);
      AdvanceStops(g2, random);
      WalkFrom(g, g2, Advance(g2, random));
    }
  }

  /** playerStand: the hand stands, can no longer be doubled, and the turn
      moves on. */
  lemma StandSpec(g: Game, random: Random)
    requires WellFormedShoe(g.shoe) && CanStand(g)
    ensures var i := g.current;
            var r := PlayerStand(g, random);
            && |r.hands| == |g.hands|
            && r.hands[i] == g.hands[i].(status := Stood, canDouble := false)
            && (forall k | 0 <= k < i :: r.hands[k] == g.hands[k])
            && r.current > i && WalkedOn(g, i, r)
            && (r.inProgress ==> r.balance == g.balance && r.shoe == g.shoe)
  {
    var i := g.current;
    var g1 := g.(hands := g.hands[i := g.hands[i].(status := Stood, canDouble := false)]);
    AdvanceMovesOn(g1, random);
    AdvanceStops(g1, random);
    WalkFrom(g, g1, Advance(g1, random));
  }

  /** playerDoubleDown: the bet is taken from the balance again and doubled,
      exactly one card is dealt, and the hand ends stood or busted while the
      turn moves on. */
  lemma DoubleDownSpec(g: Game, random: Random)
    requires WellFormedShoe(g.shoe) && CanDoubleDown(g)
    ensures var i := g.current;
            var h := g.hands[i];
            var d := h.(cards := h.cards + [DealtCard(g.shoe, random, false)], bet := 2 * h.bet, canDouble := false);
            var r := PlayerDoubleDown(g, random);
            && |r.hands| == |g.hands|
            && r.hands[i] == d.(status := if Score(d) > 21 then Busted else Stood)
            && (forall k | 0 <= k < i :: r.hands[k] == g.hands[k])
            && r.current > i && WalkedOn(g, i, r)
            && (r.inProgress ==> r.balance == g.balance - h.bet as real)
  {
    var d := DoubleAndDeal(g, random);
    DoubledHand(g, random, d);
    AdvanceMovesOn(d, random);
    AdvanceStops(d, random);
    WalkFrom(g, d, Advance(d, random));
  }

  /** The doubled hand itself: only it changes, and the balance pays the
      second bet. */
  lemma DoubledHand(g: Game, random: Random, r: Game)
    requires WellFormedShoe(g.shoe) && CanDoubleDown(g) && r == DoubleAndDeal(g, random)
    ensures var i := g.current;
            var h := g.hands[i];
            var d := h.(cards := h.cards + [DealtCard(g.shoe, random, false)], bet := 2 * h.bet, canDouble := false);
            && r.hands[i] == d.(status := if Score(d) > 21 then Busted else Stood)
            && (forall k | 0 <= k < |g.hands| && k != i :: r.hands[k] == g.hands[k])
            && r == g.(balance := g.balance - h.bet as real, shoe := r.shoe, hands := r.hands)
  {
  }

  /** Parting a pair adds a second bet equal to the first to the table. */
  lemma PartedHandsBets(hands: seq<Hand>, i: nat)
    requires i < |hands| && |hands[i].cards| == 2
    ensures TotalBets(PartedHands(hands, i)) == TotalBets(hands) + hands[i].bet
  {
    var r := PartedHands(hands, i);
    assert hands == hands[..i] + [hands[i]] + hands[i + 1..];
    assert r == hands[..i] + [r[i], r[i + 1]] + hands[i + 1..];
    TotalBetsAppend(hands[..i] + [hands[i]], hands[i + 1..]);
    TotalBetsAppend(hands[..i] + [r[i], r[i + 1]], hands[i + 1..]);
    TotalBetsAppend(hands[..i], [hands[i]]);
    TotalBetsAppend(hands[..i], [r[i], r[i + 1]]);
    assert [r[i], r[i + 1]] == [r[i]] + [r[i + 1]];
    TotalBetsAppend([r[i]], [r[i + 1]]);
  }

  /** One card to a split hand: only that hand changes, taking the card from
      the pile and standing if it is a split-Ace hand that makes 21 with two
      cards. */
  lemma DealSplitHandSpec(g: Game, i: nat, aces: bool, random: Random)
    requires i < |g.hands|
    ensures var h := g.hands[i];
            var cards := h.cards + [DealtCard(g.shoe, random, false)];
            var r := DealSplitHand(g, i, aces, random);
            && r.hands == g.hands[i := h.(cards := cards, status := if aces && HandScore(cards) == 21 && |cards| == 2 then Stood else h.status)]
            && r == g.(shoe := Draw(g.shoe, random).rest, hands := r.hands)
  {
  }

  /** The hands of the split, as the pair is parted and dealt to. */
  lemma SplitAndDealHands(g: Game, random: Random)
    requires WellFormedShoe(g.shoe) && CanSplit(g)
    ensures var i := g.current;
            var h := g.hands[i];
            var aces := h.cards[0].isAce;
            var c1 := DealtCard(g.shoe, random, false);
            var c2 := DealtCard(Draw(g.shoe, random).rest, random, false);
            var second := [Face(h.cards[1]), c2];
            var r := SplitAndDeal(g, random);
            && r.hands == PartedHands(g.hands, i)
                 [i := Hand([h.cards[0], c1], h.bet, if aces then Stood else Active, !aces, aces)]
                 [i + 1 := Hand(second, h.bet, if aces && HandScore(second) == 21 then Stood else Active, !aces, aces)]
  {
    var i := g.current;
    var h := g.hands[i];
    var aces := h.cards[0].isAce;
    var parted := PartedHands(g.hands, i);
    var g1 := g.(balance := g.balance - h.bet as real, hands := parted);
    DealSplitHandSpec(g1, i, aces, random);
    var g2 := DealSplitHand(g1, i, aces, random);
    DealSplitHandSpec(g2, i + 1, aces, random);
    assert [h.cards[0]] + [DealtCard(g.shoe, random, false)] == [h.cards[0], DealtCard(g.shoe, random, false)];
    assert [Face(h.cards[1])] + [DealtCard(g2.shoe, random, false)] == [Face(h.cards[1]), DealtCard(g2.shoe, random, false)];
    assert parted[i] == h.(cards := [h.cards[0]], canDouble := !aces, isSplitAceHand := aces);
    assert parted[i + 1] == Hand([Face(h.cards[1])], h.bet, Active, !aces, aces);
  }

  /** Apart from the hands, the split takes the second bet from the balance
      and two cards from the pile. */
  lemma SplitAndDealFrame(g: Game, random: Random)
    requires WellFormedShoe(g.shoe) && CanSplit(g)
    ensures var h := g.hands[g.current];
            var r := SplitAndDeal(g, random);
            r == g.(balance := g.balance - h.bet as real, shoe := Draw(Draw(g.shoe, random).rest, random).rest, hands := r.hands)
  {
    var i := g.current;
    var h := g.hands[i];
    var aces := h.cards[0].isAce;
    var g1 := g.(balance := g.balance - h.bet as real, hands := PartedHands(g.hands, i));
    DealSplitHandSpec(g1, i, aces, random);
    DealSplitHandSpec(DealSplitHand(g1, i, aces, random), i + 1, aces, random);
  }

  /** The split itself: the pair is parted into the current hand and a new
      hand right after it, each with the bet and one of the pair, then the
      current hand and then the new hand get one card each from the pile. Aces
      make split-Ace hands that cannot be doubled, the current one standing
      and the new one standing on a two-card 21; any other pair makes two
      active hands that can be doubled. The second bet leaves the balance. */
  lemma SplitAndDealSpec(g: Game, random: Random)
    requires WellFormedShoe(g.shoe) && CanSplit(g)
    ensures var i := g.current;
            var h := g.hands[i];
            var aces := h.cards[0].isAce;
            var c1 := DealtCard(g.shoe, random, false);
            var pile := Draw(g.shoe, random).rest;
            var c2 := DealtCard(pile, random, false);
            var second := [Face(h.cards[1]), c2];
            var r := SplitAndDeal(g, random);
            && r.hands[..i] == g.hands[..i] && r.hands[i + 2..] == g.hands[i + 1..]
            && r.hands[i] == Hand([h.cards[0], c1], h.bet, if aces then Stood else Active, !aces, aces)
            && r.hands[i + 1] == Hand(second, h.bet, if aces && HandScore(second) == 21 then Stood else Active, !aces, aces)
            && r == g.(balance := g.balance - h.bet as real, shoe := Draw(pile, random).rest, hands := r.hands)
  {
    var i := g.current;
    var parted := PartedHands(g.hands, i);
    SplitAndDealHands(g, random);
    SplitAndDealFrame(g, random);
    var r := SplitAndDeal(g, random);
    assert r.hands[..i] == parted[..i];
    assert r.hands[i + 2..] == parted[i + 2..];
  }

  /** playerSplit: a pair other than Aces leaves the turn on the current hand
      with both new hands in play; a pair of Aces leaves both split-Ace hands
      standing and moves on as nextHandOrDealerTurn does, past them to the
      next playable hand or to the dealer. */
  lemma SplitSpec(g: Game, random: Random)
    requires WellFormedShoe(g.shoe) && CanSplit(g)
    ensures var i := g.current;
            var d := SplitAndDeal(g, random);
            var r := PlayerSplit(g, random);
            && (!g.hands[i].cards[0].isAce ==> r == d && r.inProgress && r.current == i)
            && (g.hands[i].cards[0].isAce ==>
                  && |r.hands| == |d.hands| && r.current > i + 1
                  && r.hands[i] == d.hands[i] && r.hands[i + 1] == d.hands[i + 1].(status := Stood)
                  && (forall k | 0 <= k < |r.hands| :: SameExceptStatus(r.hands[k], d.hands[k]))
                  && r == Advance(d, random) && WalkedOn(d, i, r))
  {
    var i := g.current;
    SplitAndDealSpec(g, random);
    var d := SplitAndDeal(g, random);
    if g.hands[i].cards[0].isAce {
      AdvancePastSplitAces(d, random);
      AdvanceMovesOn(d, random);
      AdvanceStops(d, random);
      WalkFrom(d, d, Advance(d, random));
    }
  }

  /** Moving on from a stood hand whose neighbour is a two-card split-Ace
      hand passes the neighbour too, leaving it stood. */
  lemma AdvancePastSplitAces(d: Game, random: Random)
    requires OnTurn(d) && WellFormedShoe(d.shoe) && d.current + 1 < |d.hands|
    requires d.hands[d.current].status == Stood
    requires var n := d.hands[d.current + 1]; n.isSplitAceHand && |n.cards| == 2 && n.status in {Active, Stood}
    ensures var i := d.current;
            var r := Advance(d, random);
            && |r.hands| == |d.hands| && r.current > i + 1
            && r.hands[i] == d.hands[i] && r.hands[i + 1] == d.hands[i + 1].(status := Stood)
            && (forall k | 0 <= k < |r.hands| :: SameExceptStatus(r.hands[k], d.hands[k]))
  {
    AdvanceMovesOn(d, random);
    AdvanceStops(d, random);
    PassedSplitAce(d, Advance(d, random));
  }

  /** The same, for any walk that moved on and stopped on an active hand or
      past the last one. */
  lemma PassedSplitAce(d: Game, r: Game)
    requires OnTurn(d) && d.current + 1 < |d.hands|
    requires d.hands[d.current].status == Stood
    requires var n := d.hands[d.current + 1]; n.isSplitAceHand && |n.cards| == 2 && n.status in {Active, Stood}
    requires MovedOn(d, r)
    requires r.current < |r.hands| ==> r.hands[r.current].status == Active && !ForcedStand(r.hands[r.current])
    ensures var i := d.current;
            && r.current > i + 1
            && r.hands[i] == d.hands[i] && r.hands[i + 1] == d.hands[i + 1].(status := Stood)
  {
    assert r.current != d.current + 1;
    assert Passed(d.hands[d.current + 1], r.hands[d.current + 1]);
  }
}
