/** updateButtonStates as predicates: which action buttons the interface
    enables in a state. The handlers behind them check less, so every enabled
    button leads to an accepted action, and in a reachable state the only
    gaps are the hit and double buttons on a score of 21. */
module Controls {
  import opened Cards
  import opened Scoring
  import opened Hands
  import opened Engine
  import opened Invariants

  /** No hand has the turn: every action button is disabled. */
  predicate NoTurn(g: Game) {
    !g.inProgress || |g.hands| == 0 || g.current >= |g.hands|
  }

  predicate HitEnabled(g: Game) {
    && !NoTurn(g)
    && var h := g.hands[g.current];
    && h.status == Active && Score(h) < 21 && !h.isSplitAceHand
  }

  predicate StandEnabled(g: Game) {
    !NoTurn(g) && g.hands[g.current].status == Active
  }

  predicate DoubleEnabled(g: Game) {
    && !NoTurn(g)
    && var h := g.hands[g.current];
    && h.status == Active && h.canDouble && |h.cards| == 2 && g.balance >= h.bet as real
    && Score(h) < 21 && !h.isSplitAceHand
  }

  predicate SplitEnabled(g: Game) {
    && !NoTurn(g)
    && var h := g.hands[g.current];
    && h.status == Active && |h.cards| == 2 && h.cards[0].value == h.cards[1].value
    && g.balance >= h.bet as real && !h.isSplitAceHand
  }

  predicate NewRoundEnabled(g: Game) {
    !g.inProgress
  }

  /** An enabled button always reaches a handler that accepts it. */
  lemma EnabledIsAccepted(g: Game)
    ensures HitEnabled(g) ==> CanHit(g)
    ensures StandEnabled(g) ==> CanStand(g)
    ensures DoubleEnabled(g) ==> CanDoubleDown(g)
    ensures SplitEnabled(g) ==> CanSplit(g)
  {
  }

  /** In a reachable state the buttons and the handlers agree, except that
      the hit and double buttons also need a score under 21. */
  lemma ButtonsMatchHandlers(g: Game)
    requires Inv(g)
    ensures StandEnabled(g) <==> CanStand(g)
    ensures SplitEnabled(g) <==> CanSplit(g)
    ensures HitEnabled(g) <==> CanHit(g) && Score(g.hands[g.current]) < 21
    ensures DoubleEnabled(g) <==> CanDoubleDown(g) && Score(g.hands[g.current]) < 21
  {
    if g.inProgress {
      assert Ready(g.hands[g.current]);
    }
  }

  /** The cards of `deck` that are not in `dealt`, in deck order. */
  function Undealt(deck: seq<Card>, dealt: seq<Card>): (r: seq<Card>)
    ensures forall k | 0 <= k < |r| :: r[k] in deck && r[k] !in dealt
    ensures forall c | c in deck && c !in dealt :: c in r
  {
    if |deck| == 0 then []
    else (if deck[0] in dealt then [] else [deck[0]]) + Undealt(deck[1..], dealt)
  }

  /** A state of the shape a split of two Kings leaves in the first round of
      a session, on a bet of 10: the first hand drew an Ace, the second a
      Five, the turn is on the first, and the pile holds the cards of the deck
      that were not dealt. Only the invariant is proved of it; that some
      oracle and command sequence reach it is not. */
  function KingAceAfterSplit(): (g: Game)
    ensures Inv(g)
  {
    var first := Hand([MakeCard(Spades, King), MakeCard(Hearts, Ace)], 10, Active, true, false);
    var second := Hand([MakeCard(Hearts, King), MakeCard(Diamonds, Pip(5))], 10, Active, true, false);
    var dealer := [MakeCard(Clubs, Pip(9)).(hidden := true), MakeCard(Clubs, Pip(7))];
    var dealt := first.cards + second.cards + [Face(dealer[0]), dealer[1]];
    var pile := Undealt(NewDeck(), dealt);
    assert forall k | 0 <= k < |pile| :: WellFormed(pile[k]) by {
      var deck := NewDeck();
      forall k | 0 <= k < |pile|
        ensures WellFormed(pile[k])
      {
        var n :| 0 <= n < |deck| && deck[n] == pile[k];
      }
    }
    Game(StartingBalance - 20.0, Shoes.Shoe(pile, 51), [first, second], 0, dealer, true, [])
  }

  /** The gap is real: a hand on two-card 21 after a split has its hit and
      double buttons disabled, while both handlers would still accept. */
  lemma HitAndDoubleOnTwentyOne()
    ensures var g := KingAceAfterSplit();
            && Inv(g) && CanHit(g) && !HitEnabled(g) && CanDoubleDown(g) && !DoubleEnabled(g)
  {
    var g := KingAceAfterSplit();
    ThreeCardSums(MakeCard(Spades, King), MakeCard(Hearts, Ace), MakeCard(Clubs, Pip(2)));
  }
}
