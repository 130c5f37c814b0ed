/** What holds of every state the commands can reach: the balance is never
    negative, the pile holds well-formed cards, the history keeps at most ten
    rounds, only the hole card is ever face down (and no card once the round
    is over), and during a round the turn sits on a hand that can be played,
    with only playable hands after it. Money is conserved: during a round the
    balance plus the bets on the table stays what the balance was before the
    bet, and at the end the balance gains exactly what the round pays. */
module Invariants {
  import opened Cards
  import opened Scoring
  import opened Shoes
  import opened Hands
  import opened Payouts
  import opened History
  import opened Engine
  import opened Rules

  /** A hand that is waiting to be played: active, not from a pair of Aces,
      and still holding its two cards if it may be doubled. */
  predicate Ready(h: Hand) {
    h.status == Active && !h.isSplitAceHand && (h.canDouble ==> |h.cards| == 2)
  }

  /** The new hand of an Ace split, before the turn reaches it. */
  predicate PendingSplitAce(h: Hand) {
    h.isSplitAceHand && |h.cards| == 2 && (h.status == Active || h.status == Stood)
  }

  /** Everything but the hands. */
  predicate Table(g: Game) {
    && g.balance >= 0.0
    && WellFormedShoe(g.shoe)
    && |g.history| <= MaxHistoryRounds
    && HoleCardOnly(g.dealer)
    && (!g.inProgress ==> FaceUp(g.dealer))
  }

  predicate Inv(g: Game) {
    && Table(g)
    && (g.inProgress ==> g.current < |g.hands| && forall k | g.current <= k < |g.hands| :: Ready(g.hands[k]))
  }

  lemma NewSessionInv()
    ensures Inv(NewSession())
  {
  }

  // ---------------------------------------------------------------------
  // Moving on

  /** The hands after a hand the turn left: playable, except that the next
      one may be the new hand of an Ace split. */
  predicate ReadyAfter(g: Game)
    requires OnTurn(g)
  {
    forall k | g.current < k < |g.hands| :: Ready(g.hands[k]) || (k == g.current + 1 && PendingSplitAce(g.hands[k]))
  }

  /** Where the walk stops, the hand is playable and so is every later one. */
  lemma StoppedInv(g: Game, r: Game)
    requires OnTurn(g) && Table(g) && ReadyAfter(g) && MovedOn(g, r)
    requires r.inProgress && r.current < |r.hands| && r.hands[r.current].status == Active && !ForcedStand(r.hands[r.current])
    requires r == g.(hands := r.hands, current := r.current)
    ensures Inv(r)
  {
    forall k | r.current <= k < |r.hands|
      ensures Ready(r.hands[k])
    {
      assert r.hands[k] == g.hands[k];
    }
  }

  /** A concluded round leaves a consistent table. */
  lemma ConcludedInv(g: Game, random: Random)
    requires g.balance >= 0.0 && WellFormedShoe(g.shoe) && |g.history| <= MaxHistoryRounds && HoleCardOnly(g.dealer)
    ensures Inv(Conclude(g, random))
  {
    var r := Conclude(g, random);
    ConcludeEnds(g, random);
    TotalPayoutBounds(r.hands, HandScore(r.dealer), |r.dealer|);
  }

  /** Moving on from a hand, with only playable hands after it (the next one
      may be the new hand of an Ace split), lands on a playable hand or ends
      the round. */
  lemma AdvanceInv(g: Game, random: Random)
    requires OnTurn(g) && Table(g) && ReadyAfter(g)
    ensures Inv(Advance(g, random))
  {
    var r := Advance(g, random);
    AdvanceMovesOn(g, random);
    AdvanceStops(g, random);
    if r.inProgress {
      StoppedInv(g, r);
    } else {
      ConcludedInv(g.(hands := r.hands, current := |g.hands|), random);
    }
  }

  // ---------------------------------------------------------------------
  // The commands keep the invariant

  /** An accepted bet, from any consistent state (a round may even be
      running), opens a consistent round or settles a natural. */
  lemma BeginRoundInv(g: Game, bet: nat, deck: Shoe, random: Random)
    requires Table(g) && 0 < bet && bet as real <= g.balance
    requires WellFormedShoe(deck) && |deck.cards| == DeckSize && FaceUp(deck.cards)
    ensures Inv(BeginRound(g, bet, deck, random))
  {
    BeginRoundDeal(g, bet, deck, random);
    var r := BeginRound(g, bet, deck, random);
    if !r.inProgress {
      HistoryBounded(g.history, r.history[0]);
    }
    OpenedInv(g, bet, deck.cards, r);
  }

  /** The invariant of a freshly dealt round, from the shape of the deal alone. */
  lemma OpenedInv(g: Game, bet: nat, c: seq<Card>, r: Game)
    requires Table(g) && bet as real <= g.balance
    requires |c| == DeckSize && FaceUp(c) && WellFormedShoe(r.shoe) && r.current == 0
    requires r.inProgress ==>
               && r.hands == [Hand([c[51], c[49]], bet, Active, true, false)]
               && r.dealer == [c[50].(hidden := true), c[48]]
               && r.balance == g.balance - bet as real && r.history == g.history
    requires !r.inProgress ==>
               && r.dealer == [c[50], c[48]]
               && r.balance >= g.balance - bet as real && |r.history| <= MaxHistoryRounds
    ensures Inv(r)
  {
    assert !c[48].hidden && !c[50].hidden;
  }

  lemma StartGameInv(g: Game, bet: BetInput, random: Random)
    requires Inv(g)
    ensures Inv(StartGame(g, bet, random))
  {
    if ValidBet(g.balance, bet) {
      BeginRoundInv(g, bet.n, FreshShoe(random, g.shoe.entropyUsed), random);
    }
  }

  lemma HitInv(g: Game, random: Random)
    requires Inv(g)
    ensures Inv(PlayerHit(g, random))
  {
    if CanHit(g) {
      var i := g.current;
      var h := g.hands[i];
      var g1 := DealToHand(g.(hands := g.hands[i := h.(canDouble := false)]), i, random);
      var s := Score(g1.hands[i]);
      if s >= 21 {
        AdvanceInv(SetStatus(g1, i, if s > 21 then Busted else Stood), random);
      }
    }
  }

  lemma StandInv(g: Game, random: Random)
    requires Inv(g)
    ensures Inv(PlayerStand(g, random))
  {
    if CanStand(g) {
      var i := g.current;
      AdvanceInv(g.(hands := g.hands[i := g.hands[i].(status := Stood, canDouble := false)]), random);
    }
  }

  lemma DoubleDownInv(g: Game, random: Random)
    requires Inv(g)
    ensures Inv(PlayerDoubleDown(g, random))
  {
    if CanDoubleDown(g) {
      var d := DoubleAndDeal(g, random);
      DoubledHand(g, random, d);
      assert ReadyAfter(d) by {
        forall k | d.current < k < |d.hands|
          ensures Ready(d.hands[k])
        {
          assert d.hands[k] == g.hands[k];
        }
      }
      AdvanceInv(d, random);
    }
  }

  lemma SplitInv(g: Game, random: Random)
    requires Inv(g)
    ensures Inv(PlayerSplit(g, random))
  {
    if CanSplit(g) {
      var d := SplitAndDeal(g, random);
      SplitDealtTable(g, random, d);
      SplitDealtReady(g, random, d);
      if g.hands[g.current].cards[0].isAce {
        AdvanceInv(d, random);
      }
    }
  }

  /** A split keeps the table consistent. */
  lemma SplitDealtTable(g: Game, random: Random, d: Game)
    requires Table(g) && CanSplit(g) && d == SplitAndDeal(g, random)
    ensures Table(d)
  {
    SplitAndDealFrame(g, random);
  }

  /** The parted and dealt hands: a pair other than Aces leaves two playable
      hands at the turn; a pair of Aces leaves the current hand stood and only
      its partner, then playable hands, after it. */
  lemma SplitDealtReady(g: Game, random: Random, d: Game)
    requires Inv(g) && CanSplit(g) && d == SplitAndDeal(g, random)
    ensures ReadyAfter(d)
    ensures !g.hands[g.current].cards[0].isAce ==> forall k | d.current <= k < |d.hands| :: Ready(d.hands[k])
  {
    var i := g.current;
    SplitAndDealHands(g, random);
    var parted := PartedHands(g.hands, i);
    forall k | i + 1 < k < |d.hands|
      ensures d.hands[k] == g.hands[k - 1]
    {
      assert d.hands[k] == parted[k];
      assert parted[k] == parted[i + 2..][k - (i + 2)];
    }
  }

  // ---------------------------------------------------------------------
  // Money

  /** The money the player has: the balance, plus the bets on the table while
      a round is running. */
  function Money(g: Game): real {
    g.balance + if g.inProgress then TotalBets(g.hands) as real else 0.0
  }

  /** `r` accounts for `m`, the money held before: while the round runs the
      money is `m`; once it is over the balance plus the bets that were on the
      table is `m` plus what the round paid. */
  predicate Accounts(m: real, r: Game) {
    if r.inProgress then Money(r) == m
    else r.balance + TotalBets(r.hands) as real == m + RoundPayout(r)
  }

  /** Moving on keeps the account. */
  lemma AdvanceAccounts(g: Game, random: Random)
    requires OnTurn(g) && WellFormedShoe(g.shoe)
    ensures Accounts(Money(g), Advance(g, random))
  {
    AdvanceSettles(g, random);
  }

  /** The bet leaves the balance for the table; a natural settles at once. */
  lemma BeginRoundAccounts(g: Game, bet: nat, deck: Shoe, random: Random)
    requires WellFormedShoe(deck) && |deck.cards| == DeckSize && FaceUp(deck.cards)
    ensures Accounts(g.balance, BeginRound(g, bet, deck, random))
  {
    OpenRoundDeal(g, bet, deck, random);
    var o := OpenRound(g, bet, deck, random);
    var h := o.hands[0];
    assert TotalBets(o.hands) == bet by {
      assert o.hands[..0] == [];
    }
    if Score(h) == 21 && |h.cards| == 2 && !h.isSplitAceHand {
      var b := SetStatus(o, 0, Blackjack);
      NaturalSettles(b);
      var r := CheckBlackjack(b);
      assert TotalBets(r.hands) == bet by {
        assert r.hands[..0] == [];
      }
      var ss := SettleAll(r.hands, HandScore(r.dealer), |r.dealer|);
      assert TotalPayout(ss) == ss[0].payout by {
        assert ss[..0] == [];
      }
    }
  }

  lemma StartGameAccounts(g: Game, bet: BetInput, random: Random)
    requires ValidBet(g.balance, bet)
    ensures Accounts(g.balance, StartGame(g, bet, random))
  {
    BeginRoundAccounts(g, bet.n, FreshShoe(random, g.shoe.entropyUsed), random);
  }

  lemma HitAccounts(g: Game, random: Random)
    requires WellFormedShoe(g.shoe) && g.inProgress
    ensures Accounts(Money(g), PlayerHit(g, random))
  {
    if CanHit(g) {
      var i := g.current;
      var h := g.hands[i];
      var g0 := g.(hands := g.hands[i := h.(canDouble := false)]);
      var g1 := DealToHand(g0, i, random);
      TotalBetsReplace(g.hands, i, h.(canDouble := false));
      TotalBetsReplace(g0.hands, i, g1.hands[i]);
      var s := Score(g1.hands[i]);
      if s >= 21 {
        var g2 := SetStatus(g1, i, if s > 21 then Busted else Stood);
        TotalBetsReplace(g1.hands, i, g2.hands[i]);
        AdvanceAccounts(g2, random);
      }
    }
  }

  lemma StandAccounts(g: Game, random: Random)
    requires WellFormedShoe(g.shoe) && g.inProgress
    ensures Accounts(Money(g), PlayerStand(g, random))
  {
    if CanStand(g) {
      var i := g.current;
      var g1 := g.(hands := g.hands[i := g.hands[i].(status := Stood, canDouble := false)]);
      TotalBetsReplace(g.hands, i, g1.hands[i]);
      AdvanceAccounts(g1, random);
    }
  }

  /** Doubling moves a second bet from the balance to the table. */
  lemma DoubleDownAccounts(g: Game, random: Random)
    requires WellFormedShoe(g.shoe) && g.inProgress
    ensures Accounts(Money(g), PlayerDoubleDown(g, random))
  {
    if CanDoubleDown(g) {
      var d := DoubleAndDeal(g, random);
      DoubledHand(g, random, d);
      var bet := g.hands[g.current].bet;
      assert d.hands[g.current].bet == 2 * bet;
      TotalBetsReplace(g.hands, g.current, d.hands[g.current]);
      assert g.hands[g.current := d.hands[g.current]] == d.hands;
      assert TotalBets(d.hands) == TotalBets(g.hands) + bet;
      assert Money(d) == Money(g);
      AdvanceAccounts(d, random);
    }
  }

  /** Splitting moves a second bet from the balance to the new hand. */
  lemma SplitAccounts(g: Game, random: Random)
    requires WellFormedShoe(g.shoe) && g.inProgress
    ensures Accounts(Money(g), PlayerSplit(g, random))
  {
    if CanSplit(g) {
      var d := SplitAndDeal(g, random);
      SplitMoney(g, random, d);
      if g.hands[g.current].cards[0].isAce {
        AdvanceAccounts(d, random);
      }
    }
  }

  /** The second bet goes from the balance to the new hand. */
  lemma SplitMoney(g: Game, random: Random, d: Game)
    requires WellFormedShoe(g.shoe) && CanSplit(g) && d == SplitAndDeal(g, random)
    ensures Money(d) == Money(g)
  {
    var i := g.current;
    SplitAndDealHands(g, random);
    SplitAndDealFrame(g, random);
    var parted := PartedHands(g.hands, i);
    PartedHandsBets(g.hands, i);
    TotalBetsReplace(parted, i, d.hands[i]);
    TotalBetsReplace(parted[i := d.hands[i]], i + 1, d.hands[i + 1]);
  }
}
