/** The round state machine: starting a round with its bet and initial deal,
    the four player actions on the current hand, advancing to the next hand
    or to the dealer, the dealer's drawing rule and the end of the round.
    Every operation is a pure function from one game state to the next. */
module Engine {
  import opened Cards
  import opened Scoring
  import opened Shoes
  import opened Hands
  import opened Payouts
  import opened History

  const StartingBalance: real := 10000.0

  /** The dealer stands on any total of 17 or more. */
  const DealerStandsAt: int := 17

  /** The engine's global state: balance, draw pile, the player's hands, the
      index of the hand being played, the dealer's cards, whether a round is
      in progress, and the round history. */
  datatype Game = Game(
    balance: real,
    shoe: Shoe,
    hands: seq<Hand>,
    current: nat,
    dealer: seq<Card>,
    inProgress: bool,
    history: seq<Entry>)

  /** The state with nothing saved: the default balance, no hands, no history. */
  function NewSession(): (g: Game)
    ensures g.balance == StartingBalance && !g.inProgress && g.hands == [] && g.history == []
  {
    Game(StartingBalance, Shoe([], 0), [], 0, [], false, [])
  }

  /** The bet field after parseInt: a number, or NaN. */
  datatype BetInput = NaN | Amount(n: int)

  /** The hand at the current index exists and the round is running. */
  predicate OnTurn(g: Game) {
    g.inProgress && g.current < |g.hands|
  }

  predicate DealerNatural(dealer: seq<Card>) {
    HandScore(dealer) == 21 && |dealer| == 2
  }

  /** The card a deal hands out: the top of the pile (after a refill if the
      pile was empty), face up or face down as asked. */
  function DealtCard(s: Shoe, random: Random, hidden: bool): Card {
    Draw(s, random).card.(hidden := hidden)
  }

  /** animatedDeal to a player hand: one card, face up, on the end of it. */
  function DealToHand(g: Game, i: nat, random: Random): (r: Game)
    requires i < |g.hands|
    ensures |r.hands| == |g.hands|
    ensures r.hands[i] == g.hands[i].(cards := g.hands[i].cards + [DealtCard(g.shoe, random, false)])
    ensures forall k | 0 <= k < |g.hands| && k != i :: r.hands[k] == g.hands[k]
    ensures r == g.(shoe := Draw(g.shoe, random).rest, hands := r.hands)
    ensures WellFormedShoe(g.shoe) ==> WellFormedShoe(r.shoe)
  {
    var h := g.hands[i];
    g.(shoe := Draw(g.shoe, random).rest, hands := g.hands[i := h.(cards := h.cards + [DealtCard(g.shoe, random, false)])])
  }

  /** animatedDeal to the dealer: one card on the end, face down when asked. */
  function DealToDealer(g: Game, hidden: bool, random: Random): (r: Game)
    ensures r == g.(shoe := r.shoe, dealer := r.dealer)
    ensures |r.dealer| == |g.dealer| + 1 && r.dealer[..|g.dealer|] == g.dealer
    ensures r.dealer[|g.dealer|].hidden == hidden
    ensures WellFormedShoe(g.shoe) ==> WellFormedShoe(r.shoe) && WellFormed(Face(r.dealer[|g.dealer|]))
  {
    g.(shoe := Draw(g.shoe, random).rest, dealer := g.dealer + [DealtCard(g.shoe, random, hidden)])
  }

  function SetStatus(g: Game, i: nat, st: Status): (r: Game)
    requires i < |g.hands|
  {
    g.(hands := g.hands[i := g.hands[i].(status := st)])
  }

  // ---------------------------------------------------------------------
  // Start of a round

  /** The bet startGame accepts: a number, positive, and within the balance. */
  predicate ValidBet(balance: real, bet: BetInput) {
    bet.Amount? && bet.n > 0 && bet.n as real <= balance
  }

  /** The opening deal: player, dealer face down, player, dealer face up. */
  function InitialDeal(g: Game, random: Random): (r: Game)
    requires |g.hands| > 0
    ensures r == g.(shoe := r.shoe, hands := r.hands, dealer := r.dealer)
    ensures |r.hands| == |g.hands| && forall k | 0 < k < |g.hands| :: r.hands[k] == g.hands[k]
    ensures r.hands[0] == g.hands[0].(cards := r.hands[0].cards)
    ensures |r.hands[0].cards| == |g.hands[0].cards| + 2 && r.hands[0].cards[..|g.hands[0].cards|] == g.hands[0].cards
    ensures |r.dealer| == |g.dealer| + 2 && r.dealer[..|g.dealer|] == g.dealer
    ensures r.dealer[|g.dealer|].hidden && !r.dealer[|g.dealer| + 1].hidden
  {
    DealToDealer(DealToHand(DealToDealer(DealToHand(g, 0, random), true, random), 0, random), false, random)
  }

  /** startGame once the bet is accepted: take it from the balance, open one
      hand, put the freshly shuffled deck in place and deal the four opening
      cards. */
  function OpenRound(g: Game, bet: nat, deck: Shoe, random: Random): (r: Game)
    requires WellFormedShoe(deck)
    ensures WellFormedShoe(r.shoe)
  {
    var seated := g.(
      balance := g.balance - bet as real,
      inProgress := true,
      current := 0,
      hands := [Hand([], bet, Active, true, false)],
      dealer := [],
      shoe := deck);
    InitialDeal(seated, random)
  }

  /** startGame: reject a bad bet and change nothing; otherwise begin a round
      with a freshly shuffled deck. */
  function StartGame(g: Game, bet: BetInput, random: Random): (r: Game)
    ensures WellFormedShoe(g.shoe) ==> WellFormedShoe(r.shoe)
  {
    if !ValidBet(g.balance, bet) then g
    else BeginRound(g, bet.n, FreshShoe(random, g.shoe.entropyUsed), random)
  }

  /** An accepted startGame: open the round, and settle it at once on a
      two-card 21. */
  function BeginRound(g: Game, bet: nat, deck: Shoe, random: Random): (r: Game)
    requires WellFormedShoe(deck)
    ensures WellFormedShoe(r.shoe)
  {
    var dealt := OpenRound(g, bet, deck, random);
    var h := dealt.hands[0];
    if Score(h) == 21 && |h.cards| == 2 && !h.isSplitAceHand then CheckBlackjack(SetStatus(dealt, 0, Blackjack))
    else dealt
  }

  /** The natural the opening deal can produce: a two-card 21 not from a split. */
  predicate NaturalBlackjack(h: Hand) {
    h.status == Blackjack && Score(h) == 21 && |h.cards| == 2 && !h.isSplitAceHand
  }

  /** checkBlackjack: reveal the hole card; a dealer two-card 21 makes it a
      push, anything else a blackjack win; then the round ends. */
  function CheckBlackjack(g: Game): (r: Game)
    ensures !(|g.hands| > 0 && NaturalBlackjack(g.hands[0])) ==> r == g
    ensures |g.hands| > 0 && NaturalBlackjack(g.hands[0]) ==>
              && !r.inProgress && r.current == g.current && r.shoe == g.shoe
              && |r.hands| == |g.hands| && r.hands[1..] == g.hands[1..]
              && r.hands[0] == g.hands[0].(status := if DealerNatural(Reveal(g.dealer)) then Push else BlackjackWin)
  {
    if |g.hands| > 0 && NaturalBlackjack(g.hands[0]) then
      var shown := g.(dealer := Reveal(g.dealer));
      if DealerNatural(shown.dealer) then EndRound(SetStatus(shown, 0, Push), BothBlackjack)
      else EndRound(SetStatus(shown, 0, BlackjackWin), PlayerBlackjack)
    else g
  }

  // ---------------------------------------------------------------------
  // End of a round

  /** What the round pays back, settled against the dealer's final cards. */
  function RoundPayout(g: Game): real {
    TotalPayout(SettleAll(g.hands, HandScore(g.dealer), |g.dealer|))
  }

  /** endRound: stop the round, reveal the hole card if still down, pay each
      hand its settlement and put the round at the front of the history. */
  function EndRound(g: Game, reason: RoundResult): (r: Game)
    ensures r.hands == g.hands && r.current == g.current && r.shoe == g.shoe
  {
    var dealer := Reveal(g.dealer);
    var ss := SettleAll(g.hands, HandScore(dealer), |dealer|);
    g.(
      inProgress := false,
      dealer := dealer,
      balance := g.balance + TotalPayout(ss),
      history := AddRoundToHistory(g.history, RoundEntry(g.hands, dealer, reason)))
  }

  // ---------------------------------------------------------------------
  // The dealer

  /** The dealer's loop: draw face up while the score is under 17. */
  function DealerDraw(g: Game, random: Random): (r: Game)
    requires WellFormedShoe(g.shoe)
    ensures WellFormedShoe(r.shoe)
    decreases DealerStandsAt - HardTotal(g.dealer)
  {
    if HandScore(g.dealer) < DealerStandsAt then
      var next := DealToDealer(g, false, random);
      ScoreBounds(g.dealer);
      HardTotalGrows(g.dealer, DealtCard(g.shoe, random, false));
      DealerDraw(next, random)
    else g
  }

  /** dealerTurn: the drawing loop, then the end of the round. */
  function DealerTurn(g: Game, random: Random): (r: Game)
    requires WellFormedShoe(g.shoe)
    ensures WellFormedShoe(r.shoe)
  {
    var drawn := DealerDraw(g, random);
    EndRound(drawn, DealerResult(HandScore(drawn.dealer)))
  }

  /** The round line of a dealer who has drawn: busted over 21, else stands. */
  function DealerResult(final: int): RoundResult {
    if final > 21 then DealerBusted else DealerStands(final)
  }

  // ---------------------------------------------------------------------
  // Moving on from a finished hand

  /** A split-Ace hand with its two cards that has not yet been made to stand. */
  predicate ForcedStand(h: Hand) {
    h.isSplitAceHand && |h.cards| == 2 && h.status == Active
  }

  /** Some hand still needs the dealer to play: one stood, one active and not
      over 21, or one already won with a blackjack. */
  predicate AnyHandInPlay(hands: seq<Hand>) {
    || (exists k | 0 <= k < |hands| :: hands[k].status == Stood || (hands[k].status == Active && Score(hands[k]) <= 21))
    || (exists k | 0 <= k < |hands| :: hands[k].status == BlackjackWin)
  }

  /** The tail of nextHandOrDealerTurn once no hand is left: end at once when
      every hand is lost; otherwise reveal the hole card, end on a dealer
      two-card 21, or let the dealer play. */
  function Conclude(g: Game, random: Random): (r: Game)
    requires WellFormedShoe(g.shoe)
    ensures WellFormedShoe(r.shoe)
  {
    if !AnyHandInPlay(g.hands) then EndRound(g, AllBusted)
    else
      var shown := g.(dealer := Reveal(g.dealer));
      if DealerNatural(shown.dealer) then EndRound(shown, DealerBlackjack)
      else DealerTurn(shown, random)
  }

  /** nextHandOrDealerTurn: make a two-card split-Ace hand stand, move to the
      next hand; stop at an active hand (first making a two-card split-Ace
      hand stand and moving on again), skip any other hand, and once past the
      last hand go on to the dealer. */
  function Advance(g: Game, random: Random): (r: Game)
    requires OnTurn(g) && WellFormedShoe(g.shoe)
    ensures WellFormedShoe(r.shoe)
    decreases |g.hands| - g.current
  {
    var i := g.current;
    var g1 := if ForcedStand(g.hands[i]) then SetStatus(g, i, Stood) else g;
    var next := i + 1;
    var g2 := g1.(current := next);
    if next < |g2.hands| then
      var h := g2.hands[next];
      if h.status == Active then
        if h.isSplitAceHand && |h.cards| == 2 then Advance(SetStatus(g2, next, Stood), random)
        else g2
      else Advance(g2, random)
    else Conclude(g2, random)
  }

  // ---------------------------------------------------------------------
  // Player actions on the current hand

  /** The guard of playerHit. */
  predicate CanHit(g: Game) {
    OnTurn(g) && g.hands[g.current].status == Active && !g.hands[g.current].isSplitAceHand
  }

  /** The guard of playerStand. */
  predicate CanStand(g: Game) {
    OnTurn(g) && g.hands[g.current].status == Active
  }

  /** The guards of playerDoubleDown, the balance check included. */
  predicate CanDoubleDown(g: Game) {
    && OnTurn(g)
    && var h := g.hands[g.current];
    && h.status == Active && h.canDouble && !h.isSplitAceHand
    && g.balance >= h.bet as real
  }

  /** The guards of playerSplit, the balance check included. */
  predicate CanSplit(g: Game) {
    && OnTurn(g)
    && var h := g.hands[g.current];
    && h.status == Active && |h.cards| == 2 && h.cards[0].value == h.cards[1].value
    && g.balance >= h.bet as real
  }

  /** playerHit: one face-up card; over 21 busts and 21 stands, both moving
      on; under 21 the hand stays active and current. */
  function PlayerHit(g: Game, random: Random): (r: Game)
    requires WellFormedShoe(g.shoe)
    ensures WellFormedShoe(r.shoe)
  {
    if !CanHit(g) then g
    else
      var i := g.current;
      var g1 := DealToHand(g.(hands := g.hands[i := g.hands[i].(canDouble := false)]), i, random);
      var score := Score(g1.hands[i]);
      if score > 21 then Advance(SetStatus(g1, i, Busted), random)
      else if score == 21 then Advance(SetStatus(g1, i, Stood), random)
      else g1
  }

  /** playerStand: the hand stands and play moves on. */
  function PlayerStand(g: Game, random: Random): (r: Game)
    requires WellFormedShoe(g.shoe)
    ensures WellFormedShoe(r.shoe)
  {
    if !CanStand(g) then g
    else
      var i := g.current;
      Advance(g.(hands := g.hands[i := g.hands[i].(status := Stood, canDouble := false)]), random)
  }

  /** playerDoubleDown: take the bet again, double it, deal exactly one card,
      and leave the hand stood or busted while play moves on. */
  function PlayerDoubleDown(g: Game, random: Random): (r: Game)
    requires WellFormedShoe(g.shoe)
    ensures WellFormedShoe(r.shoe)
  {
    if !CanDoubleDown(g) then g else Advance(DoubleAndDeal(g, random), random)
  }

  /** The doubled hand before play moves on: bet taken again and doubled, one
      card dealt, stood or busted. */
  function DoubleAndDeal(g: Game, random: Random): (r: Game)
    requires CanDoubleDown(g) && WellFormedShoe(g.shoe)
    ensures WellFormedShoe(r.shoe) && OnTurn(r) && r.current == g.current && |r.hands| == |g.hands|
  {
    var i := g.current;
    var h := g.hands[i];
    var g1 := g.(balance := g.balance - h.bet as real, hands := g.hands[i := h.(bet := 2 * h.bet, canDouble := false)]);
    var g2 := DealToHand(g1, i, random);
    var st := if Score(g2.hands[i]) > 21 then Busted else Stood;
    SetStatus(g2, i, st)
  }

  /** After a split deal: a split-Ace hand that makes 21 with two cards stands. */
  function StandOnSplitAce21(g: Game, i: nat, aces: bool): (r: Game)
    requires i < |g.hands|
  {
    if Score(g.hands[i]) == 21 && |g.hands[i].cards| == 2 && aces then SetStatus(g, i, Stood) else g
  }

  /** A card to one of the split hands; a split-Ace hand that makes 21 with
      two cards stands. */
  function DealSplitHand(g: Game, i: nat, aces: bool, random: Random): (r: Game)
    requires i < |g.hands|
    ensures |r.hands| == |g.hands| && r.current == g.current
    ensures WellFormedShoe(g.shoe) ==> WellFormedShoe(r.shoe)
  {
    StandOnSplitAce21(DealToHand(g, i, random), i, aces)
  }

  /** The hands right after the pair is parted, before either gets a card. */
  function PartedHands(hands: seq<Hand>, i: nat): (r: seq<Hand>)
    requires i < |hands| && |hands[i].cards| == 2
    ensures |r| == |hands| + 1 && r[..i] == hands[..i] && r[i + 2..] == hands[i + 1..]
    ensures r[i].cards == [hands[i].cards[0]] && r[i + 1].cards == [Face(hands[i].cards[1])]
    ensures r[i].bet == r[i + 1].bet == hands[i].bet
  {
    var h := hands[i];
    var aces := h.cards[0].isAce;
    var kept := h.(cards := [h.cards[0]], canDouble := !aces, isSplitAceHand := aces);
    var moved := Hand([Face(h.cards[1])], h.bet, Active, !aces, aces);
    hands[..i] + [kept, moved] + hands[i + 1..]
  }

  /** The body of playerSplit up to moving on: take a second bet, move the
      second card to a new hand right after the current one, deal one card to
      each (current first), and make split-Ace hands stand. */
  function SplitAndDeal(g: Game, random: Random): (r: Game)
    requires CanSplit(g) && WellFormedShoe(g.shoe)
    ensures WellFormedShoe(r.shoe) && OnTurn(r) && |r.hands| == |g.hands| + 1 && r.current == g.current
  {
    var i := g.current;
    var h := g.hands[i];
    var aces := h.cards[0].isAce;
    var g1 := g.(balance := g.balance - h.bet as real, hands := PartedHands(g.hands, i));
    var g3 := DealSplitHand(DealSplitHand(g1, i, aces, random), i + 1, aces, random);
    if g3.hands[i].isSplitAceHand && |g3.hands[i].cards| == 2 then SetStatus(g3, i, Stood) else g3
  }

  /** playerSplit: part the pair and deal to both hands; a pair of Aces makes
      two split-Ace hands that stand at once, and play moves on. */
  function PlayerSplit(g: Game, random: Random): (r: Game)
    requires WellFormedShoe(g.shoe)
    ensures WellFormedShoe(r.shoe)
  {
    if !CanSplit(g) then g
    else
      var g4 := SplitAndDeal(g, random);
      var i := g.current;
      if g4.hands[i].isSplitAceHand && g4.hands[i].status == Stood then Advance(g4, random) else g4
  }
}
