# Blackjack rules engine, modelled in Dafny

This project models the rules engine of a single-player browser blackjack
game (`ubuntu/blackjack_game/script.js`) and proves properties of it. The
model covers:

- the 52-card deck and its Fisher–Yates shuffle;
- the shoe that refills itself when a deal finds it empty;
- hand scoring with flexible Aces and face-down cards skipped;
- the round state machine: `startGame`, `playerHit`, `playerStand`,
  `playerDoubleDown`, `playerSplit`, `nextHandOrDealerTurn`, `dealerTurn`
  and `checkBlackjack`;
- the per-hand settlement chain of `endRound`;
- the ten-entry round history;
- the enablement predicates of `updateButtonStates`.

The program keeps its state in globals and chains its steps through
`async`/`await` around the card animations. The handlers refresh the buttons
only after those waits, so a click during an animation can start a second
command on a half-finished one. The model runs each command to completion
before the next: it puts the state in one immutable `Game` value and makes
each step a pure function from one state to the next. `Math.random` becomes an oracle `random: nat -> nat` passed to every
command. The shoe counts how many oracle values it has consumed.

Modules, one per file, leaf to root:

| module | file | what it holds |
|---|---|---|
| `Cards` | cards.dfy | suits, ranks, `getCardValue`, the unshuffled deck |
| `Shuffling` | shuffling.dfy | Fisher–Yates over a sequence of picks, and its loop |
| `Scoring` | scoring.dfy | `calculateHandScore` and what it computes |
| `Shoes` | shoes.dfy | the draw pile, drawing, and the refill |
| `Hands` | hands.dfy | a player hand, bet totals, the dealer's reveal |
| `Payouts` | payouts.dfy | the settlement chain of `endRound` |
| `History` | history.dfy | `addRoundToHistory` and the entry it records |
| `Engine` | engine.dfy | the game state and every transition |
| `Rules` | rules.dfy | what each transition does, as lemmas |
| `Invariants` | invariants.dfy | the state invariant and money conservation |
| `Controls` | controls.dfy | `updateButtonStates` against the handlers' guards |
| `Session` | session.dfy | command sequences from a fresh session |

The main results:

- The score is the visible total, less 10 for each of the least number of
  Aces whose lowering brings it to 21 or below (or all of them).
- The shuffle permutes the deck, and every sequence of picks is reachable
  from some oracle.
- The opening deal gives the player the pile's top and third cards. The
  dealer gets the second card face down and the fourth face up.
- A player natural ends the round at once: the hole card is turned, and the
  hand pushes against a dealer natural and otherwise wins 3:2.
- Each player action is stated exactly: cards, bet, status, the hands it
  leaves alone, and where the turn goes: past the finished hands (standing a
  two-card split-Ace hand on the way) to the next playable hand, or to the
  dealer after the last.
- The dealer only draws below 17 and stands on 17 or more.
- Moving on, and the dealer's loop, always terminate.
- Every state a command sequence reaches satisfies an invariant:
  - the balance is never negative;
  - the history holds at most ten rounds;
  - only the hole card is ever face down;
  - the turn is on a playable hand.
- Money is conserved. While a round runs, the balance plus the bets on the
  table equals the balance before the bet. At the end of the round, the
  balance gains exactly the sum of the per-hand payouts.

The code is followed where it departs from the usual reading of its rules:

- A stood 21 made with more than two cards ties a dealer's two-card 21 and
  gets its bet back. The code's tie case at line 898 comes before its
  dealer-blackjack case at line 927, so the hand never loses. The usual
  rule that a dealer natural beats every non-natural hand does not hold here
  (`Payouts.StoodTwentyOneAgainstDealerBlackjack`).
- `playerDoubleDown` does not demand exactly two cards.
- `playerSplit` does not refuse a split-Ace hand.
- `playerHit` accepts a hand on 21.

Only the buttons add those checks (`Controls`).

## Model

| member | source | states |
|---|---|---|
| Cards.CardValue | ubuntu/blackjack_game/script.js:276-280 | a valid rank's value lies in 2..11, and it is 11 exactly for the Ace |
| Cards.NewDeck | ubuntu/blackjack_game/script.js:263-271 | the deck has 52 cards, every one well formed (value matches rank, Ace flag iff Ace) and face up |
| Cards.NewDeckDistinct | ubuntu/blackjack_game/script.js:263-271 | no two cards of the deck are equal |
| Cards.NewDeckComplete | ubuntu/blackjack_game/script.js:263-271 | every suit and valid rank occurs in the deck |
| Shuffling.Swap | ubuntu/blackjack_game/script.js:285 | the destructuring swap keeps the length |
| Shuffling.SwapPermutes | ubuntu/blackjack_game/script.js:285 | a swap keeps the multiset of cards |
| Shuffling.ShuffleFromPermutes | ubuntu/blackjack_game/script.js:283-286 | the loop from index i downward keeps length and multiset |
| Shuffling.FisherYatesPermutes | ubuntu/blackjack_game/script.js:282-287 | the whole shuffle is a permutation of the deck |
| Shuffling.ShuffleDeck | ubuntu/blackjack_game/script.js:282-287 | the in-place loop computes the functional shuffle, so its result is a permutation of the deck |
| Shoes.Picks | ubuntu/blackjack_game/script.js:283-284 | the pick for index i, drawn from the oracle, lies in 0..i |
| Shoes.PicksCoverAllChoices | ubuntu/blackjack_game/script.js:283-284 | every sequence of picks with pick i in 0..i comes from some oracle, so no shuffle is excluded |
| Shoes.FreshShoe | ubuntu/blackjack_game/script.js:263-287 | a freshly built, shuffled deck has 52 well-formed, face-up cards and consumes 51 oracle values |
| Shoes.FreshShoeIsDeck | ubuntu/blackjack_game/script.js:263-287 | the fresh shoe holds exactly the cards of the unshuffled deck |
| Shoes.Draw | ubuntu/blackjack_game/script.js:505-515 | a nonempty pile gives its last card and keeps the rest in order; the drawn card and the rest make up the pile; drawing keeps the pile well formed |
| Shoes.DrawRefills | ubuntu/blackjack_game/script.js:505-515 | an empty pile is refilled with a full new deck first: the card drawn and the 51 left make up the 52-card deck |
| Scoring.SoftenLowersLeast | ubuntu/blackjack_game/script.js:297-300 | the lowering loop subtracts 10 for the least number of Aces that brings the total to 21 or below, or for all of them |
| Scoring.LeastLoweringUnique | ubuntu/blackjack_game/script.js:297-300 | that least number is unique |
| Scoring.ScoreIsLeastLowering | ubuntu/blackjack_game/script.js:289-302 | a value is the score iff it is the visible total less 10 per Ace for the least such lowering (both directions) |
| Scoring.SoftenBounds | ubuntu/blackjack_game/script.js:297-300 | the loop result lies between the all-Aces-low total and the total, and over 21 it has lowered every Ace |
| Scoring.ScoreBounds | ubuntu/blackjack_game/script.js:289-302 | the score lies between the all-Aces-low total and the visible total; a score over 21 counts every Ace as 1 |
| Scoring.AppendCard | ubuntu/blackjack_game/script.js:292-296 | adding a card changes the visible sums by that card alone, nothing when it is face down |
| Scoring.HardTotalGrows | ubuntu/blackjack_game/script.js:292-296 | a well-formed face-up card raises the all-Aces-low total by at least 1 |
| Scoring.ScoreExamples | ubuntu/blackjack_game/script.js:289-302 | Ace, Ace, 9 scores 21; Ace, 6 scores 17; King, Queen, 5 scores 25 |
| Scoring.Visible | ubuntu/blackjack_game/script.js:293 | the face-up cards of a hand: exactly the cards of the hand that are not hidden, each no more often than in the hand |
| Scoring.ScoreIgnoresHidden | ubuntu/blackjack_game/script.js:289-302 | a hand and its face-up cards have the same sums and the same score |
| Scoring.CalculateHandScore | ubuntu/blackjack_game/script.js:289-302 | the two loops compute the score, a least lowering of the visible total |
| Hands.TotalBetsReplace | ubuntu/blackjack_game/script.js:665-666 | replacing one hand changes the bets on the table by the difference of the two bets |
| Hands.FirstHidden | ubuntu/blackjack_game/script.js:874 | `find(card => card.hidden)`: the first face-down card, every earlier card face up |
| Hands.Reveal | ubuntu/blackjack_game/script.js:874-876 | only the first face-down card changes, turned face up; every card keeps its face |
| Hands.RevealShowsAll | ubuntu/blackjack_game/script.js:874-876 | with at most one face-down card, the reveal leaves none |
| History.AddRoundToHistory | ubuntu/blackjack_game/script.js:152-155 | the new entry is first, followed by the old history less its oldest entry once over ten |
| History.HistoryBounded | ubuntu/blackjack_game/script.js:152-155 | a history of at most ten stays at most ten; a full one drops its last entry |
| History.RecordAllKeepsLatest | ubuntu/blackjack_game/script.js:152-155 | after any number of rounds the history holds the latest ten (or fewer), newest first |
| History.Records | ubuntu/blackjack_game/script.js:940-942 | one record per hand with its cards, score, bet and settlement tag |
| History.Summary | ubuntu/blackjack_game/script.js:945-950 | one hand keeps the caller's reason; several hands give "won" iff some hand won, "pushed every hand" iff no hand won or was decided and none busted, and "lost or pushed" otherwise |
| Payouts.Settle | ubuntu/blackjack_game/script.js:889-940 | blackjack win pays 2.5 x bet; busted 0; push or a tie at 21 or below gives the bet back; a stood hand wins 2 x bet against a dealer bust or a lower dealer score, and gets 0 against a higher one |
| Payouts.DeadBranches | ubuntu/blackjack_game/script.js:919-937 | the split-Ace-21 win and both dealer-blackjack losses are never reached, and the dealer's card count never changes a settlement |
| Payouts.StoodTwentyAgainstDealerBlackjack | ubuntu/blackjack_game/script.js:915-918 | a stood 20 against a two-card dealer 21 is a plain loss |
| Payouts.StoodTwentyOneAgainstDealerBlackjack | ubuntu/blackjack_game/script.js:898-900 | a stood 21 against a two-card dealer 21 gets its bet back |
| Payouts.SettleAll | ubuntu/blackjack_game/script.js:885-943 | every hand is settled on its own against the same dealer result |
| Payouts.TotalPayoutBounds | ubuntu/blackjack_game/script.js:889-921 | settlement never takes money and pays at most 2.5 x the bets on the table |
| Engine.NewSession | ubuntu/blackjack_game/script.js:24-34 | with nothing saved: balance 10000, no round running, no hands, empty history |
| Engine.DealToHand | ubuntu/blackjack_game/script.js:515-524 | a deal to a player hand appends one face-up card and changes no other hand |
| Engine.DealToDealer | ubuntu/blackjack_game/script.js:515-524 | a deal to the dealer changes only the pile and the dealer's cards: one card with the requested face goes on the end, a well-formed card when the pile is |
| Engine.InitialDeal | ubuntu/blackjack_game/script.js:617-620 | only the pile, the hands and the dealer change: two cards on the end of the first hand, two on the dealer's (the first face down, the second face up), every other hand kept; the order is Rules.InitialDealOrder |
| Engine.OpenRound | ubuntu/blackjack_game/script.js:598-620 | the pile stays well formed; the deal is stated by Rules.OpenRoundDeal |
| Engine.StartGame | ubuntu/blackjack_game/script.js:590-632 | the pile stays well formed; the rules are stated by Rules.StartGameRejects and Rules.StartGameAccepts |
| Engine.BeginRound | ubuntu/blackjack_game/script.js:598-631 | the pile stays well formed; the rules are stated by Rules.BeginRoundDeal |
| Engine.CheckBlackjack | ubuntu/blackjack_game/script.js:846-868 | without a natural on the first hand nothing changes; with one the round ends with the turn, the pile and the other hands kept and that hand a push against a dealer two-card 21 and a blackjack win otherwise; the payout is Rules.NaturalSettles |
| Engine.EndRound | ubuntu/blackjack_game/script.js:870-957 | the hands, the turn and the pile are untouched; the rest is Rules.EndRoundSettles |
| Engine.DealerDraw | ubuntu/blackjack_game/script.js:826-836 | the loop terminates and keeps the pile well formed; its rule is Rules.DealerDrawSpec |
| Engine.DealerTurn | ubuntu/blackjack_game/script.js:825-844 | the pile stays well formed; its rule is Rules.DealerTurnSpec |
| Engine.DealerResult | ubuntu/blackjack_game/script.js:837-842 | the dealer's round line: busted over 21, otherwise standing on the score; used by Rules.DealerTurnSpec |
| Engine.Conclude | ubuntu/blackjack_game/script.js:799-822 | the pile stays well formed; its rule is Rules.ConcludeEnds |
| Engine.Advance | ubuntu/blackjack_game/script.js:772-797 | the walk terminates and keeps the pile well formed; its rule is Rules.AdvanceMovesOn |
| Engine.CanHit | ubuntu/blackjack_game/script.js:635-636 | the guard of playerHit: a round running, the turn on an active hand that is not a split-Ace hand |
| Engine.CanStand | ubuntu/blackjack_game/script.js:687-688 | the guard of playerStand: a round running, the turn on an active hand |
| Engine.CanDoubleDown | ubuntu/blackjack_game/script.js:657-662 | the guards of playerDoubleDown: an active, doublable hand that is not a split-Ace hand, and a balance that covers the bet |
| Engine.CanSplit | ubuntu/blackjack_game/script.js:698-706 | the guards of playerSplit: an active two-card hand of equal values, and a balance that covers the bet |
| Engine.PlayerHit | ubuntu/blackjack_game/script.js:634-654 | the pile stays well formed; its rule is Rules.HitSpec |
| Engine.PlayerStand | ubuntu/blackjack_game/script.js:686-695 | the pile stays well formed; its rule is Rules.StandSpec |
| Engine.PlayerDoubleDown | ubuntu/blackjack_game/script.js:656-684 | the pile stays well formed; its rule is Rules.DoubleDownSpec |
| Engine.DoubleAndDeal | ubuntu/blackjack_game/script.js:665-681 | the doubled hand keeps the turn and the hand count; its rule is Rules.DoubledHand |
| Engine.DealSplitHand | ubuntu/blackjack_game/script.js:737-754 | a deal to a split hand keeps the hand count and the turn |
| Engine.PartedHands | ubuntu/blackjack_game/script.js:712-726 | the pair is parted in place: the hands before and after are kept, the current hand keeps the first card, the new hand right after it holds the second, both with the bet |
| Engine.SplitAndDeal | ubuntu/blackjack_game/script.js:709-762 | one more hand, the turn unchanged and the round running; its rule is Rules.SplitAndDealSpec |
| Engine.PlayerSplit | ubuntu/blackjack_game/script.js:697-770 | the pile stays well formed; its rule is Rules.SplitSpec |
| Rules.StartGameRejects | ubuntu/blackjack_game/script.js:592-596 | a bet that is NaN, not positive or over the balance leaves the state unchanged |
| Rules.DealToHandTop | ubuntu/blackjack_game/script.js:515-524 | from a nonempty pile, the player's new card is the pile's last card, face up, and the pile loses it |
| Rules.DealToDealerTop | ubuntu/blackjack_game/script.js:515-524 | from a nonempty pile, the dealer's new card is the pile's last card with the requested face |
| Rules.DealPair | ubuntu/blackjack_game/script.js:617-620 | a player deal then a dealer deal take the pile's last and second-to-last cards |
| Rules.InitialDealOrder | ubuntu/blackjack_game/script.js:617-620 | the four opening cards go player, dealer face down, player, dealer face up, from the top of the pile |
| Rules.OpenRoundDeal | ubuntu/blackjack_game/script.js:598-620 | an accepted bet leaves the balance; one active, doublable hand with that bet; the hand holds deck cards 52 and 50, the dealer 51 (face down) and 49; 48 cards remain |
| Rules.RevealHoleCard | ubuntu/blackjack_game/script.js:874-876 | with only the hole card face down, the reveal leaves every card face up and otherwise unchanged |
| Rules.EndRoundSettles | ubuntu/blackjack_game/script.js:870-957 | the round stops, the hole card is shown, the balance gains the sum of the settlements (between nothing and 2.5 x the bets) and the history gets the round's entry first |
| Rules.NaturalSettles | ubuntu/blackjack_game/script.js:846-868 | a natural pushes against a dealer two-card 21 (bet back) and otherwise wins 2.5 x bet; the round ends with the hole card shown and recorded |
| Rules.BeginRoundDeal | ubuntu/blackjack_game/script.js:598-631 | with a full face-up deck: the player gets cards 52 and 50 and the dealer 51 and 49, 48 cards remain; without a player 21 the round waits on hand 0 with the hole card down and the bet off the balance; with one it ends at once, hole card shown, as a push (bet back) against a dealer natural and otherwise a 3:2 win, and is recorded |
| Rules.StartGameAccepts | ubuntu/blackjack_game/script.js:590-632 | a valid bet opens a round from a fresh shuffled deck: the same deal, the same waiting round without a natural, the same immediate push or 3:2 win with one |
| Rules.DealerDrawSpec | ubuntu/blackjack_game/script.js:826-836 | the dealer ends on 17 or more, every card was drawn while under 17, and a dealer already on 17 or more draws nothing |
| Rules.DealerTurnSpec | ubuntu/blackjack_game/script.js:825-844 | the dealer keeps its cards and draws to 17 or more, then the round is settled with the dealer's result |
| Rules.ConcludeFrame | ubuntu/blackjack_game/script.js:799-822 | concluding ends the round and leaves the hands and the turn alone |
| Rules.ConcludePays | ubuntu/blackjack_game/script.js:799-822 | concluding adds exactly the round's payout to the balance |
| Rules.ConcludeEnds | ubuntu/blackjack_game/script.js:799-822 | concluding reveals the hole card, only adds dealer cards after it, pays the round and records one entry |
| Rules.ConcludeAllLost | ubuntu/blackjack_game/script.js:799-804 | with no hand in play the dealer draws nothing and the round records "all busted" |
| Rules.ConcludeDealerNatural | ubuntu/blackjack_game/script.js:806-818 | a revealed two-card 21 ends the round at once as a dealer blackjack |
| Rules.ConcludeDealerPlays | ubuntu/blackjack_game/script.js:806-822 | otherwise the dealer plays to 17 or more and the round records the dealer's result |
| Rules.LandingShape | ubuntu/blackjack_game/script.js:773-787 | one step of the walk changes only the two hands it touches, and only their status |
| Rules.MovedOnStep | ubuntu/blackjack_game/script.js:784-794 | a step over a finished or forced-stand hand composes with the rest of the walk |
| Rules.AdvanceCases | ubuntu/blackjack_game/script.js:772-797 | the walk concludes after the last hand, passes finished or two-card split-Ace hands, and stops on any other active hand |
| Rules.AdvanceMovesOn | ubuntu/blackjack_game/script.js:772-797 | moving on only changes statuses, moves the turn strictly forward, and passes every hand in between |
| Rules.AdvanceStops | ubuntu/blackjack_game/script.js:772-823 | the walk stops on an active hand that is not a forced stand, changing nothing but hands and turn, or runs past the last hand and concludes |
| Rules.AdvanceStopsOnHand | ubuntu/blackjack_game/script.js:780-792 | where the walk stops with the round running, as above |
| Rules.AdvanceConcludes | ubuntu/blackjack_game/script.js:779-804 | where the walk runs past the last hand, as above |
| Rules.AdvanceSettles | ubuntu/blackjack_game/script.js:772-823 | moving on keeps the bets; the balance changes only at the conclusion, by the payout |
| Rules.RefusedCommands | ubuntu/blackjack_game/script.js:634-706 | a hit, stand, double or split that its guard rejects leaves the state unchanged |
| Rules.WalkFrom | ubuntu/blackjack_game/script.js:772-823 | a walk from a state that differs only at the turn's hand passes the later finished hands, keeps the hands from its landing on, and lands on an active, unforced hand or past the last |
| Rules.HitSpec | ubuntu/blackjack_game/script.js:634-654 | one face-up card and no more doubling; over 21 busts, 21 stands (both move the turn on to the next playable hand or to the dealer, as Rules.WalkedOn states), below 21 stays active with the turn |
| Rules.StandSpec | ubuntu/blackjack_game/script.js:686-695 | the hand stands, can no longer double, and the turn moves on to the next playable hand or to the dealer, as Rules.WalkedOn states |
| Rules.DoubleDownSpec | ubuntu/blackjack_game/script.js:656-684 | the bet doubles, the balance pays it again, exactly one card is dealt, the hand ends stood or busted and the turn moves on to the next playable hand or to the dealer, as Rules.WalkedOn states |
| Rules.DoubledHand | ubuntu/blackjack_game/script.js:665-681 | before moving on, only the doubled hand, the balance and the pile change |
| Rules.PartedHandsBets | ubuntu/blackjack_game/script.js:718-726 | parting adds a second bet equal to the first to the table |
| Rules.DealSplitHandSpec | ubuntu/blackjack_game/script.js:738-753 | a card to a split hand changes only that hand, standing it on a two-card 21 from Aces |
| Rules.SplitAndDealHands | ubuntu/blackjack_game/script.js:712-762 | the hands after the split, card by card |
| Rules.SplitAndDealFrame | ubuntu/blackjack_game/script.js:709-747 | the split takes one bet from the balance and two cards from the pile, and nothing else |
| Rules.SplitAndDealSpec | ubuntu/blackjack_game/script.js:709-762 | both hands hold two cards and the bet; Aces make split-Ace hands that cannot double (the current one stood), other pairs two active doublable hands |
| Rules.SplitSpec | ubuntu/blackjack_game/script.js:759-769 | a non-Ace split keeps the turn; an Ace split leaves both hands stood and moves on as nextHandOrDealerTurn does, to the next playable hand or to the dealer, as Rules.WalkedOn states |
| Rules.AdvancePastSplitAces | ubuntu/blackjack_game/script.js:764-787 | moving on from a stood hand passes its two-card split-Ace neighbour, standing it |
| Rules.PassedSplitAce | ubuntu/blackjack_game/script.js:772-787 | any walk that moves on from a stood hand and stops only on an active, unforced hand skips the two-card split-Ace neighbour and leaves it stood |
| Invariants.NewSessionInv | ubuntu/blackjack_game/script.js:24-34 | the fresh session satisfies the invariant |
| Invariants.StoppedInv | ubuntu/blackjack_game/script.js:780-792 | where the walk stops, the hand and every later one is playable |
| Invariants.ConcludedInv | ubuntu/blackjack_game/script.js:870-957 | a concluded round leaves a consistent table: balance not negative, history at most ten, dealer face up |
| Invariants.AdvanceInv | ubuntu/blackjack_game/script.js:772-823 | moving on keeps the invariant |
| Invariants.BeginRoundInv | ubuntu/blackjack_game/script.js:598-631 | opening a round with any full deck keeps the invariant |
| Invariants.OpenedInv | ubuntu/blackjack_game/script.js:598-631 | a round dealt as the opening deal deals it, running or ended by a natural, satisfies the invariant |
| Invariants.StartGameInv | ubuntu/blackjack_game/script.js:590-632 | startGame keeps the invariant |
| Invariants.HitInv | ubuntu/blackjack_game/script.js:634-654 | playerHit keeps the invariant |
| Invariants.StandInv | ubuntu/blackjack_game/script.js:686-695 | playerStand keeps the invariant |
| Invariants.DoubleDownInv | ubuntu/blackjack_game/script.js:656-684 | playerDoubleDown keeps the invariant, the balance check keeping the balance non-negative |
| Invariants.SplitInv | ubuntu/blackjack_game/script.js:697-770 | playerSplit keeps the invariant |
| Invariants.SplitDealtTable | ubuntu/blackjack_game/script.js:703-710 | the split's balance check keeps the balance non-negative |
| Invariants.SplitDealtReady | ubuntu/blackjack_game/script.js:712-762 | after the split the hands from the turn on are playable, except the split-Ace partner |
| Invariants.AdvanceAccounts | ubuntu/blackjack_game/script.js:772-823 | moving on keeps balance plus bets, or pays the round at the end |
| Invariants.BeginRoundAccounts | ubuntu/blackjack_game/script.js:598-631 | money is conserved: a running round holds the bet on the table, taken from the balance; a round a natural has ended leaves balance plus bets equal to the old balance plus the round's payout |
| Invariants.StartGameAccounts | ubuntu/blackjack_game/script.js:593-598 | an accepted bet keeps the money accounted for |
| Invariants.HitAccounts | ubuntu/blackjack_game/script.js:634-654 | a hit keeps balance plus bets, or pays the round |
| Invariants.StandAccounts | ubuntu/blackjack_game/script.js:686-695 | a stand keeps balance plus bets, or pays the round |
| Invariants.DoubleDownAccounts | ubuntu/blackjack_game/script.js:659-666 | doubling moves a second bet from the balance to the table |
| Invariants.SplitAccounts | ubuntu/blackjack_game/script.js:703-726 | splitting moves a second bet from the balance to the new hand |
| Invariants.SplitMoney | ubuntu/blackjack_game/script.js:709-726 | balance plus bets is the same before and after the split's deal |
| Controls.EnabledIsAccepted | ubuntu/blackjack_game/script.js:972-997 | an enabled hit, stand, double or split button always reaches a handler that accepts it |
| Controls.ButtonsMatchHandlers | ubuntu/blackjack_game/script.js:985-994 | in a reachable state, stand and split are enabled iff accepted; hit and double iff accepted and the score is below 21 |
| Controls.KingAceAfterSplit | ubuntu/blackjack_game/script.js:697-751 | a state satisfying the invariant, of the shape a split of two Kings leaves in a session's first round (reachability is not proved): King-Ace on the turn, King-Five waiting, two bets of 10 off 10000, the undealt rest of the deck as the pile |
| Controls.HitAndDoubleOnTwentyOne | ubuntu/blackjack_game/script.js:985-987 | there, the hit and double buttons are disabled though both handlers accept |
| Session.Step | ubuntu/blackjack_game/script.js:1012-1016 | a button press runs its handler, keeping the pile well formed |
| Session.Run | ubuntu/blackjack_game/script.js:1012-1016 | a sequence of presses keeps the pile well formed |
| Session.StepInv | ubuntu/blackjack_game/script.js:1012-1016 | every command keeps the invariant |
| Session.RunInv | ubuntu/blackjack_game/script.js:1012-1016 | every sequence of commands keeps the invariant |
| Session.SessionBounds | ubuntu/blackjack_game/script.js:24-34 | from a fresh session the balance is never negative and the history never exceeds ten rounds |
| Session.ActionAccounts | ubuntu/blackjack_game/script.js:634-770 | each player action keeps balance plus bets, or pays exactly the round's payout |

## Left out

- Canvas drawing, layout, GSAP animation, `setTimeout` pacing and card
  positions: presentation only. The `Math.random` card rotation is visual.
- Audio and on-screen messages: side-effect cues with no effect on state.
- Persistence (`saveData`, `loadData`, `resetBalance`), theme, avatars and
  history rendering: browser I/O and UI. A session starts from the state
  with nothing saved (`Engine.NewSession`).
- The exit button handler (1017-1025) and the rest of the DOM wiring: UI.
  `Session` covers only the five command buttons.
- `Math.random`: replaced by the oracle. Uniformity of the shuffle is a
  statement about probabilities and is not modelled; `Shoes.PicksCoverAllChoices`
  shows instead that every pick sequence is reachable.
- The history timestamp and the card text formatting: locale and text. An
  entry keeps cards, scores, bets, tags and the result as data.
- The "critical error" path of `animatedDeal` (509-512): the refill always
  yields 52 cards, so it cannot be taken.
- Stored scores (`hand.score`, `dealerScore`): every path recomputes them
  right after changing the cards, so the model derives them from the cards.
- Clicks during an animation: the handlers refresh the buttons only after
  their waits, so a second click can re-enter a handler (a second hit on the
  same hand, or a second move to the next hand). The model runs each command
  to completion before the next, so these interleavings are not modelled.
- The balance and the bets are JavaScript numbers (doubles) in the program
  and exact `real`s and `nat`s in the model. Bets are whole and payouts are
  1, 2 or 2.5 times a bet, so every amount is a multiple of 0.5, which a
  double holds exactly below 2^52. Rounding past that size is not modelled;
  the model does not bound the balance.
- `parseInt` of the bet field: modelled as `BetInput`, a number or NaN.
- A command on a hand index past the end of the list (a TypeError in the
  browser): modelled as a refused command. No button reaches it.
- `startGame` does not check that no round is running; only the disabled
  button prevents that. The model follows the handler, so a mid-round start
  abandons the bets on the table. `Invariants.StartGameInv` holds anyway.
- Engine.OpenRound: its own contract only keeps the pile well formed, because the deal is stated by Rules.OpenRoundDeal.
- Engine.InitialDeal: its own contract gives only the shape, because which cards go where is stated by Rules.InitialDealOrder.
- Engine.StartGame: its own contract only keeps the pile well formed, because the rules are stated by Rules.StartGameRejects and Rules.StartGameAccepts.
- Engine.BeginRound: its own contract only keeps the pile well formed, because the rules are stated by Rules.BeginRoundDeal.
- Engine.CheckBlackjack: its own contract gives the hands and the end of the round, because the reveal, the payout and the history entry are stated by Rules.NaturalSettles.
- Engine.EndRound: its own contract only gives the frame, because settlement is stated by Rules.EndRoundSettles.
- Engine.DealerDraw: its own contract only keeps the pile well formed, because the drawing rule is stated by Rules.DealerDrawSpec.
- Engine.DealerTurn: its own contract only keeps the pile well formed, because the rule is stated by Rules.DealerTurnSpec.
- Engine.DealerResult: it has no contract of its own, because the dealer's round line is stated by Rules.DealerTurnSpec and Rules.ConcludeDealerPlays.
- Engine.Conclude: its own contract only keeps the pile well formed, because the rule is stated by Rules.ConcludeEnds and its case lemmas.
- Engine.Advance: its own contract only keeps the pile well formed, because the walk is stated by Rules.AdvanceMovesOn and Rules.AdvanceStops.
- Engine.PlayerHit: its own contract only keeps the pile well formed, because the rule is stated by Rules.HitSpec.
- Engine.PlayerStand: its own contract only keeps the pile well formed, because the rule is stated by Rules.StandSpec.
- Engine.PlayerDoubleDown: its own contract only keeps the pile well formed, because the rule is stated by Rules.DoubleDownSpec.
- Engine.DoubleAndDeal: its own contract gives only the shape, because the hand is stated by Rules.DoubledHand.
- Engine.DealSplitHand: its own contract gives only the shape, because the hand is stated by Rules.DealSplitHandSpec.
- Engine.SplitAndDeal: its own contract gives only the shape, because the hands are stated by Rules.SplitAndDealSpec.
- Engine.PlayerSplit: its own contract only keeps the pile well formed, because the rule is stated by Rules.SplitSpec.
- Engine.CanHit: a guard predicate with no contract of its own, because what it admits is stated by Rules.RefusedCommands (refusal), Rules.HitSpec (acceptance) and Controls.ButtonsMatchHandlers (against the button).
- Engine.CanStand: a guard predicate with no contract of its own, because what it admits is stated by Rules.RefusedCommands, Rules.StandSpec and Controls.ButtonsMatchHandlers.
- Engine.CanDoubleDown: a guard predicate with no contract of its own, because what it admits is stated by Rules.RefusedCommands, Rules.DoubleDownSpec and Controls.ButtonsMatchHandlers.
- Engine.CanSplit: a guard predicate with no contract of its own, because what it admits is stated by Rules.RefusedCommands, Rules.SplitSpec and Controls.ButtonsMatchHandlers.
- Session.Step: its own contract only keeps the pile well formed, because the invariant is stated by Session.StepInv.
- Session.Run: its own contract only keeps the pile well formed, because the invariant is stated by Session.RunInv.
