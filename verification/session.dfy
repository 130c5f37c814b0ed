/** A session: the commands the player issues, one after another, from the
    state with nothing saved. The invariant holds after any sequence of them,
    so the balance is never negative and the history never holds more than
    ten rounds. */
module Session {
  import opened Shoes
  import opened History
  import opened Engine
  import opened Invariants

  /** A click on one of the action buttons, or on "new round" with the bet
      field's contents. */
  datatype Command = NewRound(bet: BetInput) | Hit | Stand | DoubleDown | Split

  function Step(g: Game, c: Command, random: Random): (r: Game)
    requires WellFormedShoe(g.shoe)
    ensures WellFormedShoe(r.shoe)
  {
    match c
    case NewRound(bet) => StartGame(g, bet, random)
    case Hit => PlayerHit(g, random)
    case Stand => PlayerStand(g, random)
    case DoubleDown => PlayerDoubleDown(g, random)
    case Split => PlayerSplit(g, random)
  }

  /** The commands in order. */
  function Run(g: Game, cs: seq<Command>, random: Random): (r: Game)
    requires WellFormedShoe(g.shoe)
    ensures WellFormedShoe(r.shoe)
    decreases |cs|
  {
    if |cs| == 0 then g else Run(Step(g, cs[0], random), cs[1..], random)
  }

  lemma StepInv(g: Game, c: Command, random: Random)
    requires Inv(g)
    ensures Inv(Step(g, c, random))
  {
    match c
    case NewRound(bet) => StartGameInv(g, bet, random);
    case Hit => HitInv(g, random);
    case Stand => StandInv(g, random);
    case DoubleDown => DoubleDownInv(g, random);
    case Split => SplitInv(g, random);
  }

  /** Every state a session reaches satisfies the invariant. */
  lemma {:induction false} RunInv(g: Game, cs: seq<Command>, random: Random)
    requires Inv(g)
    ensures Inv(Run(g, cs, random))
    decreases |cs|
  {
    if |cs| > 0 {
      StepInv(g, cs[0], random);
      RunInv(Step(g, cs[0], random), cs[1..], random);
    }
  }

  /** From the state with nothing saved, no sequence of commands makes the
      balance negative or the history longer than ten rounds. */
  lemma SessionBounds(cs: seq<Command>, random: Random)
    ensures var r := Run(NewSession(), cs, random);
            r.balance >= 0.0 && |r.history| <= MaxHistoryRounds
  {
    NewSessionInv();
    RunInv(NewSession(), cs, random);
  }

  /** During a round, each player action keeps the account: the balance plus
      the bets on the table stays the same, and when the action ends the
      round the balance gains exactly the round's payout. */
  lemma ActionAccounts(g: Game, c: Command, random: Random)
    requires WellFormedShoe(g.shoe) && g.inProgress && !c.NewRound?
    ensures Accounts(Money(g), Step(g, c, random))
  {
    match c
    case Hit => HitAccounts(g, random);
    case Stand => StandAccounts(g, random);
    case DoubleDown => DoubleDownAccounts(g, random);
    case Split => SplitAccounts(g, random);
  }
}
