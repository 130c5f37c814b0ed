/** Cards of the single 52-card deck: suits, ranks, the value of each rank and
    the order in which a fresh deck is built before it is shuffled. */
module Cards {

  /** The four suits, in the order the deck is built (Copas, Ouros, Paus, Espadas). */
  datatype Suit = Hearts | Diamonds | Clubs | Spades

  /** A rank: the Ace, a numbered card (2 to 10) or a face card. */
  datatype Rank = Ace | Pip(n: nat) | Jack | Queen | King

  /** A card as the deck stores it: its identity, the value and Ace flag fixed
      when the deck is built, and the face-down flag set when it is dealt. */
  datatype Card = Card(suit: Suit, rank: Rank, value: nat, hidden: bool, isAce: bool)

  const Suits: seq<Suit> := [Hearts, Diamonds, Clubs, Spades]

  const Ranks: seq<Rank> :=
    [Ace, Pip(2), Pip(3), Pip(4), Pip(5), Pip(6), Pip(7), Pip(8), Pip(9), Pip(10), Jack, Queen, King]

  const DeckSize: nat := 52

  predicate ValidRank(r: Rank) {
    r.Pip? ==> 2 <= r.n <= 10
  }

  /** The value of a rank: face cards count 10, the Ace 11 (lowered to 1 by
      the scoring when needed), a numbered card its number. */
  function CardValue(r: Rank): (v: nat)
    ensures ValidRank(r) ==> 2 <= v <= 11
    ensures ValidRank(r) ==> (v == 11 <==> r == Ace)
  {
    match r
    case Jack | Queen | King => 10
    case Ace => 11
    case Pip(n) => n
  }

  /** A card whose stored value and Ace flag agree with its rank. */
  predicate WellFormed(c: Card) {
    && ValidRank(c.rank)
    && c.value == CardValue(c.rank)
    && (c.isAce <==> c.rank == Ace)
  }

  /** The card the deck builder creates for a suit and rank: face up. */
  function MakeCard(s: Suit, r: Rank): Card {
    Card(s, r, CardValue(r), false, r == Ace)
  }

  /** The unshuffled deck: for each suit in turn, the thirteen ranks in order. */
  function NewDeck(): (d: seq<Card>)
    ensures |d| == DeckSize
    ensures forall i | 0 <= i < |d| :: WellFormed(d[i]) && !d[i].hidden
  {
    seq(52, i requires 0 <= i < 52 => MakeCard(Suits[i / 13], Ranks[i % 13]))
  }

  /** The card with the hidden flag cleared: what a card is once turned face up. */
  function Face(c: Card): Card {
    c.(hidden := false)
  }

  function SuitIndex(s: Suit): (k: nat)
    ensures k < |Suits| && Suits[k] == s
  {
    match s
    case Hearts => 0
    case Diamonds => 1
    case Clubs => 2
    case Spades => 3
  }

  function RankIndex(r: Rank): (k: nat)
    requires ValidRank(r)
    ensures k < |Ranks| && Ranks[k] == r
  {
    match r
    case Ace => 0
    case Pip(n) => n - 1
    case Jack => 10
    case Queen => 11
    case King => 12
  }

  lemma SuitAt(k: nat)
    requires k < |Suits|
    ensures SuitIndex(Suits[k]) == k
  {
    if k == 0 {} else if k == 1 {} else if k == 2 {} else {}
  }

  lemma RankAt(k: nat)
    requires k < |Ranks|
    ensures ValidRank(Ranks[k]) && RankIndex(Ranks[k]) == k
  {
    if k < 5 {
      if k == 0 {} else if k == 1 {} else if k == 2 {} else if k == 3 {} else {}
    } else if k < 9 {
      if k == 5 {} else if k == 6 {} else if k == 7 {} else {}
    } else {
      if k == 9 {} else if k == 10 {} else if k == 11 {} else {}
    }
  }

  /** No card occurs twice in a fresh deck. */
  lemma NewDeckDistinct()
    ensures forall i, j | 0 <= i < j < |NewDeck()| :: NewDeck()[i] != NewDeck()[j]
  {
    var d := NewDeck();
    forall i, j | 0 <= i < j < |d|
      ensures d[i] != d[j]
    {
      SuitAt(i / 13);
      SuitAt(j / 13);
      RankAt(i % 13);
      RankAt(j % 13);
      assert i / 13 != j / 13 || i % 13 != j % 13;
    }
  }

  /** Every suit and rank pairing is in a fresh deck, face up. */
  lemma NewDeckComplete(s: Suit, r: Rank)
    requires ValidRank(r)
    ensures MakeCard(s, r) in NewDeck()
  {
    var k := SuitIndex(s) * 13 + RankIndex(r);
    assert k / 13 == SuitIndex(s) && k % 13 == RankIndex(r);
    assert NewDeck()[k] == MakeCard(s, r);
  }
}
