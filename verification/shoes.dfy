/** The draw pile. A fresh deck is built and shuffled at the start of every
    round and again whenever a card is asked of an empty pile; cards are taken
    from the end. The random numbers the shuffle consumes come from an oracle
    the caller supplies, read at consecutive positions. */
module Shoes {
  import opened Cards
  import opened Shuffling

  /** The source of `Math.random`: the number read at each position. */
  type Random = nat -> nat

  /** The pile of cards, and how many random numbers have been read so far. */
  datatype Shoe = Shoe(cards: seq<Card>, entropyUsed: nat)

  predicate WellFormedShoe(s: Shoe) {
    forall i | 0 <= i < |s.cards| :: WellFormed(s.cards[i])
  }

  /** The picks of one shuffle of `n` cards, reading `random` from `pos` on:
      the swap for position `i` (from `n - 1` down to 1) reads the
      `(n - 1 - i)`-th number and maps it into `0..i`. */
  function Picks(random: Random, pos: nat, n: nat): (js: seq<nat>)
    ensures ValidPicks(js, n)
  {
    seq(n, i requires 0 <= i < n => if i == 0 then 0 else random(pos + (n - 1 - i)) % (i + 1))
  }

  /** Every choice of picks is produced by some oracle: nothing is lost by
      reading the shuffle from a supplied oracle. */
  lemma PicksCoverAllChoices(js: seq<nat>, pos: nat)
    requires ValidPicks(js, |js|)
    ensures Picks((k: nat) => if pos <= k < pos + |js| then js[|js| - 1 - (k - pos)] else 0, pos, |js|) == js
  {
    var n := |js|;
    var random := (k: nat) => if pos <= k < pos + n then js[n - 1 - (k - pos)] else 0;
    var p := Picks(random, pos, n);
    forall i | 0 <= i < n
      ensures p[i] == js[i]
    {
      if i > 0 {
        assert random(pos + (n - 1 - i)) == js[i];
      }
    }
  }

  /** createDeck: the 52 cards built in order, then shuffled. */
  function FreshShoe(random: Random, pos: nat): (s: Shoe)
    ensures |s.cards| == DeckSize
    ensures WellFormedShoe(s)
    ensures forall i | 0 <= i < |s.cards| :: !s.cards[i].hidden
    ensures s.entropyUsed == pos + DeckSize - 1
  {
    var deck := NewDeck();
    var shuffled := FisherYates(deck, Picks(random, pos, DeckSize));
    FisherYatesPermutes(deck, Picks(random, pos, DeckSize));
    forall i | 0 <= i < |shuffled|
      ensures WellFormed(shuffled[i]) && !shuffled[i].hidden
    {
      assert shuffled[i] in multiset(deck);
    }
    Shoe(shuffled, pos + DeckSize - 1)
  }

  /** The fresh pile is the 52-card deck in some order. */
  lemma FreshShoeIsDeck(random: Random, pos: nat)
    ensures multiset(FreshShoe(random, pos).cards) == multiset(NewDeck())
  {
    FisherYatesPermutes(NewDeck(), Picks(random, pos, DeckSize));
  }

  /** A card taken from the pile and what remains. */
  datatype Drawn = Drawn(card: Card, rest: Shoe)

  /** The draw of animatedDeal: refill from a fresh shuffled deck when the pile
      is empty, then take the last card. */
  function Draw(s: Shoe, random: Random): (d: Drawn)
    ensures |s.cards| > 0 ==> d.card == s.cards[|s.cards| - 1] && d.rest == Shoe(s.cards[..|s.cards| - 1], s.entropyUsed)
    ensures |s.cards| > 0 ==> multiset(s.cards) == multiset(d.rest.cards) + multiset{d.card}
    ensures WellFormedShoe(s) ==> WellFormed(d.card) && WellFormedShoe(d.rest)
  {
    var pile := if |s.cards| == 0 then FreshShoe(random, s.entropyUsed) else s;
    var n := |pile.cards|;
    assert pile.cards == pile.cards[..n - 1] + [pile.cards[n - 1]];
    Drawn(pile.cards[n - 1], Shoe(pile.cards[..n - 1], pile.entropyUsed))
  }

  /** A draw from an empty pile takes one card of a fresh deck and leaves the
      other 51. */
  lemma DrawRefills(s: Shoe, random: Random)
    requires |s.cards| == 0
    ensures var d := Draw(s, random);
            && |d.rest.cards| == DeckSize - 1 && multiset(d.rest.cards) + multiset{d.card} == multiset(NewDeck())
            && d.rest.entropyUsed == s.entropyUsed + DeckSize - 1
  {
    var f := FreshShoe(random, s.entropyUsed).cards;
    FreshShoeIsDeck(random, s.entropyUsed);
    assert f == f[..DeckSize - 1] + [f[DeckSize - 1]];
  }
}
