/** The round history: an entry per finished round, newest first, at most
    ten kept. */
module History {
  import opened Cards
  import opened Scoring
  import opened Hands
  import opened Payouts

  const MaxHistoryRounds: nat := 10

  /** What a history entry keeps of a player hand. */
  datatype HandRecord = HandRecord(cards: seq<Card>, score: int, bet: nat, tag: Tag)

  /** What a history entry keeps of the dealer's hand. */
  datatype DealerRecord = DealerRecord(cards: seq<Card>, score: int)

  /** The result line of a round: the reason the round ended, or for a round
      with several hands the summary across them. */
  datatype RoundResult =
    | AllBusted
    | DealerBlackjack
    | DealerStands(score: int)
    | DealerBusted
    | BothBlackjack
    | PlayerBlackjack
    | WonSomeHand
    | PushedEveryHand
    | LostOrPushed

  datatype Entry = Entry(hands: seq<HandRecord>, dealer: DealerRecord, result: RoundResult)

  /** addRoundToHistory: the entry goes to the front, and when that makes the
      list longer than ten the last (oldest) entry is dropped. */
  function AddRoundToHistory(history: seq<Entry>, e: Entry): (r: seq<Entry>)
    ensures |r| == if |history| < MaxHistoryRounds then |history| + 1 else |history|
    ensures |r| > 0 && r[0] == e
    ensures r[1..] == history[..|r| - 1]
  {
    var pushed := [e] + history;
    if |pushed| > MaxHistoryRounds then pushed[..|pushed| - 1] else pushed
  }

  /** A history of at most ten entries stays at most ten long. */
  lemma HistoryBounded(history: seq<Entry>, e: Entry)
    requires |history| <= MaxHistoryRounds
    ensures |AddRoundToHistory(history, e)| <= MaxHistoryRounds
    ensures |history| == MaxHistoryRounds ==> AddRoundToHistory(history, e) == [e] + history[..MaxHistoryRounds - 1]
  {
  }

  /** The history after recording the rounds `es` in order. */
  function RecordAll(history: seq<Entry>, es: seq<Entry>): seq<Entry>
    decreases |es|
  {
    if |es| == 0 then history else AddRoundToHistory(RecordAll(history, es[..|es| - 1]), es[|es| - 1])
  }

  function Min(a: nat, b: nat): nat {
    if a <= b then a else b
  }

  /** From an empty history, after any number of rounds the history holds the
      latest ten (or fewer) rounds, newest first. */
  lemma {:induction false} RecordAllKeepsLatest(es: seq<Entry>)
    ensures |RecordAll([], es)| == Min(|es|, MaxHistoryRounds)
    ensures forall k | 0 <= k < |RecordAll([], es)| :: RecordAll([], es)[k] == es[|es| - 1 - k]
    decreases |es|
  {
    if |es| > 0 {
      var init := es[..|es| - 1];
      RecordAllKeepsLatest(init);
      var h := RecordAll([], init);
      var r := RecordAll([], es);
      assert r == AddRoundToHistory(h, es[|es| - 1]);
      forall k | 0 <= k < |r|
        ensures r[k] == es[|es| - 1 - k]
      {
        if k > 0 {
          assert r[k] == r[1..][k - 1] == h[k - 1];
        }
      }
    }
  }

  /** The per-hand records of a settled round. */
  function Records(hands: seq<Hand>, ss: seq<Settlement>): (rs: seq<HandRecord>)
    requires |ss| == |hands|
    ensures |rs| == |hands|
    ensures forall k | 0 <= k < |rs| :: rs[k] == HandRecord(hands[k].cards, Score(hands[k]), hands[k].bet, ss[k].tag)
  {
    seq(|hands|, k requires 0 <= k < |hands| => HandRecord(hands[k].cards, Score(hands[k]), hands[k].bet, ss[k].tag))
  }

  /** The result line: the caller's reason for a single hand; for several
      hands, a win if any hand won, a push if no hand was decided and none
      busted, otherwise "lost or pushed". (The program also looks for hands
      whose status is "loss" or "loss_dealer_blackjack"; hand statuses never
      take those values, so those tests are always false.) */
  function Summary(hands: seq<Hand>, ss: seq<Settlement>, reason: RoundResult): (r: RoundResult)
    requires |ss| == |hands|
    ensures |hands| <= 1 ==> r == reason
    ensures |hands| > 1 ==> (r == WonSomeHand <==> exists k | 0 <= k < |ss| :: ss[k].won)
    ensures |hands| > 1 ==> r in {WonSomeHand, PushedEveryHand, LostOrPushed}
    ensures |hands| > 1 ==>
              (r == PushedEveryHand <==>
                 && (forall k | 0 <= k < |ss| :: !ss[k].won && !ss[k].decisive)
                 && (forall k | 0 <= k < |hands| :: hands[k].status != Busted))
  {
    if |hands| > 1 then
      if exists k | 0 <= k < |ss| :: ss[k].won then WonSomeHand
      else if (forall k | 0 <= k < |ss| :: !ss[k].decisive) && !(exists k | 0 <= k < |hands| :: hands[k].status == Busted) then
        PushedEveryHand
      else LostOrPushed
    else reason
  }

  /** The entry endRound records, given the dealer's revealed cards. */
  function RoundEntry(hands: seq<Hand>, dealer: seq<Card>, reason: RoundResult): Entry {
    var ss := SettleAll(hands, HandScore(dealer), |dealer|);
    Entry(Records(hands, ss), DealerRecord(dealer, HandScore(dealer)), Summary(hands, ss, reason))
  }
}
