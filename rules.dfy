/** The blackjack rules the three versions of the simulator share: card values,
    hand scoring with at most one soft ace, the stand-on-value threshold rule,
    and the hand-playing loop (draw two cards, then draw while the rule says hit).

    A random draw `random.randint(1, 13)` is replaced by a deck: an infinite stream
    of ranks read from a position onwards. Everything that plays hands takes the
    position of the next unread card and returns the position after the last card
    it drew, so successive hands read successive cards of one stream. */
module Rules {

  /** A card rank: 1 is an ace, 2..10 count their face value, 11..13 are jack, queen, king. */
  type Card = c: int | 1 <= c <= 13 witness 1

  /** The source of draws: the rank drawn at each position of the stream. */
  type Deck = nat -> Card

  /** A cell of an output table: a label, or an integer count standing in for a percentage. */
  datatype Cell = Text(text: string) | Number(count: nat)

  predicate AllRanks(cards: seq<int>) {
    forall i :: 0 <= i < |cards| ==> 1 <= cards[i] <= 13
  }

  /** Value of one card when every ace counts 1: jack, queen and king count 10. */
  function Value(card: int): int {
    if card == 11 || card == 12 || card == 13 then 10 else card
  }

  /** The hard sum: every card at its value, every ace as 1. */
  function HardSum(cards: seq<int>): int {
    if cards == [] then 0 else HardSum(cards[..|cards| - 1]) + Value(cards[|cards| - 1])
  }

  function AceCount(cards: seq<int>): nat {
    if cards == [] then 0
    else AceCount(cards[..|cards| - 1]) + (if cards[|cards| - 1] == 1 then 1 else 0)
  }

  /** A scored hand: its point total and whether one ace is counted as 11. */
  datatype Points = Points(total: int, softAceCount: int)

  /** The score of a hand: the hard sum, raised by 10 (one soft ace) when the hand
      holds an ace and the raised total stays below 22. */
  function Score(cards: seq<int>): (p: Points)
    ensures p.softAceCount == 0 || p.softAceCount == 1
    ensures p.softAceCount == 1 ==> 1 in cards && p.total <= 21
  {
    var hard := HardSum(cards);
    if 1 in cards && hard + 10 < 22 then Points(hard + 10, 1) else Points(hard, 0)
  }

  /** The threshold rule: stand above the stand-on value, hit below it; at the value,
      stand on a hard total, and on a soft total only when standing on soft. */
  predicate StandsOn(standOnValue: int, standOnSoft: bool, p: Points)
  {
    standOnValue < p.total || (p.total == standOnValue && (p.softAceCount == 0 || standOnSoft))
  }

  /** A hand stands only once its total reaches the stand-on value, and a hard hand stands
      exactly when it does. */
  lemma StandsOnThreshold(standOnValue: int, standOnSoft: bool, p: Points)
    ensures StandsOn(standOnValue, standOnSoft, p) ==> standOnValue <= p.total
    ensures p.softAceCount == 0 ==> (StandsOn(standOnValue, standOnSoft, p) <==> standOnValue <= p.total)
  {
  }

  /** Keeps drawing from `pos` onto `cards` while the threshold rule says hit; gives the
      finished hand and the position of the next unread card. Each draw raises the hard
      sum by at least one, and a hand whose hard sum exceeds the stand-on value stands. */
  function Finish(standOnValue: int, standOnSoft: bool, deck: Deck, pos: nat, cards: seq<int>): (r: (seq<int>, nat))
    decreases standOnValue - HardSum(cards)
  {
    if StandsOn(standOnValue, standOnSoft, Score(cards)) then (cards, pos)
    else
      HardSumAppend(cards, deck(pos));
      Finish(standOnValue, standOnSoft, deck, pos + 1, cards + [deck(pos)])
  }

  /** A hand the rule hits on takes the next card of the stream, which raises its hard sum. */
  lemma FinishHits(standOnValue: int, standOnSoft: bool, deck: Deck, pos: nat, cards: seq<int>)
    requires !StandsOn(standOnValue, standOnSoft, Score(cards))
    ensures Finish(standOnValue, standOnSoft, deck, pos, cards)
      == Finish(standOnValue, standOnSoft, deck, pos + 1, cards + [deck(pos)])
    ensures HardSum(cards + [deck(pos)]) > HardSum(cards)
  {
    HardSumAppend(cards, deck(pos));
  }

  /** One hand played under a strategy: two cards dealt from `pos`, then drawn to a stand. */
  function PlayHand(standOnValue: int, standOnSoft: bool, deck: Deck, pos: nat): (r: (seq<int>, nat))
    ensures 2 <= |r.0| && StandsOn(standOnValue, standOnSoft, Score(r.0))
  {
    FinishStops(standOnValue, standOnSoft, deck, pos + 2, [deck(pos), deck(pos + 1)]);
    Finish(standOnValue, standOnSoft, deck, pos + 2, [deck(pos), deck(pos + 1)])
  }

  /** The label of a strategy in the output tables: `H` (hit on soft) or `S` (stand on
      soft) followed by the stand-on value in decimal. */
  function StrategyName(standOnValue: nat, standOnSoft: bool): string {
    (if standOnSoft then "S" else "H") + NatToString(standOnValue)
  }

  /** The strategy labels in the order the simulators play them: for each stand-on value
      from 13 up, the strategy that hits on soft, then the one that stands on soft. */
  const StrategyNames: seq<string> :=
    ["H13", "S13", "H14", "S14", "H15", "S15", "H16", "S16", "H17", "S17",
     "H18", "S18", "H19", "S19", "H20", "S20", "H21", "S21"]

  /** The label built for stand-on value 13 + v is the one listed at its place. */
  lemma NameListed(v: nat, standOnSoft: bool)
    requires v < 9
    ensures StrategyName(13 + v, standOnSoft) == StrategyNames[2 * v + if standOnSoft then 1 else 0]
  {
    TwoDigits(13 + v);
    var tens := if v < 7 then '1' else '2';
    var units := "345678901"[v];
    assert NatToString(13 + v) == [tens, units];
    assert StrategyNames[2 * v + if standOnSoft then 1 else 0]
      == [if standOnSoft then 'S' else 'H', tens, units];
  }

  lemma TwoDigits(n: nat)
    requires 10 <= n < 100
    ensures NatToString(n) == [Digit(n / 10), Digit(n % 10)]
  {
  }

  function NatToString(n: nat): string {
    if n < 10 then [Digit(n)] else NatToString(n / 10) + [Digit(n % 10)]
  }

  function Digit(d: nat): char
    requires d < 10
  {
    "0123456789"[d]
  }

  // ---------------------------------------------------------------------------
  // Scoring

  lemma HardSumAppend(cards: seq<int>, card: int)
    ensures HardSum(cards + [card]) == HardSum(cards) + Value(card)
    ensures AceCount(cards + [card]) == AceCount(cards) + (if card == 1 then 1 else 0)
  {
    assert (cards + [card])[..|cards|] == cards;
  }

  /** Every card of rank 1..13 is worth 1..10, so the hard sum lies between the number
      of cards and ten times it, and the aces are among those cards. */
  lemma {:induction false} HardSumBounds(cards: seq<int>)
    requires AllRanks(cards)
    ensures AceCount(cards) <= |cards| <= HardSum(cards) <= 10 * |cards|
  {
    if cards != [] {
      var init := cards[..|cards| - 1];
      assert cards == init + [cards[|cards| - 1]];
      HardSumBounds(init);
    }
  }

  /** A hand holds an ace exactly when its ace count is positive. */
  lemma {:induction false} AcePresent(cards: seq<int>)
    ensures 1 in cards <==> AceCount(cards) > 0
  {
    if cards != [] {
      var init := cards[..|cards| - 1];
      assert cards == init + [cards[|cards| - 1]];
      AcePresent(init);
    }
  }

  /** Counting `elevated` aces as 11 instead of 1. */
  function Counted(cards: seq<int>, elevated: int): int {
    HardSum(cards) + 10 * elevated
  }

  /** The score is the best blackjack total: of all the ways to count some of the aces
      as 11, it takes one of them (never more than one ace raised), and it is at least
      every way that stays at or below 21. Several aces therefore raise at most one. */
  lemma ScoreIsBestTotal(cards: seq<int>)
    requires AllRanks(cards)
    ensures Score(cards).softAceCount <= AceCount(cards)
    ensures Score(cards).total == Counted(cards, Score(cards).softAceCount)
    ensures forall j :: 0 <= j <= AceCount(cards) && Counted(cards, j) <= 21 ==>
      Counted(cards, j) <= Score(cards).total <= 21
  {
    HardSumBounds(cards);
    AcePresent(cards);
  }

  /** A soft hand never busts: a hand over 21 is over 21 on its hard sum. */
  lemma BustIsHard(cards: seq<int>)
    ensures Score(cards).total > 21 <==> HardSum(cards) > 21
    ensures Score(cards).total > 21 ==> Score(cards).softAceCount == 0
  {
  }

  /** Expected scores of the unit tests: ten-valued face cards. */
  lemma ScoreFaceCardVectors()
    ensures Score([3]) == Points(3, 0)
    ensures Score([3, 2]) == Points(5, 0)
    ensures Score([3, 2, 10]) == Points(15, 0)
    ensures Score([3, 2, 10, 11]) == Points(25, 0)
    ensures Score([3, 2, 10, 11, 12]) == Points(35, 0)
    ensures Score([3, 2, 10, 11, 12, 13]) == Points(45, 0)
    ensures Score([3, 12]) == Points(13, 0)
    ensures Score([5, 5, 10]) == Points(20, 0)
    ensures Score([7, 8, 10]) == Points(25, 0)
  {
    HardSumAppend([3, 2], 10);
    assert [3, 2] + [10] == [3, 2, 10];
    HardSumAppend([3, 2, 10], 11);
    assert [3, 2, 10] + [11] == [3, 2, 10, 11];
    HardSumAppend([3, 2, 10, 11], 12);
    assert [3, 2, 10, 11] + [12] == [3, 2, 10, 11, 12];
    HardSumAppend([3, 2, 10, 11, 12], 13);
    assert [3, 2, 10, 11, 12] + [13] == [3, 2, 10, 11, 12, 13];
    HardSumAppend([5, 5], 10);
    assert [5, 5] + [10] == [5, 5, 10];
    HardSumAppend([7, 8], 10);
    assert [7, 8] + [10] == [7, 8, 10];
  }

  /** Expected scores of the unit tests: hands with aces, soft and hard. */
  lemma ScoreAceVectors()
    ensures Score([1]) == Points(11, 1)
    ensures Score([1, 5]) == Points(16, 1)
    ensures Score([1, 10]) == Points(21, 1)
    ensures Score([11, 10, 1]) == Points(21, 0)
  {
    HardSumAppend([11, 10], 1);
    assert [11, 10] + [1] == [11, 10, 1];
  }

  /** Expected scores of the unit tests: several aces, only one of them counted as 11. */
  lemma ScoreManyAceVectors()
    ensures Score([1, 1, 5]) == Points(17, 1)
    ensures Score([1, 1, 1, 7]) == Points(20, 1)
    ensures Score([1, 3, 7]) == Points(21, 1)
  {
    HardSumAppend([1, 1], 5);
    assert [1, 1] + [5] == [1, 1, 5];
    HardSumAppend([1, 1], 1);
    assert [1, 1] + [1] == [1, 1, 1];
    HardSumAppend([1, 1, 1], 7);
    assert [1, 1, 1] + [7] == [1, 1, 1, 7];
    HardSumAppend([1, 3], 7);
    assert [1, 3] + [7] == [1, 3, 7];
  }

  /** Expected scores of the unit tests: an ace that stops being soft once the hand grows. */
  lemma ScoreDemotedAceVectors()
    ensures Score([1, 2, 3]) == Points(16, 1)
    ensures Score([1, 2, 3, 1]) == Points(17, 1)
    ensures Score([1, 2, 3, 10]) == Points(16, 0)
    ensures Score([1, 2, 3, 10, 1]) == Points(17, 0)
  {
    HardSumAppend([1, 2], 3);
    assert [1, 2] + [3] == [1, 2, 3];
    HardSumAppend([1, 2, 3], 1);
    assert [1, 2, 3] + [1] == [1, 2, 3, 1];
    HardSumAppend([1, 2, 3], 10);
    assert [1, 2, 3] + [10] == [1, 2, 3, 10];
    HardSumAppend([1, 2, 3, 10], 1);
    assert [1, 2, 3, 10] + [1] == [1, 2, 3, 10, 1];
  }

  // ---------------------------------------------------------------------------
  // Playing a hand

  /** Finishing a hand only appends cards, read from the stream in order from `pos`. */
  lemma {:induction false} FinishDraws(standOnValue: int, standOnSoft: bool, deck: Deck, pos: nat, cards: seq<int>)
    ensures var (hand, next) := Finish(standOnValue, standOnSoft, deck, pos, cards);
      pos <= next && |hand| == |cards| + (next - pos) && hand[..|cards|] == cards
      && (forall k :: |cards| <= k < |hand| ==> hand[k] == deck(pos + k - |cards|))
    decreases standOnValue - HardSum(cards)
  {
    if !StandsOn(standOnValue, standOnSoft, Score(cards)) {
      var more := cards + [deck(pos)];
      HardSumAppend(cards, deck(pos));
      FinishDraws(standOnValue, standOnSoft, deck, pos + 1, more);
      var hand := Finish(standOnValue, standOnSoft, deck, pos + 1, more).0;
      assert hand[..|more|] == more;
      assert hand[..|cards|] == more[..|cards|] == cards;
      assert hand[|cards|] == more[|cards|] == deck(pos);
    }
  }

  /** A finished hand is the first one on the way that the rule stands on. */
  lemma {:induction false} FinishStops(standOnValue: int, standOnSoft: bool, deck: Deck, pos: nat, cards: seq<int>)
    ensures var hand := Finish(standOnValue, standOnSoft, deck, pos, cards).0;
      |cards| <= |hand| && hand[..|cards|] == cards
      && StandsOn(standOnValue, standOnSoft, Score(hand))
      && (forall k :: |cards| <= k < |hand| ==> !StandsOn(standOnValue, standOnSoft, Score(hand[..k])))
    decreases standOnValue - HardSum(cards)
  {
    if !StandsOn(standOnValue, standOnSoft, Score(cards)) {
      var more := cards + [deck(pos)];
      HardSumAppend(cards, deck(pos));
      FinishStops(standOnValue, standOnSoft, deck, pos + 1, more);
      var hand := Finish(standOnValue, standOnSoft, deck, pos + 1, more).0;
      assert hand[..|more|] == more;
      assert hand[..|cards|] == more[..|cards|] == cards;
    }
  }

  /** A played hand is the run of the stream from `pos`: at least two cards, each read in
      order, and `next` is the position just after the last of them. */
  lemma PlayHandDraws(standOnValue: int, standOnSoft: bool, deck: Deck, pos: nat)
    ensures var (hand, next) := PlayHand(standOnValue, standOnSoft, deck, pos);
      next == pos + |hand| && 2 <= |hand| && AllRanks(hand)
      && (forall k :: 0 <= k < |hand| ==> hand[k] == deck(pos + k))
  {
    var start := [deck(pos), deck(pos + 1)];
    FinishDraws(standOnValue, standOnSoft, deck, pos + 2, start);
    var hand := Finish(standOnValue, standOnSoft, deck, pos + 2, start).0;
    forall k | 0 <= k < |hand|
      ensures hand[k] == deck(pos + k)
    {
      if k < 2 {
        assert hand[k] == hand[..2][k];
      }
    }
    forall k | 0 <= k < |hand|
      ensures 1 <= hand[k] <= 13
    {
      var card: Card := deck(pos + k);
    }
  }

  /** A played hand ends at the first hand of at least two cards the rule stands on: its
      total reaches the stand-on value, and no hand it passed through on the way stood. */
  lemma PlayHandStops(standOnValue: int, standOnSoft: bool, deck: Deck, pos: nat)
    ensures var hand := PlayHand(standOnValue, standOnSoft, deck, pos).0;
      2 <= |hand| && StandsOn(standOnValue, standOnSoft, Score(hand))
      && standOnValue <= Score(hand).total
      && (forall k :: 2 <= k < |hand| ==> !StandsOn(standOnValue, standOnSoft, Score(hand[..k])))
  {
    FinishStops(standOnValue, standOnSoft, deck, pos + 2, [deck(pos), deck(pos + 1)]);
  }

  /** A played hand holds at most max(2, standOnValue + 1) cards: every hand it passed
      through had a hard sum no higher than the stand-on value, and each card adds at
      least one. */
  lemma PlayHandLength(standOnValue: int, standOnSoft: bool, deck: Deck, pos: nat)
    ensures var hand := PlayHand(standOnValue, standOnSoft, deck, pos).0;
      |hand| <= 2 || |hand| <= standOnValue + 1
  {
    PlayHandDraws(standOnValue, standOnSoft, deck, pos);
    PlayHandStops(standOnValue, standOnSoft, deck, pos);
    var hand := PlayHand(standOnValue, standOnSoft, deck, pos).0;
    if 2 < |hand| {
      var last := hand[..|hand| - 1];
      assert !StandsOn(standOnValue, standOnSoft, Score(last));
      assert AllRanks(last);
      HardSumBounds(last);
    }
  }
}
