/** Third version of the simulator: a hand and a strategy are objects. For every pair of
    a player strategy and a dealer strategy (stand-on values 13..20, hitting or standing
    on soft) it plays a number of rounds and records how many the player is credited
    with, following the tally chain of `main` exactly as written. */
module Blackjack3 {
  import Rules

  // ---------------------------------------------------------------------------
  // Hands

  /** The tests `is_bust` and `is_blackjack` perform, on the score of a list of cards. */
  predicate Bust(cards: seq<int>) {
    Rules.Score(cards).total > 21
  }

  predicate Blackjack(cards: seq<int>) {
    var p := Rules.Score(cards);
    (10 in cards || 11 in cards || 12 in cards || 13 in cards) && p.softAceCount > 0 && p.total == 21
  }

  /** A natural: exactly two cards, an ace and a ten-valued card (10, jack, queen, king). */
  predicate Natural(cards: seq<int>) {
    |cards| == 2
    && ((cards[0] == 1 && 10 <= cards[1] <= 13) || (cards[1] == 1 && 10 <= cards[0] <= 13))
  }

  /** A blackjack hand. `total` and `softAceCount` are kept equal to the score of `cards`. */
  class Hand {
    var cards: seq<int>
    var total: int
    var softAceCount: int

    ghost predicate Valid()
      reads this
      ensures Valid() ==> softAceCount == 0 || softAceCount == 1
      ensures Valid() && softAceCount == 1 ==> 1 in cards && total <= 21
    {
      Rules.Points(total, softAceCount) == Rules.Score(cards)
    }

    /** `Hand()`: no cards, total 0, no soft ace. */
    constructor ()
      ensures cards == [] && total == 0 && softAceCount == 0
      ensures Valid()
    {
      cards := [];
      total := 0;
      softAceCount := 0;
    }

    /** `Hand(cards)`: the given cards, scored. */
    constructor FromCards(cards: seq<int>)
      ensures this.cards == cards
      ensures Valid()
    {
      this.cards := cards;
      total := 0;
      softAceCount := 0;
      new;
      Score();
    }

    /** `add_card`: the drawn card goes at the end and the hand is scored again. */
    method AddCard(card: Rules.Card)
      modifies this
      ensures cards == old(cards) + [card]
      ensures Valid()
    {
      cards := cards + [card];
      Score();
    }

    /** `is_blackjack`: a ten-valued card, a soft ace and a total of 21. On a valid hand of
        card ranks this holds exactly for a natural. */
    function IsBlackjack(): (r: bool)
      reads this
      ensures Valid() ==> (r <==> Blackjack(cards))
      ensures Valid() && Rules.AllRanks(cards) ==> (r <==> Natural(cards))
    {
      BlackjackIsNatural(cards);
      if 10 in cards || 11 in cards || 12 in cards || 13 in cards then
        if softAceCount > 0 && total == 21 then true else false
      else false
    }

    /** `is_bust`: a total over 21; on a valid hand, exactly when the hard sum is over 21. */
    function IsBust(): (r: bool)
      reads this
      ensures Valid() ==> (r <==> Bust(cards))
      ensures Valid() ==> (r <==> Rules.HardSum(cards) > 21)
    {
      Rules.BustIsHard(cards);
      if total > 21 then true else false
    }

    /** `score`: the fields are reset, the cards summed one by one with every ace hard, and
        one ace raised to 11 when the hand holds one and the total stays below 22. */
    method Score()
      modifies this
      ensures cards == old(cards)
      ensures Valid()
    {
      total := 0;
      softAceCount := 0;
      var ace := false;
      if 1 in cards {
        ace := true;
      }
      for i := 0 to |cards|
        invariant cards == old(cards)
        invariant total == Rules.HardSum(cards[..i]) && softAceCount == 0
      {
        var card := cards[i];
        if card in {11, 12, 13} {
          total := total + 10;
        } else {
          total := total + card;
        }
        Rules.HardSumAppend(cards[..i], card);
        assert cards[..i + 1] == cards[..i] + [card];
      }
      assert cards[..|cards|] == cards;
      if ace && total + 10 < 22 {
        total := total + 10;
        softAceCount := softAceCount + 1;
      }
    }
  }

  lemma {:induction false} HardSumCoversOne(cards: seq<int>, i: int)
    requires Rules.AllRanks(cards) && 0 <= i < |cards|
    ensures Rules.HardSum(cards) >= Rules.Value(cards[i]) + |cards| - 1
  {
    var init := cards[..|cards| - 1];
    assert Rules.AllRanks(init);
    if i == |cards| - 1 {
      Rules.HardSumBounds(init);
    } else {
      assert init[i] == cards[i];
      HardSumCoversOne(init, i);
    }
  }

  /** Two different cards of a hand of ranks contribute their values to the hard sum, and
      every other card at least one. */
  lemma {:induction false} HardSumCoversTwo(cards: seq<int>, i: int, j: int)
    requires Rules.AllRanks(cards) && 0 <= i < |cards| && 0 <= j < |cards| && i != j
    ensures Rules.HardSum(cards) >= Rules.Value(cards[i]) + Rules.Value(cards[j]) + |cards| - 2
  {
    var last := |cards| - 1;
    var init := cards[..last];
    assert Rules.AllRanks(init);
    if i == last {
      assert init[j] == cards[j];
      HardSumCoversOne(init, j);
    } else if j == last {
      assert init[i] == cards[i];
      HardSumCoversOne(init, i);
    } else {
      assert init[i] == cards[i] && init[j] == cards[j];
      HardSumCoversTwo(init, i, j);
    }
  }

  /** The test of `is_blackjack` is passed by exactly the naturals: a soft 21 holding a
      ten-valued card has a hard sum of 11, which an ace and a ten reach only alone. */
  lemma BlackjackIsNatural(cards: seq<int>)
    ensures Rules.AllRanks(cards) ==> (Blackjack(cards) <==> Natural(cards))
  {
    if Rules.AllRanks(cards) && Blackjack(cards) {
      BlackjackOnlyNatural(cards);
    }
    if Natural(cards) {
      NaturalIsBlackjack(cards);
    }
  }

  lemma BlackjackOnlyNatural(cards: seq<int>)
    requires Rules.AllRanks(cards) && Blackjack(cards)
    ensures Natural(cards)
  {
    assert 1 in cards;
    var i :| 0 <= i < |cards| && cards[i] == 1;
    var j :| 0 <= j < |cards| && 10 <= cards[j] <= 13;
    HardSumCoversTwo(cards, i, j);
    assert |cards| == 2;
  }

  lemma NaturalIsBlackjack(cards: seq<int>)
    requires Natural(cards)
    ensures Blackjack(cards)
  {
    assert cards == [cards[0]] + [cards[1]];
    assert [cards[0]][..0] == [];
    Rules.HardSumAppend([cards[0]], cards[1]);
    Rules.HardSumAppend([], cards[0]);
    assert [] + [cards[0]] == [cards[0]];
  }

  /** The blackjack checks of the unit tests: ace and ten; a three-card soft 21; a hard 21. */
  lemma BlackjackVectors()
    ensures Blackjack([1, 10])
    ensures !Blackjack([1, 3, 7]) && !Blackjack([1, 2, 3]) && !Blackjack([11, 10, 1])
  {
    BlackjackIsNatural([1, 10]);
    BlackjackIsNatural([1, 3, 7]);
    BlackjackIsNatural([1, 2, 3]);
    BlackjackIsNatural([11, 10, 1]);
  }

  // ---------------------------------------------------------------------------
  // Strategies

  /** A strategy: the stand-on value and whether a soft total at that value stands. The
      last decision taken while playing is kept in `decision`. */
  class Strategy {
    const standOnValue: int
    const standOnSoft: bool
    var decision: bool

    constructor (standOnValue: int, standOnSoft: bool)
      ensures this.standOnValue == standOnValue && this.standOnSoft == standOnSoft
    {
      this.standOnValue := standOnValue;
      this.standOnSoft := standOnSoft;
    }

    /** `stand`: True to stand, False to hit; on a valid hand, the threshold rule. */
    function Stand(hand: Hand): (stand: bool)
      reads hand
      ensures hand.Valid() ==> (stand <==> Rules.StandsOn(standOnValue, standOnSoft, Rules.Score(hand.cards)))
    {
      if hand.total < standOnValue then false
      else if hand.total > standOnValue then true
      else if hand.softAceCount == 0 || standOnSoft then true
      else false
    }

    /** `play`: a new hand gets cards until it holds two, then one more card while the
        strategy says hit. The hand read from `pos` is the one the threshold rule plays,
        and the last decision is to stand. */
    method Play(deck: Rules.Deck, pos: nat) returns (hand: Hand, next: nat)
      modifies this
      ensures fresh(hand) && hand.Valid()
      ensures (hand.cards, next) == Rules.PlayHand(standOnValue, standOnSoft, deck, pos)
      ensures decision
    {
      hand := new Hand();
      next := pos;
      while |hand.cards| < 2
        invariant fresh(hand) && hand.Valid()
        invariant |hand.cards| <= 2 && next == pos + |hand.cards|
        invariant hand.cards == [deck(pos), deck(pos + 1)][..|hand.cards|]
        decreases 2 - |hand.cards|
      {
        hand.AddCard(deck(next));
        next := next + 1;
      }
      assert |hand.cards| == 2 && hand.cards == [deck(pos), deck(pos + 1)];
      assert Rules.PlayHand(standOnValue, standOnSoft, deck, pos)
        == Rules.Finish(standOnValue, standOnSoft, deck, next, hand.cards);
      decision := Stand(hand);
      while decision == false
        invariant fresh(hand) && hand.Valid()
        invariant decision == Rules.StandsOn(standOnValue, standOnSoft, Rules.Score(hand.cards))
        invariant Rules.Finish(standOnValue, standOnSoft, deck, next, hand.cards)
          == Rules.PlayHand(standOnValue, standOnSoft, deck, pos)
        decreases standOnValue - Rules.HardSum(hand.cards)
      {
        Rules.FinishHits(standOnValue, standOnSoft, deck, next, hand.cards);
        hand.AddCard(deck(next));
        next := next + 1;
        decision := Stand(hand);
      }
      assert Rules.Finish(standOnValue, standOnSoft, deck, next, hand.cards) == (hand.cards, next);
    }
  }

  // ---------------------------------------------------------------------------
  // Rounds

  /** The tally chain of `main` as written, on a player's and a dealer's finished hands.
      The player-bust test only runs `next`, an expression statement that does nothing, so
      the chain goes on to the dealer's hand whether or not the player busted. */
  predicate PlayerCredited(player: seq<int>, dealer: seq<int>)
    ensures Bust(dealer) ==> PlayerCredited(player, dealer)
    ensures Blackjack(dealer) && !Blackjack(player) ==> !PlayerCredited(player, dealer)
    ensures PlayerCredited(player, dealer) && !Bust(dealer) ==> Rules.Score(player).total >= Rules.Score(dealer).total
  {
    var p := Rules.Score(player);
    var d := Rules.Score(dealer);
    if Bust(dealer) then true
    else if Blackjack(player) && !Blackjack(dealer) then true
    else if !Blackjack(player) && Blackjack(dealer) then false
    else if p.total == d.total && Blackjack(player) then true
    else if p.total == d.total && Blackjack(dealer) then false
    else if p.total == d.total then false
    else if p.total > d.total then true
    else false
  }

  /** How a round is settled under the rules the comments of the chain describe. */
  datatype Outcome = PlayerWins | DealerWins | Tie

  /** The settlement the chain's comments describe: a busted player loses, a busted dealer
      loses, a lone blackjack wins, then the higher total wins; equal totals and two
      blackjacks tie. */
  function Settle(player: seq<int>, dealer: seq<int>): (o: Outcome)
    ensures Bust(player) ==> o == DealerWins
    ensures !Bust(player) && Bust(dealer) ==> o == PlayerWins
    ensures Blackjack(player) && Blackjack(dealer) ==> o == Tie
  {
    var p := Rules.Score(player);
    var d := Rules.Score(dealer);
    if Bust(player) then DealerWins
    else if Bust(dealer) then PlayerWins
    else if Blackjack(player) && !Blackjack(dealer) then PlayerWins
    else if Blackjack(dealer) && !Blackjack(player) then DealerWins
    else if p.total > d.total then PlayerWins
    else if p.total < d.total then DealerWins
    else Tie
  }

  /** The chain credits the player exactly in the rounds the player wins, in the rounds
      where the player busted and the dealer has no blackjack (the dealer busted too, or
      the busted total beats the dealer's), and in the rounds where both have blackjack. */
  lemma CreditedVersusSettled(player: seq<int>, dealer: seq<int>)
    ensures PlayerCredited(player, dealer) <==>
      Settle(player, dealer) == PlayerWins
      || (Bust(player) && !Blackjack(dealer))
      || (Blackjack(player) && Blackjack(dealer))
  {
  }

  /** A player who busts with 25 against a dealer's 17 is credited with the round. */
  lemma BustedPlayerCredited()
    ensures Bust([10, 10, 5]) && !Bust([10, 7])
    ensures PlayerCredited([10, 10, 5], [10, 7])
    ensures Settle([10, 10, 5], [10, 7]) == DealerWins
  {
    Rules.HardSumAppend([10, 10], 5);
    assert [10, 10] + [5] == [10, 10, 5];
    assert !Blackjack([10, 7]) by {
      BlackjackIsNatural([10, 7]);
    }
  }

  /** Two blackjacks credit the player, though the round is a tie. */
  lemma TwoBlackjacksCredited()
    ensures Blackjack([1, 10]) && Blackjack([13, 1])
    ensures PlayerCredited([1, 10], [13, 1])
    ensures Settle([1, 10], [13, 1]) == Tie
  {
    BlackjackIsNatural([1, 10]);
    BlackjackIsNatural([13, 1]);
  }

  /** The rounds the player is credited with among `n` rounds played from `pos` (player's
      hand first, then the dealer's from the next card), and the position after them. */
  function CellWins(playerValue: int, playerSoft: bool, dealerValue: int, dealerSoft: bool,
                    n: nat, deck: Rules.Deck, pos: nat): (r: (nat, nat))
    ensures r.0 <= n
  {
    if n == 0 then (0, pos)
    else
      var (player, afterPlayer) := Rules.PlayHand(playerValue, playerSoft, deck, pos);
      var (dealer, afterDealer) := Rules.PlayHand(dealerValue, dealerSoft, deck, afterPlayer);
      var rest := CellWins(playerValue, playerSoft, dealerValue, dealerSoft, n - 1, deck, afterDealer);
      ((if PlayerCredited(player, dealer) then 1 else 0) + rest.0, rest.1)
  }

  lemma CellWinsStep(playerValue: int, playerSoft: bool, dealerValue: int, dealerSoft: bool,
                     n: nat, deck: Rules.Deck, pos: nat)
    requires 0 < n
    ensures var (player, afterPlayer) := Rules.PlayHand(playerValue, playerSoft, deck, pos);
      var (dealer, afterDealer) := Rules.PlayHand(dealerValue, dealerSoft, deck, afterPlayer);
      var rest := CellWins(playerValue, playerSoft, dealerValue, dealerSoft, n - 1, deck, afterDealer);
      CellWins(playerValue, playerSoft, dealerValue, dealerSoft, n, deck, pos).0
        == (if PlayerCredited(player, dealer) then 1 else 0) + rest.0
      && CellWins(playerValue, playerSoft, dealerValue, dealerSoft, n, deck, pos).1 == rest.1
  {
  }

  /** One round of `main`: the player's hand, then the dealer's, then the tally chain on
      the two hands' methods. */
  method PlayRound(player: Strategy, dealer: Strategy, deck: Rules.Deck, pos: nat)
    returns (credited: bool, next: nat)
    modifies player, dealer
    ensures var (playerCards, afterPlayer) := Rules.PlayHand(player.standOnValue, player.standOnSoft, deck, pos);
      var (dealerCards, afterDealer) := Rules.PlayHand(dealer.standOnValue, dealer.standOnSoft, deck, afterPlayer);
      credited == PlayerCredited(playerCards, dealerCards) && next == afterDealer
  {
    var playerHand, afterPlayer := player.Play(deck, pos);
    if playerHand.IsBust() {
      // `next`: nothing happens, and the dealer's hand is played all the same
    }
    var dealerHand;
    dealerHand, next := dealer.Play(deck, afterPlayer);
    if dealerHand.IsBust() {
      credited := true;
    } else if playerHand.IsBlackjack() && !dealerHand.IsBlackjack() {
      credited := true;
    } else if !playerHand.IsBlackjack() && dealerHand.IsBlackjack() {
      credited := false;
    } else if playerHand.total == dealerHand.total && playerHand.IsBlackjack() {
      credited := true;
    } else if playerHand.total == dealerHand.total && dealerHand.IsBlackjack() {
      credited := false;
    } else if playerHand.total == dealerHand.total {
      credited := false;
    } else if playerHand.total > dealerHand.total {
      credited := true;
    } else {
      credited := false;
    }
  }

  /** The simulation loop of `main` for one pair of strategies: `n` rounds, counting the
      rounds the chain credits to the player. */
  method CountWins(player: Strategy, dealer: Strategy, n: nat, deck: Rules.Deck, pos: nat)
    returns (wins: nat, next: nat)
    modifies player, dealer
    ensures (wins, next)
      == CellWins(player.standOnValue, player.standOnSoft, dealer.standOnValue, dealer.standOnSoft, n, deck, pos)
    ensures wins <= n
  {
    wins := 0;
    next := pos;
    for i := 0 to n
      invariant wins + CellWins(player.standOnValue, player.standOnSoft, dealer.standOnValue, dealer.standOnSoft, n - i, deck, next).0
        == CellWins(player.standOnValue, player.standOnSoft, dealer.standOnValue, dealer.standOnSoft, n, deck, pos).0
      invariant CellWins(player.standOnValue, player.standOnSoft, dealer.standOnValue, dealer.standOnSoft, n - i, deck, next).1
        == CellWins(player.standOnValue, player.standOnSoft, dealer.standOnValue, dealer.standOnSoft, n, deck, pos).1
    {
      CellWinsStep(player.standOnValue, player.standOnSoft, dealer.standOnValue, dealer.standOnSoft, n - i, deck, next);
      var credited;
      credited, next := PlayRound(player, dealer, deck, next);
      if credited {
        wins := wins + 1;
      }
    }
  }

  // ---------------------------------------------------------------------------
  // The table

  /** The header of the table: P-Strategy, then D-H13, D-S13, ..., D-H20, D-S20. */
  function Header(): (h: seq<Rules.Cell>)
    ensures |h| == 17 && h[0] == Rules.Text("P-Strategy")
  {
    [Rules.Text("P-Strategy")] + seq(16, i requires 0 <= i < 16 => Rules.Text("D-" + Rules.StrategyNames[i]))
  }

  /** A row of the table: the player's strategy and sixteen counts, one per dealer
      strategy, none above the number of rounds. */
  predicate RowShaped(row: seq<Rules.Cell>, n: nat) {
    |row| == 17 && forall c :: 1 <= c < 17 ==> row[c].Number? && row[c].count <= n
  }

  /** The column loop of `main`: one label per dealer strategy, in play order. */
  method ColumnNames() returns (header: seq<Rules.Cell>)
    ensures header == Header()
  {
    var strategies := ["H", "S"];
    header := [Rules.Text("P-Strategy")];
    HeaderCells();
    for value := 13 to 21
      invariant |header| == 1 + 2 * (value - 13) && header == Header()[..|header|]
    {
      for s := 0 to |strategies|
        invariant |header| == 1 + 2 * (value - 13) + s && header == Header()[..|header|]
      {
        var standOnSoft := strategies[s] == "S";
        HeaderNext(header, value - 13, standOnSoft);
        header := header + [Rules.Text("D-" + Rules.StrategyName(value, standOnSoft))];
      }
    }
    assert Header()[..17] == Header();
  }

  /** The label of the next dealer strategy continues the header. */
  lemma HeaderNext(header: seq<Rules.Cell>, v: nat, standOnSoft: bool)
    requires v < 8 && |header| == 1 + 2 * v + (if standOnSoft then 1 else 0)
    requires header == Header()[..|header|]
    ensures header + [Rules.Text("D-" + Rules.StrategyName(13 + v, standOnSoft))] == Header()[..|header| + 1]
  {
    HeaderCells();
    Rules.NameListed(v, standOnSoft);
  }

  lemma HeaderCells()
    ensures |Header()| == 17 && Header()[0] == Rules.Text("P-Strategy")
    ensures forall c :: 1 <= c < 17 ==> Header()[c] == Rules.Text("D-" + Rules.StrategyNames[c - 1])
  {
  }

  /** The counts of a player strategy's row from the dealer strategy (dealerValue,
      dealerSoft) on, the dealer strategies taken in play order (for each stand-on value
      up to 20, hitting on soft, then standing on soft); each count is over `n` rounds
      played on from where the previous count stopped. */
  function DealerCells(playerValue: int, playerSoft: bool, dealerValue: int, dealerSoft: bool,
                       n: nat, deck: Rules.Deck, pos: nat): (r: (seq<Rules.Cell>, nat))
    ensures |r.0| == if dealerValue > 20 then 0 else 2 * (20 - dealerValue) + if dealerSoft then 1 else 2
    decreases 21 - dealerValue, if dealerSoft then 0 else 1
  {
    if dealerValue > 20 then ([], pos)
    else
      var (wins, after) := CellWins(playerValue, playerSoft, dealerValue, dealerSoft, n, deck, pos);
      var rest :=
        if dealerSoft then DealerCells(playerValue, playerSoft, dealerValue + 1, false, n, deck, after)
        else DealerCells(playerValue, playerSoft, dealerValue, true, n, deck, after);
      ([Rules.Number(wins)] + rest.0, rest.1)
  }

  /** Every cell is a count of at most `n` rounds. */
  predicate Counts(cells: seq<Rules.Cell>, n: nat) {
    forall c :: 0 <= c < |cells| ==> cells[c].Number? && cells[c].count <= n
  }

  /** Every cell of a row is a count of at most `n` rounds. */
  lemma {:induction false} DealerCellsBounded(playerValue: int, playerSoft: bool, dealerValue: int, dealerSoft: bool,
                                              n: nat, deck: Rules.Deck, pos: nat)
    ensures Counts(DealerCells(playerValue, playerSoft, dealerValue, dealerSoft, n, deck, pos).0, n)
    decreases 21 - dealerValue, if dealerSoft then 0 else 1
  {
    if dealerValue <= 20 {
      var (wins, after) := CellWins(playerValue, playerSoft, dealerValue, dealerSoft, n, deck, pos);
      var rest;
      if dealerSoft {
        DealerCellsBounded(playerValue, playerSoft, dealerValue + 1, false, n, deck, after);
        rest := DealerCells(playerValue, playerSoft, dealerValue + 1, false, n, deck, after).0;
      } else {
        DealerCellsBounded(playerValue, playerSoft, dealerValue, true, n, deck, after);
        rest := DealerCells(playerValue, playerSoft, dealerValue, true, n, deck, after).0;
      }
      assert DealerCells(playerValue, playerSoft, dealerValue, dealerSoft, n, deck, pos).0 == [Rules.Number(wins)] + rest;
    }
  }

  /** The row of one player strategy: its label, then its count against every dealer
      strategy. */
  function PlayerRowOf(playerValue: nat, playerSoft: bool, n: nat, deck: Rules.Deck, pos: nat)
    : (r: (seq<Rules.Cell>, nat))
    ensures |r.0| == 17 && r.0[0] == Rules.Text("P-" + Rules.StrategyName(playerValue, playerSoft))
  {
    var (cells, next) := DealerCells(playerValue, playerSoft, 13, false, n, deck, pos);
    ([Rules.Text("P-" + Rules.StrategyName(playerValue, playerSoft))] + cells, next)
  }

  /** A player strategy's row has the shape of the table's rows. */
  lemma PlayerRowShaped(playerValue: nat, playerSoft: bool, n: nat, deck: Rules.Deck, pos: nat)
    ensures RowShaped(PlayerRowOf(playerValue, playerSoft, n, deck, pos).0, n)
  {
    var cells := DealerCells(playerValue, playerSoft, 13, false, n, deck, pos).0;
    DealerCellsBounded(playerValue, playerSoft, 13, false, n, deck, pos);
    var row := PlayerRowOf(playerValue, playerSoft, n, deck, pos).0;
    assert row == [Rules.Text("P-" + Rules.StrategyName(playerValue, playerSoft))] + cells;
    forall c | 1 <= c < 17
      ensures row[c].Number? && row[c].count <= n
    {
      assert row[c] == cells[c - 1];
    }
  }

  /** The dealer loops of `main` for one player strategy: the row holds the player's label
      and then, for each dealer strategy, the rounds the player is credited with. */
  method PlayerRow(player: Strategy, name: string, n: nat, deck: Rules.Deck, pos: nat)
    returns (row: seq<Rules.Cell>, next: nat)
    modifies player
    ensures row == [Rules.Text(name)] + DealerCells(player.standOnValue, player.standOnSoft, 13, false, n, deck, pos).0
    ensures next == DealerCells(player.standOnValue, player.standOnSoft, 13, false, n, deck, pos).1
  {
    ghost var pv, ps := player.standOnValue, player.standOnSoft;
    ghost var all := DealerCells(pv, ps, 13, false, n, deck, pos);
    row := [Rules.Text(name)];
    next := pos;
    for dealerValue := 13 to 21
      invariant 0 < |row| && row[0] == Rules.Text(name)
      invariant row[1..] + DealerCells(pv, ps, dealerValue, false, n, deck, next).0 == all.0
      invariant DealerCells(pv, ps, dealerValue, false, n, deck, next).1 == all.1
    {
      var cells;
      cells, next := DealerValueCells(player, dealerValue, n, deck, next);
      CellsAdvance(row, cells, DealerCells(pv, ps, dealerValue + 1, false, n, deck, next).0, all.0);
      row := row + cells;
    }
    assert DealerCells(pv, ps, 21, false, n, deck, next) == ([], next);
    CellsDone(row, all.0);
  }

  /** The loop of `main` over the dealer's two strategies at one dealer stand-on value: the
      player's count against the strategy that hits on soft, then against the one that
      stands on soft. */
  method DealerValueCells(player: Strategy, dealerValue: int, n: nat, deck: Rules.Deck, pos: nat)
    returns (cells: seq<Rules.Cell>, next: nat)
    requires dealerValue <= 20
    modifies player
    ensures DealerCells(player.standOnValue, player.standOnSoft, dealerValue, false, n, deck, pos).0
      == cells + DealerCells(player.standOnValue, player.standOnSoft, dealerValue + 1, false, n, deck, next).0
    ensures DealerCells(player.standOnValue, player.standOnSoft, dealerValue, false, n, deck, pos).1
      == DealerCells(player.standOnValue, player.standOnSoft, dealerValue + 1, false, n, deck, next).1
  {
    ghost var pv, ps := player.standOnValue, player.standOnSoft;
    ghost var all := DealerCells(pv, ps, dealerValue, false, n, deck, pos);
    var strategies := ["H", "S"];
    cells := [];
    next := pos;
    for s := 0 to |strategies|
      invariant cells + DealerCells(pv, ps, if s == 2 then dealerValue + 1 else dealerValue, s == 1, n, deck, next).0 == all.0
      invariant DealerCells(pv, ps, if s == 2 then dealerValue + 1 else dealerValue, s == 1, n, deck, next).1 == all.1
    {
      var dealerStandOnSoft := strategies[s] != "H";
      var dealer := new Strategy(dealerValue, dealerStandOnSoft);
      ghost var before := DealerCells(pv, ps, dealerValue, dealerStandOnSoft, n, deck, next);
      var wins;
      wins, next := CountWins(player, dealer, n, deck, next);
      ghost var rest := DealerCells(pv, ps, if s == 1 then dealerValue + 1 else dealerValue, s == 0, n, deck, next);
      assert before.0 == [Rules.Number(wins)] + rest.0 && before.1 == rest.1;
      Regroup(cells, [Rules.Number(wins)], rest.0);
      cells := cells + [Rules.Number(wins)];
    }
  }

  lemma Regroup(cells: seq<Rules.Cell>, more: seq<Rules.Cell>, rest: seq<Rules.Cell>)
    ensures cells + (more + rest) == (cells + more) + rest
  {
  }

  lemma CellsDone(row: seq<Rules.Cell>, all: seq<Rules.Cell>)
    requires 0 < |row| && row[1..] + [] == all
    ensures row == [row[0]] + all
  {
    assert row[1..] + [] == row[1..];
  }

  lemma CellsAdvance(row: seq<Rules.Cell>, cells: seq<Rules.Cell>, rest: seq<Rules.Cell>, all: seq<Rules.Cell>)
    requires 0 < |row| && row[1..] + (cells + rest) == all
    ensures (row + cells)[1..] + rest == all
  {
    assert (row + cells)[1..] == row[1..] + cells;
  }

  lemma PlayerLabel(playerValue: nat, playerSoft: bool)
    ensures (if playerSoft then "P-S" else "P-H") + Rules.NatToString(playerValue)
      == "P-" + Rules.StrategyName(playerValue, playerSoft)
  {
    var digits := Rules.NatToString(playerValue);
    var letter := if playerSoft then "S" else "H";
    assert "P-" + (letter + digits) == ("P-" + letter) + digits;
  }

  /** The strategy loop of `main` for one player stand-on value: the row of the strategy
      that hits on soft, then the row of the one that stands on soft, played on from where
      the first stopped. */
  method PlayerRows(playerValue: nat, n: nat, deck: Rules.Deck, pos: nat)
    returns (rows: seq<seq<Rules.Cell>>, next: nat)
    ensures |rows| == 2
    ensures rows[0] == PlayerRowOf(playerValue, false, n, deck, pos).0
    ensures rows[1] == PlayerRowOf(playerValue, true, n, deck, PlayerRowOf(playerValue, false, n, deck, pos).1).0
    ensures next == PlayerRowOf(playerValue, true, n, deck, PlayerRowOf(playerValue, false, n, deck, pos).1).1
  {
    var strategies := ["H", "S"];
    rows := [];
    next := pos;
    ghost var hard := PlayerRowOf(playerValue, false, n, deck, pos);
    ghost var soft := PlayerRowOf(playerValue, true, n, deck, hard.1);
    for s := 0 to |strategies|
      invariant |rows| == s
      invariant s >= 1 ==> rows[0] == hard.0
      invariant s == 2 ==> rows[1] == soft.0
      invariant next == if s == 0 then pos else if s == 1 then hard.1 else soft.1
    {
      var playerStandOnSoft, playerStratName;
      if strategies[s] == "H" {
        playerStandOnSoft := false;
        playerStratName := "P-H" + Rules.NatToString(playerValue);
      } else {
        playerStandOnSoft := true;
        playerStratName := "P-S" + Rules.NatToString(playerValue);
      }
      PlayerLabel(playerValue, playerStandOnSoft);
      var playerStrat := new Strategy(playerValue, playerStandOnSoft);
      var row;
      row, next := PlayerRow(playerStrat, playerStratName, n, deck, next);
      assert (row, next) == if s == 0 then hard else soft;
      rows := rows + [row];
    }
  }

  /** Rows shaped like the table's, labelled with the player strategies in play order
      from the `first`-th on. */
  predicate Labelled(rows: seq<seq<Rules.Cell>>, first: nat, n: nat) {
    forall r :: 0 <= r < |rows| ==>
      first + r < |Rules.StrategyNames| && RowShaped(rows[r], n)
      && rows[r][0] == Rules.Text("P-" + Rules.StrategyNames[first + r])
  }

  /** Two rows of the strategies of the next player stand-on value extend a labelled
      table. */
  lemma AppendPlayerRows(table: seq<seq<Rules.Cell>>, rows: seq<seq<Rules.Cell>>, v: nat, n: nat)
    requires v < 8 && |table| == 1 + 2 * v && Labelled(table[1..], 0, n)
    requires |rows| == 2 && RowShaped(rows[0], n) && RowShaped(rows[1], n)
    requires rows[0][0] == Rules.Text("P-" + Rules.StrategyName(13 + v, false))
    requires rows[1][0] == Rules.Text("P-" + Rules.StrategyName(13 + v, true))
    ensures Labelled((table + rows)[1..], 0, n)
  {
    var all := (table + rows)[1..];
    assert all == table[1..] + rows;
    forall r | 0 <= r < |all|
      ensures r < |Rules.StrategyNames| && RowShaped(all[r], n)
        && all[r][0] == Rules.Text("P-" + Rules.StrategyNames[r])
    {
      if r < 2 * v {
        EarlierRowLabelled(table[1..], rows, r, n);
      } else {
        NewRowLabelled(table[1..], rows, v, r, n);
      }
    }
  }

  lemma EarlierRowLabelled(earlier: seq<seq<Rules.Cell>>, rows: seq<seq<Rules.Cell>>, r: nat, n: nat)
    requires Labelled(earlier, 0, n) && r < |earlier|
    ensures r < |Rules.StrategyNames| && RowShaped((earlier + rows)[r], n)
      && (earlier + rows)[r][0] == Rules.Text("P-" + Rules.StrategyNames[r])
  {
    assert (earlier + rows)[r] == earlier[r];
  }

  lemma NewRowLabelled(earlier: seq<seq<Rules.Cell>>, rows: seq<seq<Rules.Cell>>, v: nat, r: nat, n: nat)
    requires v < 8 && |earlier| == 2 * v && 2 * v <= r < 2 * v + 2
    requires |rows| == 2 && RowShaped(rows[0], n) && RowShaped(rows[1], n)
    requires rows[0][0] == Rules.Text("P-" + Rules.StrategyName(13 + v, false))
    requires rows[1][0] == Rules.Text("P-" + Rules.StrategyName(13 + v, true))
    ensures r < |Rules.StrategyNames| && RowShaped((earlier + rows)[r], n)
      && (earlier + rows)[r][0] == Rules.Text("P-" + Rules.StrategyNames[r])
  {
    Rules.NameListed(v, false);
    Rules.NameListed(v, true);
    assert (earlier + rows)[r] == rows[r - 2 * v];
  }

  /** Rows 1 + 2v and 2 + 2v of a table are the rows of player stand-on value 13 + v
      read from `pos` on: the strategy that hits on soft, then the one that stands on soft
      from where the first stopped, ending at `next`. */
  predicate PlayerRowsAt(table: seq<seq<Rules.Cell>>, v: nat, n: nat, deck: Rules.Deck, pos: nat, next: nat) {
    var hard := PlayerRowOf(13 + v, false, n, deck, pos);
    var soft := PlayerRowOf(13 + v, true, n, deck, hard.1);
    2 + 2 * v < |table| && table[1 + 2 * v] == hard.0 && table[2 + 2 * v] == soft.0 && next == soft.1
  }

  /** The table of `main`: the header, then one row per player strategy in play order,
      P-H13, P-S13, ..., P-H20, P-S20, each its label followed by sixteen counts. The rows
      of player stand-on value 13 + v are that value's two strategies, each playing n
      rounds against every dealer strategy from `starts[v]` on, and each value's rounds
      follow the previous value's in the stream. */
  method Simulate(n: nat, deck: Rules.Deck, pos: nat)
    returns (table: seq<seq<Rules.Cell>>, next: nat, ghost starts: seq<nat>)
    ensures |table| == 17 && table[0] == Header()
    ensures Labelled(table[1..], 0, n)
    ensures |starts| == 9 && starts[0] == pos && starts[8] == next
    ensures forall v :: 0 <= v < 8 ==> PlayerRowsAt(table, v, n, deck, starts[v], starts[v + 1])
  {
    var header := ColumnNames();
    table := [header];
    next := pos;
    starts := [pos];
    for playerValue := 13 to 21
      invariant |table| == 1 + 2 * (playerValue - 13) && table[0] == Header()
      invariant Labelled(table[1..], 0, n)
      invariant |starts| == playerValue - 12 && starts[0] == pos && starts[playerValue - 13] == next
      invariant forall u :: 0 <= u < playerValue - 13 ==> PlayerRowsAt(table, u, n, deck, starts[u], starts[u + 1])
    {
      var rows;
      ghost var before := next;
      rows, next := PlayerRows(playerValue, n, deck, next);
      PlayerRowShaped(playerValue, false, n, deck, before);
      PlayerRowShaped(playerValue, true, n, deck, PlayerRowOf(playerValue, false, n, deck, before).1);
      AppendPlayerRows(table, rows, playerValue - 13, n);
      NewPlayerRows(table, rows, playerValue - 13, n, deck, starts, next);
      KeepPlayerRows(table, rows, playerValue - 13, n, deck, starts, next);
      table := table + rows;
      starts := starts + [next];
    }
  }

  /** Appending the rows of the next player stand-on value keeps the rows already in
      place and places the new ones after them. */
  lemma KeepPlayerRows(table: seq<seq<Rules.Cell>>, rows: seq<seq<Rules.Cell>>, v: nat, n: nat,
                       deck: Rules.Deck, starts: seq<nat>, next: nat)
    requires |starts| == v + 1
    requires forall u :: 0 <= u < v ==> PlayerRowsAt(table, u, n, deck, starts[u], starts[u + 1])
    requires PlayerRowsAt(table + rows, v, n, deck, (starts + [next])[v], (starts + [next])[v + 1])
    ensures forall u :: 0 <= u < v + 1 ==>
      PlayerRowsAt(table + rows, u, n, deck, (starts + [next])[u], (starts + [next])[u + 1])
  {
    forall u | 0 <= u < v
      ensures PlayerRowsAt(table + rows, u, n, deck, (starts + [next])[u], (starts + [next])[u + 1])
    {
      KeepOnePlayerValue(table, rows, u, n, deck, starts, next);
    }
  }

  lemma NewPlayerRows(table: seq<seq<Rules.Cell>>, rows: seq<seq<Rules.Cell>>, v: nat, n: nat,
                      deck: Rules.Deck, starts: seq<nat>, next: nat)
    requires |table| == 1 + 2 * v && |starts| == v + 1 && |rows| == 2
    requires rows[0] == PlayerRowOf(13 + v, false, n, deck, starts[v]).0
    requires rows[1] == PlayerRowOf(13 + v, true, n, deck, PlayerRowOf(13 + v, false, n, deck, starts[v]).1).0
    requires next == PlayerRowOf(13 + v, true, n, deck, PlayerRowOf(13 + v, false, n, deck, starts[v]).1).1
    ensures PlayerRowsAt(table + rows, v, n, deck, (starts + [next])[v], (starts + [next])[v + 1])
  {
    assert (starts + [next])[v] == starts[v] && (starts + [next])[v + 1] == next;
    assert (table + rows)[1 + 2 * v] == rows[0];
    assert (table + rows)[2 + 2 * v] == rows[1];
  }

  lemma KeepOnePlayerValue(table: seq<seq<Rules.Cell>>, rows: seq<seq<Rules.Cell>>, u: nat, n: nat,
                           deck: Rules.Deck, starts: seq<nat>, next: nat)
    requires u + 1 < |starts| && PlayerRowsAt(table, u, n, deck, starts[u], starts[u + 1])
    ensures PlayerRowsAt(table + rows, u, n, deck, (starts + [next])[u], (starts + [next])[u + 1])
  {
    assert (starts + [next])[u] == starts[u] && (starts + [next])[u + 1] == starts[u + 1];
    assert (table + rows)[1 + 2 * u] == table[1 + 2 * u];
    assert (table + rows)[2 + 2 * u] == table[2 + 2 * u];
  }
}
