/** First version of the simulator: one strategy, given on the command line as a
    stand-on value and the word `soft` or `hard`, plays a number of hands and counts
    how many of them bust. */
module Blackjack {
  import Rules

  datatype Result<T> = Ok(value: T) | Err(message: string)

  /** `score`: the hard sum accumulated card by card (jack, queen, king as 10, aces as 1),
      then one ace raised to 11 when the hand holds one and the total stays below 22. */
  method Score(cards: seq<int>) returns (total: int, softAceCount: int)
    ensures Rules.Points(total, softAceCount) == Rules.Score(cards)
  {
    softAceCount := 0;
    total := 0;
    var ace := 1 in cards;
    for i := 0 to |cards|
      invariant total == Rules.HardSum(cards[..i])
    {
      var card := cards[i];
      if card in {11, 12, 13} {
        total := total + 10;
      } else {
        total := total + card;
      }
      Rules.HardSumAppend(cards[..i], card);
      assert cards[..i + 1] == cards[..i] + [card];
    }
    assert cards[..|cards|] == cards;
    if ace && total + 10 < 22 {
      total := total + 10;
      softAceCount := softAceCount + 1;
    }
  }

  /** `stand`: True to stand, False to hit, decided separately for soft and hard hands.
      Every branch of the soft case returns, so the decision is defined on every hand;
      it is the threshold rule. */
  function Stand(standOnValue: int, standOnSoft: bool, cards: seq<int>): (stand: bool)
    ensures stand <==> Rules.StandsOn(standOnValue, standOnSoft, Rules.Score(cards))
  {
    var p := Rules.Score(cards);
    if p.softAceCount == 1 then
      if p.total < standOnValue then false
      else if p.total == standOnValue && !standOnSoft then false
      else if p.total == standOnValue && standOnSoft then true
      else if p.total > standOnValue then true
      else assert false; false
    else
      if p.total < standOnValue then false
      else if p.total >= standOnValue then true
      else assert false; false
  }

  /** The strategy argument: `soft` stands on a soft total at the stand-on value, `hard`
      hits it, and any other word is a ValueError. */
  function StandOnSoft(strategy: string): (r: Result<bool>)
    ensures r.Ok? <==> strategy == "soft" || strategy == "hard"
    ensures r.Ok? ==> (r.value <==> strategy == "soft")
  {
    if strategy != "soft" && strategy != "hard" then
      Err("Oops! You have to input either 'soft' or 'hard'.")
    else if strategy == "soft" then Ok(true)
    else Ok(false)
  }

  /** The busted hands among `trials` successive hands played from position `pos`, and the
      position after the last card drawn. */
  function Busts(trials: nat, standOnValue: int, standOnSoft: bool, deck: Rules.Deck, pos: nat): (r: (nat, nat))
    ensures r.0 <= trials
  {
    if trials == 0 then (0, pos)
    else
      var played := Rules.PlayHand(standOnValue, standOnSoft, deck, pos);
      var rest := Busts(trials - 1, standOnValue, standOnSoft, deck, played.1);
      ((if Rules.Score(played.0).total > 21 then 1 else 0) + rest.0, rest.1)
  }

  lemma BustsStep(trials: nat, standOnValue: int, standOnSoft: bool, deck: Rules.Deck, pos: nat)
    requires 0 < trials
    ensures var (hand, next) := Rules.PlayHand(standOnValue, standOnSoft, deck, pos);
      var rest := Busts(trials - 1, standOnValue, standOnSoft, deck, next);
      Busts(trials, standOnValue, standOnSoft, deck, pos).0 == (if Rules.Score(hand).total > 21 then 1 else 0) + rest.0
      && Busts(trials, standOnValue, standOnSoft, deck, pos).1 == rest.1
  {
  }

  /** One trial of `main`: two cards are dealt, then a card is drawn while `stand` says
      hit, `total` being rescored after every draw. The trial ends with the total of the
      played hand, and each draw raises the hard sum by at least one, so it ends. */
  method PlayTrial(standOnValue: int, standOnSoft: bool, deck: Rules.Deck, pos: nat) returns (total: int, next: nat)
    ensures var (hand, last) := Rules.PlayHand(standOnValue, standOnSoft, deck, pos);
      total == Rules.Score(hand).total && next == last
    ensures standOnValue <= total
  {
    var hand := [deck(pos), deck(pos + 1)];
    next := pos + 2;
    var soft;
    total, soft := Score(hand);
    var hitOrStand := Stand(standOnValue, standOnSoft, hand);
    while !hitOrStand
      invariant total == Rules.Score(hand).total
      invariant hitOrStand == Rules.StandsOn(standOnValue, standOnSoft, Rules.Score(hand))
      invariant Rules.Finish(standOnValue, standOnSoft, deck, next, hand)
        == Rules.PlayHand(standOnValue, standOnSoft, deck, pos)
      decreases standOnValue - Rules.HardSum(hand)
    {
      Rules.HardSumAppend(hand, deck(next));
      hand := hand + [deck(next)];
      next := next + 1;
      total, soft := Score(hand);
      hitOrStand := Stand(standOnValue, standOnSoft, hand);
    }
  }

  /** The trial loop of `main`: the `else` of each trial's draw loop always runs (the loop
      has no `break`) and counts the hand when its final total is over 21. */
  method CountBusts(numSimulations: nat, standOnValue: int, standOnSoft: bool, deck: Rules.Deck, pos: nat)
    returns (bust: nat, next: nat)
    ensures (bust, next) == Busts(numSimulations, standOnValue, standOnSoft, deck, pos)
    ensures bust <= numSimulations
  {
    bust := 0;
    next := pos;
    for i := 0 to numSimulations
      invariant bust + Busts(numSimulations - i, standOnValue, standOnSoft, deck, next).0
        == Busts(numSimulations, standOnValue, standOnSoft, deck, pos).0
      invariant Busts(numSimulations - i, standOnValue, standOnSoft, deck, next).1
        == Busts(numSimulations, standOnValue, standOnSoft, deck, pos).1
    {
      BustsStep(numSimulations - i, standOnValue, standOnSoft, deck, next);
      var total;
      total, next := PlayTrial(standOnValue, standOnSoft, deck, next);
      if total > 21 {
        bust := bust + 1;
      }
    }
  }

  /** For every hand, the nested decision gives the same answer as the single chain of
      the later version: below the value hit, above it stand, at it stand unless the
      hand is soft and the strategy hits on soft. */
  lemma StandTable(standOnValue: int, standOnSoft: bool, cards: seq<int>)
    ensures var p := Rules.Score(cards);
      (p.total < standOnValue ==> !Stand(standOnValue, standOnSoft, cards))
      && (p.total > standOnValue ==> Stand(standOnValue, standOnSoft, cards))
      && (p.total == standOnValue ==>
            (Stand(standOnValue, standOnSoft, cards) <==> p.softAceCount == 0 || standOnSoft))
  {
  }
}
