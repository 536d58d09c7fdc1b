/** Second version of the simulator: for every strategy H13, S13, ..., H21, S21 it plays
    a number of hands, clamps every bust to 22, and tabulates how often each final total
    13..21 and BUST occurs. */
module Blackjack2 {
  import Rules

  /** The namedtuple `Stand(stand, total)` returned by `stand`. */
  datatype Verdict = Verdict(stand: bool, total: int)

  /** `score`: the hard sum accumulated card by card, then one ace raised to 11 when the
      hand holds one and the total stays below 22; returned as the `Score` namedtuple. */
  method Score(cards: seq<int>) returns (score: Rules.Points)
    ensures score == Rules.Score(cards)
  {
    var softAceCount := 0;
    var total := 0;
    var ace := 1 in cards;
    for i := 0 to |cards|
      invariant total == Rules.HardSum(cards[..i])
    {
      var card := cards[i];
      if card in {11, 12, 13} {
        total := total + 10;
      } else {
        total := total + card;
      }
      Rules.HardSumAppend(cards[..i], card);
      assert cards[..i + 1] == cards[..i] + [card];
    }
    assert cards[..|cards|] == cards;
    if ace && total + 10 < 22 {
      total := total + 10;
      softAceCount := softAceCount + 1;
    }
    score := Rules.Points(total, softAceCount);
  }

  /** `stand`: the decision (True to stand) together with the total it was taken on. */
  function Stand(standOnValue: int, standOnSoft: bool, cards: seq<int>): (r: Verdict)
    ensures r.total == Rules.Score(cards).total
    ensures r.stand <==> Rules.StandsOn(standOnValue, standOnSoft, Rules.Score(cards))
  {
    var p := Rules.Score(cards);
    var stand :=
      if p.total < standOnValue then false
      else if p.total > standOnValue then true
      else if p.softAceCount == 0 || standOnSoft then true
      else false;
    Verdict(stand, p.total)
  }

  /** The result `play_hand` reports for a played hand: its total, every bust as 22. */
  function Reported(total: int): (r: int)
    ensures r <= 22
    ensures r == 22 <==> total >= 22
    ensures total < 22 ==> r == total
  {
    if total >= 22 then 22 else total
  }

  /** The result of one hand played from `pos`, and the position after its last card. */
  function HandResult(standOnValue: int, standOnSoft: bool, deck: Rules.Deck, pos: nat): (r: (int, nat))
    ensures standOnValue <= 22 ==> standOnValue <= r.0 <= 22
    ensures pos + 2 <= r.1
  {
    Rules.PlayHandDraws(standOnValue, standOnSoft, deck, pos);
    Rules.PlayHandStops(standOnValue, standOnSoft, deck, pos);
    var (hand, next) := Rules.PlayHand(standOnValue, standOnSoft, deck, pos);
    (Reported(Rules.Score(hand).total), next)
  }

  /** `play_hand`: two cards, then a card while `stand` says hit; the total is reported
      as is up to 21 and as 22 for every bust, so it lies in [standOnValue, 21] or is 22. */
  method PlayHand(standOnValue: int, standOnSoft: bool, deck: Rules.Deck, pos: nat) returns (total: int, next: nat)
    ensures (total, next) == HandResult(standOnValue, standOnSoft, deck, pos)
    ensures var final := Rules.Score(Rules.PlayHand(standOnValue, standOnSoft, deck, pos).0).total;
      (final >= 22 ==> total == 22) && (final < 22 ==> total == final)
    ensures standOnValue <= 22 ==> standOnValue <= total <= 22
  {
    var hand := [deck(pos), deck(pos + 1)];
    next := pos + 2;
    var standOrHit := Stand(standOnValue, standOnSoft, hand);
    while !standOrHit.stand
      invariant standOrHit == Stand(standOnValue, standOnSoft, hand)
      invariant Rules.Finish(standOnValue, standOnSoft, deck, next, hand)
        == Rules.PlayHand(standOnValue, standOnSoft, deck, pos)
      decreases standOnValue - Rules.HardSum(hand)
    {
      Rules.HardSumAppend(hand, deck(next));
      hand := hand + [deck(next)];
      next := next + 1;
      standOrHit := Stand(standOnValue, standOnSoft, hand);
    }
    var score := Score(hand);
    total := score.total;
    if total >= 22 {
      total := 22;
    }
  }

  // ---------------------------------------------------------------------------
  // The histogram of one strategy

  /** The reported results of `trials` successive hands from `pos`, in order. */
  function Results(trials: nat, standOnValue: int, standOnSoft: bool, deck: Rules.Deck, pos: nat): (r: (seq<int>, nat))
    ensures |r.0| == trials
  {
    if trials == 0 then ([], pos)
    else
      var first := HandResult(standOnValue, standOnSoft, deck, pos);
      var rest := Results(trials - 1, standOnValue, standOnSoft, deck, first.1);
      ([first.0] + rest.0, rest.1)
  }

  /** Every reported result of a strategy lies between its stand-on value and 22. */
  lemma {:induction false} ResultsRange(trials: nat, standOnValue: int, standOnSoft: bool, deck: Rules.Deck, pos: nat)
    requires standOnValue <= 22
    ensures forall t :: t in Results(trials, standOnValue, standOnSoft, deck, pos).0 ==> standOnValue <= t <= 22
  {
    if trials > 0 {
      var first := HandResult(standOnValue, standOnSoft, deck, pos);
      ResultsRange(trials - 1, standOnValue, standOnSoft, deck, first.1);
    }
  }

  /** A `defaultdict(int)` lookup: a missing key counts 0. */
  function Count(results: map<int, nat>, total: int): nat {
    if total in results then results[total] else 0
  }

  /** The histogram `results` becomes when `results[total] += 1` is done for each of
      `totals` in turn. */
  function TallyFrom(results: map<int, nat>, totals: seq<int>): (r: map<int, nat>)
    decreases |totals|
  {
    if totals == [] then results
    else TallyFrom(results[totals[0] := Count(results, totals[0]) + 1], totals[1..])
  }

  /** The histogram of a sequence of results, starting from the empty `defaultdict`. */
  function Tally(totals: seq<int>): (r: map<int, nat>)
  {
    TallyFrom(map[], totals)
  }

  /** The counts of the totals lo, lo + 1, ..., hi - 1 added up. */
  function SumCounts(results: map<int, nat>, lo: int, hi: int): nat
    decreases hi - lo
  {
    if hi <= lo then 0 else Count(results, lo) + SumCounts(results, lo + 1, hi)
  }

  lemma {:induction false} SumCountsEmpty(lo: int, hi: int)
    ensures SumCounts(map[], lo, hi) == 0
    decreases hi - lo
  {
    if lo < hi {
      SumCountsEmpty(lo + 1, hi);
    }
  }

  lemma {:induction false} SumCountsIncrement(results: map<int, nat>, t: int, lo: int, hi: int)
    requires lo <= t < hi
    ensures SumCounts(results[t := Count(results, t) + 1], lo, hi) == SumCounts(results, lo, hi) + 1
    decreases hi - lo
  {
    if lo < t {
      SumCountsIncrement(results, t, lo + 1, hi);
    } else {
      SumCountsUnchanged(results, t, lo + 1, hi);
    }
  }

  lemma {:induction false} SumCountsUnchanged(results: map<int, nat>, t: int, lo: int, hi: int)
    requires t < lo
    ensures SumCounts(results[t := Count(results, t) + 1], lo, hi) == SumCounts(results, lo, hi)
    decreases hi - lo
  {
    if lo < hi {
      SumCountsUnchanged(results, t, lo + 1, hi);
    }
  }

  /** Tallying results that all lie in [lo, hi) adds exactly one count per result to
      that range. */
  lemma {:induction false} TallyCountsEveryResult(results: map<int, nat>, totals: seq<int>, lo: int, hi: int)
    requires forall t :: t in totals ==> lo <= t < hi
    ensures SumCounts(TallyFrom(results, totals), lo, hi) == SumCounts(results, lo, hi) + |totals|
    decreases |totals|
  {
    if totals != [] {
      var t := totals[0];
      assert t in totals;
      assert forall u :: u in totals[1..] ==> u in totals;
      SumCountsIncrement(results, t, lo, hi);
      TallyCountsEveryResult(results[t := Count(results, t) + 1], totals[1..], lo, hi);
    }
  }

  /** The keys of the histogram are the keys already present and the results that
      occurred, and nothing else. */
  lemma {:induction false} TallyKeys(results: map<int, nat>, totals: seq<int>)
    ensures forall k :: k in TallyFrom(results, totals) <==> k in results || k in totals
    decreases |totals|
  {
    if totals != [] {
      TallyKeys(results[totals[0] := Count(results, totals[0]) + 1], totals[1..]);
      assert forall u :: u in totals <==> u == totals[0] || u in totals[1..];
    }
  }

  lemma ResultsStep(trials: nat, standOnValue: int, standOnSoft: bool, deck: Rules.Deck, pos: nat)
    requires 0 < trials
    ensures var (total, next) := HandResult(standOnValue, standOnSoft, deck, pos);
      var rest := Results(trials - 1, standOnValue, standOnSoft, deck, next);
      Results(trials, standOnValue, standOnSoft, deck, pos) == ([total] + rest.0, rest.1)
  {
  }

  /** The histogram loop of `main` for one strategy: `results[total] += 1` for every hand.
      Its counts add up to the number of hands and every key is a reported result,
      between the stand-on value and 22. */
  method Histogram(standOnValue: int, standOnSoft: bool, numSims: nat, deck: Rules.Deck, pos: nat)
    returns (results: map<int, nat>, next: nat)
    ensures var (totals, last) := Results(numSims, standOnValue, standOnSoft, deck, pos);
      results == Tally(totals) && next == last
    ensures standOnValue <= 22 ==>
      (forall k :: k in results ==> standOnValue <= k <= 22)
      && SumCounts(results, standOnValue, 23) == numSims
  {
    results := map[];
    next := pos;
    ghost var all := Results(numSims, standOnValue, standOnSoft, deck, pos);
    ghost var remaining := all.0;
    for i := 0 to numSims
      invariant (remaining, all.1) == Results(numSims - i, standOnValue, standOnSoft, deck, next)
      invariant TallyFrom(results, remaining) == Tally(all.0)
    {
      ResultsStep(numSims - i, standOnValue, standOnSoft, deck, next);
      var total;
      total, next := PlayHand(standOnValue, standOnSoft, deck, next);
      assert remaining[0] == total;
      TallyStep(results, remaining);
      results := results[total := Count(results, total) + 1];
      remaining := remaining[1..];
    }
    assert remaining == [];
    if standOnValue <= 22 {
      HistogramBounds(numSims, standOnValue, standOnSoft, deck, pos);
    }
  }

  lemma TallyStep(results: map<int, nat>, totals: seq<int>)
    requires totals != []
    ensures TallyFrom(results, totals) == TallyFrom(results[totals[0] := Count(results, totals[0]) + 1], totals[1..])
  {
  }

  /** The histogram of a strategy's results has its keys between the stand-on value and
      22, and its counts add up to the number of hands. */
  lemma HistogramBounds(numSims: nat, standOnValue: int, standOnSoft: bool, deck: Rules.Deck, pos: nat)
    requires standOnValue <= 22
    ensures var m := Tally(Results(numSims, standOnValue, standOnSoft, deck, pos).0);
      (forall k :: k in m ==> standOnValue <= k <= 22) && SumCounts(m, standOnValue, 23) == numSims
  {
    var totals := Results(numSims, standOnValue, standOnSoft, deck, pos).0;
    ResultsRange(numSims, standOnValue, standOnSoft, deck, pos);
    TallyKeys(map[], totals);
    SumCountsEmpty(standOnValue, 23);
    TallyCountsEveryResult(map[], totals, standOnValue, 23);
  }

  // ---------------------------------------------------------------------------
  // The table

  /** The cells of `sorted(results.items())` restricted to the keys lo, ..., hi - 1, in
      ascending key order; every key of a histogram lies between the stand-on value and 22,
      so for the range [stand-on value, 23) these are all its items. */
  function SortedCells(results: map<int, nat>, lo: int, hi: int): (r: seq<Rules.Cell>)
    ensures |r| <= if lo <= hi then hi - lo else 0
    ensures forall i :: 0 <= i < |r| ==> r[i].Number?
    decreases hi - lo
  {
    if hi <= lo then []
    else (if lo in results then [Rules.Number(results[lo])] else []) + SortedCells(results, lo + 1, hi)
  }

  /** The counts held by a row of cells, added up. */
  function RowSum(cells: seq<Rules.Cell>): int {
    if cells == [] then 0
    else (if cells[0].Number? then cells[0].count else 0) + RowSum(cells[1..])
  }

  lemma {:induction false} RowSumAppend(a: seq<Rules.Cell>, b: seq<Rules.Cell>)
    ensures RowSum(a + b) == RowSum(a) + RowSum(b)
  {
    if a == [] {
      assert a + b == b;
    } else {
      assert (a + b)[0] == a[0];
      assert (a + b)[1..] == a[1..] + b;
      RowSumAppend(a[1..], b);
    }
  }

  lemma {:induction false} SortedCellsSum(results: map<int, nat>, lo: int, hi: int)
    ensures RowSum(SortedCells(results, lo, hi)) == SumCounts(results, lo, hi)
    decreases hi - lo
  {
    if lo < hi {
      SortedCellsSum(results, lo + 1, hi);
      RowSumAppend(if lo in results then [Rules.Number(results[lo])] else [], SortedCells(results, lo + 1, hi));
    }
  }

  /** A row of percentages with '0.0' cells put in front until it has ten entries. */
  function LeftPadded(percentages: seq<Rules.Cell>): (r: seq<Rules.Cell>)
    ensures |r| == if |percentages| < 10 then 10 else |percentages|
    ensures r[|r| - |percentages|..] == percentages
    ensures forall i :: 0 <= i < |r| - |percentages| ==> r[i] == Rules.Number(0)
  {
    if |percentages| < 10 then seq(10 - |percentages|, _ => Rules.Number(0)) + percentages
    else percentages
  }

  /** Padding adds only zero cells: the padded row holds the same total count. */
  lemma {:induction false} ZerosAddNothing(n: nat)
    ensures RowSum(seq(n, _ => Rules.Number(0))) == 0
  {
    if n > 0 {
      assert seq(n, _ => Rules.Number(0))[1..] == seq(n - 1, _ => Rules.Number(0));
      ZerosAddNothing(n - 1);
    }
  }

  /** The padding loop of `main`: `appendleft('0.0')` while the row is shorter than ten. */
  method PadLeft(percentages: seq<Rules.Cell>) returns (padded: seq<Rules.Cell>)
    ensures padded == LeftPadded(percentages)
  {
    padded := percentages;
    while |padded| < 10
      invariant |percentages| <= |padded| <= if |percentages| < 10 then 10 else |percentages|
      invariant padded[|padded| - |percentages|..] == percentages
      invariant forall i :: 0 <= i < |padded| - |percentages| ==> padded[i] == Rules.Number(0)
      decreases 10 - |padded|
    {
      padded := [Rules.Number(0)] + padded;
    }
  }

  /** One strategy's row of `main`: its name, then the histogram's cells in ascending order
      of total, padded on the left to ten. For a stand-on value in 13..22 the row has eleven
      entries and its counts add up to the number of hands. */
  method StrategyRow(value: int, standOnSoft: bool, stratName: string, numSims: nat, deck: Rules.Deck, pos: nat)
    returns (row: seq<Rules.Cell>, next: nat)
    ensures var (totals, last) := Results(numSims, value, standOnSoft, deck, pos);
      row == [Rules.Text(stratName)] + LeftPadded(SortedCells(Tally(totals), value, 23)) && next == last
    ensures 13 <= value <= 22 ==> RowShaped(row, numSims)
  {
    var results;
    results, next := Histogram(value, standOnSoft, numSims, deck, pos);
    var sorted := SortedCells(results, value, 23);
    var percentages := PadLeft(sorted);
    row := [Rules.Text(stratName)] + percentages;
    if 13 <= value <= 22 {
      SortedCellsSum(results, value, 23);
      PaddedRowShaped(stratName, sorted, numSims);
    }
  }

  /** Padding a row of at most ten counts keeps its total and gives it eleven cells. */
  lemma PaddedRowShaped(name: string, cells: seq<Rules.Cell>, numSims: nat)
    requires |cells| <= 10 && forall i :: 0 <= i < |cells| ==> cells[i].Number?
    requires RowSum(cells) == numSims
    ensures RowShaped([Rules.Text(name)] + LeftPadded(cells), numSims)
  {
    var row := [Rules.Text(name)] + LeftPadded(cells);
    assert row[1..] == LeftPadded(cells);
    if |cells| < 10 {
      ZerosAddNothing(10 - |cells|);
      RowSumAppend(seq(10 - |cells|, _ => Rules.Number(0)), cells);
    }
    forall c | 1 <= c < 11
      ensures row[c].Number?
    {
      LeftPaddedAt(cells, c - 1);
    }
  }

  /** The header row: STRATEGY, one column per total 13..21, and BUST. */
  function Header(): (h: seq<Rules.Cell>)
    ensures |h| == 11 && h[0] == Rules.Text("STRATEGY") && h[10] == Rules.Text("BUST")
  {
    [Rules.Text("STRATEGY")] + seq(9, i requires 0 <= i < 9 => Rules.Text(Rules.NatToString(13 + i))) + [Rules.Text("BUST")]
  }

  lemma HeaderListed()
    ensures Header() == [Rules.Text("STRATEGY"), Rules.Text("13"), Rules.Text("14"), Rules.Text("15"),
      Rules.Text("16"), Rules.Text("17"), Rules.Text("18"), Rules.Text("19"), Rules.Text("20"),
      Rules.Text("21"), Rules.Text("BUST")]
  {
    forall n | 13 <= n < 22
      ensures Rules.NatToString(n) == [Rules.Digit(n / 10), Rules.Digit(n % 10)]
    {
      Rules.TwoDigits(n);
    }
  }

  /** A row of the table: eleven cells, ten of them counts adding up to the number of hands. */
  predicate RowShaped(row: seq<Rules.Cell>, numSims: nat) {
    |row| == 11
    && (forall c :: 1 <= c < 11 ==> row[c].Number?)
    && RowSum(row[1..]) == numSims
  }

  /** The row of one strategy and the position after its hands: the strategy's name, then
      its histogram's cells in ascending order of total, padded on the left to ten. */
  function StrategyRowOf(value: nat, standOnSoft: bool, numSims: nat, deck: Rules.Deck, pos: nat): (r: (seq<Rules.Cell>, nat))
    ensures |r.0| > 0 && r.0[0] == Rules.Text(Rules.StrategyName(value, standOnSoft))
  {
    var (totals, next) := Results(numSims, value, standOnSoft, deck, pos);
    ([Rules.Text(Rules.StrategyName(value, standOnSoft))] + LeftPadded(SortedCells(Tally(totals), value, 23)), next)
  }

  /** For a stand-on value in 13..22 a strategy's row has eleven cells, ten of them
      counts adding up to the number of hands. */
  lemma StrategyRowShaped(value: nat, standOnSoft: bool, numSims: nat, deck: Rules.Deck, pos: nat)
    requires 13 <= value <= 22
    ensures RowShaped(StrategyRowOf(value, standOnSoft, numSims, deck, pos).0, numSims)
  {
    var results := Tally(Results(numSims, value, standOnSoft, deck, pos).0);
    HistogramBounds(numSims, value, standOnSoft, deck, pos);
    SortedCellsSum(results, value, 23);
    PaddedRowShaped(Rules.StrategyName(value, standOnSoft), SortedCells(results, value, 23), numSims);
  }

  /** The strategy loop of `main` for one stand-on value: the word `soft` stands on a soft
      total at the stand-on value and names its row S<value>, any other word hits it and
      names its row H<value>; the hard row comes first, and each row holds the histogram
      of the strategy it is named after. */
  method ValueRows(value: nat, numSims: nat, deck: Rules.Deck, pos: nat) returns (rows: seq<seq<Rules.Cell>>, next: nat)
    ensures |rows| == 2
    ensures rows[0] == StrategyRowOf(value, false, numSims, deck, pos).0
    ensures rows[1] == StrategyRowOf(value, true, numSims, deck, StrategyRowOf(value, false, numSims, deck, pos).1).0
    ensures next == StrategyRowOf(value, true, numSims, deck, StrategyRowOf(value, false, numSims, deck, pos).1).1
  {
    var strategies := ["hard", "soft"];
    ghost var hard := StrategyRowOf(value, false, numSims, deck, pos);
    rows := [];
    next := pos;
    for s := 0 to |strategies|
      invariant |rows| == s
      invariant s == 1 ==> rows[0] == hard.0 && next == hard.1
      invariant s == 2 ==> (rows[0] == hard.0
        && rows[1] == StrategyRowOf(value, true, numSims, deck, hard.1).0
        && next == StrategyRowOf(value, true, numSims, deck, hard.1).1)
      invariant s == 0 ==> next == pos
    {
      var strategy := strategies[s];
      var standOnSoft, stratName;
      if strategy == "soft" {
        standOnSoft := true;
        stratName := "S" + Rules.NatToString(value);
      } else {
        standOnSoft := false;
        stratName := "H" + Rules.NatToString(value);
      }
      var row;
      row, next := StrategyRow(value, standOnSoft, stratName, numSims, deck, next);
      rows := rows + [row];
    }
  }

  /** The rows of the table, each with eleven cells whose counts add up to the number of
      hands, named in the order of `Rules.StrategyNames`. */
  predicate NamedRows(table: seq<seq<Rules.Cell>>, numSims: nat) {
    |table| <= 19
    && forall r :: 1 <= r < |table| ==> RowShaped(table[r], numSims) && table[r][0] == Rules.Text(Rules.StrategyNames[r - 1])
  }

  lemma AppendValueRows(table: seq<seq<Rules.Cell>>, rows: seq<seq<Rules.Cell>>, v: nat, numSims: nat)
    requires v < 9 && |table| == 1 + 2 * v && NamedRows(table, numSims)
    requires |rows| == 2 && RowShaped(rows[0], numSims) && RowShaped(rows[1], numSims)
    requires rows[0][0] == Rules.Text(Rules.StrategyName(13 + v, false))
    requires rows[1][0] == Rules.Text(Rules.StrategyName(13 + v, true))
    ensures NamedRows(table + rows, numSims)
  {
    Rules.NameListed(v, false);
    Rules.NameListed(v, true);
  }

  /** Rows 1 + 2v and 2 + 2v of a table are the rows of stand-on value 13 + v read from
      `pos` on: the strategy that hits on soft, then the one that stands on soft from where
      the first stopped, ending at `next`. */
  predicate ValueRowsAt(table: seq<seq<Rules.Cell>>, v: nat, numSims: nat, deck: Rules.Deck, pos: nat, next: nat) {
    var hard := StrategyRowOf(13 + v, false, numSims, deck, pos);
    var soft := StrategyRowOf(13 + v, true, numSims, deck, hard.1);
    2 + 2 * v < |table| && table[1 + 2 * v] == hard.0 && table[2 + 2 * v] == soft.0 && next == soft.1
  }

  /** The table of `main`: the header and then one row per strategy, ordered H13, S13,
      ..., H21, S21, each row its name followed by ten count cells that add up to the
      number of hands. The rows of stand-on value 13 + v hold the histograms of that
      value's two strategies, played from `starts[v]` on, and each value's hands follow
      the previous value's in the stream. */
  method BuildTable(numSims: nat, deck: Rules.Deck, pos: nat)
    returns (table: seq<seq<Rules.Cell>>, next: nat, ghost starts: seq<nat>)
    ensures |table| == 19 && table[0] == Header() && |Header()| == 11
    ensures NamedRows(table, numSims)
    ensures |starts| == 10 && starts[0] == pos && starts[9] == next
    ensures forall v :: 0 <= v < 9 ==> ValueRowsAt(table, v, numSims, deck, starts[v], starts[v + 1])
  {
    var standOnValues := seq(9, i => 13 + i);
    table := [Header()];
    next := pos;
    starts := [pos];
    for v := 0 to |standOnValues|
      invariant |table| == 1 + 2 * v && table[0] == Header()
      invariant NamedRows(table, numSims)
      invariant |starts| == v + 1 && starts[0] == pos && starts[v] == next
      invariant forall u :: 0 <= u < v ==> ValueRowsAt(table, u, numSims, deck, starts[u], starts[u + 1])
    {
      var rows;
      ghost var start := next;
      rows, next := ValueRows(standOnValues[v], numSims, deck, next);
      StrategyRowShaped(13 + v, false, numSims, deck, start);
      StrategyRowShaped(13 + v, true, numSims, deck, StrategyRowOf(13 + v, false, numSims, deck, start).1);
      AppendValueRows(table, rows, v, numSims);
      KeepValueRows(table, rows, v, numSims, deck, starts, start, next);
      table := table + rows;
      starts := starts + [next];
    }
  }

  /** Appending the rows of the next stand-on value keeps the rows already in place and
      places the new ones after them. */
  lemma KeepValueRows(table: seq<seq<Rules.Cell>>, rows: seq<seq<Rules.Cell>>, v: nat, numSims: nat,
                      deck: Rules.Deck, starts: seq<nat>, start: nat, next: nat)
    requires |table| == 1 + 2 * v && |starts| == v + 1 && starts[v] == start
    requires forall u :: 0 <= u < v ==> ValueRowsAt(table, u, numSims, deck, starts[u], starts[u + 1])
    requires |rows| == 2
    requires rows[0] == StrategyRowOf(13 + v, false, numSims, deck, start).0
    requires rows[1] == StrategyRowOf(13 + v, true, numSims, deck, StrategyRowOf(13 + v, false, numSims, deck, start).1).0
    requires next == StrategyRowOf(13 + v, true, numSims, deck, StrategyRowOf(13 + v, false, numSims, deck, start).1).1
    ensures forall u :: 0 <= u < v + 1 ==>
      ValueRowsAt(table + rows, u, numSims, deck, (starts + [next])[u], (starts + [next])[u + 1])
  {
    forall u | 0 <= u < v + 1
      ensures ValueRowsAt(table + rows, u, numSims, deck, (starts + [next])[u], (starts + [next])[u + 1])
    {
      var extended := starts + [next];
      if u < v {
        assert extended[u] == starts[u] && extended[u + 1] == starts[u + 1];
        KeepOneValue(table, rows, u, numSims, deck, starts[u], starts[u + 1]);
      } else {
        assert extended[u] == start && extended[u + 1] == next;
        NewValueRows(table, rows, v, numSims, deck, start, next);
      }
    }
  }

  lemma NewValueRows(table: seq<seq<Rules.Cell>>, rows: seq<seq<Rules.Cell>>, v: nat, numSims: nat,
                     deck: Rules.Deck, start: nat, next: nat)
    requires |table| == 1 + 2 * v && |rows| == 2
    requires rows[0] == StrategyRowOf(13 + v, false, numSims, deck, start).0
    requires rows[1] == StrategyRowOf(13 + v, true, numSims, deck, StrategyRowOf(13 + v, false, numSims, deck, start).1).0
    requires next == StrategyRowOf(13 + v, true, numSims, deck, StrategyRowOf(13 + v, false, numSims, deck, start).1).1
    ensures ValueRowsAt(table + rows, v, numSims, deck, start, next)
  {
    assert (table + rows)[1 + 2 * v] == rows[0];
    assert (table + rows)[2 + 2 * v] == rows[1];
  }

  lemma KeepOneValue(table: seq<seq<Rules.Cell>>, rows: seq<seq<Rules.Cell>>, u: nat, numSims: nat,
                     deck: Rules.Deck, pos: nat, next: nat)
    requires ValueRowsAt(table, u, numSims, deck, pos, next)
    ensures ValueRowsAt(table + rows, u, numSims, deck, pos, next)
  {
    assert (table + rows)[1 + 2 * u] == table[1 + 2 * u];
    assert (table + rows)[2 + 2 * u] == table[2 + 2 * u];
  }

  // ---------------------------------------------------------------------------
  // What the padded rows mean

  lemma {:induction false} NoGapsListsEveryCount(results: map<int, nat>, lo: int, hi: int)
    requires lo <= hi
    requires forall k :: lo <= k < hi ==> k in results
    ensures |SortedCells(results, lo, hi)| == hi - lo
    ensures forall j :: 0 <= j < hi - lo ==> SortedCells(results, lo, hi)[j] == Rules.Number(results[lo + j])
    decreases hi - lo
  {
    if lo < hi {
      NoGapsListsEveryCount(results, lo + 1, hi);
    }
  }

  /** When the totals that occurred are every total from the lowest of them, `lowest`, to
      22, the padded row of a strategy with stand-on value `value` puts the count of total
      13 + i in column i, and the busts in the last one: the left padding stands for the
      totals below `lowest`, none of which occurred. */
  lemma RowAlignedWithoutGaps(results: map<int, nat>, value: int, lowest: int)
    requires 13 <= value <= lowest <= 22
    requires forall k :: lowest <= k <= 22 ==> k in results
    requires forall k :: k in results ==> lowest <= k <= 22
    ensures var row := LeftPadded(SortedCells(results, value, 23));
      |row| == 10 && forall i :: 0 <= i < 10 ==> row[i] == Rules.Number(Count(results, 13 + i))
  {
    AbsentLowKeys(results, value, lowest, 23);
    var cells := SortedCells(results, lowest, 23);
    NoGapsListsEveryCount(results, lowest, 23);
    forall i | 0 <= i < 10
      ensures LeftPadded(cells)[i] == Rules.Number(Count(results, 13 + i))
    {
      LeftPaddedAt(cells, i);
      if i < lowest - 13 {
        assert 13 + i !in results;
      }
    }
  }

  /** Keys that never occurred add no cells. */
  lemma {:induction false} AbsentLowKeys(results: map<int, nat>, lo: int, mid: int, hi: int)
    requires lo <= mid <= hi
    requires forall k :: lo <= k < mid ==> k !in results
    ensures SortedCells(results, lo, hi) == SortedCells(results, mid, hi)
    decreases mid - lo
  {
    if lo < mid {
      AbsentLowKeys(results, lo + 1, mid, hi);
    }
  }

  lemma LeftPaddedAt(cells: seq<Rules.Cell>, i: int)
    requires |cells| <= 10 && 0 <= i < 10
    ensures LeftPadded(cells)[i] == if i < 10 - |cells| then Rules.Number(0) else cells[i - (10 - |cells|)]
  {
    if 10 - |cells| <= i {
      var row := LeftPadded(cells);
      assert row[i] == row[10 - |cells|..][i - (10 - |cells|)];
    }
  }

  /** As written, a total that never occurred shifts the counts of the lower totals one
      column to the right: after a single hand the whole count sits in the BUST column,
      whatever total that hand reached. */
  lemma {:induction false} SingleHandLandsInBustColumn(total: int)
    requires 13 <= total <= 22
    ensures var row := LeftPadded(SortedCells(map[total := 1], 13, 23));
      row[9] == Rules.Number(1) && forall i :: 0 <= i < 9 ==> row[i] == Rules.Number(0)
  {
    OnlyKeyListed(total, 13, 23);
  }

  lemma {:induction false} OnlyKeyListed(total: int, lo: int, hi: int)
    requires lo <= total < hi
    ensures SortedCells(map[total := 1], lo, hi) == [Rules.Number(1)]
    decreases hi - lo
  {
    if lo < total {
      OnlyKeyListed(total, lo + 1, hi);
    } else {
      AbsentKeysNotListed(total, lo + 1, hi);
    }
  }

  lemma {:induction false} AbsentKeysNotListed(total: int, lo: int, hi: int)
    requires total < lo
    ensures SortedCells(map[total := 1], lo, hi) == []
    decreases hi - lo
  {
    if lo < hi {
      AbsentKeysNotListed(total, lo + 1, hi);
    }
  }

  /** The decisions and totals of the unit tests of `stand`: hard hands below the value. */
  lemma StandHitVectors()
    ensures Stand(16, true, [5, 8]) == Verdict(false, 13)
    ensures Stand(16, false, [5, 8]) == Verdict(false, 13)
    ensures Stand(16, true, [5, 7, 3]) == Verdict(false, 15)
    ensures Stand(16, false, [5, 7, 3]) == Verdict(false, 15)
  {
    Rules.HardSumAppend([5, 7], 3);
    assert [5, 7] + [3] == [5, 7, 3];
    assert 1 !in [5, 7, 3];
  }

  /** The unit tests of `stand`: hard hands at or above the value stand either way. */
  lemma StandHardVectors()
    ensures Stand(16, true, [5, 7, 2, 2]) == Verdict(true, 16)
    ensures Stand(16, false, [5, 7, 2, 2]) == Verdict(true, 16)
    ensures Stand(16, true, [5, 5, 3, 4]) == Verdict(true, 17)
    ensures Stand(16, false, [5, 5, 3, 4]) == Verdict(true, 17)
  {
    Rules.HardSumAppend([5, 7, 2], 2);
    assert [5, 7, 2] + [2] == [5, 7, 2, 2];
    Rules.HardSumAppend([5, 7], 2);
    assert [5, 7] + [2] == [5, 7, 2];
    Rules.HardSumAppend([5, 5, 3], 4);
    assert [5, 5, 3] + [4] == [5, 5, 3, 4];
    Rules.HardSumAppend([5, 5], 3);
    assert [5, 5] + [3] == [5, 5, 3];
    assert 1 !in [5, 7, 2, 2] && 1 !in [5, 5, 3, 4];
  }

  /** The unit tests of `stand`: a soft 16 stands only for a strategy that stands on soft,
      while a hard 16 holding an ace stands either way. */
  lemma StandSoftVectors()
    ensures Stand(16, true, [5, 5, 5, 1]) == Verdict(true, 16)
    ensures Stand(16, false, [5, 5, 5, 1]) == Verdict(true, 16)
    ensures Stand(16, true, [5, 1]) == Verdict(true, 16)
    ensures Stand(16, false, [5, 1]) == Verdict(false, 16)
    ensures Stand(16, true, [3, 3, 1]) == Verdict(true, 17)
    ensures Stand(16, false, [3, 3, 1]) == Verdict(true, 17)
  {
    Rules.HardSumAppend([5, 5, 5], 1);
    assert [5, 5, 5] + [1] == [5, 5, 5, 1];
    Rules.HardSumAppend([5, 5], 5);
    assert [5, 5] + [5] == [5, 5, 5];
    Rules.HardSumAppend([3, 3], 1);
    assert [3, 3] + [1] == [3, 3, 1];
  }
}
