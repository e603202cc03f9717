/** Successive evaluation cycles, each one loading what the previous one saved. Within
    one cycle a symbol is decided at most once, since the watchlist is keyed by symbol,
    so repeated purchases of one symbol happen over several cycles, with the decisions
    on other symbols taken in between. */
module Rounds {
  import opened Wrappers
  import opened Portfolio
  import opened Decision
  import opened Cycle

  /** One cycle's input: the watchlist and the prices fetched for it. */
  datatype Round = Round(entries: seq<Entry>, prices: seq<Option<real>>)

  /** One price per entry, every lot positive. */
  predicate Ready(r: Round)
  {
    |r.prices| == |r.entries| && PositiveLots(r.entries)
  }

  predicate WellFormed(rounds: seq<Round>)
  {
    forall k :: 0 <= k < |rounds| ==> Ready(rounds[k])
  }

  lemma WellFormedTail(rounds: seq<Round>)
    requires WellFormed(rounds) && rounds != []
    ensures Ready(rounds[0]) && WellFormed(rounds[1..])
  {
    forall k | 0 <= k < |rounds[1..]| ensures Ready(rounds[1..][k]) {
      assert rounds[1..][k] == rounds[k + 1];
    }
  }

  /** All the rounds' watchlists and prices laid end to end, as one long watchlist. */
  function Flatten(rounds: seq<Round>): (r: Round)
    requires WellFormed(rounds)
    ensures Ready(r)
    decreases |rounds|
  {
    if rounds == [] then Round([], [])
    else
      WellFormedTail(rounds);
      var rest := Flatten(rounds[1..]);
      PositiveLotsAppend(rounds[0].entries, rest.entries);
      Round(rounds[0].entries + rest.entries, rounds[0].prices + rest.prices)
  }

  /** Running the cycles one after another against the store: the final store and every
      outcome, cycle by cycle. */
  function RunCycles(stored: Option<Ledger>, rounds: seq<Round>): (r: (Option<Ledger>, seq<Outcome>))
    requires WellFormed(rounds)
    requires stored.Some? ==> Valid(stored.value)
    ensures r.0.Some? ==> Valid(r.0.value)
    ensures rounds != [] ==> r.0.Some?
    ensures |r.1| == |Flatten(rounds).entries|
    decreases |rounds|
  {
    if rounds == [] then (stored, [])
    else
      WellFormedTail(rounds);
      var c := RunCycle(stored, rounds[0].entries, rounds[0].prices);
      var rest := RunCycles(c.0, rounds[1..]);
      (rest.0, c.1 + rest.1)
  }

  /** Saving and loading between cycles loses nothing: a run of cycles ends with the ledger,
      and yields the outcomes, of one cycle over all the watchlists laid end to end. */
  lemma {:induction false} RunCyclesIsOneEvaluation(stored: Option<Ledger>, rounds: seq<Round>)
    requires WellFormed(rounds)
    requires stored.Some? ==> Valid(stored.value)
    ensures Valid(Load(stored))
    ensures Load(RunCycles(stored, rounds).0)
      == Evaluate(Flatten(rounds).entries, Flatten(rounds).prices, Load(stored)).ledger
    ensures RunCycles(stored, rounds).1
      == Evaluate(Flatten(rounds).entries, Flatten(rounds).prices, Load(stored)).outcomes
    decreases |rounds|
  {
    assert Valid(Load(stored));
    if rounds == [] {
      assert Flatten(rounds) == Round([], []);
    } else {
      WellFormedTail(rounds);
      var r0, start := rounds[0], Load(stored);
      var front := Evaluate(r0.entries, r0.prices, start);
      var c := RunCycle(stored, r0.entries, r0.prices);
      assert c.0 == Some(front.ledger) && c.1 == front.outcomes;
      RunCyclesIsOneEvaluation(c.0, rounds[1..]);
      var rest := Flatten(rounds[1..]);
      assert Flatten(rounds) == Round(r0.entries + rest.entries, r0.prices + rest.prices);
      EvaluateAppend(r0.entries, r0.prices, rest.entries, rest.prices, start);
    }
  }

  /** The prices at which `symbol` was bought, in order: those of its entries whose outcome was a buy. */
  function BoughtPrices(symbol: string, entries: seq<Entry>, prices: seq<Option<real>>, outcomes: seq<Outcome>): seq<real>
    decreases |entries|
  {
    if entries == [] || prices == [] || outcomes == [] then []
    else
      (if entries[0].symbol == symbol && outcomes[0].Bought? && prices[0].Some? then [prices[0].value] else [])
      + BoughtPrices(symbol, entries[1..], prices[1..], outcomes[1..])
  }

  /** Every entry for `symbol` trades `lot`. */
  predicate SameLot(symbol: string, lot: real, entries: seq<Entry>)
  {
    forall i :: 0 <= i < |entries| && entries[i].symbol == symbol ==> entries[i].lot == lot
  }

  /** No entry for `symbol` ended in a sale. */
  predicate NoSaleOf(symbol: string, entries: seq<Entry>, outcomes: seq<Outcome>)
  {
    forall i :: 0 <= i < |entries| && i < |outcomes| && entries[i].symbol == symbol ==> !outcomes[i].Sold?
  }

  lemma PremisesTail(symbol: string, lot: real, entries: seq<Entry>, outcomes: seq<Outcome>)
    requires entries != [] && |outcomes| == |entries|
    requires SameLot(symbol, lot, entries) && NoSaleOf(symbol, entries, outcomes)
    ensures entries[0].symbol == symbol ==> entries[0].lot == lot && !outcomes[0].Sold?
    ensures SameLot(symbol, lot, entries[1..]) && NoSaleOf(symbol, entries[1..], outcomes[1..])
  {
    forall i | 0 <= i < |entries[1..]| && entries[1..][i].symbol == symbol
      ensures entries[1..][i].lot == lot && !outcomes[1..][i].Sold?
    {
      assert entries[1..][i] == entries[i + 1] && outcomes[1..][i] == outcomes[i + 1];
    }
  }

  /** The premises under which `symbol`'s holding follows its buys: the entries can be
      decided, all of `symbol`'s entries trade `lot`, and none of them ended in a sale. */
  predicate Premises(symbol: string, lot: real, entries: seq<Entry>, prices: seq<Option<real>>, l: Ledger)
  {
    |prices| == |entries| && PositiveLots(entries) && Valid(l) && lot > 0.0
    && SameLot(symbol, lot, entries)
    && NoSaleOf(symbol, entries, Evaluate(entries, prices, l).outcomes)
  }

  /** `symbol`'s holding after the entries is its holding before them plus one lot bought at
      each price at which it was bought. */
  predicate Follows(symbol: string, lot: real, entries: seq<Entry>, prices: seq<Option<real>>, l: Ledger)
    requires Premises(symbol, lot, entries, prices, l)
  {
    Held(Evaluate(entries, prices, l).ledger, symbol)
      == AcquireAll(Held(l, symbol), lot, BoughtPrices(symbol, entries, prices, Evaluate(entries, prices, l).outcomes))
  }

  /** Weighted-average invariant along any sequence of decisions: when no decision on
      `symbol` sells, its holding ends as the holding it started with plus one lot bought at
      each price at which it was actually bought, whatever the other symbols did in between. */
  lemma {:induction false} HoldingFollowsBuys(symbol: string, lot: real, entries: seq<Entry>, prices: seq<Option<real>>, l: Ledger)
    requires |prices| == |entries| && PositiveLots(entries) && Valid(l) && lot > 0.0
    requires SameLot(symbol, lot, entries)
    requires NoSaleOf(symbol, entries, Evaluate(entries, prices, l).outcomes)
    ensures Held(Evaluate(entries, prices, l).ledger, symbol)
      == AcquireAll(Held(l, symbol), lot, BoughtPrices(symbol, entries, prices, Evaluate(entries, prices, l).outcomes))
    decreases |entries|
  {
    FollowsAlong(symbol, lot, entries, prices, l);
  }

  /** `HoldingFollowsBuys` over the bundled premises, by induction on the entries. */
  lemma {:induction false} FollowsAlong(symbol: string, lot: real, entries: seq<Entry>, prices: seq<Option<real>>, l: Ledger)
    requires Premises(symbol, lot, entries, prices, l)
    ensures Follows(symbol, lot, entries, prices, l)
    decreases |entries|
  {
    if entries == [] {
      assert BoughtPrices(symbol, entries, prices, Evaluate(entries, prices, l).outcomes) == [];
    } else {
      TailPremises(symbol, lot, entries, prices, l);
      FollowsAlong(symbol, lot, entries[1..], prices[1..], Step(entries[0], prices[0], l).ledger);
      HoldingFromTail(symbol, lot, entries, prices, l);
    }
  }

  /** The premises carry over to the entries after the first. */
  lemma TailPremises(symbol: string, lot: real, entries: seq<Entry>, prices: seq<Option<real>>, l: Ledger)
    requires Premises(symbol, lot, entries, prices, l) && entries != []
    ensures entries[0].symbol == symbol ==> entries[0].lot == lot && !Step(entries[0], prices[0], l).outcome.Sold?
    ensures Premises(symbol, lot, entries[1..], prices[1..], Step(entries[0], prices[0], l).ledger)
  {
    EvaluateCons(entries, prices, l);
    var r := Evaluate(entries, prices, l);
    var tail := Evaluate(entries[1..], prices[1..], Step(entries[0], prices[0], l).ledger);
    assert r.outcomes[0] == Step(entries[0], prices[0], l).outcome && r.outcomes[1..] == tail.outcomes;
    PremisesTail(symbol, lot, entries, r.outcomes);
  }

  /** The holding after the first step and the rest, rewritten from the holding before it. */
  lemma HoldingFromTail(symbol: string, lot: real, entries: seq<Entry>, prices: seq<Option<real>>, l: Ledger)
    requires Premises(symbol, lot, entries, prices, l) && entries != []
    requires entries[0].symbol == symbol ==> entries[0].lot == lot && !Step(entries[0], prices[0], l).outcome.Sold?
    requires Premises(symbol, lot, entries[1..], prices[1..], Step(entries[0], prices[0], l).ledger)
    requires Follows(symbol, lot, entries[1..], prices[1..], Step(entries[0], prices[0], l).ledger)
    ensures Follows(symbol, lot, entries, prices, l)
  {
    var first := Step(entries[0], prices[0], l);
    EvaluateCons(entries, prices, l);
    var r := Evaluate(entries, prices, l);
    var tail := Evaluate(entries[1..], prices[1..], first.ledger);
    var rest := BoughtPrices(symbol, entries[1..], prices[1..], tail.outcomes);
    FirstStepHolding(symbol, lot, entries[0], prices[0], l, first.ledger, first.outcome.Bought?, rest);
    assert r.outcomes[0] == first.outcome && r.outcomes[1..] == tail.outcomes;
    assert BoughtPrices(symbol, entries, prices, r.outcomes)
      == (if entries[0].symbol == symbol && first.outcome.Bought? && prices[0].Some? then [prices[0].value] else []) + rest;
  }

  /** One step seen from `symbol`'s holding: buying the rest afterwards is buying, from the
      holding before the step, the step's own purchase (if it bought `symbol`) and then the rest. */
  lemma FirstStepHolding(symbol: string, lot: real, e: Entry, price: Option<real>, l: Ledger, next: Ledger, bought: bool, rest: seq<real>)
    requires e.lot > 0.0 && Valid(l) && lot > 0.0
    requires next == Step(e, price, l).ledger && bought == Step(e, price, l).outcome.Bought?
    requires e.symbol == symbol ==> e.lot == lot && !Step(e, price, l).outcome.Sold?
    ensures Valid(next)
    ensures AcquireAll(Held(next, symbol), lot, rest)
      == AcquireAll(Held(l, symbol), lot, (if e.symbol == symbol && bought && price.Some? then [price.value] else []) + rest)
  {
    StepFrame(e, price, l, symbol);
    if e.symbol == symbol && bought {
      AcquireAllCons(Held(l, symbol), lot, price.value, rest);
    } else {
      assert Held(next, symbol) == Held(l, symbol);
      assert [] + rest == rest;
    }
  }

  /** The ledger a run of cycles leaves in the store. */
  function Final(stored: Option<Ledger>, rounds: seq<Round>): Ledger
    requires WellFormed(rounds) && (stored.Some? ==> Valid(stored.value))
  {
    Load(RunCycles(stored, rounds).0)
  }

  /** The prices at which `symbol` was bought over a run of cycles, in order. */
  function BoughtAcross(symbol: string, stored: Option<Ledger>, rounds: seq<Round>): seq<real>
    requires WellFormed(rounds) && (stored.Some? ==> Valid(stored.value))
  {
    BoughtPrices(symbol, Flatten(rounds).entries, Flatten(rounds).prices, RunCycles(stored, rounds).1)
  }

  /** No decision on `symbol` in a run of cycles was a sale. */
  predicate NeverSold(symbol: string, stored: Option<Ledger>, rounds: seq<Round>)
    requires WellFormed(rounds) && (stored.Some? ==> Valid(stored.value))
  {
    NoSaleOf(symbol, Flatten(rounds).entries, RunCycles(stored, rounds).1)
  }

  /** The same across successive cycles: with no sale of `symbol` in any of them, its
      stored holding ends as the start plus one lot at each price it was bought at. */
  lemma HoldingAcrossCycles(symbol: string, lot: real, stored: Option<Ledger>, rounds: seq<Round>)
    requires WellFormed(rounds) && (stored.Some? ==> Valid(stored.value)) && lot > 0.0
    requires SameLot(symbol, lot, Flatten(rounds).entries)
    requires NeverSold(symbol, stored, rounds)
    ensures Held(Load(stored), symbol).qty >= 0.0
    ensures Held(Final(stored, rounds), symbol) == AcquireAll(Held(Load(stored), symbol), lot, BoughtAcross(symbol, stored, rounds))
  {
    RunCyclesIsOneEvaluation(stored, rounds);
    HoldingFollowsBuys(symbol, lot, Flatten(rounds).entries, Flatten(rounds).prices, Load(stored));
  }

  /** Weighted-average invariant across cycles: a symbol not held at the start and never
      sold ends with average price (p1 + ... + pn) / n over the prices it was bought at. */
  lemma AverageAcrossCycles(symbol: string, lot: real, stored: Option<Ledger>, rounds: seq<Round>)
    requires WellFormed(rounds) && (stored.Some? ==> Valid(stored.value)) && lot > 0.0
    requires SameLot(symbol, lot, Flatten(rounds).entries)
    requires NeverSold(symbol, stored, rounds)
    requires Held(Load(stored), symbol).qty == 0.0
    requires BoughtAcross(symbol, stored, rounds) != []
    ensures Held(Final(stored, rounds), symbol).avgPrice
      == Sum(BoughtAcross(symbol, stored, rounds)) / (|BoughtAcross(symbol, stored, rounds)| as real)
  {
    AverageOfEqualLots(Held(Load(stored), symbol), lot, BoughtAcross(symbol, stored, rounds));
    HoldingAcrossCycles(symbol, lot, stored, rounds);
  }

  /** n cycles over a one-entry watchlist, the i-th at price `prices[i]`. */
  function OneEntryRounds(e: Entry, prices: seq<real>): seq<Round>
    decreases |prices|
  {
    if prices == [] then [] else [Round([e], [Some(prices[0])])] + OneEntryRounds(e, prices[1..])
  }

  /** Laid end to end, those cycles are the watchlist e, e, ..., e with every price fetched. */
  lemma {:induction false} FlattenOneEntryRounds(e: Entry, prices: seq<real>)
    requires e.lot > 0.0
    ensures WellFormed(OneEntryRounds(e, prices))
    ensures Flatten(OneEntryRounds(e, prices)).prices == Priced(prices)
    ensures |Flatten(OneEntryRounds(e, prices)).entries| == |prices|
    ensures forall i :: 0 <= i < |prices| ==> Flatten(OneEntryRounds(e, prices)).entries[i] == e
    decreases |prices|
  {
    var rs := OneEntryRounds(e, prices);
    if prices != [] {
      FlattenOneEntryRounds(e, prices[1..]);
      assert rs[1..] == OneEntryRounds(e, prices[1..]);
      assert Ready(rs[0]) by { assert rs[0] == Round([e], [Some(prices[0])]); }
      forall k | 0 <= k < |rs| ensures Ready(rs[k]) {
        if k > 0 { assert rs[k] == rs[1..][k - 1]; }
      }
      var rest := Flatten(rs[1..]);
      assert Flatten(rs) == Round([e] + rest.entries, [Some(prices[0])] + rest.prices);
      assert Priced(prices) == [Some(prices[0])] + Priced(prices[1..]);
      forall i | 0 <= i < |prices| ensures Flatten(rs).entries[i] == e {
        if i > 0 { assert Flatten(rs).entries[i] == rest.entries[i - 1]; }
      }
    }
  }

  /** One watched entry over n cycles at prices below its buy threshold, with cash for all
      n lots and nothing held at the start: every cycle buys, and the holding ends at the
      mean of the prices. */
  lemma RepeatedCyclesAverage(e: Entry, prices: seq<real>, stored: Option<Ledger>)
    requires e.lot > 0.0 && |prices| > 0 && (stored.Some? ==> Valid(stored.value))
    requires forall i :: 0 <= i < |prices| ==> 0.0 <= prices[i] < e.buy
    requires Load(stored).cash >= e.lot * Sum(prices)
    requires Held(Load(stored), e.symbol).qty == 0.0
    ensures WellFormed(OneEntryRounds(e, prices))
    ensures Held(Load(RunCycles(stored, OneEntryRounds(e, prices)).0), e.symbol).avgPrice
      == Sum(prices) / (|prices| as real)
  {
    var rounds := OneEntryRounds(e, prices);
    FlattenOneEntryRounds(e, prices);
    RunCyclesIsOneEvaluation(stored, rounds);
    CycleAverageOfEqualLots(e, Flatten(rounds).entries, prices, Load(stored));
  }

  /** ... and in each of those cycles the entry buys. */
  lemma RepeatedCyclesAllBuy(e: Entry, prices: seq<real>, stored: Option<Ledger>)
    requires e.lot > 0.0 && (stored.Some? ==> Valid(stored.value))
    requires forall i :: 0 <= i < |prices| ==> 0.0 <= prices[i] < e.buy
    requires Load(stored).cash >= e.lot * Sum(prices)
    ensures WellFormed(OneEntryRounds(e, prices))
    ensures |RunCycles(stored, OneEntryRounds(e, prices)).1| == |prices|
    ensures forall i :: 0 <= i < |prices| ==> RunCycles(stored, OneEntryRounds(e, prices)).1[i].Bought?
  {
    var rounds := OneEntryRounds(e, prices);
    FlattenOneEntryRounds(e, prices);
    RunCyclesIsOneEvaluation(stored, rounds);
    CycleAllBuyFromTotal(e, Flatten(rounds).entries, prices, Load(stored));
  }
}
