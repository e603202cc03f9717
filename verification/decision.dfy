/** The per-entry decision of one evaluation cycle: given a watch entry, the
    price fetched for it (if any) and the current ledger, pick exactly one
    outcome and produce the ledger the next entry will see. */
module Decision {
  import opened Wrappers
  import opened Portfolio

  /** One watched instrument: the symbol it is priced and booked under, the
      broker ticker orders go to, the two thresholds and the lot traded per decision. */
  datatype Entry = Entry(symbol: string, ticker: string, buy: real, sell: real, lot: real)

  /** A market order request: positive quantity buys, negative sells. Its result
      is only logged and never feeds back into the ledger. */
  datatype Order = Order(ticker: string, quantity: real)

  datatype Outcome =
    | NoPrice                                   // no price could be fetched
    | Bought(order: Order)
    | InsufficientFunds                         // below the buy threshold but the lot costs more than the cash
    | Sold(order: Order, gain: real)            // gain is the profit realised by this sale
    | Hold                                      // in the dead zone, or too little held to sell

  datatype StepResult = StepResult(outcome: Outcome, ledger: Ledger)

  /** The decision for one entry. The buy test comes first; the sell test is only
      reached when the price is not below the buy threshold. */
  function Step(e: Entry, price: Option<real>, l: Ledger): (r: StepResult)
    requires e.lot > 0.0
    requires Valid(l)
    ensures Valid(r.ledger)
    ensures r.ledger.positions.Keys == l.positions.Keys + (if r.outcome.Bought? then {e.symbol} else {})
    ensures forall s :: s in l.positions && s != e.symbol ==> r.ledger.positions[s] == l.positions[s]
  {
    match price
    case None => StepResult(NoPrice, l)
    case Some(p) =>
      var pos := Held(l, e.symbol);
      if p < e.buy then
        var cost := e.lot * p;
        if l.cash >= cost then
          StepResult(Bought(Order(e.ticker, e.lot)),
                     Ledger(l.cash - cost, l.positions[e.symbol := Acquire(pos, e.lot, p)], l.profit))
        else
          StepResult(InsufficientFunds, l)
      else if p > e.sell && pos.qty >= e.lot then
        var revenue := e.lot * p;
        var costBasis := e.lot * pos.avgPrice;
        var gain := revenue - costBasis;
        StepResult(Sold(Order(e.ticker, -e.lot), gain),
                   Ledger(l.cash + revenue, l.positions[e.symbol := Position(pos.qty - e.lot, pos.avgPrice)], l.profit + gain))
      else
        StepResult(Hold, l)
  }

  /** Without a price the entry is skipped and the ledger is left as it was. */
  lemma NoPriceLeavesLedger(e: Entry, l: Ledger)
    requires e.lot > 0.0 && Valid(l)
    ensures Step(e, None, l) == StepResult(NoPrice, l)
  {
  }

  /** A buy happens exactly when the price is below the buy threshold and the cash covers the lot. */
  lemma BuyCondition(e: Entry, price: Option<real>, l: Ledger)
    requires e.lot > 0.0 && Valid(l)
    ensures Step(e, price, l).outcome.Bought?
        <==> price.Some? && price.value < e.buy && l.cash >= e.lot * price.value
  {
  }

  /** What a buy does: cash pays exactly lot x price, the holding grows by the lot and its
      cost (quantity x average) by lot x price, which fixes the new weighted average; profit
      is untouched and a buy order for the lot is issued. */
  lemma BuyEffect(e: Entry, p: real, l: Ledger)
    requires e.lot > 0.0 && Valid(l)
    requires Step(e, Some(p), l).outcome.Bought?
    ensures var r := Step(e, Some(p), l);
      var held := Held(l, e.symbol);
      && r.ledger.cash == l.cash - e.lot * p
      && r.ledger.cash >= 0.0
      && e.symbol in r.ledger.positions
      && r.ledger.positions[e.symbol].qty == held.qty + e.lot
      && Cost(r.ledger.positions[e.symbol]) == Cost(held) + e.lot * p
      && r.ledger.profit == l.profit
      && r.outcome.order == Order(e.ticker, e.lot)
  {
    var held := Held(l, e.symbol);
    assert held.qty >= 0.0;
    var np := Acquire(held, e.lot, p);
    assert Step(e, Some(p), l).ledger == Ledger(l.cash - e.lot * p, l.positions[e.symbol := np], l.profit);
  }

  /** Buying into an empty holding records the purchase price itself as the average. */
  lemma FirstBuyAverageIsPrice(e: Entry, p: real, l: Ledger)
    requires e.lot > 0.0 && Valid(l)
    requires Held(l, e.symbol).qty == 0.0
    requires Step(e, Some(p), l).outcome.Bought?
    ensures Step(e, Some(p), l).ledger.positions[e.symbol] == Position(e.lot, p)
  {
  }

  /** Too little cash for the lot: reported as such, and nothing changes. */
  lemma InsufficientFundsCondition(e: Entry, price: Option<real>, l: Ledger)
    requires e.lot > 0.0 && Valid(l)
    ensures Step(e, price, l).outcome.InsufficientFunds?
        <==> price.Some? && price.value < e.buy && l.cash < e.lot * price.value
    ensures Step(e, price, l).outcome.InsufficientFunds? ==> Step(e, price, l).ledger == l
  {
  }

  /** A sale happens exactly when the buy test failed, the price is above the sell
      threshold and at least one lot is held. */
  lemma SellCondition(e: Entry, price: Option<real>, l: Ledger)
    requires e.lot > 0.0 && Valid(l)
    ensures Step(e, price, l).outcome.Sold?
        <==> price.Some? && price.value >= e.buy && price.value > e.sell && Held(l, e.symbol).qty >= e.lot
  {
  }

  /** What a sale does: cash receives lot x price, the holding shrinks by exactly the lot
      at an unchanged average, and lot x (price - average) is booked as profit. */
  lemma SellEffect(e: Entry, p: real, l: Ledger)
    requires e.lot > 0.0 && Valid(l)
    requires Step(e, Some(p), l).outcome.Sold?
    ensures var r := Step(e, Some(p), l);
      var held := Held(l, e.symbol);
      && e.symbol in l.positions
      && r.ledger.cash == l.cash + e.lot * p
      && r.ledger.positions[e.symbol] == Position(held.qty - e.lot, held.avgPrice)
      && r.ledger.positions[e.symbol].qty >= 0.0
      && r.outcome.gain == e.lot * (p - held.avgPrice)
      && r.ledger.profit == l.profit + e.lot * (p - held.avgPrice)
      && r.outcome.order == Order(e.ticker, -e.lot)
  {
  }

  /** Selling the last lot leaves a zero holding in the ledger rather than removing the symbol. */
  lemma SellingOutKeepsEntry(e: Entry, p: real, l: Ledger)
    requires e.lot > 0.0 && Valid(l)
    requires Step(e, Some(p), l).outcome.Sold?
    requires Held(l, e.symbol).qty == e.lot
    ensures e.symbol in Step(e, Some(p), l).ledger.positions
    ensures Step(e, Some(p), l).ledger.positions[e.symbol].qty == 0.0
  {
  }

  /** Holding happens exactly when the price is neither below the buy threshold nor
      a sellable price with a lot in hand; the ledger is then unchanged. */
  lemma HoldCondition(e: Entry, price: Option<real>, l: Ledger)
    requires e.lot > 0.0 && Valid(l)
    ensures Step(e, price, l).outcome.Hold?
        <==> price.Some? && price.value >= e.buy && !(price.value > e.sell && Held(l, e.symbol).qty >= e.lot)
    ensures Step(e, price, l).outcome.Hold? ==> Step(e, price, l).ledger == l
  {
  }

  /** Below the buy threshold no sale can happen, even when the price is also above the sell threshold. */
  lemma BuyHasPriority(e: Entry, p: real, l: Ledger)
    requires e.lot > 0.0 && Valid(l)
    requires p < e.buy
    ensures !Step(e, Some(p), l).outcome.Sold?
    ensures !Step(e, Some(p), l).outcome.Hold?
  {
  }

  /** A step touches only its own symbol's holding: a buy replaces it by the purchase,
      a step that neither buys nor sells changes nothing, and every other symbol reads
      the same holding afterwards. */
  lemma StepFrame(e: Entry, price: Option<real>, l: Ledger, s: string)
    requires e.lot > 0.0 && Valid(l)
    ensures Step(e, price, l).outcome.Bought? ==>
      price.Some? && Held(Step(e, price, l).ledger, e.symbol) == Acquire(Held(l, e.symbol), e.lot, price.value)
    ensures !Step(e, price, l).outcome.Bought? && !Step(e, price, l).outcome.Sold? ==> Step(e, price, l).ledger == l
    ensures e.symbol != s ==> Held(Step(e, price, l).ledger, s) == Held(l, s)
  {
    var r := Step(e, price, l);
    if e.symbol != s {
      if s in l.positions {
        assert r.ledger.positions[s] == l.positions[s];
      } else {
        assert s !in r.ledger.positions;
      }
    }
  }

  /** With non-negative prices a sound ledger stays sound: no negative cash, holding or average. */
  lemma StepKeepsSound(e: Entry, price: Option<real>, l: Ledger)
    requires e.lot > 0.0 && Sound(l)
    requires price.Some? ==> price.value >= 0.0
    ensures Valid(l)
    ensures Sound(Step(e, price, l).ledger)
  {
    if price.Some? {
      assert e.lot * price.value >= 0.0;
    }
  }

  /** Replacing one holding and moving cash and profit by amounts that balance the
      change in that holding's cost leaves the capital where it was. */
  lemma UpdateKeepsCapital(l: Ledger, symbol: string, np: Position, cash: real, profit: real)
    requires cash - l.cash + Cost(np) - Cost(Held(l, symbol)) == profit - l.profit
    ensures Capital(Ledger(cash, l.positions[symbol := np], profit)) == Capital(l)
  {
    CostBasisUpdate(l.positions, symbol, np);
    var heldCost := if symbol in l.positions then Cost(l.positions[symbol]) else 0.0;
    assert heldCost == Cost(Held(l, symbol));
  }

  /** Every step keeps the capital: money paid for a purchase reappears as cost basis,
      and the difference between sale revenue and released cost basis is booked as profit. */
  lemma StepKeepsCapital(e: Entry, price: Option<real>, l: Ledger)
    requires e.lot > 0.0 && Valid(l)
    ensures Capital(Step(e, price, l).ledger) == Capital(l)
  {
    if price.Some? {
      var p := price.value;
      if p < e.buy && l.cash >= e.lot * p {
        BuyKeepsCapital(e, p, l);
      } else if p >= e.buy && p > e.sell && Held(l, e.symbol).qty >= e.lot {
        SellKeepsCapital(e, p, l);
      } else {
        assert Step(e, price, l).ledger == l;
      }
    }
  }

  lemma BuyKeepsCapital(e: Entry, p: real, l: Ledger)
    requires e.lot > 0.0 && Valid(l)
    requires p < e.buy && l.cash >= e.lot * p
    ensures Capital(Step(e, Some(p), l).ledger) == Capital(l)
  {
    var held := Held(l, e.symbol);
    assert held.qty >= 0.0;
    var np := Acquire(held, e.lot, p);
    var cash := l.cash - e.lot * p;
    assert Step(e, Some(p), l).ledger == Ledger(cash, l.positions[e.symbol := np], l.profit);
    UpdateKeepsCapital(l, e.symbol, np, cash, l.profit);
  }

  lemma SellKeepsCapital(e: Entry, p: real, l: Ledger)
    requires e.lot > 0.0 && Valid(l)
    requires p >= e.buy && p > e.sell && Held(l, e.symbol).qty >= e.lot
    ensures Capital(Step(e, Some(p), l).ledger) == Capital(l)
  {
    var held := Held(l, e.symbol);
    var np := Position(held.qty - e.lot, held.avgPrice);
    var gain := e.lot * p - e.lot * held.avgPrice;
    assert Cost(np) == Cost(held) - e.lot * held.avgPrice;
    assert Step(e, Some(p), l).ledger == Ledger(l.cash + e.lot * p, l.positions[e.symbol := np], l.profit + gain);
    UpdateKeepsCapital(l, e.symbol, np, l.cash + e.lot * p, l.profit + gain);
  }
}
