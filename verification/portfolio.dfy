/** The persisted ledger of the bot: cash, open positions per symbol and the
    cumulative realised profit, with its default value and its load/save pair. */
module Portfolio {
  import opened Wrappers

  /** One holding: quantity held and its weighted-average purchase price. */
  datatype Position = Position(qty: real, avgPrice: real)

  /** The whole persisted state: `positions` is keyed by the watched symbol. */
  datatype Ledger = Ledger(cash: real, positions: map<string, Position>, profit: real)

  const InitialCash: real := 10000.0

  /** The ledger a first run starts from: all cash, nothing held, no profit. */
  const DefaultLedger: Ledger := Ledger(InitialCash, map[], 0.0)

  /** A symbol with no entry reads as an empty holding bought at price 0. */
  const NoPosition: Position := Position(0.0, 0.0)

  /** The holding a decision reads for `symbol`. Only a stored position can have a non-zero
      quantity, so selling (which needs a positive quantity) always finds the symbol stored. */
  function Held(l: Ledger, symbol: string): (p: Position)
    ensures Valid(l) ==> p.qty >= 0.0
    ensures Sound(l) ==> p.avgPrice >= 0.0
    ensures symbol !in l.positions ==> p == NoPosition
  {
    if symbol in l.positions then l.positions[symbol] else NoPosition
  }

  /** No stored holding is short: the weighted-average update never divides by zero. */
  predicate Valid(l: Ledger)
  {
    forall s :: s in l.positions ==> l.positions[s].qty >= 0.0
  }

  /** Valid, and also no negative cash or average price. */
  predicate Sound(l: Ledger)
  {
    && l.cash >= 0.0
    && forall s :: s in l.positions ==> l.positions[s].qty >= 0.0 && l.positions[s].avgPrice >= 0.0
  }

  /** Reading the store: the stored ledger if there is one, otherwise the default. */
  function Load(stored: Option<Ledger>): (l: Ledger)
  {
    stored.GetOr(DefaultLedger)
  }

  /** Writing the store: the whole ledger replaces whatever was there. */
  function Save(l: Ledger): (stored: Option<Ledger>)
  {
    Some(l)
  }

  lemma LoadDefaultsWhenNothingStored()
    ensures Load(None) == Ledger(10000.0, map[], 0.0)
    ensures Sound(Load(None))
  {
  }

  lemma SaveLoadRoundTrip(l: Ledger)
    ensures Load(Save(l)) == l
  {
  }

  /** What the open holding cost: quantity times average price. */
  function Cost(p: Position): real
  {
    p.qty * p.avgPrice
  }

  /** Buying `lot` more at `price`: the average becomes the quantity-weighted mean of the
      old average and the new price, so the holding's cost grows by exactly lot x price. */
  function Acquire(pos: Position, lot: real, price: real): (r: Position)
    requires pos.qty >= 0.0 && lot > 0.0
    ensures r.qty == pos.qty + lot
    ensures Cost(r) == Cost(pos) + lot * price
    ensures pos.qty == 0.0 ==> r.avgPrice == price
    ensures pos.avgPrice >= 0.0 && price >= 0.0 ==> r.avgPrice >= 0.0
  {
    WeightedMean(pos.qty, pos.avgPrice, lot, price);
    Position(pos.qty + lot, (pos.qty * pos.avgPrice + lot * price) / (pos.qty + lot))
  }

  /** The arithmetic behind `Acquire`, on plain numbers. */
  lemma WeightedMean(qty: real, avg: real, lot: real, price: real)
    requires qty >= 0.0 && lot > 0.0
    ensures (qty + lot) * ((qty * avg + lot * price) / (qty + lot)) == qty * avg + lot * price
    ensures qty == 0.0 ==> (qty * avg + lot * price) / (qty + lot) == price
    ensures avg >= 0.0 && price >= 0.0 ==> (qty * avg + lot * price) / (qty + lot) >= 0.0
  {
    var q, spent := qty + lot, qty * avg + lot * price;
    assert q * (spent / q) == spent;
    if qty == 0.0 {
      assert spent == lot * price;
    }
    if avg >= 0.0 && price >= 0.0 {
      assert qty * avg >= 0.0 && lot * price >= 0.0;
    }
  }

  function Sum(xs: seq<real>): real
  {
    if xs == [] then 0.0 else xs[0] + Sum(xs[1..])
  }

  /** Buying one `lot` at each of `prices` in turn: the holding grows by one lot per price
      and its cost by lot x (p1 + ... + pn). */
  function AcquireAll(pos: Position, lot: real, prices: seq<real>): (r: Position)
    requires pos.qty >= 0.0 && lot > 0.0
    ensures r.qty == pos.qty + lot * (|prices| as real)
    ensures Cost(r) == Cost(pos) + lot * Sum(prices)
    decreases |prices|
  {
    if prices == [] then pos
    else
      var next := Acquire(pos, lot, prices[0]);
      var r := AcquireAll(next, lot, prices[1..]);
      AddCosts(pos.qty, next.qty, r.qty, lot, 1.0, |prices[1..]| as real, |prices| as real);
      AddCosts(Cost(pos), Cost(next), Cost(r), lot, prices[0], Sum(prices[1..]), Sum(prices));
      r
  }

  /** Buying at `p` and then at `rest` is buying at `[p] + rest`. */
  lemma AcquireAllCons(pos: Position, lot: real, p: real, rest: seq<real>)
    requires pos.qty >= 0.0 && lot > 0.0
    ensures AcquireAll(pos, lot, [p] + rest) == AcquireAll(Acquire(pos, lot, p), lot, rest)
  {
    assert ([p] + rest)[0] == p && ([p] + rest)[1..] == rest;
  }

  /** Weighted-average invariant: equal lots bought at p1..pn into an empty holding
      leave the average price at (p1 + ... + pn) / n. */
  lemma AverageOfEqualLots(pos: Position, lot: real, prices: seq<real>)
    requires pos.qty == 0.0 && lot > 0.0 && |prices| > 0
    ensures AcquireAll(pos, lot, prices).avgPrice == Sum(prices) / (|prices| as real)
  {
    var h := AcquireAll(pos, lot, prices);
    EmptyCostsNothing(pos);
    AverageFromTotals(h.qty, h.avgPrice, |prices| as real, lot, Sum(prices));
  }

  lemma EmptyCostsNothing(p: Position)
    requires p.qty == 0.0
    ensures Cost(p) == 0.0
  {
  }

  /** n lots of size `lot` bought for lot x t in all were bought at t / n on average. */
  lemma AverageFromTotals(qty: real, avg: real, n: real, lot: real, t: real)
    requires n > 0.0 && lot > 0.0
    requires qty == lot * n && qty * avg == lot * t
    ensures avg == t / n
  {
    assert lot * (n * avg) == lot * t;
  }

  /** Two purchases in a row, lot x p and then lot x s, add lot x t to a cost, t = p + s. */
  lemma AddCosts(c0: real, c1: real, c2: real, lot: real, p: real, s: real, t: real)
    requires c1 == c0 + lot * p && c2 == c1 + lot * s && t == p + s
    ensures c2 == c0 + lot * t
  {
    Distribute(lot, p, s);
  }

  /** Multiplication distributes over addition (kept apart so that the inductive proofs
      above reason linearly). */
  lemma Distribute(a: real, b: real, c: real)
    ensures a * (b + c) == a * b + a * c
    ensures (b + c) * a == b * a + c * a
  {
  }

  /** Total cost basis of all open holdings, summed over the symbols in any order. */
  ghost function CostBasis(m: map<string, Position>): real
    decreases |m.Keys|
  {
    if m.Keys == {} then 0.0
    else
      var k :| k in m;
      assert (m - {k}).Keys == m.Keys - {k};
      Cost(m[k]) + CostBasis(m - {k})
  }

  /** The sum does not depend on which symbol is taken out first. */
  lemma {:induction false} CostBasisRemove(m: map<string, Position>, k: string)
    requires k in m
    ensures CostBasis(m) == Cost(m[k]) + CostBasis(m - {k})
    decreases |m.Keys|
  {
    assert (m - {k}).Keys == m.Keys - {k};
    var j :| k in m && j in m && CostBasis(m) == Cost(m[j]) + CostBasis(m - {j});
    if j != k {
      assert (m - {j}).Keys == m.Keys - {j};
      CostBasisRemove(m - {j}, k);
      CostBasisRemove(m - {k}, j);
      assert m - {j} - {k} == m - {k} - {j};
    }
  }

  /** Replacing one holding changes the total by exactly the difference of the two costs. */
  lemma CostBasisUpdate(m: map<string, Position>, k: string, p: Position)
    ensures CostBasis(m[k := p]) == CostBasis(m) - (if k in m then Cost(m[k]) else 0.0) + Cost(p)
  {
    CostBasisRemove(m[k := p], k);
    assert m[k := p] - {k} == m - {k};
    if k in m {
      CostBasisRemove(m, k);
    } else {
      assert m - {k} == m;
    }
  }

  /** Cash plus the cost of what is held, less the profit booked so far: the capital
      the ledger was started with. */
  ghost function Capital(l: Ledger): real
  {
    l.cash + CostBasis(l.positions) - l.profit
  }
}
