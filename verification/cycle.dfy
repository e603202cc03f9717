/** One evaluation cycle: load the ledger once, decide every watch entry in
    watchlist order on the ledger the previous entry left, save once. */
module Cycle {
  import opened Wrappers
  import opened Portfolio
  import opened Decision

  datatype CycleResult = CycleResult(outcomes: seq<Outcome>, ledger: Ledger)

  /** Every entry trades a positive lot, so every weighted-average update is defined. */
  predicate PositiveLots(entries: seq<Entry>)
  {
    forall i :: 0 <= i < |entries| ==> entries[i].lot > 0.0
  }

  /** Whether some entry of the watchlist is booked under `symbol`. */
  predicate Watched(entries: seq<Entry>, symbol: string)
  {
    exists i :: 0 <= i < |entries| && entries[i].symbol == symbol
  }

  /** The decisions of one cycle, `prices[i]` being what was fetched for `entries[i]`:
      one outcome per entry, each step applied to the ledger left by the one before. */
  function Evaluate(entries: seq<Entry>, prices: seq<Option<real>>, l: Ledger): (r: CycleResult)
    requires |prices| == |entries|
    requires PositiveLots(entries)
    requires Valid(l)
    ensures |r.outcomes| == |entries|
    ensures Valid(r.ledger)
    ensures l.positions.Keys <= r.ledger.positions.Keys
    ensures forall s :: s in l.positions && !Watched(entries, s) ==> r.ledger.positions[s] == l.positions[s]
    ensures forall s :: s in r.ledger.positions && s !in l.positions ==> Watched(entries, s)
    decreases |entries|
  {
    if entries == [] then
      CycleResult([], l)
    else
      var first := Step(entries[0], prices[0], l);
      var rest := Evaluate(entries[1..], prices[1..], first.ledger);
      assert forall s :: Watched(entries[1..], s) ==> Watched(entries, s) by {
        forall s | Watched(entries[1..], s) ensures Watched(entries, s) {
          var i :| 0 <= i < |entries[1..]| && entries[1..][i].symbol == s;
          assert entries[i + 1].symbol == s;
        }
      }
      assert Watched(entries, entries[0].symbol);
      CycleResult([first.outcome] + rest.outcomes, rest.ledger)
  }

  /** A full cycle against the store: one load (falling back to the default ledger),
      the decisions, one save of the final ledger. */
  function RunCycle(stored: Option<Ledger>, entries: seq<Entry>, prices: seq<Option<real>>): (r: (Option<Ledger>, seq<Outcome>))
    requires |prices| == |entries|
    requires PositiveLots(entries)
    requires stored.Some? ==> Valid(stored.value)
    ensures r.0.Some? && Valid(r.0.value)
    ensures |r.1| == |entries|
    ensures stored.None? && entries == [] ==> r.0 == Some(DefaultLedger)
    ensures stored.Some? && entries == [] ==> r.0 == stored
  {
    var start := Load(stored);
    var result := Evaluate(entries, prices, start);
    (Save(result.ledger), result.outcomes)
  }

  /** Splitting the watchlist anywhere: the cycle is the cycle over the front part
      followed by the cycle over the rest, started from the ledger the front part left. */
  lemma EvaluateAppend(a: seq<Entry>, pa: seq<Option<real>>, b: seq<Entry>, pb: seq<Option<real>>, l: Ledger)
    requires |pa| == |a| && |pb| == |b|
    requires PositiveLots(a) && PositiveLots(b)
    requires Valid(l)
    ensures PositiveLots(a + b)
    ensures var front := Evaluate(a, pa, l);
      var back := Evaluate(b, pb, front.ledger);
      Evaluate(a + b, pa + pb, l) == CycleResult(front.outcomes + back.outcomes, back.ledger)
  {
    PositiveLotsAppend(a, b);
    EvaluateAppendLedger(a, pa, b, pb, l);
    EvaluateAppendOutcomes(a, pa, b, pb, l);
  }

  lemma {:induction false} EvaluateAppendLedger(a: seq<Entry>, pa: seq<Option<real>>, b: seq<Entry>, pb: seq<Option<real>>, l: Ledger)
    requires |pa| == |a| && |pb| == |b|
    requires PositiveLots(a) && PositiveLots(b)
    requires Valid(l)
    ensures PositiveLots(a + b)
    ensures Evaluate(a + b, pa + pb, l).ledger == Evaluate(b, pb, Evaluate(a, pa, l).ledger).ledger
    decreases |a|
  {
    PositiveLotsAppend(a, b);
    if a == [] {
      assert a + b == b && pa + pb == pb;
    } else {
      var first := Step(a[0], pa[0], l);
      EvaluateCons(a, pa, l);
      assert (a + b)[1..] == a[1..] + b && (pa + pb)[1..] == pa[1..] + pb;
      assert (a + b)[0] == a[0] && (pa + pb)[0] == pa[0];
      EvaluateCons(a + b, pa + pb, l);
      EvaluateAppendLedger(a[1..], pa[1..], b, pb, first.ledger);
    }
  }

  lemma {:induction false} EvaluateAppendOutcomes(a: seq<Entry>, pa: seq<Option<real>>, b: seq<Entry>, pb: seq<Option<real>>, l: Ledger)
    requires |pa| == |a| && |pb| == |b|
    requires PositiveLots(a) && PositiveLots(b)
    requires Valid(l)
    ensures PositiveLots(a + b)
    ensures Evaluate(a + b, pa + pb, l).outcomes
      == Evaluate(a, pa, l).outcomes + Evaluate(b, pb, Evaluate(a, pa, l).ledger).outcomes
    decreases |a|
  {
    PositiveLotsAppend(a, b);
    if a == [] {
      assert a + b == b && pa + pb == pb;
    } else {
      var first := Step(a[0], pa[0], l);
      EvaluateCons(a, pa, l);
      assert (a + b)[1..] == a[1..] + b && (pa + pb)[1..] == pa[1..] + pb;
      assert (a + b)[0] == a[0] && (pa + pb)[0] == pa[0];
      EvaluateCons(a + b, pa + pb, l);
      EvaluateAppendOutcomes(a[1..], pa[1..], b, pb, first.ledger);
      var tail := Evaluate(a[1..], pa[1..], first.ledger);
      var back := Evaluate(b, pb, tail.ledger);
      assert [first.outcome] + (tail.outcomes + back.outcomes) == ([first.outcome] + tail.outcomes) + back.outcomes;
    }
  }

  lemma PositiveLotsAppend(a: seq<Entry>, b: seq<Entry>)
    requires PositiveLots(a) && PositiveLots(b)
    ensures PositiveLots(a + b)
  {
    forall i | 0 <= i < |a + b| ensures (a + b)[i].lot > 0.0 {
      if i < |a| { assert (a + b)[i] == a[i]; } else { assert (a + b)[i] == b[i - |a|]; }
    }
  }

  /** Sequential consistency: the i-th outcome is the decision for the i-th entry
      taken on the ledger left by entries 0..i-1. */
  lemma OutcomeSeesPreviousLedger(entries: seq<Entry>, prices: seq<Option<real>>, l: Ledger, i: int)
    requires |prices| == |entries| && PositiveLots(entries) && Valid(l)
    requires 0 <= i < |entries|
    ensures PositiveLots(entries[..i])
    ensures var before := Evaluate(entries[..i], prices[..i], l).ledger;
      Evaluate(entries, prices, l).outcomes[i] == Step(entries[i], prices[i], before).outcome
  {
    var a, b := entries[..i], entries[i..];
    var pa, pb := prices[..i], prices[i..];
    assert PositiveLots(a) by { forall j | 0 <= j < |a| ensures a[j].lot > 0.0 { assert a[j] == entries[j]; } }
    assert PositiveLots(b) by { forall j | 0 <= j < |b| ensures b[j].lot > 0.0 { assert b[j] == entries[i + j]; } }
    assert a + b == entries && pa + pb == prices;
    EvaluateAppend(a, pa, b, pb, l);
    var front := Evaluate(a, pa, l);
    assert |front.outcomes| == i;
    assert b[0] == entries[i] && pb[0] == prices[i];
  }

  /** The whole cycle keeps the capital, since every step does. */
  lemma {:induction false} EvaluateKeepsCapital(entries: seq<Entry>, prices: seq<Option<real>>, l: Ledger)
    requires |prices| == |entries| && PositiveLots(entries) && Valid(l)
    ensures Capital(Evaluate(entries, prices, l).ledger) == Capital(l)
    decreases |entries|
  {
    if entries != [] {
      StepKeepsCapital(entries[0], prices[0], l);
      assert PositiveLots(entries[1..]) by {
        forall i | 0 <= i < |entries[1..]| ensures entries[1..][i].lot > 0.0 { assert entries[1..][i] == entries[i + 1]; }
      }
      EvaluateKeepsCapital(entries[1..], prices[1..], Step(entries[0], prices[0], l).ledger);
    }
  }

  /** With non-negative prices the cycle never drives cash, a holding or an average negative. */
  lemma {:induction false} EvaluateKeepsSound(entries: seq<Entry>, prices: seq<Option<real>>, l: Ledger)
    requires |prices| == |entries| && PositiveLots(entries) && Sound(l)
    requires forall i :: 0 <= i < |prices| && prices[i].Some? ==> prices[i].value >= 0.0
    ensures Valid(l)
    ensures Sound(Evaluate(entries, prices, l).ledger)
    decreases |entries|
  {
    if entries != [] {
      StepKeepsSound(entries[0], prices[0], l);
      assert PositiveLots(entries[1..]) by {
        forall i | 0 <= i < |entries[1..]| ensures entries[1..][i].lot > 0.0 { assert entries[1..][i] == entries[i + 1]; }
      }
      EvaluateKeepsSound(entries[1..], prices[1..], Step(entries[0], prices[0], l).ledger);
    }
  }

  /** Starting from nothing stored, whatever the cycle did, the cash plus the cost of
      the holdings equals the initial 10000 plus the profit realised. */
  lemma FirstCycleAccountsForCapital(entries: seq<Entry>, prices: seq<Option<real>>)
    requires |prices| == |entries| && PositiveLots(entries)
    ensures var l := RunCycle(None, entries, prices).0.value;
      l.cash + CostBasis(l.positions) == InitialCash + l.profit
  {
    EvaluateKeepsCapital(entries, prices, DefaultLedger);
    assert CostBasis(DefaultLedger.positions) == 0.0;
  }

  /** Prices that neither fall below the buy threshold nor rise above the sell threshold
      (or are missing) leave the ledger exactly as it was, so repeating such cycles changes nothing. */
  lemma {:induction false} QuietCycleLeavesLedger(entries: seq<Entry>, prices: seq<Option<real>>, l: Ledger)
    requires |prices| == |entries| && PositiveLots(entries) && Valid(l)
    requires forall i :: 0 <= i < |entries| && prices[i].Some? ==>
      entries[i].buy <= prices[i].value <= entries[i].sell
    ensures Evaluate(entries, prices, l).ledger == l
    ensures forall i :: 0 <= i < |entries| ==>
      Evaluate(entries, prices, l).outcomes[i] == (if prices[i].Some? then Hold else NoPrice)
    decreases |entries|
  {
    if entries != [] {
      assert PositiveLots(entries[1..]) by {
        forall i | 0 <= i < |entries[1..]| ensures entries[1..][i].lot > 0.0 { assert entries[1..][i] == entries[i + 1]; }
      }
      QuietCycleLeavesLedger(entries[1..], prices[1..], l);
      var rest := Evaluate(entries[1..], prices[1..], l);
      assert Step(entries[0], prices[0], l).ledger == l;
      forall i | 0 <= i < |entries|
        ensures Evaluate(entries, prices, l).outcomes[i] == (if prices[i].Some? then Hold else NoPrice)
      {
        if i > 0 { assert rest.outcomes[i - 1] == (if prices[1..][i - 1].Some? then Hold else NoPrice); }
      }
    }
  }

  /** The fetched prices when every fetch succeeded. */
  function Priced(prices: seq<real>): (r: seq<Option<real>>)
    ensures |r| == |prices|
    ensures forall i :: 0 <= i < |prices| ==> r[i] == Some(prices[i])
  {
    seq(|prices|, i requires 0 <= i < |prices| => Some(prices[i]))
  }

  /** Cash that covers one lot at each of `prices` in turn, each purchase paid from what
      the previous ones left. */
  predicate Affords(cash: real, lot: real, prices: seq<real>)
    decreases |prices|
  {
    prices == [] || (cash >= lot * prices[0] && Affords(cash - lot * prices[0], lot, prices[1..]))
  }

  /** Affording a run of purchases means affording the first and, with what is left, the rest. */
  lemma AffordsFirst(cash: real, lot: real, prices: seq<real>, left: real, rest: seq<real>)
    requires prices != [] && Affords(cash, lot, prices)
    requires left == cash - lot * prices[0] && rest == prices[1..]
    ensures cash >= lot * prices[0]
    ensures Affords(left, lot, rest)
  {
  }

  /** With non-negative prices, cash for the total covers the purchases one after another. */
  lemma {:induction false} AffordsTotal(cash: real, lot: real, prices: seq<real>)
    requires lot > 0.0
    requires forall i :: 0 <= i < |prices| ==> prices[i] >= 0.0
    requires cash >= lot * Sum(prices)
    ensures Affords(cash, lot, prices)
    decreases |prices|
  {
    if prices != [] {
      var p, rest := prices[0], prices[1..];
      assert forall i :: 0 <= i < |rest| ==> rest[i] >= 0.0 by {
        forall i | 0 <= i < |rest| ensures rest[i] >= 0.0 { assert rest[i] == prices[i + 1]; }
      }
      SumNonNegative(rest);
      CoverSplit(cash, lot, p, Sum(rest), Sum(prices));
      var left := cash - lot * p;
      AffordsTotal(left, lot, rest);
      assert Affords(left, lot, rest);
      assert prices[1..] == rest && prices[0] == p;
      assert left == cash - lot * prices[0];
    }
  }

  /** Cash covering lot x (p + s) pays lot x p and still covers lot x s. */
  lemma CoverSplit(cash: real, lot: real, p: real, s: real, t: real)
    requires lot > 0.0 && s >= 0.0 && t == p + s && cash >= lot * t
    ensures cash >= lot * p && cash - lot * p >= lot * s
  {
    Distribute(lot, p, s);
    NonNegativeProduct(lot, s);
  }

  lemma {:induction false} SumNonNegative(xs: seq<real>)
    requires forall i :: 0 <= i < |xs| ==> xs[i] >= 0.0
    ensures Sum(xs) >= 0.0
    decreases |xs|
  {
    if xs != [] {
      assert forall i :: 0 <= i < |xs[1..]| ==> xs[1..][i] >= 0.0 by {
        forall i | 0 <= i < |xs[1..]| ensures xs[1..][i] >= 0.0 { assert xs[1..][i] == xs[i + 1]; }
      }
      SumNonNegative(xs[1..]);
    }
  }

  lemma NonNegativeProduct(a: real, b: real)
    requires a >= 0.0 && b >= 0.0
    ensures a * b >= 0.0
  {
  }

  /** The cycle over a non-empty watchlist is the first entry's step followed by the cycle
      over the remaining entries, started from the ledger that step left. */
  lemma EvaluateCons(entries: seq<Entry>, prices: seq<Option<real>>, l: Ledger)
    requires |prices| == |entries| > 0
    requires PositiveLots(entries)
    requires Valid(l)
    ensures PositiveLots(entries[1..])
    ensures Evaluate(entries, prices, l).outcomes
      == [Step(entries[0], prices[0], l).outcome] + Evaluate(entries[1..], prices[1..], Step(entries[0], prices[0], l).ledger).outcomes
    ensures Evaluate(entries, prices, l).ledger
      == Evaluate(entries[1..], prices[1..], Step(entries[0], prices[0], l).ledger).ledger
  {
    assert PositiveLots(entries[1..]) by {
      forall i | 0 <= i < |entries[1..]| ensures entries[1..][i].lot > 0.0 {
        assert entries[1..][i] == entries[i + 1];
      }
    }
  }

  /** A run of buys: every entry is `e`, every price is below its buy threshold, and
      `cash` covers one lot at each price in turn. */
  predicate BuyRun(e: Entry, entries: seq<Entry>, prices: seq<real>, cash: real)
  {
    && |prices| == |entries|
    && e.lot > 0.0
    && (forall i :: 0 <= i < |entries| ==> entries[i] == e)
    && (forall i :: 0 <= i < |prices| ==> prices[i] < e.buy)
    && Affords(cash, e.lot, prices)
  }

  /** Dropping the first entry and price of a run leaves a run on what the first purchase left. */
  lemma BuyRunRest(e: Entry, entries: seq<Entry>, prices: seq<real>, cash: real)
    requires BuyRun(e, entries, prices, cash) && entries != []
    ensures PositiveLots(entries)
    ensures entries[0] == e && prices[0] < e.buy && cash >= e.lot * prices[0]
    ensures Priced(prices)[0] == Some(prices[0]) && Priced(prices)[1..] == Priced(prices[1..])
    ensures BuyRun(e, entries[1..], prices[1..], cash - e.lot * prices[0])
  {
    var rest, es := prices[1..], entries[1..];
    assert forall i :: 0 <= i < |rest| ==> rest[i] < e.buy by {
      forall i | 0 <= i < |rest| ensures rest[i] < e.buy { assert rest[i] == prices[i + 1]; }
    }
    assert forall i :: 0 <= i < |es| ==> es[i] == e by {
      forall i | 0 <= i < |es| ensures es[i] == e { assert es[i] == entries[i + 1]; }
    }
    var left := cash - e.lot * prices[0];
    AffordsFirst(cash, e.lot, prices, left, rest);
    assert BuyRun(e, es, rest, left);
  }

  /** The first entry of a run, at its price, is the run's own entry at the first price. */
  lemma BuyRunFirst(e: Entry, entries: seq<Entry>, prices: seq<real>, l: Ledger)
    requires BuyRun(e, entries, prices, l.cash) && entries != [] && Valid(l)
    ensures PositiveLots(entries)
    ensures Step(entries[0], Priced(prices)[0], l) == Step(e, Some(prices[0]), l)
    ensures Priced(prices)[1..] == Priced(prices[1..])
  {
    BuyRunRest(e, entries, prices, l.cash);
  }

  /** The first step of a run buys, and the rest is a run on the ledger it leaves. */
  lemma BuyRunStep(e: Entry, entries: seq<Entry>, prices: seq<real>, l: Ledger)
    requires BuyRun(e, entries, prices, l.cash) && entries != [] && Valid(l)
    ensures Step(e, Some(prices[0]), l).outcome.Bought?
    ensures Valid(Step(e, Some(prices[0]), l).ledger)
    ensures Held(Step(e, Some(prices[0]), l).ledger, e.symbol) == Acquire(Held(l, e.symbol), e.lot, prices[0])
    ensures BuyRun(e, entries[1..], prices[1..], Step(e, Some(prices[0]), l).ledger.cash)
  {
    BuyRunRest(e, entries, prices, l.cash);
    BuyStep(e, prices[0], l);
    SameCashRun(e, entries[1..], prices[1..], l.cash - e.lot * prices[0], Step(e, Some(prices[0]), l).ledger.cash);
  }

  /** A run depends on the cash only through its value. */
  lemma SameCashRun(e: Entry, entries: seq<Entry>, prices: seq<real>, cash: real, same: real)
    requires BuyRun(e, entries, prices, cash) && same == cash
    ensures BuyRun(e, entries, prices, same)
  {
  }

  /** Evaluating one entry again and again at prices below its buy threshold, with cash for
      every lot, ends with the holding obtained by buying one lot at each price in turn. */
  lemma {:induction false} RepeatedBuys(e: Entry, entries: seq<Entry>, prices: seq<real>, l: Ledger)
    requires BuyRun(e, entries, prices, l.cash) && Valid(l)
    ensures PositiveLots(entries)
    ensures Held(l, e.symbol).qty >= 0.0
    ensures Held(Evaluate(entries, Priced(prices), l).ledger, e.symbol) == AcquireAll(Held(l, e.symbol), e.lot, prices)
    decreases |entries|
  {
    if entries == [] {
      assert PositiveLots(entries);
    } else {
      BuyRunFirst(e, entries, prices, l);
      BuyRunStep(e, entries, prices, l);
      EvaluateCons(entries, Priced(prices), l);
      RepeatedBuys(e, entries[1..], prices[1..], Step(e, Some(prices[0]), l).ledger);
    }
  }

  /** ... and every one of those steps is a buy. */
  lemma {:induction false} RepeatedBuysAllBuy(e: Entry, entries: seq<Entry>, prices: seq<real>, l: Ledger)
    requires BuyRun(e, entries, prices, l.cash) && Valid(l)
    ensures PositiveLots(entries)
    ensures forall i :: 0 <= i < |entries| ==> Evaluate(entries, Priced(prices), l).outcomes[i].Bought?
    decreases |entries|
  {
    if entries == [] {
      assert PositiveLots(entries);
    } else {
      BuyRunFirst(e, entries, prices, l);
      BuyRunStep(e, entries, prices, l);
      var first := Step(e, Some(prices[0]), l);
      EvaluateCons(entries, Priced(prices), l);
      RepeatedBuysAllBuy(e, entries[1..], prices[1..], first.ledger);
      var tail := Evaluate(entries[1..], Priced(prices[1..]), first.ledger);
      var r := Evaluate(entries, Priced(prices), l);
      forall i | 0 <= i < |entries| ensures r.outcomes[i].Bought? {
        if i > 0 { assert r.outcomes[i] == tail.outcomes[i - 1]; }
      }
    }
  }

  lemma BuyStep(e: Entry, p: real, l: Ledger)
    requires e.lot > 0.0 && Valid(l) && p < e.buy && l.cash >= e.lot * p
    ensures Step(e, Some(p), l).outcome.Bought?
    ensures Valid(Step(e, Some(p), l).ledger)
    ensures Step(e, Some(p), l).ledger.cash == l.cash - e.lot * p
    ensures Held(Step(e, Some(p), l).ledger, e.symbol) == Acquire(Held(l, e.symbol), e.lot, p)
  {
  }

  /** Cash for the total of the run is enough for one entry to buy at every price of the run. */
  lemma CycleBuysFromTotal(e: Entry, entries: seq<Entry>, prices: seq<real>, l: Ledger)
    requires |prices| == |entries| && e.lot > 0.0 && Valid(l)
    requires forall i :: 0 <= i < |entries| ==> entries[i] == e
    requires forall i :: 0 <= i < |prices| ==> 0.0 <= prices[i] < e.buy
    requires l.cash >= e.lot * Sum(prices)
    ensures PositiveLots(entries)
    ensures Held(l, e.symbol).qty >= 0.0
    ensures Held(Evaluate(entries, Priced(prices), l).ledger, e.symbol) == AcquireAll(Held(l, e.symbol), e.lot, prices)
  {
    AffordsTotal(l.cash, e.lot, prices);
    assert BuyRun(e, entries, prices, l.cash);
    RepeatedBuys(e, entries, prices, l);
  }

  /** Cash for the total of the run is enough for every one of its entries to buy. */
  lemma CycleAllBuyFromTotal(e: Entry, entries: seq<Entry>, prices: seq<real>, l: Ledger)
    requires |prices| == |entries| && e.lot > 0.0 && Valid(l)
    requires forall i :: 0 <= i < |entries| ==> entries[i] == e
    requires forall i :: 0 <= i < |prices| ==> 0.0 <= prices[i] < e.buy
    requires l.cash >= e.lot * Sum(prices)
    ensures PositiveLots(entries)
    ensures forall i :: 0 <= i < |entries| ==> Evaluate(entries, Priced(prices), l).outcomes[i].Bought?
  {
    AffordsTotal(l.cash, e.lot, prices);
    assert BuyRun(e, entries, prices, l.cash);
    RepeatedBuysAllBuy(e, entries, prices, l);
  }

  /** Weighted-average invariant for a cycle: one entry bought n times into an empty holding
      at p1..pn ends with average cost (p1 + ... + pn) / n. */
  lemma CycleAverageOfEqualLots(e: Entry, entries: seq<Entry>, prices: seq<real>, l: Ledger)
    requires |prices| == |entries| > 0 && e.lot > 0.0 && Valid(l)
    requires forall i :: 0 <= i < |entries| ==> entries[i] == e
    requires forall i :: 0 <= i < |prices| ==> 0.0 <= prices[i] < e.buy
    requires l.cash >= e.lot * Sum(prices)
    requires Held(l, e.symbol).qty == 0.0
    ensures PositiveLots(entries)
    ensures Held(Evaluate(entries, Priced(prices), l).ledger, e.symbol).avgPrice == Sum(prices) / (|prices| as real)
  {
    CycleBuysFromTotal(e, entries, prices, l);
    AverageOfHolding(Held(Evaluate(entries, Priced(prices), l).ledger, e.symbol), Held(l, e.symbol), e.lot, prices);
  }

  /** A holding reached by equal lots from an empty one carries the mean price. */
  lemma AverageOfHolding(h: Position, start: Position, lot: real, prices: seq<real>)
    requires start.qty == 0.0 && lot > 0.0 && |prices| > 0
    requires h == AcquireAll(start, lot, prices)
    ensures h.avgPrice == Sum(prices) / (|prices| as real)
  {
    AverageOfEqualLots(start, lot, prices);
  }
}
