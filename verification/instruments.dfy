/** Resolving watched symbols to broker instruments and building the watchlist
    the evaluation cycle runs over. */
module Instruments {
  import opened Wrappers
  import opened Decision

  /** One entry of the broker's instrument metadata. */
  datatype Instrument = Instrument(ticker: string, name: string, shortName: string, maxOpenQuantity: real)

  /** Every watch entry is built with the same thresholds and lot. */
  const BuyThreshold: real := 400.0
  const SellThreshold: real := 460.0
  const DefaultLot: real := 0.05

  predicate IsLowerAscii(c: char)
  {
    'a' <= c <= 'z'
  }

  /** Upper-casing of one character, ASCII letters only. */
  function UpperChar(c: char): (u: char)
    ensures !IsLowerAscii(u)
    ensures IsLowerAscii(c) ==> u as int == c as int - 32
    ensures !IsLowerAscii(c) ==> u == c
  {
    if IsLowerAscii(c) then (c as int - 32) as char else c
  }

  /** Upper-casing of a symbol: same length, every lower-case ASCII letter replaced by
      its capital, every other character kept. */
  function Upper(s: string): (r: string)
    ensures |r| == |s|
    ensures forall i :: 0 <= i < |r| ==> !IsLowerAscii(r[i])
    ensures forall i :: 0 <= i < |s| && !IsLowerAscii(s[i]) ==> r[i] == s[i]
    ensures forall i :: 0 <= i < |s| && IsLowerAscii(s[i]) ==> r[i] as int == s[i] as int - 32
  {
    seq(|s|, i requires 0 <= i < |s| => UpperChar(s[i]))
  }

  /** Upper-casing twice is upper-casing once. */
  lemma UpperIdempotent(s: string)
    ensures Upper(Upper(s)) == Upper(s)
  {
  }

  /** Substring test: `pattern` occurs somewhere in `text` (the empty pattern occurs everywhere). */
  predicate Occurs(pattern: string, text: string)
    decreases |text|
  {
    |pattern| <= |text| && (text[..|pattern|] == pattern || Occurs(pattern, text[1..]))
  }

  /** `pattern` sits in `text` starting at position `i`. */
  predicate OccursAt(pattern: string, text: string, i: int)
  {
    0 <= i <= |text| - |pattern| && text[i..i + |pattern|] == pattern
  }

  /** `Occurs` finds exactly the texts in which the pattern sits at some position. */
  lemma {:induction false} OccursIffSomePosition(pattern: string, text: string)
    ensures Occurs(pattern, text) <==> exists i :: OccursAt(pattern, text, i)
    decreases |text|
  {
    if |pattern| <= |text| && text[..|pattern|] != pattern {
      OccursIffSomePosition(pattern, text[1..]);
      if exists i :: OccursAt(pattern, text, i) {
        var i :| OccursAt(pattern, text, i);
        assert i != 0;
        assert OccursAt(pattern, text[1..], i - 1);
      }
      if exists i :: OccursAt(pattern, text[1..], i) {
        var i :| OccursAt(pattern, text[1..], i);
        assert OccursAt(pattern, text, i + 1);
      }
    } else if |pattern| <= |text| {
      assert OccursAt(pattern, text, 0);
    }
  }

  /** An instrument answers to a symbol when the upper-cased symbol occurs in its name
      or equals its short name. */
  predicate Matches(symbol: string, item: Instrument)
  {
    Occurs(Upper(symbol), item.name) || Upper(symbol) == item.shortName
  }

  /** `i` is the first instrument that answers to `symbol`. */
  predicate IsFirstMatch(symbol: string, instruments: seq<Instrument>, i: int)
  {
    && 0 <= i < |instruments|
    && Matches(symbol, instruments[i])
    && forall j :: 0 <= j < i ==> !Matches(symbol, instruments[j])
  }

  /** The ticker for a symbol: the search stops at the first instrument that answers
      to it, which yields its ticker only if it can currently be opened. */
  function FindTicker(symbol: string, instruments: seq<Instrument>): (r: Option<string>)
    ensures (forall i :: 0 <= i < |instruments| ==> !Matches(symbol, instruments[i])) ==> r == None
    ensures forall i :: IsFirstMatch(symbol, instruments, i) ==>
      r == (if instruments[i].maxOpenQuantity > 0.0 then Some(instruments[i].ticker) else None)
    ensures r.Some? ==> exists i :: IsFirstMatch(symbol, instruments, i) && instruments[i].ticker == r.value
    decreases |instruments|
  {
    if instruments == [] then None
    else if Matches(symbol, instruments[0]) then
      assert IsFirstMatch(symbol, instruments, 0);
      if instruments[0].maxOpenQuantity > 0.0 then Some(instruments[0].ticker) else None
    else
      var r := FindTicker(symbol, instruments[1..]);
      assert forall i :: IsFirstMatch(symbol, instruments, i) ==> i > 0 && IsFirstMatch(symbol, instruments[1..], i - 1) by {
        forall i | IsFirstMatch(symbol, instruments, i)
          ensures i > 0 && IsFirstMatch(symbol, instruments[1..], i - 1)
        {
          forall j | 0 <= j < i - 1 ensures !Matches(symbol, instruments[1..][j]) {
            assert instruments[1..][j] == instruments[j + 1];
          }
        }
      }
      assert (forall i :: 0 <= i < |instruments| ==> !Matches(symbol, instruments[i])) ==>
        forall i :: 0 <= i < |instruments[1..]| ==> !Matches(symbol, instruments[1..][i]) by {
        if forall i :: 0 <= i < |instruments| ==> !Matches(symbol, instruments[i]) {
          forall i | 0 <= i < |instruments[1..]| ensures !Matches(symbol, instruments[1..][i]) {
            assert instruments[1..][i] == instruments[i + 1];
          }
        }
      }
      if r.Some? then
        var k :| IsFirstMatch(symbol, instruments[1..], k) && instruments[1..][k].ticker == r.value;
        assert IsFirstMatch(symbol, instruments, k + 1);
        r
      else
        r
  }

  /** The comprehension keeps a symbol only when its lookup gives a non-empty ticker. */
  predicate Resolves(symbol: string, instruments: seq<Instrument>)
  {
    FindTicker(symbol, instruments).Some? && FindTicker(symbol, instruments).value != ""
  }

  function WatchEntry(symbol: string, ticker: string): Entry
  {
    Entry(symbol, ticker, BuyThreshold, SellThreshold, DefaultLot)
  }

  predicate Listed(w: seq<Entry>, symbol: string)
  {
    exists i :: 0 <= i < |w| && w[i].symbol == symbol
  }

  /** Position of the first occurrence of `x` in `xs`. */
  function IndexOf(xs: seq<string>, x: string): (k: nat)
    requires x in xs
    ensures k < |xs| && xs[k] == x
    ensures forall j :: 0 <= j < k ==> xs[j] != x
  {
    if xs[0] == x then 0 else 1 + IndexOf(xs[1..], x)
  }

  /** The watchlist built from `symbols`: each entry is a symbol of the list that
      resolves, trading the default lot between the default thresholds. */
  function BuildWatchlist(symbols: seq<string>, instruments: seq<Instrument>): (w: seq<Entry>)
    ensures forall i :: 0 <= i < |w| ==>
      && w[i].symbol in symbols
      && Resolves(w[i].symbol, instruments)
      && w[i] == WatchEntry(w[i].symbol, FindTicker(w[i].symbol, instruments).value)
    decreases |symbols|
  {
    if symbols == [] then []
    else
      var front := symbols[..|symbols| - 1];
      var s := symbols[|symbols| - 1];
      var w := BuildWatchlist(front, instruments);
      assert forall x :: x in front ==> x in symbols;
      if Resolves(s, instruments) && !Listed(w, s) then
        w + [WatchEntry(s, FindTicker(s, instruments).value)]
      else
        w
  }

  /** A symbol of the list gets an entry exactly when its lookup gives a non-empty ticker. */
  lemma WatchlistListsExactlyResolving(symbols: seq<string>, instruments: seq<Instrument>)
    ensures forall k :: 0 <= k < |symbols| ==>
      (Listed(BuildWatchlist(symbols, instruments), symbols[k]) <==> Resolves(symbols[k], instruments))
  {
    forall k | 0 <= k < |symbols|
      ensures Listed(BuildWatchlist(symbols, instruments), symbols[k]) <==> Resolves(symbols[k], instruments)
    {
      ListedIffResolves(symbols, instruments, symbols[k]);
    }
  }

  lemma {:induction false} ListedIffResolves(symbols: seq<string>, instruments: seq<Instrument>, x: string)
    requires x in symbols
    ensures Listed(BuildWatchlist(symbols, instruments), x) <==> Resolves(x, instruments)
    decreases |symbols|
  {
    var front := symbols[..|symbols| - 1];
    var s := symbols[|symbols| - 1];
    var w := BuildWatchlist(front, instruments);
    var r := BuildWatchlist(symbols, instruments);
    assert x in front || x == s;
    if r == w {
      if x in front {
        ListedIffResolves(front, instruments, x);
      } else {
        assert Resolves(s, instruments) ==> Listed(w, s);
      }
    } else {
      assert r == w + [WatchEntry(s, FindTicker(s, instruments).value)];
      if x == s {
        assert r[|w|].symbol == s;
      } else {
        ListedIffResolves(front, instruments, x);
        if Listed(w, x) {
          var i :| 0 <= i < |w| && w[i].symbol == x;
          assert r[i] == w[i];
        }
        if Listed(r, x) {
          var i :| 0 <= i < |r| && r[i].symbol == x;
          assert i < |w| && w[i] == r[i];
        }
      }
    }
  }

  /** Entries appear once each, in the order their symbols first occur in the list. */
  lemma WatchlistFollowsFirstOccurrence(symbols: seq<string>, instruments: seq<Instrument>)
    ensures var w := BuildWatchlist(symbols, instruments);
      forall i, j :: 0 <= i < j < |w| ==> IndexOf(symbols, w[i].symbol) < IndexOf(symbols, w[j].symbol)
  {
    var w := BuildWatchlist(symbols, instruments);
    forall i, j | 0 <= i < j < |w| ensures IndexOf(symbols, w[i].symbol) < IndexOf(symbols, w[j].symbol) {
      WatchlistOrderAt(symbols, instruments, i, j);
    }
  }

  lemma {:induction false} WatchlistOrderAt(symbols: seq<string>, instruments: seq<Instrument>, i: int, j: int)
    requires 0 <= i < j < |BuildWatchlist(symbols, instruments)|
    ensures var w := BuildWatchlist(symbols, instruments);
      IndexOf(symbols, w[i].symbol) < IndexOf(symbols, w[j].symbol)
    decreases |symbols|
  {
    var front := symbols[..|symbols| - 1];
    var w := BuildWatchlist(front, instruments);
    var r := BuildWatchlist(symbols, instruments);
    if r == w {
      WatchlistOrderAt(front, instruments, i, j);
      IndexOfAgrees(symbols, front, w[i].symbol);
      IndexOfAgrees(symbols, front, w[j].symbol);
    } else {
      NewSymbolComesLast(symbols, instruments);
      assert r[i] == w[i];
      IndexOfAgrees(symbols, front, w[i].symbol);
      if j < |w| {
        assert r[j] == w[j];
        WatchlistOrderAt(front, instruments, i, j);
        IndexOfAgrees(symbols, front, w[j].symbol);
      }
    }
  }

  /** A symbol the last step appends did not occur earlier in the list. */
  lemma NewSymbolComesLast(symbols: seq<string>, instruments: seq<Instrument>)
    requires symbols != []
    requires BuildWatchlist(symbols, instruments) != BuildWatchlist(symbols[..|symbols| - 1], instruments)
    ensures var s := symbols[|symbols| - 1];
      && BuildWatchlist(symbols, instruments)
         == BuildWatchlist(symbols[..|symbols| - 1], instruments) + [WatchEntry(s, FindTicker(s, instruments).value)]
      && s !in symbols[..|symbols| - 1]
      && IndexOf(symbols, s) == |symbols| - 1
  {
    var front := symbols[..|symbols| - 1];
    var s := symbols[|symbols| - 1];
    var w := BuildWatchlist(front, instruments);
    assert !Listed(w, s);
    if s in front {
      ListedIffResolves(front, instruments, s);
    }
    assert s !in front;
    IndexOfLast(symbols);
  }

  /** An element that occurs only at the end has its first occurrence there. */
  lemma IndexOfLast(xs: seq<string>)
    requires xs != [] && xs[|xs| - 1] !in xs[..|xs| - 1]
    ensures IndexOf(xs, xs[|xs| - 1]) == |xs| - 1
  {
  }

  /** First occurrences in a prefix are first occurrences in the whole sequence. */
  lemma {:induction false} IndexOfAgrees(xs: seq<string>, front: seq<string>, x: string)
    requires front <= xs && x in front
    ensures x in xs && IndexOf(xs, x) == IndexOf(front, x)
    decreases |front|
  {
    assert xs[0] == front[0];
    if front[0] != x {
      assert x in front[1..];
      assert front[1..] <= xs[1..];
      IndexOfAgrees(xs[1..], front[1..], x);
    }
  }
}
