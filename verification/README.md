# bot12 trading cycle in Dafny

A model of the decision core of `bot12.py`, a small trading bot. It has three parts.

- **Watchlist.** The bot resolves each watched symbol against the broker's instrument list. Symbols that resolve become the watchlist. Every entry trades a 0.05 lot, buys below 400 and sells above 460.
- **Cycle.** One evaluation cycle loads the persisted ledger, or the default one when nothing is stored. It decides every watch entry in turn and then saves the ledger.
- **Ledger.** The ledger holds cash, per-symbol positions (quantity and weighted-average price) and the cumulative realised profit.

Modules:

- `Wrappers` defines `Option`.
- `Portfolio` holds the ledger, its default, load and save, the weighted-average purchase (`Acquire`) and the capital of a ledger. Capital is cash plus cost basis minus profit.
- `Decision` holds one step of the cycle: BUY, insufficient funds, SELL, hold, or no price.
- `Cycle` holds the left fold of `Step` over the watchlist, and one load–evaluate–save cycle.
- `Instruments` covers the ticker lookup and the watchlist construction.
- `Rounds` holds successive cycles, each loading what the previous one saved. The watchlist is keyed by symbol, so within one cycle a symbol is decided at most once. Repeated purchases of one symbol therefore happen across cycles, with decisions on other symbols in between.

The modelled code is `evaluate_watchlist`, `find_ticker` and `build_watchlist`, plus `load_portfolio`'s default and the store that `save_portfolio` writes and the next cycle reads back. Some inputs come from outside:

- The fetched prices are a parameter: `prices[i]` is what was fetched for `entries[i]`, and `None` means no price.
- The instrument metadata is also a parameter.
- The stored file is an `Option<Ledger>`.

Amounts are mathematical reals.

Where the code and its plain description differ, the model follows the code:

- `build_watchlist` keeps a symbol only when `find_ticker`'s result is truthy. An empty ticker string is therefore dropped as well as `None`.
- Because the watchlist is a dict, a symbol listed twice gets one entry, at the place of its first occurrence.
- `find_ticker` stops at the first instrument that matches. If that instrument has `maxOpenQuantity <= 0`, the result is "no ticker", even when a later instrument would be open.
- Selling the last lot leaves a zero-quantity position in the ledger. It does not remove the symbol.
- The SELL branch indexes `positions[name]` directly. It cannot fail, because it needs `qty >= lot > 0`, and only a stored position can have a positive quantity.

## Model

| member | source | states |
|---|---|---|
| Portfolio.Held | bot12.py:101 | The holding a decision reads is never short in a valid ledger and never at a negative average in a sound one. A symbol with no stored position reads as the empty holding (0 at 0), so only a stored symbol can have a non-zero quantity. That is why the SELL branch's direct index at line 121 cannot fail |
| Portfolio.LoadDefaultsWhenNothingStored | bot12.py:81-85 | With nothing stored, the cycle starts from 10000 cash, no positions and no profit, and that ledger is sound |
| Portfolio.SaveLoadRoundTrip | bot12.py:81-89 | Loading what was saved gives back the same ledger |
| Portfolio.Acquire | bot12.py:104-109 | A purchase adds the lot to the quantity and exactly lot x price to the holding's cost; into an empty holding the average is the price; a non-negative average stays non-negative |
| Portfolio.AcquireAll | bot12.py:104-109 | Buying one lot at each of n prices adds n lots and lot x (sum of the prices) to the cost, whatever the starting holding |
| Portfolio.AverageOfEqualLots | bot12.py:106-107 | Equal lots bought into an empty holding leave the average at the arithmetic mean of the prices |
| Decision.Step | bot12.py:94-128 | One decision keeps every position non-negative; it adds a key only when it buys, and it leaves every other symbol's position untouched |
| Decision.NoPriceLeavesLedger | bot12.py:94-97 | A missing price skips the entry and changes nothing |
| Decision.BuyCondition | bot12.py:103-105 | A buy happens if and only if the price is below the buy threshold and the cash covers lot x price |
| Decision.BuyEffect | bot12.py:103-113 | A buy pays exactly lot x price and keeps cash non-negative. It grows the holding by the lot and the holding's cost (quantity x average) by exactly lot x price, which is the weighted average of line 107. It leaves profit alone and orders +lot of the ticker |
| Decision.FirstBuyAverageIsPrice | bot12.py:106-109 | Buying into an empty holding records the position (lot, price) |
| Decision.InsufficientFundsCondition | bot12.py:103-115 | Insufficient funds are reported if and only if the price is below the buy threshold and the lot costs more than the cash; nothing then changes |
| Decision.SellCondition | bot12.py:103-116 | A sale happens if and only if the price is not below the buy threshold, is above the sell threshold and at least one lot is held |
| Decision.SellEffect | bot12.py:116-125 | A sale receives lot x price, shrinks the holding by exactly the lot at an unchanged average, books lot x (price - average) as profit and orders -lot |
| Decision.SellingOutKeepsEntry | bot12.py:121 | Selling the last lot leaves the symbol in the ledger with quantity 0 |
| Decision.HoldCondition | bot12.py:116-128 | The outcome is hold if and only if the price is not below the buy threshold and is not a sellable price with a lot in hand; the ledger is then unchanged |
| Decision.BuyHasPriority | bot12.py:103-116 | Below the buy threshold no sale and no hold can happen, even above the sell threshold |
| Decision.StepFrame | bot12.py:101-125 | A buy turns the symbol's holding into exactly the weighted-average purchase of one lot at the price. A step that neither buys nor sells leaves the ledger as it was. No step changes another symbol's holding |
| Decision.StepKeepsSound | bot12.py:101-122 | With non-negative prices, a ledger with no negative cash, quantity or average keeps that property |
| Decision.BuyKeepsCapital | bot12.py:104-109 | The cash a buy pays reappears exactly as cost basis |
| Decision.SellKeepsCapital | bot12.py:117-122 | Sale revenue minus released cost basis is exactly the profit booked |
| Decision.StepKeepsCapital | bot12.py:103-128 | No decision changes cash + cost basis - profit |
| Cycle.Evaluate | bot12.py:93-128 | A cycle gives one outcome per entry and keeps positions non-negative; it never drops a symbol, leaves unwatched symbols untouched, and only adds watched ones |
| Cycle.RunCycle | bot12.py:91-129 | A cycle that runs to its end saves a valid ledger and gives one outcome per entry. With an empty watchlist it saves the loaded ledger, which is the default when nothing was stored |
| Cycle.EvaluateAppend | bot12.py:93-128 | Evaluating a split watchlist is evaluating the front and then the back from the ledger the front left |
| Cycle.OutcomeSeesPreviousLedger | bot12.py:93-128 | The i-th outcome is the decision for the i-th entry taken on the ledger left by the entries before it |
| Cycle.EvaluateKeepsCapital | bot12.py:93-128 | A whole cycle keeps cash + cost basis - profit |
| Cycle.EvaluateKeepsSound | bot12.py:93-128 | With non-negative prices, a whole cycle keeps cash, quantities and averages non-negative |
| Cycle.FirstCycleAccountsForCapital | bot12.py:85-129 | After a first cycle, cash plus the cost of the holdings is 10000 plus the realised profit |
| Cycle.QuietCycleLeavesLedger | bot12.py:95-128 | Prices that are missing or between the thresholds give hold or no-price outcomes and leave the ledger unchanged |
| Cycle.AffordsTotal | bot12.py:103-105 | With non-negative prices, cash covering lot x (sum of the prices) covers every successive purchase at those prices |
| Cycle.RepeatedBuys | bot12.py:103-109 | A watchlist repeating one entry stands for n successive one-entry cycles (`Rounds.FlattenOneEntryRounds`). When its steps all buy, it accumulates exactly the holding of buying one lot at each price in turn |
| Cycle.RepeatedBuysAllBuy | bot12.py:103-113 | For such a repeated entry below the buy threshold, when cash covers every purchase in turn, every step buys |
| Cycle.CycleBuysFromTotal | bot12.py:103-109 | For such a repeated entry, non-negative prices below the buy threshold and cash for the total give the holding of buying one lot at each price |
| Cycle.CycleAllBuyFromTotal | bot12.py:103-113 | Under the same premises every step of the repeated entry buys |
| Cycle.CycleAverageOfEqualLots | bot12.py:103-109 | For the repeated entry, those buys into an empty holding leave its recorded average at the mean of the prices |
| Instruments.UpperChar | bot12.py:31 | An upper-cased character is never a lower-case letter; lower-case letters move to their capitals and everything else is kept |
| Instruments.Upper | bot12.py:31 | Upper-casing keeps the length and replaces every lower-case letter by its capital. It leaves no lower-case letter and keeps every other character |
| Instruments.UpperIdempotent | bot12.py:31 | Upper-casing twice is upper-casing once |
| Instruments.OccursIffSomePosition | bot12.py:31 | The substring test holds if and only if the pattern sits in the text at some position |
| Instruments.FindTicker | bot12.py:29-39 | No match gives no ticker; otherwise the first match decides: its ticker if it can be opened, else none; any ticker returned is that of the first match |
| Instruments.BuildWatchlist | bot12.py:41-52 | Every entry is for a listed symbol whose lookup gives a non-empty ticker, with that ticker, buy 400, sell 460 and lot 0.05 |
| Instruments.ListedIffResolves | bot12.py:43-51 | A symbol of the list has an entry if and only if its lookup gives a non-empty ticker |
| Instruments.WatchlistListsExactlyResolving | bot12.py:43-51 | The same for every position of the symbol list |
| Instruments.WatchlistFollowsFirstOccurrence | bot12.py:43-51 | Entries are distinct and ordered by the first occurrence of their symbols in the list |
| Rounds.RunCycles | bot12.py:131-148 | A run of scheduled cycles, each run on what the previous one saved, leaves a valid ledger in the store once one cycle has run. It gives one outcome per watched entry of each cycle |
| Rounds.RunCyclesIsOneEvaluation | bot12.py:81-129 | Saving and loading between cycles loses nothing. A run of cycles ends with the ledger, and gives the outcomes, of one evaluation over all their watchlists laid end to end |
| Rounds.HoldingFollowsBuys | bot12.py:101-122 | Take a symbol whose entries all trade one lot and never sell. Whatever the other symbols do in between, it ends with its starting holding plus one lot at each price at which it was actually bought |
| Rounds.HoldingAcrossCycles | bot12.py:91-129 | The same across successive cycles through the store |
| Rounds.AverageAcrossCycles | bot12.py:104-109 | Over any run of cycles, a symbol held at zero at the start and never sold ends at the mean of the prices it was bought at |
| Rounds.FlattenOneEntryRounds | bot12.py:91-93 | n cycles over a one-entry watchlist, laid end to end, are the watchlist of that entry n times with every price fetched |
| Rounds.RepeatedCyclesAverage | bot12.py:103-109 | Take one watched entry over n cycles at non-negative prices below its buy threshold, with cash for all n lots and nothing held at the start. The stored average ends at the mean of the prices |
| Rounds.RepeatedCyclesAllBuy | bot12.py:103-113 | Under the same premises every one of those cycles buys |

## Left out

- Fetching prices from the market-data service (bot12.py:19-22), including the rounding to two decimals, is left out: prices are an input.
- Downloading the instrument metadata (bot12.py:24-27) and its error case (an empty list) are left out: the list is an input.
- Placing orders (bot12.py:54-59) is left out: its result is only logged and never reaches the ledger. A decision carries the order request, meaning the ticker and the signed quantity.
- Logging, the trade CSV and console messages (bot12.py:61-79 and the prints) are left out: they have no effect on the decisions.
- JSON encoding, files, credentials and configuration (bot12.py:1-17, 81-89) are left out. The store is an `Option<Ledger>` and the saved value is the ledger itself.
- The timing of the scheduler and the endless loop (bot12.py:131-148) are left out. Successive cycles are a finite sequence of rounds, each with its own watchlist and prices (`Rounds.RunCycles`). `run_bot`'s fixed symbol list is just one possible input to `BuildWatchlist`.
- Floating-point rounding is not modelled: amounts are exact reals.
- Instruments.Upper: upper-cases ASCII letters only, where Python's `str.upper` follows Unicode.
- Instruments.UpperChar: the same ASCII-only gap, one character at a time.
- Cycle.RunCycle: does not model exceptions. In the source, a failure inside the loop ends the cycle before bot12.py:129, so that cycle's changes to the ledger are not saved. Such failures include the price fetch (bot12.py:94), the log and trade-CSV writes (bot12.py:61-79), the order request (bot12.py:58) and a division by zero at bot12.py:107. The model always saves.
- Decision.Step: requires every stored quantity to be non-negative and the lot to be positive. A hand-edited file with a quantity of exactly -lot would make line 107 divide by zero. Such ledgers are outside the model, and `Step` is proved to preserve the requirement.
- Decision.StepKeepsSound: assumes the fetched prices are non-negative. The source does not check this.
