# Session ledger of the Mini Trading Dashboard

This project models the bookkeeping core of the Mini Trading Dashboard, a
Streamlit page that lets a user practise trading four assets (USD/EUR,
BTC/USD, AAPL, GOLD) at simulated prices. The page keeps three pieces of
session state: a cash balance that starts at 10000, a portfolio mapping each
asset symbol to the quantity held, and a history of completed trades. The
Buy button spends `quantity * price` if the balance covers it; the Sell
button gives back `quantity * price` if enough of the asset is held. Either
refuses otherwise and changes nothing. The page also shows the portfolio's
value, the sum of quantity times current price, and the last ten trades,
newest first.

Two modules:

- `Trading` (trading.dfy) states the ledger on values. `Account` is the
  session state, `Tx` a history record and `Outcome` what a trade reports.
  `ApplyBuy` and `ApplySell` are the two guarded trades. `Value` is the
  portfolio valuation for a fixed price function, and `RecentHistory` is the
  history view. The lemmas relate these to one another.
- `Session` (session.dfy) is the state as the script keeps it. The class
  `Ledger` has the fields `balance`, `portfolio` and `history`. Its methods
  `Buy` and `Sell` update the fields in place, and `PortfolioValue` adds up
  the portfolio in a loop. Each is proved against the functions of
  `Trading`. `ExampleSession` replays a short session, using only the
  contracts.

Money is `real`, so every amount is exact. The quote a trade uses is a
parameter (`price`), because the script draws it once per page run and
reuses it for the cost or the revenue. A quote is positive and an order names
a catalog asset and at least one unit (`ValidOrder`). The asset selector and
the quantity input (minimum 1) guarantee this to the trade code.

## Model

| member | source | states |
|---|---|---|
| `Session.Ledger.constructor` | Application/mt5.py:17-22 | a new session has balance 10000, an empty portfolio and an empty history, and satisfies the ledger invariant |
| `Trading.ApplyBuy` | Application/mt5.py:71-79 | a buy succeeds exactly when `quantity * price` is at most the balance; on success the balance drops by exactly that cost, the asset's quantity rises by `quantity` (an absent asset counts as 0), no other entry changes and one Bought record is appended; on failure the state is unchanged and the outcome is "not enough balance"; the invariant (balance non-negative, quantities non-negative, catalog assets only, well-formed log) is preserved |
| `Trading.ApplySell` | Application/mt5.py:82-90 | a sell succeeds exactly when the held quantity (0 if absent) covers the request; on success the asset is present, its quantity drops by `quantity`, no other entry changes, the balance rises by exactly `quantity * price` and one Sold record is appended; on failure the state is unchanged and the outcome is "not enough quantity"; the invariant is preserved |
| `Session.Ledger.Buy` | Application/mt5.py:71-79 | updating the three fields in place gives exactly the state and outcome of `ApplyBuy` on the old state, and keeps the ledger invariant |
| `Session.Ledger.Sell` | Application/mt5.py:82-90 | updating the three fields in place gives exactly the state and outcome of `ApplySell` on the old state, and keeps the ledger invariant |
| `Trading.SellAllKeepsEntry` | Application/mt5.py:83-84 | selling the whole held quantity succeeds and leaves the asset in the portfolio with quantity 0 rather than removing it |
| `Trading.BuyThenSellRestores` | Application/mt5.py:71-90 | on a consistent state, a successful buy of q units followed by a sell of q units of the same asset at the same price succeeds, restores the balance exactly, restores the asset's quantity (the entry now present) and leaves both records in the log |
| `Session.Ledger.PortfolioValue` | Application/mt5.py:47-49 | the loop that accumulates `qty * price` over the portfolio's entries returns the sum of quantity times price over all entries |
| `Trading.ValueRemove` | Application/mt5.py:47-49 | the portfolio sum does not depend on the order the entries are visited: it equals any one entry's `qty * price` plus the sum over the rest |
| `Trading.ValueUpdate` | Application/mt5.py:47-49 | changing one asset's quantity changes the portfolio value by exactly the difference in that asset's `qty * price` |
| `Trading.BuyKeepsEquity` | Application/mt5.py:72-75 | a buy at the price the valuation uses leaves balance plus portfolio value unchanged, whether it succeeds or fails |
| `Trading.SellKeepsEquity` | Application/mt5.py:83-86 | a sell at the price the valuation uses leaves balance plus portfolio value unchanged, whether it succeeds or fails |
| `Trading.Reverse` | Application/mt5.py:125 | reversing a list of records keeps its length and puts element `i` at position `length - 1 - i` |
| `Trading.RecentHistory` | Application/mt5.py:124-126 | the view has `min(10, length)` entries and entry `i` is the `i`-th most recent trade, so it is newest first and holds at most 10; being a function of the history, it leaves the log untouched |
| `Trading.RecentAfterAppend` | Application/mt5.py:125 | after one more trade the view is that trade followed by the previous view, cut to 10 entries |

## Left out

- Prices: `get_price` (Application/mt5.py:34-38) draws a random quote within 2% of the catalog price and rounds it to cents. The model takes the quote as a parameter and asks only that it be positive. The 2% band and the rounding are not modelled.
- The 30-point price chart (line 114) and the top movers (line 134) are random display data and are not modelled.
- Session.Ledger.PortfolioValue: takes one fixed price function. The script draws a fresh random quote for every asset on every page run, so its displayed value uses quotes that differ from the one a trade uses.
- Floating point: the script computes the balance in Python floats, where `(b - c) + c` need not equal `b`. The model uses exact reals, so the round trip and the exact debit hold there but not necessarily in float arithmetic.
- Dictionary order: Python iterates the portfolio in insertion order. The model's map has no order. `ValueRemove` shows that the order does not change the sum.
- History entries are records (side, asset, quantity, price), not the formatted strings "Bought ... at $..." and "Sold ... at $...". The success and error messages are the `Outcome` values.
- Streamlit rendering: page setup, widgets, metrics, the portfolio table built with pandas (lines 96-105, which re-prices each asset), the plotly chart and the footer are display only.
- An asset outside the catalog and a quantity below 1 cannot reach the trade code, because the selector offers only catalog assets and the quantity input has minimum 1. They are preconditions, not error outcomes.
- Valuation covers every portfolio entry, as the loop at lines 47-49 does, including entries whose quantity has dropped to 0. Such entries add 0, so this equals a sum over positive positions only.
