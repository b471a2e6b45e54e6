/**
 * The session ledger of the trading dashboard, as values: the account a
 * session holds (cash balance, positions, transaction log), the two guarded
 * trades, the valuation of the positions and the recent-history view.
 * The class in module Session updates the same state in place and is
 * proved against the functions here.
 */
module Trading {

  /** The fixed asset catalog: symbol to base price. Quotes are jittered around these. */
  const Catalog: map<string, real> :=
    map["USD/EUR" := 1.12, "BTC/USD" := 60000.0, "AAPL" := 175.0, "GOLD" := 1800.0]

  /** Cash a new session starts with. */
  const StartingBalance: real := 10000.0

  /** How many transactions the history view shows. */
  const RecentLimit: nat := 10

  datatype Side = Bought | Sold

  /** One completed trade, as the history records it. */
  datatype Tx = Tx(side: Side, asset: string, quantity: int, price: real)

  /** What a trade reports: the cost or revenue it booked, or why it was refused. */
  datatype Outcome = Executed(amount: real) | NotEnoughBalance | NotEnoughQuantity

  /** The three pieces of session state. */
  datatype Account = Account(balance: real, portfolio: map<string, int>, history: seq<Tx>)

  /** The state of a fresh session. */
  const Opening: Account := Account(StartingBalance, map[], [])

  /** The quantity held of an asset; a symbol that was never bought counts as 0. */
  function Held(portfolio: map<string, int>, asset: string): int {
    if asset in portfolio then portfolio[asset] else 0
  }

  /** What `quantity` units cost (or bring) at `price`. */
  function Amount(quantity: int, price: real): real {
    quantity as real * price
  }

  /** A trade request the dashboard can issue: a catalog asset, at least one unit, a positive quote. */
  predicate ValidOrder(asset: string, quantity: int, price: real) {
    asset in Catalog && quantity >= 1 && price > 0.0
  }

  predicate WellFormedTx(t: Tx) {
    ValidOrder(t.asset, t.quantity, t.price)
  }

  /** The invariant of the session state: solvent, no short positions, only catalog assets, a log of valid trades. */
  predicate Consistent(a: Account) {
    && a.balance >= 0.0
    && (forall asset :: asset in a.portfolio ==> asset in Catalog && a.portfolio[asset] >= 0)
    && (forall i :: 0 <= i < |a.history| ==> WellFormedTx(a.history[i]))
  }

  /** `after` differs from `before` at most in the entry for `asset`, which it holds. */
  predicate OnlyEntryChanged(before: map<string, int>, after: map<string, int>, asset: string) {
    && after.Keys == before.Keys + {asset}
    && forall other :: other in before && other != asset ==> after[other] == before[other]
  }

  /**
   * A buy goes through exactly when the balance covers quantity * price: it
   * debits the cost, adds the quantity to the asset (created at 0 if absent)
   * and logs one Bought record. Otherwise nothing changes.
   */
  function ApplyBuy(a: Account, asset: string, quantity: int, price: real): (r: (Account, Outcome))
    requires ValidOrder(asset, quantity, price)
    ensures r.1.Executed? <==> Amount(quantity, price) <= a.balance
    ensures r.1.Executed? ==>
      && r.1.amount == Amount(quantity, price)
      && r.0.balance == a.balance - r.1.amount
      && Held(r.0.portfolio, asset) == Held(a.portfolio, asset) + quantity
      && OnlyEntryChanged(a.portfolio, r.0.portfolio, asset)
      && r.0.history == a.history + [Tx(Bought, asset, quantity, price)]
    ensures !r.1.Executed? ==> r.0 == a && r.1 == NotEnoughBalance
    ensures Consistent(a) ==> Consistent(r.0)
  {
    var cost := Amount(quantity, price);
    if a.balance >= cost then
      var portfolio := a.portfolio[asset := Held(a.portfolio, asset) + quantity];
      (Account(a.balance - cost, portfolio, a.history + [Tx(Bought, asset, quantity, price)]), Executed(cost))
    else
      (a, NotEnoughBalance)
  }

  /**
   * A sell goes through exactly when the held quantity covers the request: it
   * takes the quantity off the asset (the entry stays, possibly at 0), credits
   * quantity * price and logs one Sold record. Otherwise nothing changes.
   */
  function ApplySell(a: Account, asset: string, quantity: int, price: real): (r: (Account, Outcome))
    requires ValidOrder(asset, quantity, price)
    ensures r.1.Executed? <==> quantity <= Held(a.portfolio, asset)
    ensures r.1.Executed? ==>
      && r.1.amount == Amount(quantity, price)
      && r.0.balance == a.balance + r.1.amount
      && asset in a.portfolio
      && Held(r.0.portfolio, asset) == Held(a.portfolio, asset) - quantity
      && OnlyEntryChanged(a.portfolio, r.0.portfolio, asset)
      && r.0.history == a.history + [Tx(Sold, asset, quantity, price)]
    ensures !r.1.Executed? ==> r.0 == a && r.1 == NotEnoughQuantity
    ensures Consistent(a) ==> Consistent(r.0)
  {
    if Held(a.portfolio, asset) >= quantity then
      var revenue := Amount(quantity, price);
      var portfolio := a.portfolio[asset := a.portfolio[asset] - quantity];
      (Account(a.balance + revenue, portfolio, a.history + [Tx(Sold, asset, quantity, price)]), Executed(revenue))
    else
      (a, NotEnoughQuantity)
  }

  /** Selling the whole position leaves the asset listed with quantity 0. */
  lemma SellAllKeepsEntry(a: Account, asset: string, price: real)
    requires ValidOrder(asset, Held(a.portfolio, asset), price)
    ensures var r := ApplySell(a, asset, Held(a.portfolio, asset), price);
      r.1.Executed? && asset in r.0.portfolio && r.0.portfolio[asset] == 0
  {
  }

  /**
   * Buying q units and then selling q units of the same asset at the same
   * price restores the balance and the asset's quantity exactly; the log
   * keeps both records.
   */
  lemma BuyThenSellRestores(a: Account, asset: string, quantity: int, price: real)
    requires Consistent(a) && ValidOrder(asset, quantity, price)
    requires ApplyBuy(a, asset, quantity, price).1.Executed?
    ensures var bought := ApplyBuy(a, asset, quantity, price).0;
      var sold := ApplySell(bought, asset, quantity, price);
      && sold.1 == Executed(Amount(quantity, price))
      && sold.0.balance == a.balance
      && sold.0.portfolio == a.portfolio[asset := Held(a.portfolio, asset)]
      && sold.0.history == a.history + [Tx(Bought, asset, quantity, price), Tx(Sold, asset, quantity, price)]
  {
  }

  // ---------------------------------------------------------------------------
  // Portfolio valuation
  // ---------------------------------------------------------------------------

  /** The sum of quantity * price over every entry of the portfolio, for one price function. */
  ghost function Value(portfolio: map<string, int>, prices: string -> real): real
    decreases |portfolio|
  {
    if portfolio == map[] then 0.0
    else
      var asset :| asset in portfolio;
      Amount(portfolio[asset], prices(asset)) + Value(portfolio - {asset}, prices)
  }

  /** The sum does not depend on which entry is taken first. */
  lemma {:induction false} ValueRemove(portfolio: map<string, int>, asset: string, prices: string -> real)
    requires asset in portfolio
    ensures Value(portfolio, prices) == Amount(portfolio[asset], prices(asset)) + Value(portfolio - {asset}, prices)
    decreases |portfolio|
  {
    var first :| first in portfolio && Value(portfolio, prices)
      == Amount(portfolio[first], prices(first)) + Value(portfolio - {first}, prices);
    if first != asset {
      var both := portfolio - {first} - {asset};
      assert portfolio - {asset} - {first} == both;
      ValueRemove(portfolio - {first}, asset, prices);
      ValueRemove(portfolio - {asset}, first, prices);
    }
  }

  /** Setting one entry to n changes the value by the difference for that entry alone. */
  lemma {:induction false} ValueUpdate(portfolio: map<string, int>, asset: string, n: int, prices: string -> real)
    ensures Value(portfolio[asset := n], prices)
      == Value(portfolio, prices) - Amount(Held(portfolio, asset), prices(asset)) + Amount(n, prices(asset))
  {
    var updated := portfolio[asset := n];
    ValueRemove(updated, asset, prices);
    assert updated - {asset} == portfolio - {asset};
    if asset in portfolio {
      ValueRemove(portfolio, asset, prices);
    } else {
      assert portfolio - {asset} == portfolio;
    }
  }

  /**
   * A buy at the price the valuation uses leaves cash plus portfolio value
   * unchanged: the cost leaves the balance and reappears in the position.
   */
  lemma BuyKeepsEquity(a: Account, asset: string, quantity: int, price: real, prices: string -> real)
    requires ValidOrder(asset, quantity, price) && prices(asset) == price
    ensures var r := ApplyBuy(a, asset, quantity, price).0;
      r.balance + Value(r.portfolio, prices) == a.balance + Value(a.portfolio, prices)
  {
    var r := ApplyBuy(a, asset, quantity, price);
    if r.1.Executed? {
      var h := Held(a.portfolio, asset);
      ValueUpdate(a.portfolio, asset, h + quantity, prices);
      assert r.0.portfolio == a.portfolio[asset := h + quantity];
      assert Amount(h + quantity, price) == Amount(h, price) + Amount(quantity, price);
    }
  }

  /** A sell at the price the valuation uses leaves cash plus portfolio value unchanged. */
  lemma SellKeepsEquity(a: Account, asset: string, quantity: int, price: real, prices: string -> real)
    requires ValidOrder(asset, quantity, price) && prices(asset) == price
    ensures var r := ApplySell(a, asset, quantity, price).0;
      r.balance + Value(r.portfolio, prices) == a.balance + Value(a.portfolio, prices)
  {
    var r := ApplySell(a, asset, quantity, price);
    if r.1.Executed? {
      var h := Held(a.portfolio, asset);
      ValueUpdate(a.portfolio, asset, h - quantity, prices);
      assert r.0.portfolio == a.portfolio[asset := h - quantity];
      assert Amount(h - quantity, price) == Amount(h, price) - Amount(quantity, price);
    }
  }

  // ---------------------------------------------------------------------------
  // Recent history
  // ---------------------------------------------------------------------------

  function Reverse(s: seq<Tx>): (r: seq<Tx>)
    ensures |r| == |s|
    ensures forall i :: 0 <= i < |s| ==> r[i] == s[|s| - 1 - i]
  {
    if s == [] then [] else Reverse(s[1..]) + [s[0]]
  }

  /** The last RecentLimit transactions (all of them if fewer), newest first. */
  function RecentHistory(history: seq<Tx>): (recent: seq<Tx>)
    ensures |recent| == if |history| < RecentLimit then |history| else RecentLimit
    ensures forall i :: 0 <= i < |recent| ==> recent[i] == history[|history| - 1 - i]
  {
    var n := if |history| < RecentLimit then |history| else RecentLimit;
    Reverse(history[|history| - n..])
  }

  /**
   * After one more trade the view starts with that trade, followed by what it
   * showed before, cut to RecentLimit entries.
   */
  lemma RecentAfterAppend(history: seq<Tx>, t: Tx)
    ensures var before := RecentHistory(history);
      RecentHistory(history + [t])
        == [t] + before[..if |before| < RecentLimit then |before| else RecentLimit - 1]
  {
  }
}
