/**
 * The dashboard's session state as one object: the balance, the portfolio
 * and the history that the script keeps in the session and updates in place
 * when the Buy or Sell button is pressed.
 */
module Session {
  import opened Trading

  class Ledger {
    var balance: real
    var portfolio: map<string, int>
    var history: seq<Tx>

    /** The state as a value, for stating what an operation does. */
    function Snapshot(): Account
      reads this
    {
      Account(balance, portfolio, history)
    }

    ghost predicate Valid()
      reads this
    {
      Consistent(Snapshot())
    }

    /** A new session: balance 10000, nothing held, nothing traded. */
    constructor ()
      ensures Valid() && Snapshot() == Opening
      ensures balance == 10000.0 && portfolio == map[] && history == []
    {
      balance := StartingBalance;
      portfolio := map[];
      history := [];
    }

    /** The Buy button, with the quote shown on the page as `price`. */
    method Buy(asset: string, quantity: int, price: real) returns (outcome: Outcome)
      requires Valid() && ValidOrder(asset, quantity, price)
      modifies this
      ensures Valid()
      ensures (Snapshot(), outcome) == ApplyBuy(old(Snapshot()), asset, quantity, price)
    {
      var cost := quantity as real * price;
      if balance >= cost {
        balance := balance - cost;
        portfolio := portfolio[asset := Held(portfolio, asset) + quantity];
        history := history + [Tx(Bought, asset, quantity, price)];
        outcome := Executed(cost);
      } else {
        outcome := NotEnoughBalance;
      }
    }

    /** The Sell button, with the quote shown on the page as `price`. */
    method Sell(asset: string, quantity: int, price: real) returns (outcome: Outcome)
      requires Valid() && ValidOrder(asset, quantity, price)
      modifies this
      ensures Valid()
      ensures (Snapshot(), outcome) == ApplySell(old(Snapshot()), asset, quantity, price)
    {
      if Held(portfolio, asset) >= quantity {
        portfolio := portfolio[asset := portfolio[asset] - quantity];
        var revenue := quantity as real * price;
        balance := balance + revenue;
        history := history + [Tx(Sold, asset, quantity, price)];
        outcome := Executed(revenue);
      } else {
        outcome := NotEnoughQuantity;
      }
    }

    /** Adds up quantity * price over the portfolio's entries, one entry at a time. */
    method PortfolioValue(prices: string -> real) returns (value: real)
      ensures value == Value(portfolio, prices)
    {
      value := 0.0;
      var rest := portfolio;
      while rest != map[]
        invariant value + Value(rest, prices) == Value(portfolio, prices)
        decreases |rest|
      {
        var asset :| asset in rest;
        ValueRemove(rest, asset, prices);
        value := value + rest[asset] as real * prices(asset);
        rest := rest - {asset};
      }
    }
  }

  /** A short session, as a client sees it through the contracts alone. */
  method ExampleSession() {
    var ledger := new Ledger();
    var outcome := ledger.Sell("AAPL", 1, 175.0);
    assert outcome == NotEnoughQuantity && ledger.balance == 10000.0;
    outcome := ledger.Buy("AAPL", 10, 175.0);
    assert outcome == Executed(1750.0);
    assert ledger.balance == 8250.0 && ledger.portfolio == map["AAPL" := 10];
    outcome := ledger.Sell("AAPL", 5, 180.0);
    assert outcome == Executed(900.0);
    assert ledger.balance == 9150.0 && ledger.portfolio == map["AAPL" := 5];
    assert RecentHistory(ledger.history) == [Tx(Sold, "AAPL", 5, 180.0), Tx(Bought, "AAPL", 10, 175.0)];
    var tooMuch := ledger.Buy("BTC/USD", 1, 60000.0);
    assert tooMuch == NotEnoughBalance && ledger.balance == 9150.0;
  }
}
