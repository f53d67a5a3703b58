/**
 * The balance checks of `GridTradingBot` (src/services/bot.ts), on the
 * balances and price once fetched: the start-up gate `checkBalance`, the two
 * market-order gates, and the one market buy of `emergencyAction`.
 */
module Gates {
  import opened Exchange
  import opened Grid

  datatype Option<T> = None | Some(value: T)

  /** A balance entry with a default of 0 for a missing coin (`{ [coin]: b = 0 } = balance`). */
  function Balance(balances: map<string, real>, coin: string): real
  {
    if coin in balances then balances[coin] else 0.0
  }

  /** The amount, in THB, each side of the account must strictly exceed. */
  function Required(config: GridConfig): real
  {
    (config.tradeBalance / 2.0) * (1.0 + config.priceThreshold)
  }

  /**
   * `checkBalance`: the primary coin's holding valued at the ticker price and
   * the base coin's holding both strictly exceed half the trade balance plus
   * the threshold margin.
   */
  predicate BalanceEnough(config: GridConfig, baseCoin: string, primCoin: string, balances: map<string, real>, price: real)
  {
    Balance(balances, primCoin) * price > Required(config) && Balance(balances, baseCoin) > Required(config)
  }

  /** With a non-negative threshold, passing the gate means holding more than half the trade balance on each side. */
  lemma GateCoversHalfTrade(config: GridConfig, baseCoin: string, primCoin: string, balances: map<string, real>, price: real)
    requires config.tradeBalance >= 0.0 && config.priceThreshold >= 0.0
    requires BalanceEnough(config, baseCoin, primCoin, balances, price)
    ensures Balance(balances, primCoin) * price > config.tradeBalance / 2.0
    ensures Balance(balances, baseCoin) > config.tradeBalance / 2.0
  {
    var half := config.tradeBalance / 2.0;
    assert half * (1.0 + config.priceThreshold) == half + half * config.priceThreshold;
    assert half * config.priceThreshold >= 0.0 by {
      if half > 0.0 && config.priceThreshold > 0.0 {
        PositiveProduct(half, config.priceThreshold);
      }
    }
  }

  /** A coin missing from the balances counts as 0, so with a non-negative requirement the gate fails. */
  lemma MissingCoinFailsGate(config: GridConfig, baseCoin: string, primCoin: string, balances: map<string, real>, price: real)
    requires baseCoin !in balances || primCoin !in balances
    requires Required(config) >= 0.0
    ensures !BalanceEnough(config, baseCoin, primCoin, balances, price)
  {
  }

  /** More of either coin never turns a passing gate into a failing one. */
  lemma GateMonotone(config: GridConfig, baseCoin: string, primCoin: string, b1: map<string, real>, b2: map<string, real>, price: real)
    requires price >= 0.0
    requires Balance(b1, baseCoin) <= Balance(b2, baseCoin) && Balance(b1, primCoin) <= Balance(b2, primCoin)
    requires BalanceEnough(config, baseCoin, primCoin, b1, price)
    ensures BalanceEnough(config, baseCoin, primCoin, b2, price)
  {
    ScaleWeak(price, Balance(b1, primCoin), Balance(b2, primCoin));
    assert price * Balance(b1, primCoin) == Balance(b1, primCoin) * price;
    assert price * Balance(b2, primCoin) == Balance(b2, primCoin) * price;
  }

  /** The default configuration with 0.1 BTC at 1000000 and 6000 THB passes; with exactly 5010 THB it does not. */
  lemma GateExample()
    ensures BalanceEnough(GridConfig("THB_BTC", 5, 0.3, 10000.0, 0.002, 0.0025), "THB", "BTC",
                          map["THB" := 6000.0, "BTC" := 0.1], 1000000.0)
    ensures !BalanceEnough(GridConfig("THB_BTC", 5, 0.3, 10000.0, 0.002, 0.0025), "THB", "BTC",
                           map["THB" := 5010.0, "BTC" := 0.1], 1000000.0)
  {
    assert Required(GridConfig("THB_BTC", 5, 0.3, 10000.0, 0.002, 0.0025)) == 5010.0;
  }

  /**
   * `buyCoinMarketPriceForTHB`: a market buy for `amountTHB` when the THB
   * balance covers it, nothing otherwise. A missing THB entry is `undefined`,
   * which compares false.
   */
  function MarketBuyOrder(balances: map<string, real>, amountTHB: real, tradingPair: string): (r: Option<OrderRequest>)
    ensures r.Some? <==> "THB" in balances && balances["THB"] >= amountTHB
    ensures r.Some? ==> r.value.amount <= Balance(balances, "THB")
    ensures r.Some? ==> r.value.side == BuySide && r.value.kind == Market && r.value.symbol == tradingPair && r.value.amount == amountTHB
    ensures balances == map[] && amountTHB > 0.0 ==> r == None
  {
    if "THB" in balances && balances["THB"] >= amountTHB then
      Some(OrderRequest(tradingPair, BuySide, Market, amountTHB, 0.0))
    else None
  }

  /**
   * `sellCoinMarketPriceForTHB`: a market sell of `amountCoin` of the pair's
   * second coin when its balance covers it, nothing otherwise.
   */
  function MarketSellOrder(balances: map<string, real>, coin: string, amountCoin: real, tradingPair: string): (r: Option<OrderRequest>)
    ensures r.Some? <==> coin in balances && balances[coin] >= amountCoin
    ensures r.Some? ==> r.value.amount <= Balance(balances, coin)
    ensures r.Some? ==> r.value.side == SellSide && r.value.kind == Market && r.value.symbol == tradingPair && r.value.amount == amountCoin
    ensures balances == map[] && amountCoin > 0.0 ==> r == None
  {
    if coin in balances && balances[coin] >= amountCoin then
      Some(OrderRequest(tradingPair, SellSide, Market, amountCoin, 0.0))
    else None
  }

  /** A market order from either gate never asks for more than the balance it was checked against. */
  lemma MarketOrdersCovered(balances: map<string, real>, coin: string, amount: real, tradingPair: string)
    ensures var b := MarketBuyOrder(balances, amount, tradingPair);
      b.Some? ==> b.value.amount <= Balance(balances, "THB") && b.value.kind == Market
    ensures var s := MarketSellOrder(balances, coin, amount, tradingPair);
      s.Some? ==> s.value.amount <= Balance(balances, coin) && s.value.kind == Market
    ensures amount > 0.0 ==> MarketBuyOrder(map[], amount, tradingPair) == None && MarketSellOrder(map[], coin, amount, tradingPair) == None
  {
  }

  /**
   * The order `emergencyAction` creates: when the THB balance is present and
   * non-zero (truthy), a market buy of the coin amount worth that balance at
   * the ticker price.
   */
  function EmergencyOrder(balances: map<string, real>, price: real, tradingPair: string): (r: Option<OrderRequest>)
    requires price > 0.0
    ensures r.Some? <==> "THB" in balances && balances["THB"] != 0.0
    ensures r.Some? ==> r.value.side == BuySide && r.value.kind == Market && r.value.price == 0.0
    ensures r.Some? ==> r.value.symbol == tradingPair && r.value.amount * price == balances["THB"]
  {
    if "THB" in balances && balances["THB"] != 0.0 then
      Some(OrderRequest(tradingPair, BuySide, Market, balances["THB"] / price, 0.0))
    else None
  }
}
