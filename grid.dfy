/**
 * The grid arithmetic of `GridTradingBot` (src/services/bot.ts): the ladder
 * `calculateGrid` builds around one price snapshot, and the single
 * replacement rung of `calculateSingleGrid`.
 */
module Grid {
  import opened Exchange

  /** The configuration fields the engine reads. */
  datatype GridConfig = GridConfig(
    tradingPair: string,
    gridLevels: nat,
    gridSpacing: real,     // percent per level
    tradeBalance: real,    // quote currency (THB) to deploy
    priceThreshold: real,  // safety margin of the balance gate
    tradingFee: real)

  datatype GridLevel = GridLevel(level: nat, priceBuy: real, priceSell: real, amountBuy: real, amountSell: real)

  /** The side argument of `calculateSingleGrid`. */
  datatype Side = Buy | Sell

  /** What `calculateSingleGrid` returns: the side, price and amount of one limit order. */
  datatype Quote = Quote(side: CreateSide, price: real, amount: real)

  /** Product of two positive reals. */
  lemma PositiveProduct(x: real, y: real)
    requires x > 0.0 && y > 0.0
    ensures x * y > 0.0
  {
  }

  /** Product of two non-negative reals. */
  lemma NonNegativeProduct(x: real, y: real)
    requires x >= 0.0 && y >= 0.0
    ensures x * y >= 0.0
  {
  }

  /**
   * Rung `i` of a ladder centred on `price`, `i * spacing` percent away on
   * either side. Its two prices are symmetric about `price`, its sell price
   * is not below it (strictly above, and its buy price strictly below, from
   * rung 1 on with a positive spacing), and its sell amount is worth its buy
   * amount at the sell price.
   */
  function Rung(i: nat, spacing: real, amountPerLevel: real, price: real): (g: GridLevel)
    requires price > 0.0 && spacing >= 0.0
    ensures g.level == i && g.amountBuy == amountPerLevel
    ensures g.priceBuy + g.priceSell == 2.0 * price
    ensures g.priceSell >= price
    ensures g.amountSell * g.priceSell == g.amountBuy
    ensures i >= 1 && spacing > 0.0 ==> g.priceBuy < price < g.priceSell
  {
    var offset := (i as real * spacing) / 100.0;
    assert price * (1.0 + offset) == price + price * offset;
    assert price * (1.0 - offset) == price - price * offset;
    assert price * offset >= 0.0 by {
      if offset > 0.0 { PositiveProduct(price, offset); }
    }
    GridLevel(i, price * (1.0 - offset), price * (1.0 + offset), amountPerLevel, amountPerLevel / (price * (1.0 + offset)))
  }

  /** Rungs 1..m, in level order: what the loop of `calculateGrid` pushes. */
  function Rungs(m: nat, spacing: real, amountPerLevel: real, price: real): (r: seq<GridLevel>)
    requires price > 0.0 && spacing >= 0.0
    ensures |r| == m
  {
    if m == 0 then [] else Rungs(m - 1, spacing, amountPerLevel, price) + [Rung(m, spacing, amountPerLevel, price)]
  }

  /** The share of the trade balance each rung gets on each side. */
  function AmountPerLevel(config: GridConfig): real
  {
    if config.gridLevels == 0 then 0.0 else config.tradeBalance / config.gridLevels as real / 2.0
  }

  /** The levels `calculateGrid` appends to the grid for a ticker `price`. */
  function Ladder(config: GridConfig, price: real): seq<GridLevel>
    requires price > 0.0 && config.gridSpacing >= 0.0
  {
    Rungs(config.gridLevels, config.gridSpacing, AmountPerLevel(config), price)
  }

  /** Entry k of rungs 1..m is rung k + 1. */
  lemma {:induction false} RungsAt(m: nat, spacing: real, amountPerLevel: real, price: real)
    requires price > 0.0 && spacing >= 0.0
    ensures forall k :: 0 <= k < m ==> Rungs(m, spacing, amountPerLevel, price)[k] == Rung(k + 1, spacing, amountPerLevel, price)
  {
    if m > 0 {
      RungsAt(m - 1, spacing, amountPerLevel, price);
    }
  }

  /** Entry k of the ladder is rung k + 1. */
  lemma LadderAt(config: GridConfig, price: real, k: nat)
    requires price > 0.0 && config.gridSpacing >= 0.0
    requires k < config.gridLevels
    ensures Ladder(config, price)[k] == Rung(k + 1, config.gridSpacing, AmountPerLevel(config), price)
  {
    RungsAt(config.gridLevels, config.gridSpacing, AmountPerLevel(config), price);
  }

  /**
   * The ladder has exactly `gridLevels` entries with levels 1..N in order,
   * each with the same buy amount, its buy price below and its sell price
   * above the snapshot price, and a sell amount worth the buy amount at the
   * sell price.
   */
  lemma LadderLevels(config: GridConfig, price: real)
    requires price > 0.0 && config.gridSpacing > 0.0
    ensures var g := Ladder(config, price);
      && |g| == config.gridLevels
      && forall k :: 0 <= k < |g| ==>
        && g[k].level == k + 1
        && g[k].amountBuy == AmountPerLevel(config)
        && g[k].priceBuy < price < g[k].priceSell
        && g[k].amountSell * g[k].priceSell == g[k].amountBuy
  {
    forall k | 0 <= k < config.gridLevels
      ensures LadderLevel(config, price, Ladder(config, price)[k], k)
    {
      LadderLevelAt(config, price, k);
    }
  }

  /** What `LadderLevels` promises of level `k` (0-based) of a ladder around `price`. */
  ghost predicate LadderLevel(config: GridConfig, price: real, g: GridLevel, k: nat)
  {
    && g.level == k + 1
    && g.amountBuy == AmountPerLevel(config)
    && g.priceBuy < price < g.priceSell
    && g.amountSell * g.priceSell == g.amountBuy
  }

  /** Level `k` of the ladder is rung k + 1, whose shape `Rung` states. */
  lemma LadderLevelAt(config: GridConfig, price: real, k: nat)
    requires price > 0.0 && config.gridSpacing > 0.0
    requires k < config.gridLevels
    ensures LadderLevel(config, price, Ladder(config, price)[k], k)
  {
    LadderAt(config, price, k);
  }

  /** Scaling by a positive factor keeps a strict order. */
  lemma ScaleStrict(p: real, a: real, b: real)
    requires p > 0.0 && a < b
    ensures p * a < p * b
  {
    PositiveProduct(p, b - a);
    assert p * (b - a) == p * b - p * a;
  }

  /** Scaling by a non-negative factor keeps a weak order. */
  lemma ScaleWeak(p: real, a: real, b: real)
    requires p >= 0.0 && a <= b
    ensures p * a <= p * b
  {
    NonNegativeProduct(p, b - a);
    assert p * (b - a) == p * b - p * a;
  }

  /** A rung further out has a lower buy price and a higher sell price. */
  lemma RungMonotone(i: nat, j: nat, spacing: real, amountPerLevel: real, price: real)
    requires price > 0.0 && spacing > 0.0 && i < j
    ensures Rung(j, spacing, amountPerLevel, price).priceBuy < Rung(i, spacing, amountPerLevel, price).priceBuy
    ensures Rung(i, spacing, amountPerLevel, price).priceSell < Rung(j, spacing, amountPerLevel, price).priceSell
  {
    ScaleStrict(spacing, i as real, j as real);
    assert spacing * (i as real) == i as real * spacing;
    assert spacing * (j as real) == j as real * spacing;
    var oi := (i as real * spacing) / 100.0;
    var oj := (j as real * spacing) / 100.0;
    assert oi < oj;
    ScaleStrict(price, 1.0 - oj, 1.0 - oi);
    ScaleStrict(price, 1.0 + oi, 1.0 + oj);
  }

  /** Buy prices strictly fall and sell prices strictly rise with the level. */
  lemma LadderMonotone(config: GridConfig, price: real, j: nat, k: nat)
    requires price > 0.0 && config.gridSpacing > 0.0
    requires j < k < config.gridLevels
    ensures var g := Ladder(config, price);
      g[k].priceBuy < g[j].priceBuy && g[j].priceSell < g[k].priceSell
  {
    LadderAt(config, price, j);
    LadderAt(config, price, k);
    RungMonotone(j + 1, k + 1, config.gridSpacing, AmountPerLevel(config), price);
  }

  /** A rung's buy price is positive exactly when the rung is less than 100% away. */
  lemma RungBuyPositive(i: nat, spacing: real, amountPerLevel: real, price: real)
    requires price > 0.0 && spacing >= 0.0
    ensures Rung(i, spacing, amountPerLevel, price).priceBuy > 0.0 <==> i as real * spacing < 100.0
  {
    var y := 1.0 - (i as real * spacing) / 100.0;
    if y > 0.0 {
      assert price * y > 0.0;
    } else {
      assert price * y <= 0.0;
    }
  }

  /** The sum of the buy amounts of a list of levels. */
  function SumAmountBuy(levels: seq<GridLevel>): real
  {
    if levels == [] then 0.0 else SumAmountBuy(levels[..|levels| - 1]) + levels[|levels| - 1].amountBuy
  }

  /** One more share of `a` on top of `m - 1` shares makes `m` shares. */
  lemma OneMoreShare(prev: real, m: nat, a: real)
    requires prev == (m - 1) as real * a
    ensures prev + a == m as real * a
  {
    assert m as real * a == ((m - 1) as real + 1.0) * a;
  }

  /** Levels that each buy `a` buy `|levels|` times `a` together. */
  lemma {:induction false} SumOfEqualAmounts(levels: seq<GridLevel>, n: nat, a: real)
    requires |levels| == n
    requires forall k :: 0 <= k < n ==> levels[k].amountBuy == a
    ensures SumAmountBuy(levels) == n as real * a
  {
    if n > 0 {
      var init := levels[..n - 1];
      assert forall k :: 0 <= k < n - 1 ==> init[k] == levels[k];
      SumOfEqualAmounts(init, n - 1, a);
      OneMoreShare(SumAmountBuy(init), n, a);
    }
  }

  /** Rungs 1..m buy m shares of the per-level amount together. */
  lemma RungsSum(m: nat, spacing: real, amountPerLevel: real, price: real)
    requires price > 0.0 && spacing >= 0.0
    ensures SumAmountBuy(Rungs(m, spacing, amountPerLevel, price)) == m as real * amountPerLevel
  {
    RungsAt(m, spacing, amountPerLevel, price);
    SumOfEqualAmounts(Rungs(m, spacing, amountPerLevel, price), m, amountPerLevel);
  }

  /** The N buy amounts together deploy half the trade balance. */
  lemma LadderBuySum(config: GridConfig, price: real)
    requires price > 0.0 && config.gridSpacing >= 0.0
    requires config.gridLevels >= 1
    ensures SumAmountBuy(Ladder(config, price)) == config.tradeBalance / 2.0
  {
    RungsSum(config.gridLevels, config.gridSpacing, AmountPerLevel(config), price);
  }

  /** Two levels at 0.5% around 1000000 with 900 THB to deploy. */
  lemma LadderExample()
    ensures Ladder(GridConfig("THB_BTC", 2, 0.5, 900.0, 0.002, 0.0025), 1000000.0)
      == [GridLevel(1, 995000.0, 1005000.0, 225.0, 225.0 / 1005000.0),
          GridLevel(2, 990000.0, 1010000.0, 225.0, 225.0 / 1010000.0)]
  {
    var config := GridConfig("THB_BTC", 2, 0.5, 900.0, 0.002, 0.0025);
    assert AmountPerLevel(config) == 225.0;
    RungsAt(2, 0.5, 225.0, 1000000.0);
  }

  /**
   * `calculateSingleGrid`: one replacement rung off the current price. A buy
   * is rung 1's buy side with the quote amount as its amount; a sell is rung
   * 1's sell side, sized so that it is worth the quote amount.
   */
  function SingleGrid(side: Side, amountTHB: real, spacing: real, price: real): (q: Quote)
    requires price > 0.0 && spacing >= 0.0
    ensures var g := Rung(1, spacing, amountTHB, price);
      q == if side == Buy then Quote(BuySide, g.priceBuy, g.amountBuy) else Quote(SellSide, g.priceSell, g.amountSell)
  {
    if side == Buy then
      var priceBuy := price * (1.0 - spacing / 100.0);
      Quote(BuySide, priceBuy, amountTHB)
    else
      var priceSell := price * (1.0 + spacing / 100.0);
      assert (1 as real * spacing) / 100.0 == spacing / 100.0;
      Quote(SellSide, priceSell, amountTHB / priceSell)
  }

  /** A sell quote is worth the quote amount at its price, which is not below the current price. */
  lemma SingleGridSellWorth(amountTHB: real, spacing: real, price: real)
    requires price > 0.0 && spacing >= 0.0
    ensures var q := SingleGrid(Sell, amountTHB, spacing, price);
      q.amount * q.price == amountTHB && q.price >= price
  {
  }

  /** The limit buy `placeGridOrders` places for a level. */
  function BuyRequest(symbol: string, g: GridLevel): OrderRequest
  {
    OrderRequest(symbol, BuySide, Limit, g.amountBuy, g.priceBuy)
  }

  /** The limit sell `placeGridOrders` places for a level. */
  function SellRequest(symbol: string, g: GridLevel): OrderRequest
  {
    OrderRequest(symbol, SellSide, Limit, g.amountSell, g.priceSell)
  }

  /** The limit order a quote of `calculateSingleGrid` becomes. */
  function QuoteRequest(symbol: string, q: Quote): OrderRequest
  {
    OrderRequest(symbol, q.side, Limit, q.amount, q.price)
  }
}
