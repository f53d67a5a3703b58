/**
 * `GridTradingBot` (src/services/bot.ts): the running flag, the grid it
 * builds and the ledger of orders it believes open, driven against an
 * abstract exchange gateway whose call log records every createOrder,
 * cancelOrder and getOrderInfo the bot issues.
 */
module Bot {
  import opened Exchange
  import opened Grid
  import opened Reconcile
  import opened Gates

  /** How `start` ends: the throw before the try, the two caught errors, or the first watch pass. */
  datatype StartOutcome = AlreadyRunning | InsufficientBalance | PlacementFailed | Watching

  /** The requests `placeGridOrders` issues for `levels`: a buy and then a sell per level, in grid order. */
  function PlacementRequests(symbol: string, levels: seq<GridLevel>): (r: seq<OrderRequest>)
    ensures |r| == 2 * |levels|
  {
    if levels == [] then []
    else
      var last := levels[|levels| - 1];
      PlacementRequests(symbol, levels[..|levels| - 1]) + [BuyRequest(symbol, last), SellRequest(symbol, last)]
  }

  /** Requests 2k and 2k + 1 are level k's limit buy and limit sell. */
  lemma {:induction false} PlacementRequestsAt(symbol: string, levels: seq<GridLevel>)
    ensures var r := PlacementRequests(symbol, levels);
      forall k :: 0 <= k < |levels| ==> r[2 * k] == BuyRequest(symbol, levels[k]) && r[2 * k + 1] == SellRequest(symbol, levels[k])
  {
    if levels != [] {
      var init := levels[..|levels| - 1];
      PlacementRequestsAt(symbol, init);
      assert forall k :: 0 <= k < |init| ==> levels[k] == init[k];
    }
  }

  /**
   * Level `k` fails when its buy or its sell createOrder returns a non-zero
   * error, the placement having started after `from` createOrder calls.
   */
  predicate PairFails(errors: seq<int>, from: nat, k: nat)
  {
    ErrorAt(errors, from + 2 * k) != 0 || ErrorAt(errors, from + 2 * k + 1) != 0
  }

  /**
   * The orders a level's buy and sell leave listed, the buy being create
   * number `at`: each of the two whose create returns 0, under the next ids
   * from `id` on.
   */
  function PairAccepted(errors: seq<int>, at: nat, id: nat, symbol: string, level: GridLevel): (r: seq<Order>)
    ensures |r| <= 2
  {
    var buys := if ErrorAt(errors, at) == 0 then [Placed(id, BuyRequest(symbol, level))] else [];
    buys + if ErrorAt(errors, at + 1) == 0 then [Placed(id + |buys|, SellRequest(symbol, level))] else []
  }

  /**
   * A level's accepted orders are the general run of accepted creates for its
   * two requests, and the level fails exactly when fewer than both are listed.
   */
  lemma PairAcceptedRun(errors: seq<int>, from: nat, k: nat, id: nat, symbol: string, level: GridLevel)
    ensures var pair := PairAccepted(errors, from + 2 * k, id, symbol, level);
      && pair == AcceptedFrom(errors, from + 2 * k, id, [BuyRequest(symbol, level), SellRequest(symbol, level)])
      && (PairFails(errors, from, k) <==> |pair| < 2)
  {
    var reqs := [BuyRequest(symbol, level), SellRequest(symbol, level)];
    assert reqs[..1] == [BuyRequest(symbol, level)];
    assert reqs[..1][..0] == [];
  }

  /** The first of `n` levels that fails, or `n` when none does. */
  function FirstFailure(errors: seq<int>, from: nat, n: nat): (f: nat)
    ensures f <= n
  {
    if n == 0 then 0
    else
      var f := FirstFailure(errors, from, n - 1);
      if f < n - 1 then f else if PairFails(errors, from, n - 1) then n - 1 else n
  }

  /** Every level before the first failure succeeds, and the first failure, when there is one, fails. */
  lemma {:induction false} FirstFailureSpec(errors: seq<int>, from: nat, n: nat)
    ensures var f := FirstFailure(errors, from, n);
      && (forall k :: 0 <= k < f ==> !PairFails(errors, from, k))
      && (f < n ==> PairFails(errors, from, f))
  {
    if n > 0 {
      FirstFailureSpec(errors, from, n - 1);
    }
  }

  /** Once level `i` is the first failure, it stays the first failure however many levels follow. */
  lemma {:induction false} FirstFailureSettled(errors: seq<int>, from: nat, i: nat, n: nat)
    requires i < n
    requires FirstFailure(errors, from, i) == i && PairFails(errors, from, i)
    ensures FirstFailure(errors, from, n) == i
  {
    if n > i + 1 {
      FirstFailureSettled(errors, from, i, n - 1);
    }
  }

  /**
   * When the first failing level is `f` (0-based), exactly 2 * (f + 1)
   * createOrder calls are issued before the cancel-all: the ones for the
   * levels up to and including `f`.
   */
  lemma PlacementFailureCreates(symbol: string, levels: seq<GridLevel>, f: nat, rounds: seq<seq<Order>>)
    requires f < |levels|
    ensures var calls := CreateCalls(PlacementRequests(symbol, levels[..f + 1])) + CancelLog(rounds);
      Requests(calls) == PlacementRequests(symbol, levels[..f + 1]) && |Requests(calls)| == 2 * (f + 1)
  {
    var reqs := PlacementRequests(symbol, levels[..f + 1]);
    RequestsAppend(CreateCalls(reqs), CancelLog(rounds));
    RequestsOfCreates(reqs);
    RequestsOfCancelLog(rounds);
  }

  /** One more level placed: its buy and its sell follow the requests of the levels before it. */
  lemma PlacementStep(symbol: string, levels: seq<GridLevel>, i: nat)
    requires i < |levels|
    ensures PlacementRequests(symbol, levels[..i + 1])
      == PlacementRequests(symbol, levels[..i]) + [BuyRequest(symbol, levels[i]), SellRequest(symbol, levels[i])]
  {
    assert levels[..i + 1][..i] == levels[..i];
  }

  /** The log after level `i`'s buy and sell, regrouped as the creates of levels 0 to i. */
  lemma LevelLog(symbol: string, levels: seq<GridLevel>, i: nat, log0: seq<Call>, before: seq<Call>, after: seq<Call>)
    requires i < |levels|
    requires before == log0 + CreateCalls(PlacementRequests(symbol, levels[..i]))
    requires after == before + [Create(BuyRequest(symbol, levels[i])), Create(SellRequest(symbol, levels[i]))]
    ensures after == log0 + CreateCalls(PlacementRequests(symbol, levels[..i + 1]))
  {
    var reqs := PlacementRequests(symbol, levels[..i]);
    PlacementStep(symbol, levels, i);
    CreateCallsTwo(reqs, BuyRequest(symbol, levels[i]), SellRequest(symbol, levels[i]));
    Regroup(log0, CreateCalls(reqs), [Create(BuyRequest(symbol, levels[i])), Create(SellRequest(symbol, levels[i]))]);
  }

  /** The open list after level `i`'s buy and sell were accepted, regrouped as the placements of levels 0 to i. */
  lemma LevelOpen(symbol: string, levels: seq<GridLevel>, i: nat, id0: nat, open0: seq<Order>, before: seq<Order>, id: nat, after: seq<Order>)
    requires i < |levels| && id == id0 + 2 * i
    requires before == open0 + PlacedFrom(id0, PlacementRequests(symbol, levels[..i]))
    requires after == before + [Placed(id, BuyRequest(symbol, levels[i])), Placed(id + 1, SellRequest(symbol, levels[i]))]
    ensures after == open0 + PlacedFrom(id0, PlacementRequests(symbol, levels[..i + 1]))
  {
    var reqs := PlacementRequests(symbol, levels[..i]);
    PlacementStep(symbol, levels, i);
    PlacedFromTwo(id0, reqs, id, BuyRequest(symbol, levels[i]), SellRequest(symbol, levels[i]));
    Regroup(open0, PlacedFrom(id0, reqs), [Placed(id, BuyRequest(symbol, levels[i])), Placed(id + 1, SellRequest(symbol, levels[i]))]);
  }

  /**
   * Level `i`, reached with no earlier failure, read off its two error codes:
   * a non-zero one makes it the first failure of all `n` levels, two zeros
   * extend the run of successes.
   */
  lemma LevelOutcome(errors: seq<int>, from: nat, i: nat, n: nat, at: nat, buyError: int, sellError: int)
    requires i < n && FirstFailure(errors, from, i) == i
    requires at == from + 2 * i && buyError == ErrorAt(errors, at) && sellError == ErrorAt(errors, at + 1)
    ensures buyError != 0 || sellError != 0 ==> FirstFailure(errors, from, n) == i
    ensures buyError == 0 && sellError == 0 ==> FirstFailure(errors, from, i + 1) == i + 1
  {
    if buyError != 0 || sellError != 0 {
      FirstFailureSettled(errors, from, i, n);
    }
  }

  /**
   * How a failed placement ends: after the log `log0`, the creates `reqs`
   * and then a cancel-all whose first round fetched `issued` (the open list
   * once the failing level was sent), each later round fetching what the one
   * before left, until nothing was left or the `fuel` ran out; `listed` is
   * what stays listed.
   */
  ghost predicate RolledBack(log: seq<Call>, log0: seq<Call>, reqs: seq<OrderRequest>, issued: seq<Order>, listed: seq<Order>,
                            rollback: seq<seq<Order>>, stuck: set<Hash>, fuel: nat)
  {
    && log == log0 + CreateCalls(reqs) + CancelLog(rollback)
    && 1 <= |rollback| <= fuel + 1 && rollback[0] == issued && Chained(rollback, stuck)
    && listed == StuckOnly(rollback[|rollback| - 1], stuck)
    && (listed == [] || |rollback| == fuel + 1)
  }

  /** In a rollback, every order listed when it began is cancelled: the log holds a cancelOrder for its hash. */
  lemma RollbackCancelsPlaced(log: seq<Call>, log0: seq<Call>, reqs: seq<OrderRequest>, issued: seq<Order>, listed: seq<Order>,
                              rollback: seq<seq<Order>>, stuck: set<Hash>, fuel: nat)
    requires RolledBack(log, log0, reqs, issued, listed, rollback, stuck, fuel)
    ensures forall o :: o in issued ==> Cancel(o.hash) in log
  {
    CancelCallsAt(issued);
    forall o | o in issued
      ensures Cancel(o.hash) in log
    {
      var j :| 0 <= j < |issued| && issued[j] == o;
    }
  }

  /**
   * The gateway as the placement loop leaves it when level `f` is the first
   * to fail: the creates of levels 0 to f were sent, the orders of the levels
   * before it are listed after `open0` under the ids from `id0` on, and so
   * are the orders of level `f` that were accepted.
   */
  ghost predicate Stopped(symbol: string, levels: seq<GridLevel>, f: nat, errors: seq<int>, from: nat, id0: nat,
                          log0: seq<Call>, open0: seq<Order>, log: seq<Call>, listed: seq<Order>, creates: nat, nextId: nat)
  {
    && f < |levels|
    && log == log0 + CreateCalls(PlacementRequests(symbol, levels[..f + 1])) && creates == from + 2 * (f + 1)
    && listed == open0 + PlacedFrom(id0, PlacementRequests(symbol, levels[..f])) + PairAccepted(errors, from + 2 * f, id0 + 2 * f, symbol, levels[f])
    && nextId == id0 + 2 * f + |PairAccepted(errors, from + 2 * f, id0 + 2 * f, symbol, levels[f])|
  }

  /** Level `i`'s pair sent after levels 0 to i - 1 were all accepted: the gateway as `Stopped` describes it at `i`. */
  lemma LevelStopped(symbol: string, levels: seq<GridLevel>, i: nat, errors: seq<int>, from: nat, id0: nat,
                     log0: seq<Call>, open0: seq<Order>, log1: seq<Call>, open1: seq<Order>, at: nat, id: nat,
                     log2: seq<Call>, open2: seq<Order>, creates2: nat, next2: nat)
    requires i < |levels|
    requires log1 == log0 + CreateCalls(PlacementRequests(symbol, levels[..i])) && at == from + |PlacementRequests(symbol, levels[..i])|
    requires open1 == open0 + PlacedFrom(id0, PlacementRequests(symbol, levels[..i])) && id == id0 + |PlacementRequests(symbol, levels[..i])|
    requires log2 == log1 + [Create(BuyRequest(symbol, levels[i])), Create(SellRequest(symbol, levels[i]))] && creates2 == at + 2
    requires open2 == open1 + PairAccepted(errors, at, id, symbol, levels[i]) && next2 == id + |PairAccepted(errors, at, id, symbol, levels[i])|
    ensures Stopped(symbol, levels, i, errors, from, id0, log0, open0, log2, open2, creates2, next2)
  {
    LevelLog(symbol, levels, i, log0, log1, log2);
  }

  /** The orders of the levels before the first failing one, all accepted. */
  function PlacedBeforeFailure(symbol: string, grid: seq<GridLevel>, errors: seq<int>, from: nat, id0: nat): seq<Order>
  {
    PlacedFrom(id0, PlacementRequests(symbol, grid[..FirstFailure(errors, from, |grid|)]))
  }

  /** The orders of the first failing level that the exchange accepted (none when no level fails). */
  function AcceptedAtFailure(symbol: string, grid: seq<GridLevel>, errors: seq<int>, from: nat, id0: nat): seq<Order>
  {
    var f := FirstFailure(errors, from, |grid|);
    if f < |grid| then PairAccepted(errors, from + 2 * f, id0 + 2 * f, symbol, grid[f]) else []
  }

  /**
   * How a failed placement ends: `Stopped` at the first failing level, and
   * then the rollback cancel-all over everything listed at that point.
   */
  ghost predicate RollbackAfter(symbol: string, grid: seq<GridLevel>, errors: seq<int>, from: nat, id0: nat, fuel: nat,
                                log0: seq<Call>, open0: seq<Order>, log: seq<Call>, listed: seq<Order>, creates: nat, nextId: nat,
                                rollback: seq<seq<Order>>, stuck: set<Hash>)
  {
    var f := FirstFailure(errors, from, |grid|);
    && f < |grid|
    && creates == from + 2 * (f + 1)
    && nextId == id0 + 2 * f + |AcceptedAtFailure(symbol, grid, errors, from, id0)|
    && RolledBack(log, log0, PlacementRequests(symbol, grid[..f + 1]),
         open0 + PlacedBeforeFailure(symbol, grid, errors, from, id0) + AcceptedAtFailure(symbol, grid, errors, from, id0),
         listed, rollback, stuck, fuel)
  }

  /** The loop stopped at the first failing level, then a cancel-all ran: the placement ends as `RollbackAfter` says. */
  lemma StoppedThenRolledBack(symbol: string, grid: seq<GridLevel>, errors: seq<int>, from: nat, id0: nat, fuel: nat,
                              log0: seq<Call>, open0: seq<Order>, log1: seq<Call>, open1: seq<Order>, creates1: nat, next1: nat,
                              log: seq<Call>, listed: seq<Order>, rollback: seq<seq<Order>>, stuck: set<Hash>)
    requires Stopped(symbol, grid, FirstFailure(errors, from, |grid|), errors, from, id0, log0, open0, log1, open1, creates1, next1)
    requires 1 <= |rollback| <= fuel + 1 && rollback[0] == open1 && Chained(rollback, stuck)
    requires listed == StuckOnly(rollback[|rollback| - 1], stuck) && (listed == [] || |rollback| == fuel + 1)
    requires log == log1 + CancelLog(rollback)
    ensures RollbackAfter(symbol, grid, errors, from, id0, fuel, log0, open0, log, listed, creates1, next1, rollback, stuck)
  {
  }

  /**
   * How the deployment that follows the cancel-all ends, on values:
   * `base` is the log so far, `kept` the orders still listed, `from` and
   * `id0` the create count and next id at its start, and `creates` and
   * `nextId` their values at its end.  Either every level was created and
   * accepted (the ledger is the open list) or the first failing level was
   * followed by a rollback and the ledger is untouched.
   */
  ghost predicate Deployed(placed: bool, symbol: string, grid: seq<GridLevel>, errors: seq<int>, from: nat, id0: nat, fuel: nat,
                           log: seq<Call>, base: seq<Call>, listed: seq<Order>, kept: seq<Order>, creates: nat, nextId: nat,
                           ledger: seq<Order>, ledger0: seq<Order>, rollback: seq<seq<Order>>, stuck: set<Hash>)
  {
    && (placed <==> FirstFailure(errors, from, |grid|) == |grid|)
    && |log| >= |base| && log[..|base|] == base
    && (placed ==>
          && ledger == listed
          && log == base + CreateCalls(PlacementRequests(symbol, grid))
          && listed == kept + PlacedFrom(id0, PlacementRequests(symbol, grid))
          && creates == from + 2 * |grid| && nextId == id0 + 2 * |grid|)
    && (!placed ==>
          ledger == ledger0 && RollbackAfter(symbol, grid, errors, from, id0, fuel, base, kept, log, listed, creates, nextId, rollback, stuck))
  }

  /**
   * A placement rolled back at the first failing level cancelled every
   * order it had placed: those of the earlier levels and those of the
   * failing level that were accepted.
   */
  lemma RollbackAfterCancels(symbol: string, grid: seq<GridLevel>, errors: seq<int>, from: nat, id0: nat, fuel: nat,
                             log0: seq<Call>, open0: seq<Order>, log: seq<Call>, listed: seq<Order>, creates: nat, nextId: nat,
                             rollback: seq<seq<Order>>, stuck: set<Hash>)
    requires RollbackAfter(symbol, grid, errors, from, id0, fuel, log0, open0, log, listed, creates, nextId, rollback, stuck)
    ensures forall o :: o in PlacedBeforeFailure(symbol, grid, errors, from, id0) ==> Cancel(o.hash) in log
    ensures forall o :: o in AcceptedAtFailure(symbol, grid, errors, from, id0) ==> Cancel(o.hash) in log
  {
    var before := PlacedBeforeFailure(symbol, grid, errors, from, id0);
    var pair := AcceptedAtFailure(symbol, grid, errors, from, id0);
    RollbackCancelsPlaced(log, log0, PlacementRequests(symbol, grid[..FirstFailure(errors, from, |grid|) + 1]),
                          open0 + before + pair, listed, rollback, stuck, fuel);
    forall o | o in before ensures Cancel(o.hash) in log {
      assert o in open0 + before + pair;
    }
    forall o | o in pair ensures Cancel(o.hash) in log {
      assert o in open0 + before + pair;
    }
  }

  /** A deployment that failed left the ledger alone and cancelled every order it had placed, as `RollbackAfterCancels` states. */
  lemma FailedDeployCancelsPlaced(symbol: string, grid: seq<GridLevel>, errors: seq<int>, from: nat, id0: nat, fuel: nat,
                                  log: seq<Call>, base: seq<Call>, listed: seq<Order>, kept: seq<Order>, creates: nat, nextId: nat,
                                  ledger: seq<Order>, ledger0: seq<Order>, rollback: seq<seq<Order>>, stuck: set<Hash>)
    requires Deployed(false, symbol, grid, errors, from, id0, fuel, log, base, listed, kept, creates, nextId, ledger, ledger0, rollback, stuck)
    ensures ledger == ledger0
    ensures forall o :: o in PlacedBeforeFailure(symbol, grid, errors, from, id0) ==> Cancel(o.hash) in log
    ensures forall o :: o in AcceptedAtFailure(symbol, grid, errors, from, id0) ==> Cancel(o.hash) in log
  {
    RollbackAfterCancels(symbol, grid, errors, from, id0, fuel, base, kept, log, listed, creates, nextId, rollback, stuck);
  }

  class GridTradingBot {
    const config: GridConfig
    const baseCoin: string
    const primCoin: string
    const exchange: Gateway
    var isRunning: bool
    var grid: seq<GridLevel>
    var orders: seq<Order>

    /**
     * The precondition of every operation that prices a rung: a positive
     * ticker price and a non-negative spacing, so that the grid arithmetic
     * is defined. It is not an invariant the bot keeps; the exchange's price
     * is outside the bot's control.
     */
    predicate ArithmeticDefined()
      reads exchange
    {
      exchange.price > 0.0 && config.gridSpacing >= 0.0
    }

    constructor (config: GridConfig, baseCoin: string, primCoin: string, exchange: Gateway)
      ensures this.config == config && this.baseCoin == baseCoin && this.primCoin == primCoin
      ensures this.exchange == exchange
      ensures !isRunning && grid == [] && orders == []
    {
      this.config := config;
      this.baseCoin := baseCoin;
      this.primCoin := primCoin;
      this.exchange := exchange;
      isRunning := false;
      grid := [];
      orders := [];
    }

    method Stop()
      modifies this`isRunning
      ensures !isRunning
    {
      isRunning := false;
    }

    /** `calculateGrid`: appends the ladder for the current ticker price and keeps what was there. */
    method CalculateGrid()
      requires ArithmeticDefined()
      modifies this`grid
      ensures grid == old(grid) + Ladder(config, exchange.price)
    {
      var currentPrice := exchange.price;
      var amountPerLevel := AmountPerLevel(config);
      var i := 1;
      while i <= config.gridLevels
        invariant 1 <= i <= config.gridLevels + 1
        invariant grid == old(grid) + Rungs(i - 1, config.gridSpacing, amountPerLevel, currentPrice)
      {
        grid := grid + [Rung(i, config.gridSpacing, amountPerLevel, currentPrice)];
        i := i + 1;
      }
    }

    /**
     * The body of `cancelAllOrders` up to the re-fetch: one cancelOrder per
     * fetched open order, by hash and in list order. Afterwards only the
     * stuck orders of `fetched` are still listed.
     */
    method CancelRound() returns (ghost fetched: seq<Order>)
      modifies exchange
      ensures exchange.Steady()
      ensures fetched == old(exchange.openOrders)
      ensures exchange.openOrders == StuckOnly(fetched, exchange.stuck)
      ensures exchange.log == old(exchange.log) + CancelCalls(fetched)
      ensures exchange.creates == old(exchange.creates) && exchange.nextId == old(exchange.nextId)
    {
      var listed := exchange.openOrders;
      fetched := listed;
      ghost var stuck := exchange.stuck;
      RemoveNothing(listed);
      var i := 0;
      while i < |listed|
        invariant exchange.Steady()
        invariant 0 <= i <= |listed|
        invariant exchange.openOrders == Remove(listed, CancelledHashes(listed[..i], stuck))
        invariant exchange.log == old(exchange.log) + CancelCalls(listed[..i])
        invariant exchange.creates == old(exchange.creates) && exchange.nextId == old(exchange.nextId)
      {
        var hash := listed[i].hash;
        ghost var open1, log1 := exchange.openOrders, exchange.log;
        exchange.CancelOrder(hash);
        CancelStep(listed, i, stuck, old(exchange.log), open1, log1, exchange.openOrders, exchange.log);
        i := i + 1;
      }
      assert listed[..i] == listed;
      RemoveCancelled(listed, stuck);
    }

    /**
     * `cancelAllOrders`: a cancel round, then a re-fetch, and another round
     * only when that list is non-empty. `fuel` bounds the number of further
     * rounds; `rounds` are the lists each round fetched.
     */
    method CancelAllOrders(fuel: nat) returns (ghost rounds: seq<seq<Order>>)
      modifies exchange
      ensures exchange.Steady()
      ensures 1 <= |rounds| <= fuel + 1
      ensures rounds[0] == old(exchange.openOrders)
      ensures Chained(rounds, exchange.stuck)
      ensures exchange.openOrders == StuckOnly(rounds[|rounds| - 1], exchange.stuck)
      ensures exchange.openOrders == [] || |rounds| == fuel + 1
      ensures exchange.stuck == {} ==> |rounds| == 1 && exchange.openOrders == []
      ensures exchange.log == old(exchange.log) + CancelLog(rounds)
      ensures exchange.creates == old(exchange.creates) && exchange.nextId == old(exchange.nextId)
      decreases fuel
    {
      ghost var fetched := CancelRound();
      if exchange.stuck == {} {
        StuckOnlyNothing(fetched);
      }
      var ordersFinally := exchange.openOrders;
      if |ordersFinally| != 0 && fuel > 0 {
        var rest := CancelAllOrders(fuel - 1);
        RoundsCons(fetched, rest, exchange.stuck);
        Regroup(old(exchange.log), CancelCalls(fetched), CancelLog(rest));
        rounds := [fetched] + rest;
      } else {
        rounds := [fetched];
        assert rounds[1..] == [];
      }
    }

    /**
     * The body of the loop of `placeGridOrders` for one level: its limit buy,
     * then its limit sell.
     */
    method CreatePair(symbol: string, gridLevel: GridLevel) returns (buyCreateError: int, sellCreateError: int)
      modifies exchange
      ensures exchange.Steady()
      ensures buyCreateError == ErrorAt(exchange.createErrors, old(exchange.creates))
      ensures sellCreateError == ErrorAt(exchange.createErrors, old(exchange.creates) + 1)
      ensures exchange.creates == old(exchange.creates) + 2
      ensures exchange.log == old(exchange.log) + [Create(BuyRequest(symbol, gridLevel)), Create(SellRequest(symbol, gridLevel))]
      ensures exchange.openOrders == old(exchange.openOrders) + PairAccepted(exchange.createErrors, old(exchange.creates), old(exchange.nextId), symbol, gridLevel)
      ensures exchange.nextId == old(exchange.nextId) + |PairAccepted(exchange.createErrors, old(exchange.creates), old(exchange.nextId), symbol, gridLevel)|
    {
      buyCreateError := exchange.CreateOrder(BuyRequest(symbol, gridLevel));
      sellCreateError := exchange.CreateOrder(SellRequest(symbol, gridLevel));
    }

    /**
     * Level `i` of `levels` placed after levels 0 to i - 1 all succeeded:
     * either the pair fails and `i` is the first failure, or the gateway
     * stands as after levels 0 to i.
     */
    method PlaceLevel(symbol: string, levels: seq<GridLevel>, i: nat,
                      ghost errors: seq<int>, ghost from: nat, ghost log0: seq<Call>, ghost open0: seq<Order>, ghost id0: nat)
        returns (failed: bool)
      requires i < |levels| && errors == exchange.createErrors
      requires FirstFailure(errors, from, i) == i
      requires exchange.Issued(log0, from, PlacementRequests(symbol, levels[..i]))
      requires exchange.Accepted(open0, id0, PlacementRequests(symbol, levels[..i]))
      modifies exchange
      ensures exchange.Steady()
      ensures !failed ==> exchange.Issued(log0, from, PlacementRequests(symbol, levels[..i + 1]))
      ensures failed ==> FirstFailure(errors, from, |levels|) == i
      ensures failed ==> Stopped(symbol, levels, i, errors, from, id0, log0, open0, exchange.log, exchange.openOrders, exchange.creates, exchange.nextId)
      ensures !failed ==> FirstFailure(errors, from, i + 1) == i + 1
      ensures !failed ==> exchange.Accepted(open0, id0, PlacementRequests(symbol, levels[..i + 1]))
    {
      ghost var at, id, log1, open1 := exchange.creates, exchange.nextId, exchange.log, exchange.openOrders;
      var buyCreateError, sellCreateError := CreatePair(symbol, levels[i]);
      LevelOutcome(errors, from, i, |levels|, at, buyCreateError, sellCreateError);
      failed := buyCreateError != 0 || sellCreateError != 0;
      if failed {
        LevelStopped(symbol, levels, i, errors, from, id0, log0, open0, log1, open1, at, id,
                     exchange.log, exchange.openOrders, exchange.creates, exchange.nextId);
      } else {
        LevelLog(symbol, levels, i, log0, log1, exchange.log);
        assert exchange.openOrders == open1 + [Placed(id, BuyRequest(symbol, levels[i])), Placed(id + 1, SellRequest(symbol, levels[i]))];
        LevelOpen(symbol, levels, i, id0, open0, open1, id, exchange.openOrders);
      }
    }

    /**
     * The loop of `placeGridOrders`: for each level of the grid, in order, a
     * limit buy and then a limit sell, up to and including the first level
     * where either returns an error. `failedAt` is that level, or the grid
     * length when every level succeeds.
     */
    method IssueGridOrders() returns (failedAt: nat)
      modifies exchange
      ensures exchange.Steady()
      ensures failedAt == FirstFailure(exchange.createErrors, old(exchange.creates), |grid|)
      ensures failedAt < |grid| ==>
        Stopped(config.tradingPair, grid, failedAt, exchange.createErrors, old(exchange.creates), old(exchange.nextId),
          old(exchange.log), old(exchange.openOrders), exchange.log, exchange.openOrders, exchange.creates, exchange.nextId)
      ensures failedAt == |grid| ==>
        && exchange.Issued(old(exchange.log), old(exchange.creates), PlacementRequests(config.tradingPair, grid))
        && exchange.Accepted(old(exchange.openOrders), old(exchange.nextId), PlacementRequests(config.tradingPair, grid))
    {
      ghost var errors, from, log0, open0, id0 := exchange.createErrors, exchange.creates, exchange.log, exchange.openOrders, exchange.nextId;
      var symbol := config.tradingPair;
      var levels := grid;
      var i := 0;
      while i < |levels|
        invariant exchange.Steady()
        invariant 0 <= i <= |levels|
        invariant FirstFailure(errors, from, i) == i
        invariant exchange.Issued(log0, from, PlacementRequests(symbol, levels[..i]))
        invariant exchange.Accepted(open0, id0, PlacementRequests(symbol, levels[..i]))
      {
        var failed := PlaceLevel(symbol, levels, i, errors, from, log0, open0, id0);
        if failed {
          return i;
        }
        i := i + 1;
      }
      assert levels[..i] == levels;
      return i;
    }

    /**
     * `placeGridOrders`: the creates of `IssueGridOrders`; at a failing level
     * it cancels all and aborts with the ledger as it was, and when every
     * level succeeds the ledger becomes the exchange's open list.
     */
    method PlaceGridOrders(fuel: nat) returns (placed: bool, ghost rounds: seq<seq<Order>>)
      modifies this`orders, exchange
      ensures exchange.Steady()
      ensures placed <==> FirstFailure(exchange.createErrors, old(exchange.creates), |grid|) == |grid|
      ensures placed ==>
        && exchange.log == old(exchange.log) + CreateCalls(PlacementRequests(config.tradingPair, grid))
        && exchange.openOrders == old(exchange.openOrders) + PlacedFrom(old(exchange.nextId), PlacementRequests(config.tradingPair, grid))
        && exchange.creates == old(exchange.creates) + 2 * |grid|
        && exchange.nextId == old(exchange.nextId) + 2 * |grid|
        && orders == exchange.openOrders
      ensures !placed ==>
        && orders == old(orders)
        && RollbackAfter(config.tradingPair, grid, exchange.createErrors, old(exchange.creates), old(exchange.nextId), fuel,
             old(exchange.log), old(exchange.openOrders), exchange.log, exchange.openOrders, exchange.creates, exchange.nextId,
             rounds, exchange.stuck)
    {
      var failedAt := IssueGridOrders();
      if failedAt < |grid| {
        ghost var log1, open1, creates1, next1 := exchange.log, exchange.openOrders, exchange.creates, exchange.nextId;
        rounds := CancelAllOrders(fuel);
        StoppedThenRolledBack(config.tradingPair, grid, exchange.createErrors, old(exchange.creates), old(exchange.nextId), fuel,
          old(exchange.log), old(exchange.openOrders), log1, open1, creates1, next1,
          exchange.log, exchange.openOrders, rounds, exchange.stuck);
        placed := false;
        return;
      }
      orders := exchange.openOrders;
      placed := true;
      rounds := [];
    }

    /** `checkBalance` on the balances and ticker price the gateway reports. */
    method CheckBalance() returns (enough: bool)
      ensures enough == BalanceEnough(config, baseCoin, primCoin, exchange.balances, exchange.price)
    {
      var balance := exchange.balances;
      var primCoinBalance := Balance(balance, primCoin);
      var baseCoinBalance := Balance(balance, baseCoin);
      var currentPrice := exchange.price;
      var primBalanceTHB := primCoinBalance * currentPrice;
      var baseBalanceTHB := baseCoinBalance;
      enough := primBalanceTHB > (config.tradeBalance / 2.0) * (1.0 + config.priceThreshold)
        && baseBalanceTHB > (config.tradeBalance / 2.0) * (1.0 + config.priceThreshold);
    }

    /** `buyCoinMarketPriceForTHB`: the createOrder error code when the THB balance covers the buy, nothing otherwise. */
    method BuyCoinMarketPriceForTHB(amountTHB: real, tradingPair: string) returns (resp: Option<int>)
      modifies exchange
      ensures var order := MarketBuyOrder(old(exchange.balances), amountTHB, tradingPair);
        && (resp.Some? <==> order.Some?)
        && (order.Some? ==> resp.value == ErrorAt(exchange.createErrors, old(exchange.creates)) && exchange.log == old(exchange.log) + [Create(order.value)])
        && (order.None? ==> unchanged(exchange))
      ensures var order := MarketBuyOrder(old(exchange.balances), amountTHB, tradingPair);
        order.Some? && resp.Some? ==>
          && exchange.creates == old(exchange.creates) + 1
          && exchange.openOrders == old(exchange.openOrders) + (if resp.value == 0 then [Placed(old(exchange.nextId), order.value)] else [])
          && exchange.nextId == old(exchange.nextId) + (if resp.value == 0 then 1 else 0)
      ensures exchange.Steady()
    {
      var balance := exchange.balances;
      if "THB" in balance && balance["THB"] >= amountTHB {
        var error := exchange.CreateOrder(OrderRequest(tradingPair, BuySide, Market, amountTHB, 0.0));
        resp := Some(error);
      } else {
        resp := None;
      }
    }

    /** `sellCoinMarketPriceForTHB`: the same gate for a market sell of `coin`, the pair's second coin. */
    method SellCoinMarketPriceForTHB(amountCoin: real, tradingPair: string, coin: string) returns (resp: Option<int>)
      modifies exchange
      ensures var order := MarketSellOrder(old(exchange.balances), coin, amountCoin, tradingPair);
        && (resp.Some? <==> order.Some?)
        && (order.Some? ==> resp.value == ErrorAt(exchange.createErrors, old(exchange.creates)) && exchange.log == old(exchange.log) + [Create(order.value)])
        && (order.None? ==> unchanged(exchange))
      ensures var order := MarketSellOrder(old(exchange.balances), coin, amountCoin, tradingPair);
        order.Some? && resp.Some? ==>
          && exchange.creates == old(exchange.creates) + 1
          && exchange.openOrders == old(exchange.openOrders) + (if resp.value == 0 then [Placed(old(exchange.nextId), order.value)] else [])
          && exchange.nextId == old(exchange.nextId) + (if resp.value == 0 then 1 else 0)
      ensures exchange.Steady()
    {
      var balance := exchange.balances;
      if coin in balance && balance[coin] >= amountCoin {
        var error := exchange.CreateOrder(OrderRequest(tradingPair, SellSide, Market, amountCoin, 0.0));
        resp := Some(error);
      } else {
        resp := None;
      }
    }

    /**
     * The work of `checkOrdersPeriodically` for one executed order: its
     * status, and for a filled one the replacement order off the current
     * price, a buy for a filled "SELL" and a sell for any other side.
     */
    method HandleExecuted(order: Order)
      requires ArithmeticDefined()
      modifies exchange
      ensures exchange.Steady()
      ensures exchange.log == old(exchange.log) + CallsFor(config.tradingPair, config.gridSpacing, exchange.price, exchange.statuses, order)
      ensures exchange.creates == old(exchange.creates) + if StatusOf(exchange.statuses, order.hash) == "filled" then 1 else 0
      ensures var accepted :=
          if StatusOf(exchange.statuses, order.hash) == "filled" && ErrorAt(exchange.createErrors, old(exchange.creates)) == 0
          then [Placed(old(exchange.nextId), Replenishment(config.tradingPair, config.gridSpacing, exchange.price, order))] else [];
        exchange.openOrders == old(exchange.openOrders) + accepted && exchange.nextId == old(exchange.nextId) + |accepted|
      ensures old(exchange.openOrders) <= exchange.openOrders
    {
      var symbol := config.tradingPair;
      var spacing := config.gridSpacing;
      var status := exchange.GetOrderInfo(order.hash);
      if status == "filled" {
        var req: OrderRequest;
        if order.side == "SELL" {
          var g := SingleGrid(Buy, order.receive, spacing, exchange.price);
          req := QuoteRequest(symbol, g);
        } else {
          var g := SingleGrid(Sell, order.receive * order.rate, spacing, exchange.price);
          req := QuoteRequest(symbol, g);
        }
        var createError := exchange.CreateOrder(req);
        assert req == Replenishment(symbol, spacing, exchange.price, order);
        Regroup(old(exchange.log), [Info(order.hash)], [Create(req)]);
      } else {
        assert [Info(order.hash)] + [] == [Info(order.hash)];
      }
    }

    /**
     * The `Promise.all` of `checkOrdersPeriodically` over the executed
     * orders, taken one after another in ledger order: the calls of each, and
     * the accepted replacements listed after the open list under the next ids.
     */
    method HandleAll(executedOrders: seq<Order>)
      requires ArithmeticDefined()
      modifies exchange
      ensures exchange.Steady()
      ensures exchange.log == old(exchange.log) + PassCalls(config.tradingPair, config.gridSpacing, exchange.price, exchange.statuses, executedOrders)
      ensures exchange.creates == old(exchange.creates) + |Filled(exchange.statuses, executedOrders)|
      ensures exchange.openOrders == old(exchange.openOrders)
        + AcceptedFrom(exchange.createErrors, old(exchange.creates), old(exchange.nextId),
            Replacements(config.tradingPair, config.gridSpacing, exchange.price, Filled(exchange.statuses, executedOrders)))
      ensures exchange.nextId == old(exchange.nextId)
        + |AcceptedFrom(exchange.createErrors, old(exchange.creates), old(exchange.nextId),
            Replacements(config.tradingPair, config.gridSpacing, exchange.price, Filled(exchange.statuses, executedOrders)))|
    {
      ghost var symbol, spacing, price, statuses := config.tradingPair, config.gridSpacing, exchange.price, exchange.statuses;
      ghost var errors, creates0, id0, open0 := exchange.createErrors, exchange.creates, exchange.nextId, exchange.openOrders;
      var i := 0;
      assert executedOrders[..0] == [];
      while i < |executedOrders|
        invariant exchange.Steady()
        invariant 0 <= i <= |executedOrders|
        invariant exchange.log == old(exchange.log) + PassCalls(symbol, spacing, price, statuses, executedOrders[..i])
        invariant exchange.creates == creates0 + |Filled(statuses, executedOrders[..i])|
        invariant exchange.openOrders == open0 + AcceptedFrom(errors, creates0, id0, Replacements(symbol, spacing, price, Filled(statuses, executedOrders[..i])))
        invariant exchange.nextId == id0 + |AcceptedFrom(errors, creates0, id0, Replacements(symbol, spacing, price, Filled(statuses, executedOrders[..i])))|
      {
        ghost var open1, next1, creates1 := exchange.openOrders, exchange.nextId, exchange.creates;
        HandleExecuted(executedOrders[i]);
        AcceptedReplacementsStep(symbol, spacing, price, statuses, executedOrders, i, errors, creates0, id0, open0,
                                 open1, next1, creates1, exchange.openOrders, exchange.nextId);
        PassStep(symbol, spacing, price, statuses, executedOrders, i);
        Regroup(old(exchange.log), PassCalls(symbol, spacing, price, statuses, executedOrders[..i]),
          CallsFor(symbol, spacing, price, statuses, executedOrders[i]));
        i := i + 1;
      }
      assert executedOrders[..i] == executedOrders;
    }

    /**
     * One pass of `checkOrdersPeriodically`: the executed orders are the
     * ledger orders missing from the open list; each is looked up, a filled
     * one gets its replacement, and all of them leave the ledger. The
     * replacements are not added to the ledger.
     */
    method ReconcileOnce()
      requires ArithmeticDefined()
      modifies this`orders, exchange
      ensures exchange.Steady()
      ensures var openIds := IdsOf(old(exchange.openOrders));
        var executed := Executed(old(orders), openIds);
        && orders == KeepOpen(old(orders), openIds)
        && exchange.log == old(exchange.log) + PassCalls(config.tradingPair, config.gridSpacing, exchange.price, exchange.statuses, executed)
        && exchange.creates == old(exchange.creates) + |Filled(exchange.statuses, executed)|
        && (executed == [] ==> orders == old(orders) && unchanged(exchange))
      ensures exchange.openOrders == old(exchange.openOrders)
        + AcceptedFrom(exchange.createErrors, old(exchange.creates), old(exchange.nextId),
            Replacements(config.tradingPair, config.gridSpacing, exchange.price,
              Filled(exchange.statuses, Executed(old(orders), IdsOf(old(exchange.openOrders))))))
      ensures exchange.nextId == old(exchange.nextId)
        + |AcceptedFrom(exchange.createErrors, old(exchange.creates), old(exchange.nextId),
            Replacements(config.tradingPair, config.gridSpacing, exchange.price,
              Filled(exchange.statuses, Executed(old(orders), IdsOf(old(exchange.openOrders))))))|
      ensures old(exchange.openOrders) <= exchange.openOrders
    {
      var openOrders := exchange.openOrders;
      var openOrderIds := IdsOf(openOrders);
      var executedOrders := Executed(orders, openOrderIds);
      if |executedOrders| > 0 {
        HandleAll(executedOrders);
        PrefixOfAppend(openOrders, exchange.openOrders[|openOrders|..]);
        orders := Survivors(orders, executedOrders);
        SurvivorsOfExecuted(old(orders), openOrderIds);
      } else {
        NothingExecuted(orders, openOrderIds);
      }
    }

    /**
     * The part of `start` after the balance check: append the ladder, place
     * it, and, when every level was placed, run the first reconciliation
     * pass, which finds nothing executed in the fresh ledger.
     */
    method Deploy(fuel: nat, ghost log0: seq<Call>, ghost cleared: seq<seq<Order>>, ghost from: nat, ghost id0: nat) returns (placed: bool, ghost rollback: seq<seq<Order>>)
      requires ArithmeticDefined()
      requires |cleared| >= 1 && exchange.log == log0 + CancelLog(cleared)
      requires exchange.openOrders == StuckOnly(cleared[|cleared| - 1], exchange.stuck)
      requires exchange.creates == from && exchange.nextId == id0
      modifies this`grid, this`orders, exchange
      ensures exchange.Steady()
      ensures grid == old(grid) + Ladder(config, old(exchange.price))
      ensures Deployed(placed, config.tradingPair, grid, exchange.createErrors, from, id0, fuel,
                exchange.log, log0 + CancelLog(cleared), exchange.openOrders, StuckOnly(cleared[|cleared| - 1], exchange.stuck),
                exchange.creates, exchange.nextId, orders, old(orders), rollback, exchange.stuck)
    {
      CalculateGrid();
      ghost var placementRounds;
      placed, placementRounds := PlaceGridOrders(fuel);
      rollback := placementRounds;
      if !placed {
        ghost var f := FirstFailure(exchange.createErrors, old(exchange.creates), |grid|);
        Regroup(old(exchange.log), CreateCalls(PlacementRequests(config.tradingPair, grid[..f + 1])), CancelLog(placementRounds));
        SplitAt(old(exchange.log), CreateCalls(PlacementRequests(config.tradingPair, grid[..f + 1])) + CancelLog(placementRounds));
        return;
      }
      SplitAt(old(exchange.log), CreateCalls(PlacementRequests(config.tradingPair, grid)));
      FreshLedgerQuiet(orders);
      ReconcileOnce();
    }

    /**
     * `start`: refuses when already running; otherwise sets the flag, cancels
     * every open order, checks the balances (stopping when they fall short),
     * appends the ladder, places it, and runs the first reconciliation pass.
     */
    method Start(fuel: nat) returns (outcome: StartOutcome, ghost cleared: seq<seq<Order>>, ghost rollback: seq<seq<Order>>)
      requires ArithmeticDefined()
      modifies this, exchange
      ensures old(isRunning) ==> outcome == AlreadyRunning && isRunning && grid == old(grid) && orders == old(orders) && unchanged(exchange)
      ensures !old(isRunning) ==> outcome != AlreadyRunning
      ensures !old(isRunning) ==>
        && 1 <= |cleared| <= fuel + 1 && cleared[0] == old(exchange.openOrders) && Chained(cleared, exchange.stuck)
        && (StuckOnly(cleared[|cleared| - 1], exchange.stuck) == [] || |cleared| == fuel + 1)
      ensures outcome == InsufficientBalance <==>
        !old(isRunning) && !BalanceEnough(config, baseCoin, primCoin, old(exchange.balances), old(exchange.price))
      ensures outcome == InsufficientBalance ==>
        && !isRunning && grid == old(grid) && orders == old(orders)
        && exchange.log == old(exchange.log) + CancelLog(cleared)
        && exchange.creates == old(exchange.creates) && exchange.nextId == old(exchange.nextId)
        && |cleared| >= 1 && exchange.openOrders == StuckOnly(cleared[|cleared| - 1], exchange.stuck)
      ensures outcome == PlacementFailed || outcome == Watching ==>
        && isRunning
        && grid == old(grid) + Ladder(config, old(exchange.price))
        && |cleared| >= 1
        && Deployed(outcome == Watching, config.tradingPair, grid, exchange.createErrors, old(exchange.creates), old(exchange.nextId), fuel,
             exchange.log, old(exchange.log) + CancelLog(cleared), exchange.openOrders, StuckOnly(cleared[|cleared| - 1], exchange.stuck),
             exchange.creates, exchange.nextId, orders, old(orders), rollback, exchange.stuck)
      ensures outcome == Watching <==>
        !old(isRunning) && BalanceEnough(config, baseCoin, primCoin, old(exchange.balances), old(exchange.price))
        && FirstFailure(exchange.createErrors, old(exchange.creates), |grid|) == |grid|
      ensures exchange.Steady()
    {
      rollback := [];
      if isRunning {
        outcome := AlreadyRunning;
        cleared := [];
        return;
      }
      isRunning := true;
      cleared := CancelAllOrders(fuel);
      var isBalanceEnough := CheckBalance();
      if !isBalanceEnough {
        Stop();
        outcome := InsufficientBalance;
        return;
      }
      var placed;
      placed, rollback := Deploy(fuel, old(exchange.log), cleared, old(exchange.creates), old(exchange.nextId));
      outcome := if placed then Watching else PlacementFailed;
    }

    /**
     * `continueWatching`: refuses when already running; otherwise sets the
     * flag, takes the exchange's open list as the ledger and runs one
     * reconciliation pass, which then has nothing to do.
     */
    method ContinueWatching() returns (resumed: bool)
      requires ArithmeticDefined()
      modifies this, exchange
      ensures resumed <==> !old(isRunning)
      ensures isRunning && grid == old(grid)
      ensures !resumed ==> orders == old(orders) && unchanged(exchange)
      ensures resumed ==> orders == old(exchange.openOrders) && unchanged(exchange)
    {
      if isRunning {
        return false;
      }
      isRunning := true;
      var checkMyOrders := exchange.openOrders;
      orders := checkMyOrders;
      FreshLedgerQuiet(checkMyOrders);
      ReconcileOnce();
      resumed := true;
    }

    /**
     * `emergencyAction`: cancel all, then, when the THB balance is present and
     * non-zero, one market buy of the coin amount worth it at the ticker price.
     */
    method EmergencyAction(fuel: nat) returns (ghost rounds: seq<seq<Order>>)
      requires ArithmeticDefined()
      modifies exchange
      ensures 1 <= |rounds| <= fuel + 1 && rounds[0] == old(exchange.openOrders)
      ensures Chained(rounds, exchange.stuck)
      ensures StuckOnly(rounds[|rounds| - 1], exchange.stuck) == [] || |rounds| == fuel + 1
      ensures var order := EmergencyOrder(old(exchange.balances), old(exchange.price), config.tradingPair);
        && exchange.creates == old(exchange.creates) + (if order.Some? then 1 else 0)
        && exchange.nextId == old(exchange.nextId) + (if order.Some? && ErrorAt(exchange.createErrors, old(exchange.creates)) == 0 then 1 else 0)
      ensures var order := EmergencyOrder(old(exchange.balances), old(exchange.price), config.tradingPair);
        exchange.openOrders == StuckOnly(rounds[|rounds| - 1], exchange.stuck)
          + (if order.Some? && ErrorAt(exchange.createErrors, old(exchange.creates)) == 0 then [Placed(old(exchange.nextId), order.value)] else [])
      ensures var order := EmergencyOrder(old(exchange.balances), old(exchange.price), config.tradingPair);
        exchange.log == old(exchange.log) + CancelLog(rounds) + (if order.Some? then [Create(order.value)] else [])
      ensures exchange.Steady()
    {
      rounds := CancelAllOrders(fuel);
      var balances := exchange.balances;
      if "THB" in balances && balances["THB"] != 0.0 {
        var thbBalance := balances["THB"];
        var marketPrice := exchange.price;
        var btcAmount := thbBalance / marketPrice;
        var createError := exchange.CreateOrder(OrderRequest(config.tradingPair, BuySide, Market, btcAmount, 0.0));
      }
    }
  }
}
