# Grid trading bot core, modelled in Dafny

This project models the core of a BTC/THB grid trading bot for the Bitkub exchange:

- the `GridTradingBot` class of `src/services/bot.ts`;
- the `removeTrailingZeros` helper of `src/helpers.ts`.

The bot works in four steps:

1. It cancels whatever is open and checks that the account holds enough of both coins.
2. It builds a ladder of buy and sell limit prices around one ticker snapshot.
3. It places those orders pair by pair.
4. It watches the exchange. When a ladder order disappears from the open list, the bot looks up its status. A `filled` order gets a replacement order one spacing off the current price, on the opposite side.

The exchange is the class `Exchange.Gateway`. It holds:

- the pair's open orders, the balances and the ticker price;
- the per-hash order status;
- a script of error codes, which decides what each successive `createOrder` returns;
- a set of "stuck" hashes, orders the exchange keeps listing however often they are cancelled;
- a log of every `createOrder`, `cancelOrder` and `getOrderInfo` call the bot makes.

The bot's promises are stated over that log and over the bot's own fields: `isRunning`, `grid` and the ledger `orders`.

The modules:

- `Exchange`: the gateway, order and call types, and the list functions over orders and calls.
- `Grid`: the ladder of `calculateGrid` and the single rung of `calculateSingleGrid`.
- `Gates`: `checkBalance`, the two market-order gates and the emergency buy.
- `Reconcile`: one pass of `checkOrdersPeriodically`, as filters plus per-order decisions.
- `Bot`: the `GridTradingBot` class. It uses imperative loops where the source loops: the grid push, the placement loop, the cancel loop and the reconciliation loop.
- `Helpers`: `removeTrailingZeros`, as a while-loop scan over the decimal string that `toString` would give.

Three behaviours of the source are modelled exactly as written:

- Replacement orders are not added to the ledger.
- A filled order whose side is `"SELL"` is replaced by a buy of `receive`. Every other side is replaced by a sell worth `receive * rate`.
- After a placement failure, `isRunning` stays true.

## Model

| member | source | states |
|---|---|---|
| Helpers.IndexOf | src/helpers.ts:3-4 | the position found holds the character and is -1 exactly when the character is absent |
| Helpers.IndexOfFirst | src/helpers.ts:3 | the position found is the first occurrence |
| Helpers.DropTrailingZeros | src/helpers.ts:8-10 | the string without its trailing '0's: a prefix of the input that does not end in '0' |
| Helpers.DroppedAreZeros | src/helpers.ts:8-10 | what the zero scan cuts off is all '0' characters |
| Helpers.RemoveTrailingZeros | src/helpers.ts:1-15 | the scan returns the string unchanged without a '.', and otherwise keeps exactly the prefix `Trimmed` describes; every index it reads is in bounds |
| Helpers.Trimmed | src/helpers.ts:4-14 | without a '.' the input comes back unchanged; otherwise the result is a prefix of the input |
| Helpers.TrimmedCut | src/helpers.ts:7-14 | everything up to the first '.' is kept, and the part removed is a run of '0's, possibly preceded by the '.' |
| Helpers.ZerosOrDotZeros | src/helpers.ts:8-13 | defines what the scan may cut off: a run of '0's, or a '.' followed by a run of '0's |
| Helpers.AtMostOneDot | src/helpers.ts:2 | defines the strings `toString` gives a number, as far as the scan cares: at most one '.' |
| Helpers.TrimmedEnding | src/helpers.ts:8-13 | the result never ends in '.', and ends in '0' only if it has no '.' |
| Helpers.TrimmedIdempotent | src/helpers.ts:7-14 | trimming a trimmed string changes nothing |
| Helpers.TrimmedExponent | src/helpers.ts:7-14 | a '0' that ends an exponent is cut off too: "1.5e-10" keeps only "1.5e-1", so 1.5e-10 comes back as 0.15 |
| Grid.Rung | src/services/bot.ts:117-130 | rung i carries level i and the per-level buy amount; its buy and sell prices are symmetric about the price; its sell price is at or above the price; its sell amount is worth its buy amount at the sell price; from rung 1 with a positive spacing, buy < price < sell |
| Grid.Rungs | src/services/bot.ts:117-131 | the rungs 1..m in level order that the loop pushes, one per level |
| Grid.AmountPerLevel | src/services/bot.ts:115 | defines each rung's share of the trade balance per side: tradeBalance / gridLevels / 2 |
| Grid.Ladder | src/services/bot.ts:114-131 | defines the levels `calculateGrid` appends: rungs 1..gridLevels around the ticker price with the per-level amount |
| Grid.LadderLevel | src/services/bot.ts:117-130 | defines what each ladder entry satisfies: its level, its buy amount, buy below and sell above the price, and sell amount worth the buy amount |
| Grid.RungsAt | src/services/bot.ts:117-131 | the k-th pushed entry is rung k + 1 |
| Grid.LadderAt | src/services/bot.ts:115-131 | entry k of the ladder is rung k + 1 with the per-level amount |
| Grid.LadderLevels | src/services/bot.ts:115-131 | the ladder has exactly gridLevels entries, levels 1..N in order, equal buy amounts, buy below and sell above the price, and amountSell * priceSell == amountBuy |
| Grid.LadderLevelAt | src/services/bot.ts:117-130 | the shape of one ladder entry |
| Grid.RungMonotone | src/services/bot.ts:118-119 | a rung further out has a lower buy price and a higher sell price |
| Grid.LadderMonotone | src/services/bot.ts:117-131 | buy prices strictly fall and sell prices strictly rise with the level |
| Grid.RungBuyPositive | src/services/bot.ts:118 | a buy price is positive exactly when the rung is less than 100% away |
| Grid.RungsSum | src/services/bot.ts:115-131 | m rungs buy m per-level amounts together |
| Grid.SumAmountBuy | src/services/bot.ts:121 | defines the total buy amount of a list of levels |
| Grid.LadderBuySum | src/services/bot.ts:115-131 | the N buy amounts sum to tradeBalance / 2 |
| Grid.LadderExample | src/services/bot.ts:115-131 | two levels at 0.5% around 1000000 with 900 THB give 995000/1005000 and 990000/1010000, each buying 225 |
| Grid.SingleGrid | src/services/bot.ts:135-159 | a buy quote is rung 1's buy side for the amount; a sell quote is rung 1's sell side |
| Grid.SingleGridSellWorth | src/services/bot.ts:150-157 | a sell quote is worth the THB amount at its price, which is not below the current price |
| Grid.BuyRequest | src/services/bot.ts:164-170 | defines level g's limit buy: its buy amount at its buy price |
| Grid.SellRequest | src/services/bot.ts:172-178 | defines level g's limit sell: its sell amount at its sell price |
| Grid.QuoteRequest | src/services/bot.ts:336-342 | defines the limit order a quote becomes: the quote's side, amount and price |
| Gates.Balance | src/services/bot.ts:196-197 | defines a coin's balance, 0 when the coin is missing |
| Gates.Required | src/services/bot.ts:204-205 | defines the amount each side must strictly exceed: (tradeBalance / 2) * (1 + priceThreshold) |
| Gates.BalanceEnough | src/services/bot.ts:201-206 | defines the gate: the primary coin valued at the ticker price and the base coin both strictly exceed `Required` |
| Gates.GateCoversHalfTrade | src/services/bot.ts:201-206 | passing `checkBalance` with a non-negative threshold means having more than half the trade balance on each side |
| Gates.MissingCoinFailsGate | src/services/bot.ts:196-197 | a coin missing from the balances counts as 0, so the gate fails |
| Gates.GateMonotone | src/services/bot.ts:201-206 | more of either coin never turns a passing gate into a failing one |
| Gates.GateExample | src/services/bot.ts:203-206 | the default configuration passes with 6000 THB and 0.1 BTC at 1000000, and fails at exactly 5010 THB |
| Gates.MarketBuyOrder | src/services/bot.ts:231-245 | an order exactly when the THB balance is present and covers the amount; the order never asks for more THB than the balance; it is a market buy of the amount on the pair; with no balances and a positive amount there is none |
| Gates.MarketSellOrder | src/services/bot.ts:256-271 | an order exactly when the coin's balance is present and covers the amount; the order never asks for more of the coin than its balance; it is a market sell of the amount on the pair; with no balances and a positive amount there is none |
| Gates.MarketOrdersCovered | src/services/bot.ts:224-272 | a gated market order never asks for more than the balance it was checked against, and no balances means no order |
| Gates.EmergencyOrder | src/services/bot.ts:418-434 | one market buy exactly when the THB balance is present and non-zero, for amount * price == thbBalance |
| Exchange.ErrorAt | src/services/bot.ts:164-178 | defines the error code of the k-th createOrder: the scripted one, 0 past the script's end |
| Exchange.StatusOf | src/services/bot.ts:322-323 | defines the status getOrderInfo reports for a hash, "" for an unknown one |
| Exchange.Remove | src/services/bot.ts:387-392 | the listed orders whose hash was not cancelled, in list order; never more than were listed |
| Exchange.StuckOnly | src/services/bot.ts:393-400 | the listed orders that survive every cancel, in list order; never more than were listed |
| Exchange.CancelledHashes | src/services/bot.ts:387-392 | defines the hashes one cancel round actually removes: the listed ones that are not stuck |
| Exchange.CancelCalls | src/services/bot.ts:387-392 | one cancelOrder call per listed order, in list order |
| Exchange.CancelLog | src/services/bot.ts:381-404 | defines the calls of a cancel-all: each round's cancels, for the list that round fetched, one round after another |
| Exchange.Chained | src/services/bot.ts:393-400 | defines how rounds follow one another: each round after the first fetched what the one before left, and that was not empty |
| Exchange.RemoveMembers | src/services/bot.ts:387-392 | an order survives cancellation exactly when it was listed and its hash was not cancelled |
| Exchange.StuckOnlyMembers | src/services/bot.ts:393-400 | after a round, exactly the listed stuck orders remain |
| Exchange.RemoveRemove | src/services/bot.ts:387-392 | two successive cancellations remove the union of the hashes |
| Exchange.RemoveCancelled | src/services/bot.ts:387-395 | after cancelling every fetched order once, only its stuck orders are listed |
| Exchange.CancelStep | src/services/bot.ts:387-392 | one more cancel leaves the open list and the log of the round so far, one order further on |
| Exchange.StuckOnlyNothing | src/services/bot.ts:393-400 | with nothing stuck, nothing survives a round |
| Exchange.StuckOnlyIdempotent | src/services/bot.ts:398-400 | a second round over what a round left removes nothing more |
| Exchange.CancelCallsAt | src/services/bot.ts:387-392 | cancel call k cancels the k-th fetched order by its hash |
| Exchange.CancelLogOnlyCancels | src/services/bot.ts:381-404 | cancel-all issues nothing but cancelOrder calls |
| Exchange.RequestsOfCreates | src/services/bot.ts:164-178 | reading the requests back out of a run of creates gives the requests, in order |
| Exchange.RequestsOfCancelLog | src/services/bot.ts:381-404 | a cancel log holds no createOrder |
| Exchange.CreateCallsAt | src/services/bot.ts:163-184 | create call k places the k-th request |
| Exchange.PlacedFromAt | src/services/bot.ts:185-188 | the k-th accepted request is listed under the k-th next id |
| Exchange.AcceptedFrom | src/services/bot.ts:164-178 | a run of creates lists at most one order per request |
| Exchange.AcceptedFromStep | src/services/bot.ts:164-178 | one more create of a run is listed after the earlier accepted ones, under the next id, exactly when its error code is 0 |
| Exchange.AcceptedPush | src/services/bot.ts:164-178 | the open list and next id after one more create are those of the run one request longer |
| Exchange.AcceptedFromAllZero | src/services/bot.ts:164-188 | when every create of a run succeeds, every request is listed, in order, under consecutive ids |
| Exchange.AcceptedFromIds | src/services/bot.ts:164-178 | the k-th accepted order of a run has id and hash equal to the first id plus k |
| Exchange.RoundsCons | src/services/bot.ts:398-400 | chaining a round in front of the rounds that follow it keeps each round's list equal to what the round before left |
| Exchange.CreateCalls | src/services/bot.ts:164-178 | one createOrder call per request, in order |
| Exchange.CreateCallsTwo | src/services/bot.ts:164-178 | two more requests add their two creates to the log |
| Exchange.Requests | src/services/bot.ts:164-178 | defines the requests of the createOrder calls of a log, in order |
| Exchange.SideLabel | src/services/bot.ts:329 | defines the side label the exchange lists: "BUY" or "SELL" |
| Exchange.Placed | src/services/bot.ts:185-188 | defines the order the exchange lists for an accepted request under id and hash n, with the request's side label, price and amount |
| Exchange.PlacedFrom | src/services/bot.ts:185-188 | one listed order per accepted request, from id n on |
| Exchange.PlacedFromTwo | src/services/bot.ts:185-188 | two more accepted requests add their orders under the next two ids |
| Exchange.Gateway.CreateOrder | src/services/bot.ts:164-178 | the scripted error code; the call is logged; the order is listed only on success |
| Exchange.Gateway.CancelOrder | src/services/bot.ts:389-391 | the cancel is logged; the order leaves the list unless it is stuck |
| Exchange.Gateway.GetOrderInfo | src/services/bot.ts:322-323 | the status by hash; the call is logged |
| Exchange.Gateway.Issued | src/services/bot.ts:164-178 | defines that, since a log and create count, exactly the creates for some requests were sent |
| Exchange.Gateway.Accepted | src/services/bot.ts:185-188 | defines that, since an open list and next id, every request was accepted and listed in order |
| Exchange.Gateway.Steady | src/services/bot.ts:64-67 | defines what the model holds fixed within one operation: balances, ticker price, order statuses and the stuck hashes (a modelling choice, admitted under "## Left out"; here the source re-reads the balances after the cancels) |
| Reconcile.IdsOf | src/services/bot.ts:311 | defines the ids of the open orders |
| Reconcile.Executed | src/services/bot.ts:312-314 | the ledger orders whose id is not open, in ledger order; never more than the ledger |
| Reconcile.SomeHasId | src/services/bot.ts:372 | defines whether some executed order has the id |
| Reconcile.Survivors | src/services/bot.ts:371-373 | defines the ledger filter as written: drop each order that shares an id with an executed one |
| Reconcile.KeepOpen | src/services/bot.ts:371-373 | the ledger orders whose id is open, in ledger order; never more than the ledger |
| Reconcile.ExecutedMembers | src/services/bot.ts:311-314 | an order is executed exactly when it is in the ledger and its id is not open |
| Reconcile.KeepOpenMembers | src/services/bot.ts:371-373 | an order is kept exactly when it is in the ledger and its id is open, so every remaining id is open |
| Reconcile.SurvivorsOfExecuted | src/services/bot.ts:371-373 | removing the executed orders by id leaves exactly the open ledger orders, in ledger order |
| Reconcile.LedgerPartition | src/services/bot.ts:311-373 | each ledger order is either kept or executed, never both and never lost |
| Reconcile.KeepOpenAppend | src/services/bot.ts:371-373 | the filter keeps the ledger order |
| Reconcile.NothingExecuted | src/services/bot.ts:311-316 | nothing is executed exactly when every ledger id is open, and then the ledger is unchanged |
| Reconcile.FreshLedgerQuiet | src/services/bot.ts:185-188 | a ledger equal to the open list has nothing executed |
| Reconcile.SecondPassQuiet | src/services/bot.ts:371-377 | after a pass, the next pass against no fewer open ids finds nothing executed |
| Reconcile.Replenishment | src/services/bot.ts:328-366 | a filled "SELL" becomes a limit buy at price * (1 - spacing / 100) for `receive`; any other side becomes a limit sell at price * (1 + spacing / 100) for `receive * rate / thatPrice` |
| Reconcile.Filled | src/services/bot.ts:323-327 | the executed orders whose status is exactly "filled", and no others |
| Reconcile.Replacements | src/services/bot.ts:320-368 | entry k is the replacement of the k-th filled order |
| Reconcile.CallsFor | src/services/bot.ts:321-367 | defines the calls for one executed order: its status lookup, then its replacement create if it is filled |
| Reconcile.PassCalls | src/services/bot.ts:319-369 | defines the calls of a pass: each executed order's calls, in ledger order |
| Reconcile.PassStep | src/services/bot.ts:319-369 | one more order handled appends its calls, and one create exactly when it is filled |
| Reconcile.FilledStep | src/services/bot.ts:323-327 | one more executed order joins the filled ones exactly when its status is "filled" |
| Reconcile.ReplacementsPush | src/services/bot.ts:328-366 | one more filled order adds its replacement at the end |
| Reconcile.AcceptedReplacementsStep | src/services/bot.ts:319-368 | after one more executed order, the open list and next id are those of the accepted replacements of the filled orders so far |
| Reconcile.CallsForParts | src/services/bot.ts:321-366 | the calls for one order ask for its own hash once, and create its replacement only if it is filled |
| Reconcile.PassCreatesExactlyFilled | src/services/bot.ts:319-369 | a pass creates one replacement per filled executed order, in order, and nothing else |
| Reconcile.PassAsksEveryExecuted | src/services/bot.ts:319-323 | a pass asks for the status of every executed order once, in order, and of no other |
| Reconcile.InfoHashes | src/services/bot.ts:322 | defines the hashes of the getOrderInfo calls of a log, in order |
| Reconcile.HashesOf | src/services/bot.ts:321 | entry k is the hash of order k |
| Bot.PlacementRequests | src/services/bot.ts:163-178 | two requests per level, in grid order |
| Bot.PlacementRequestsAt | src/services/bot.ts:163-178 | requests 2k and 2k + 1 are level k's limit buy and limit sell |
| Bot.PairAccepted | src/services/bot.ts:164-179 | one level's buy and sell list at most two orders |
| Bot.PairAcceptedRun | src/services/bot.ts:164-182 | a level's accepted pair is the run of its buy and sell creates, and the level fails exactly when fewer than two are accepted |
| Bot.PairFails | src/services/bot.ts:180 | defines when a level fails: its buy or its sell create returns a non-zero error |
| Bot.RolledBack | src/services/bot.ts:180-183 | defines a rollback: the creates, then a cancel-all whose first round fetched the issued orders, with chained rounds, ending with the stuck orders of its last round, which is empty unless the fuel ran out |
| Bot.Stopped | src/services/bot.ts:163-183 | defines the gateway at the first failing level: the creates up to it, the earlier levels' orders and the accepted part of its pair listed, with the create count and next id to match |
| Bot.PlacedBeforeFailure | src/services/bot.ts:163-179 | defines the orders of the levels before the first failing one |
| Bot.AcceptedAtFailure | src/services/bot.ts:164-180 | defines the accepted orders of the first failing level |
| Bot.RollbackAfter | src/services/bot.ts:180-183 | defines how a failed placement ends: the create count and next id at the failing level, then `RolledBack` over everything listed at that point |
| Bot.Deployed | src/services/bot.ts:76-84 | defines how a deployment ends: placed exactly when no level fails, then the ledger is the open list and the create count and next id move on by 2 per level; otherwise the ledger is unchanged and `RollbackAfter` holds |
| Bot.FirstFailure | src/services/bot.ts:163-184 | the first failing level is at most the grid length |
| Bot.FirstFailureSpec | src/services/bot.ts:163-184 | every level before the first failure succeeds, and the first failure fails |
| Bot.FirstFailureSettled | src/services/bot.ts:180-183 | no later level changes which level failed first |
| Bot.PlacementFailureCreates | src/services/bot.ts:163-183 | with the first failure at 0-based level f, exactly 2 * (f + 1) creates are issued (those of levels 0..f, in order) and then only cancels |
| Bot.PlacementStep | src/services/bot.ts:164-178 | one more level adds its buy and then its sell |
| Bot.LevelLog | src/services/bot.ts:164-178 | after one level's two creates the log is the creates of the levels so far |
| Bot.LevelOpen | src/services/bot.ts:164-178 | after one level's two accepted creates the open list has the placements of the levels so far |
| Bot.LevelOutcome | src/services/bot.ts:180-183 | a non-zero error makes this level the first failure; two zeros extend the run of successes |
| Bot.LevelStopped | src/services/bot.ts:164-183 | a level sent after a run of accepted levels leaves the log with the creates of the levels up to it and the open list with the earlier levels' orders followed by the accepted part of its pair |
| Bot.StoppedThenRolledBack | src/services/bot.ts:180-183 | the loop stopped at the first failing level, followed by a cancel-all over what was listed, is the rollback that `RollbackAfter` describes |
| Bot.GridTradingBot.constructor | src/services/bot.ts:24-30 | not running, with an empty grid and an empty ledger |
| Bot.GridTradingBot.Stop | src/services/bot.ts:32-35 | the flag is cleared |
| Bot.GridTradingBot.ArithmeticDefined | src/services/bot.ts:115-122 | defines the condition under which the grid arithmetic is defined: a positive ticker price and a non-negative spacing |
| Bot.GridTradingBot.CalculateGrid | src/services/bot.ts:107-132 | the grid becomes the old grid followed by the ladder for the ticker price |
| Bot.GridTradingBot.CancelRound | src/services/bot.ts:383-392 | one cancel per fetched order, by hash, in list order; afterwards exactly the stuck fetched orders are listed |
| Bot.GridTradingBot.CancelAllOrders | src/services/bot.ts:381-404 | the first round fetches the open list; each later round runs only when the previous one left orders; the log is exactly the rounds' cancels; with nothing stuck there is one round and nothing is left |
| Bot.GridTradingBot.CreatePair | src/services/bot.ts:164-179 | a limit buy and then a limit sell for the level, with their error codes; two creates; the open list gains exactly the accepted ones, under the next ids, and the next id moves on by their number |
| Bot.GridTradingBot.PlaceLevel | src/services/bot.ts:163-183 | one iteration of the placement loop moves the log and open list on by one level, or stops at the first failure (`Stopped`): the log holds the creates up to that level, the open list the earlier list, the earlier levels' orders and the accepted part of the failing pair, with the create count and next id to match |
| Bot.GridTradingBot.IssueGridOrders | src/services/bot.ts:163-184 | the loop stops at the first failing level, leaving the gateway as `Stopped` says; on success the log holds every level's creates and every level is listed |
| Bot.GridTradingBot.PlaceGridOrders | src/services/bot.ts:162-189 | success iff no level fails; then the ledger is the open list, the log and open list gain every level's creates and orders, and the create count and next id move on by 2 per level; on failure the ledger is unchanged and `RollbackAfter` holds: the creates up to the failing level, then a cancel-all whose first round fetched the earlier list, the earlier levels' orders and the accepted part of the failing pair, ending with the stuck orders of its last round, which is empty unless the fuel ran out |
| Bot.GridTradingBot.CheckBalance | src/services/bot.ts:192-221 | the gate is evaluated on the balances and ticker price the gateway reports |
| Bot.GridTradingBot.BuyCoinMarketPriceForTHB | src/services/bot.ts:224-246 | one market create exactly when the gate allows it, whose error is returned; then one create more, the order listed under the next id exactly when the error is 0; otherwise nothing changes |
| Bot.GridTradingBot.SellCoinMarketPriceForTHB | src/services/bot.ts:249-272 | the same for the market sell of the coin passed in |
| Bot.GridTradingBot.HandleExecuted | src/services/bot.ts:321-367 | the order's status is asked for; a filled order gets exactly its replacement (one create), listed under the next id when its error is 0; nothing else is created, listed or removed |
| Bot.GridTradingBot.HandleAll | src/services/bot.ts:319-369 | the executed orders are handled in order: the log gains exactly their pass calls, one create per filled order, and the open list gains exactly the accepted replacements, under consecutive next ids |
| Bot.GridTradingBot.ReconcileOnce | src/services/bot.ts:300-378 | the new ledger keeps exactly the open ledger orders; the log gains exactly the pass calls for the executed orders; one create per filled order; the open list is the old one followed by the accepted replacements, and the next id moves on by their number; with nothing executed the state and the ledger are unchanged |
| Bot.GridTradingBot.Deploy | src/services/bot.ts:76-84 | the ladder is appended and placed (`Deployed`): on success the ledger is the open list, the log gains exactly the placement creates, the open list is the orders left by the cancel-all followed by the ladder's, and the create count and next id move on by 2 per level; on failure the ledger is unchanged and the placement ends in the rollback `RollbackAfter` describes |
| Bot.FailedDeployCancelsPlaced | src/services/bot.ts:180-182 | after a failed deployment the ledger is unchanged and the log holds a cancel for every order placed before the failing level and for each accepted order of the failing level |
| Bot.RollbackAfterCancels | src/services/bot.ts:180-182 | in a rolled-back placement the log holds a cancel for every order of the earlier levels and for each accepted order of the failing level |
| Bot.RollbackCancelsPlaced | src/services/bot.ts:180-182 | in a rollback, each order of the list its first round fetched has a cancel in the log |
| Bot.GridTradingBot.Start | src/services/bot.ts:56-103 | if already running, nothing changes; otherwise the cancel-all ran first (its first round fetched the open list at entry, each later round what the one before left, and it stopped only with nothing listed or the fuel spent); a failed balance gate clears the flag, leaves grid and ledger alone, creates nothing and leaves the stuck orders of the last round listed; otherwise the outcome is Watching iff no level fails, the deployment ending as `Deployed` states for Deploy |
| Bot.GridTradingBot.ContinueWatching | src/services/bot.ts:37-54 | if already running, nothing changes; otherwise the ledger is the open list and the pass that follows does nothing |
| Bot.GridTradingBot.EmergencyAction | src/services/bot.ts:407-435 | cancel-all (rounds chained as in cancelAllOrders, stopping only with nothing listed or the fuel spent), then exactly one market buy of thbBalance / price when the THB balance is non-zero, and no other create; the create count and next id move on to match; the open list ends as the stuck orders of the last round plus the accepted market order |

## Left out

- The REST and WebSocket layer (`src/api/bitkub.ts`): requests, JSON parsing, signing and reconnects. The exchange is the abstract `Exchange.Gateway`, and its answers are its fields.
- Time. The 2-second self-rescheduling of `checkOrdersPeriodically` is left out; one pass is modelled (`ReconcileOnce`).
- Concurrency. `Promise.all` in a pass is modelled as a sequential loop in ledger order (`HandleAll`), each order's status lookup followed by its replacement create. The source issues every `getOrderInfo` before the first `createOrder` (src/services/bot.ts:319-322); the model chose the order Info, Create, Info, … in the log, so interleavings of the parallel calls are not covered.
- The un-awaited recursive `cancelAllOrders` is modelled as awaited and bounded by `fuel`. The history of each call is the ghost `rounds`. A recursion that would go on past `fuel + 1` rounds is cut off there.
- Bot.GridTradingBot.Start: only the first round of the cancel-all is awaited in the source (src/services/bot.ts:64, 398-400). Its later rounds run alongside `checkBalance` and `placeGridOrders` (src/services/bot.ts:67-80), so their re-fetch can list, and cancel, ladder orders that were just placed. The model runs every round before the balance gate; that interleaving is not captured.
- Bot.GridTradingBot.EmergencyAction: the source does not await its own `cancelAllOrders` call (src/services/bot.ts:409), so the balance and ticker reads and the market `createOrder` (src/services/bot.ts:415-433) race with the cancels, and a later round's re-fetch could cancel the market order if it is still listed. The model's log, every cancel round followed by the one market create, is one interleaving of several the source allows.
- `executeWithRetry`, `getCoinsFromPair` and `stringToNumber` are not part of this model. The open-list fetch is one read of the gateway, and the gateway does not change between retries. `rate` and `receive` are already reals. The balance gate reads its two coin names from the model's constructor parameters `baseCoin` and `primCoin`, which stand for what the source derives from `tradingPair1` with `getCoinsFromPair` (src/services/bot.ts:194); the model does not tie them to that pair. The market buy and `emergencyAction` use the literal "THB" (src/services/bot.ts:232, 419). The market sell takes its coin as a parameter, standing for the pair's second coin that the source derives with `getCoinsFromPair` (src/services/bot.ts:257); the model does not tie that parameter to `tradingPair`.
- `checkOrdersWhenPriceIsClose`: unused, and its result is discarded.
- Floating point. Prices and amounts are exact reals, and `removeTrailingZeros` is modelled on the decimal string between `toString` and `parseFloat`, leaving out both conversions. JavaScript's `Infinity` and `NaN` are left out.
- Non-positive ticker prices and negative spacings: the bot's `ArithmeticDefined()` requires price > 0 and spacing >= 0, so every division is defined. It is a precondition of the operations that price a rung: `CalculateGrid`, `HandleExecuted`, `HandleAll`, `ReconcileOnce`, `Deploy`, `Start`, `ContinueWatching` and `EmergencyAction`. The other operations need no such condition. It is not an invariant the operations re-establish.
- Errors the gateway could throw, and the null responses of the market gates as network answers. A gate's `None` is only the "balance too low" branch.
- Helpers.TrimmedEnding: requires the string to hold at most one '.' (true of every `toString` number). "1..0" trims to "1.".
- Helpers.TrimmedIdempotent: requires the doubled-dot exclusion, for the same reason.
- Exponent notation: `toString` writes very small and very large numbers with an exponent, and the scan strips the exponent's trailing zeros as if they were fractional ones (`Helpers.TrimmedExponent`: 1.5e-10 becomes 0.15). No lemma promises more for such strings.
- Exchange.Gateway.CreateOrder: the exchange is assumed to list an accepted order at the end of the open list, under the next id, with side label "BUY" or "SELL". The listed order has hash equal to its id, rate equal to the requested price and receive 0.0, and a market order is listed as a resting order like a limit one. Because receive is 0.0, a filled ladder order is replaced by an order of amount 0.
- Exchange.Gateway.Steady: balances, ticker price, order statuses and the stuck hashes never change within one operation. Cancels release no funds and creates reserve none. So the balance gate of `start` sees the balances at entry, whereas the source reads them after `cancelAllOrders` (src/services/bot.ts:64-67). A pass of `checkOrdersPeriodically` prices every replacement with the one ticker price, whereas the source fetches the ticker once per filled order (src/services/bot.ts:137, 331, 351).
- Bot.GridTradingBot.HandleExecuted: the error code of the replacement create is discarded, as in the source (it is only logged).
- Console logging.
