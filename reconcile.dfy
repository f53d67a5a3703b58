/**
 * One reconciliation pass of `checkOrdersPeriodically` (src/services/bot.ts),
 * as the filters and the per-order decisions it is made of: which ledger
 * orders are executed (no longer listed as open), what replacement a filled
 * one gets, which gateway calls the pass makes, and what ledger remains.
 */
module Reconcile {
  import opened Exchange
  import opened Grid

  /** The ids of a list of orders (`openOrders.map(order => order.id)`). */
  function IdsOf(os: seq<Order>): set<Id>
  {
    set o | o in os :: o.id
  }

  /** The ledger orders whose id is not among the open ids, in ledger order. */
  function Executed(ledger: seq<Order>, openIds: set<Id>): (r: seq<Order>)
    ensures |r| <= |ledger|
  {
    if ledger == [] then []
    else if ledger[|ledger| - 1].id !in openIds then Executed(ledger[..|ledger| - 1], openIds) + [ledger[|ledger| - 1]]
    else Executed(ledger[..|ledger| - 1], openIds)
  }

  /** `executedOrders.some(e => e.id === id)`. */
  predicate SomeHasId(es: seq<Order>, id: Id)
  {
    exists e :: e in es && e.id == id
  }

  /** The ledger filter as written: drop every order that shares an id with an executed one. */
  function Survivors(ledger: seq<Order>, executed: seq<Order>): (r: seq<Order>)
  {
    if ledger == [] then []
    else if SomeHasId(executed, ledger[|ledger| - 1].id) then Survivors(ledger[..|ledger| - 1], executed)
    else Survivors(ledger[..|ledger| - 1], executed) + [ledger[|ledger| - 1]]
  }

  /** The ledger orders whose id is open, in ledger order. */
  function KeepOpen(ledger: seq<Order>, openIds: set<Id>): (r: seq<Order>)
    ensures |r| <= |ledger|
  {
    if ledger == [] then []
    else if ledger[|ledger| - 1].id in openIds then KeepOpen(ledger[..|ledger| - 1], openIds) + [ledger[|ledger| - 1]]
    else KeepOpen(ledger[..|ledger| - 1], openIds)
  }

  /** An order is executed exactly when it is in the ledger and its id is not open. */
  lemma {:induction false} ExecutedMembers(ledger: seq<Order>, openIds: set<Id>)
    ensures forall o :: o in Executed(ledger, openIds) <==> o in ledger && o.id !in openIds
  {
    if ledger != [] {
      var init := ledger[..|ledger| - 1];
      ExecutedMembers(init, openIds);
      assert ledger == init + [ledger[|ledger| - 1]];
    }
  }

  /** An order is kept exactly when it is in the ledger and its id is open. */
  lemma {:induction false} KeepOpenMembers(ledger: seq<Order>, openIds: set<Id>)
    ensures forall o :: o in KeepOpen(ledger, openIds) <==> o in ledger && o.id in openIds
  {
    if ledger != [] {
      var init := ledger[..|ledger| - 1];
      KeepOpenMembers(init, openIds);
      assert ledger == init + [ledger[|ledger| - 1]];
    }
  }

  /** Dropping by executed id keeps what the open-id filter keeps, when the two agree on every ledger order. */
  lemma {:induction false} SurvivorsKeepOpen(ledger: seq<Order>, executed: seq<Order>, openIds: set<Id>)
    requires forall o :: o in ledger ==> (SomeHasId(executed, o.id) <==> o.id !in openIds)
    ensures Survivors(ledger, executed) == KeepOpen(ledger, openIds)
  {
    if ledger != [] {
      assert ledger[|ledger| - 1] in ledger;
      var init := ledger[..|ledger| - 1];
      assert forall o :: o in init ==> o in ledger;
      SurvivorsKeepOpen(init, executed, openIds);
    }
  }

  /**
   * Removing the executed orders by id leaves exactly the ledger orders whose
   * id is open, in their ledger order.
   */
  lemma SurvivorsOfExecuted(ledger: seq<Order>, openIds: set<Id>)
    ensures Survivors(ledger, Executed(ledger, openIds)) == KeepOpen(ledger, openIds)
  {
    var executed := Executed(ledger, openIds);
    ExecutedMembers(ledger, openIds);
    forall o | o in ledger
      ensures SomeHasId(executed, o.id) <==> o.id !in openIds
    {
      if o.id !in openIds {
        assert o in executed;
      }
    }
    SurvivorsKeepOpen(ledger, executed, openIds);
  }

  /** Every ledger order either stays or is executed, and none is both or lost. */
  lemma {:induction false} LedgerPartition(ledger: seq<Order>, openIds: set<Id>)
    ensures multiset(KeepOpen(ledger, openIds)) + multiset(Executed(ledger, openIds)) == multiset(ledger)
  {
    if ledger != [] {
      var init := ledger[..|ledger| - 1];
      LedgerPartition(init, openIds);
      assert ledger == init + [ledger[|ledger| - 1]];
    }
  }

  /** The kept ledger is split like the ledger: the filter keeps the ledger order. */
  lemma {:induction false} KeepOpenAppend(a: seq<Order>, b: seq<Order>, openIds: set<Id>)
    ensures KeepOpen(a + b, openIds) == KeepOpen(a, openIds) + KeepOpen(b, openIds)
  {
    if b != [] {
      assert (a + b)[..|a + b| - 1] == a + b[..|b| - 1];
      KeepOpenAppend(a, b[..|b| - 1], openIds);
    } else {
      assert a + b == a;
    }
  }

  /** Nothing is executed exactly when every ledger id is open, and then the ledger stays as it is. */
  lemma {:induction false} NothingExecuted(ledger: seq<Order>, openIds: set<Id>)
    ensures Executed(ledger, openIds) == [] <==> forall o :: o in ledger ==> o.id in openIds
    ensures Executed(ledger, openIds) == [] ==> KeepOpen(ledger, openIds) == ledger
  {
    if ledger != [] {
      var init := ledger[..|ledger| - 1];
      NothingExecuted(init, openIds);
      assert ledger == init + [ledger[|ledger| - 1]];
      if Executed(ledger, openIds) == [] {
        assert forall o :: o in init ==> o in ledger;
      }
    }
  }

  /** A ledger that is the open list itself has nothing executed. */
  lemma FreshLedgerQuiet(open: seq<Order>)
    ensures Executed(open, IdsOf(open)) == []
    ensures KeepOpen(open, IdsOf(open)) == open
  {
    NothingExecuted(open, IdsOf(open));
  }

  /** After a pass, a second pass against no fewer open ids finds nothing executed. */
  lemma SecondPassQuiet(ledger: seq<Order>, openIds: set<Id>, laterIds: set<Id>)
    requires openIds <= laterIds
    ensures Executed(KeepOpen(ledger, openIds), laterIds) == []
  {
    NothingExecuted(KeepOpen(ledger, openIds), laterIds);
  }

  /**
   * The replacement order for a filled executed order `e` (src/services/bot.ts:328-366):
   * a filled "SELL" becomes a buy one spacing below the price for `receive`
   * coins; any other side becomes a sell one spacing above the price, worth
   * `receive * rate`.
   */
  function Replenishment(symbol: string, spacing: real, price: real, e: Order): (req: OrderRequest)
    requires price > 0.0 && spacing >= 0.0
    ensures req.symbol == symbol && req.kind == Limit
    ensures e.side == "SELL" ==> req.side == BuySide && req.price == price * (1.0 - spacing / 100.0) && req.amount == e.receive
    ensures e.side != "SELL" ==> req.side == SellSide && req.price == price * (1.0 + spacing / 100.0)
    ensures e.side != "SELL" ==> req.price >= price && req.amount == e.receive * e.rate / req.price
  {
    if e.side == "SELL" then
      QuoteRequest(symbol, SingleGrid(Buy, e.receive, spacing, price))
    else
      var q := SingleGrid(Sell, e.receive * e.rate, spacing, price);
      SingleGridSellWorth(e.receive * e.rate, spacing, price);
      QuoteRequest(symbol, q)
  }

  /** The executed orders the exchange reports as exactly "filled", in order. */
  function Filled(statuses: map<Hash, string>, es: seq<Order>): (r: seq<Order>)
    ensures |r| <= |es|
    ensures forall o :: o in r <==> o in es && StatusOf(statuses, o.hash) == "filled"
  {
    if es == [] then []
    else if StatusOf(statuses, es[|es| - 1].hash) == "filled" then Filled(statuses, es[..|es| - 1]) + [es[|es| - 1]]
    else Filled(statuses, es[..|es| - 1])
  }

  /** The replacement of each order of `fs`, in order. */
  function Replacements(symbol: string, spacing: real, price: real, fs: seq<Order>): (r: seq<OrderRequest>)
    requires price > 0.0 && spacing >= 0.0
    ensures |r| == |fs|
    ensures forall k :: 0 <= k < |fs| ==> r[k] == Replenishment(symbol, spacing, price, fs[k])
  {
    if fs == [] then []
    else Replacements(symbol, spacing, price, fs[..|fs| - 1]) + [Replenishment(symbol, spacing, price, fs[|fs| - 1])]
  }

  /** The calls the pass makes for one executed order: its status, then a replacement if filled. */
  function CallsFor(symbol: string, spacing: real, price: real, statuses: map<Hash, string>, e: Order): seq<Call>
    requires price > 0.0 && spacing >= 0.0
  {
    [Info(e.hash)] + if StatusOf(statuses, e.hash) == "filled" then [Create(Replenishment(symbol, spacing, price, e))] else []
  }

  /** The calls of a pass over the executed orders `es`, taken one after another. */
  function PassCalls(symbol: string, spacing: real, price: real, statuses: map<Hash, string>, es: seq<Order>): seq<Call>
    requires price > 0.0 && spacing >= 0.0
  {
    if es == [] then []
    else PassCalls(symbol, spacing, price, statuses, es[..|es| - 1]) + CallsFor(symbol, spacing, price, statuses, es[|es| - 1])
  }

  /** One more executed order handled: its calls follow the pass so far, and it adds a create when filled. */
  lemma PassStep(symbol: string, spacing: real, price: real, statuses: map<Hash, string>, es: seq<Order>, i: nat)
    requires price > 0.0 && spacing >= 0.0 && i < |es|
    ensures PassCalls(symbol, spacing, price, statuses, es[..i + 1])
      == PassCalls(symbol, spacing, price, statuses, es[..i]) + CallsFor(symbol, spacing, price, statuses, es[i])
    ensures |Filled(statuses, es[..i + 1])|
      == |Filled(statuses, es[..i])| + if StatusOf(statuses, es[i].hash) == "filled" then 1 else 0
  {
    assert es[..i + 1][..i] == es[..i];
  }

  /**
   * The open list during a pass: after the orders `es[..i]` were handled it
   * is the list at the start followed by the accepted replacements of the
   * filled ones; handling `es[i]` adds its replacement when it is filled and
   * its create, the next one in the script, returns 0.
   */
  lemma AcceptedReplacementsStep(symbol: string, spacing: real, price: real, statuses: map<Hash, string>, es: seq<Order>, i: nat,
                                 errors: seq<int>, from: nat, id: nat, open0: seq<Order>,
                                 before: seq<Order>, nextBefore: nat, createsBefore: nat, after: seq<Order>, nextAfter: nat)
    requires price > 0.0 && spacing >= 0.0 && i < |es|
    requires before == open0 + AcceptedFrom(errors, from, id, Replacements(symbol, spacing, price, Filled(statuses, es[..i])))
    requires nextBefore == id + |AcceptedFrom(errors, from, id, Replacements(symbol, spacing, price, Filled(statuses, es[..i])))|
    requires createsBefore == from + |Filled(statuses, es[..i])|
    requires var accepted :=
        if StatusOf(statuses, es[i].hash) == "filled" && ErrorAt(errors, createsBefore) == 0
        then [Placed(nextBefore, Replenishment(symbol, spacing, price, es[i]))] else [];
      after == before + accepted && nextAfter == nextBefore + |accepted|
    ensures after == open0 + AcceptedFrom(errors, from, id, Replacements(symbol, spacing, price, Filled(statuses, es[..i + 1])))
    ensures nextAfter == id + |AcceptedFrom(errors, from, id, Replacements(symbol, spacing, price, Filled(statuses, es[..i + 1])))|
  {
    FilledStep(statuses, es, i);
    if StatusOf(statuses, es[i].hash) == "filled" {
      var fs := Filled(statuses, es[..i]);
      ReplacementsPush(symbol, spacing, price, fs, es[i]);
      AcceptedPush(errors, from, id, open0, Replacements(symbol, spacing, price, fs), Replenishment(symbol, spacing, price, es[i]),
                   before, nextBefore, createsBefore, after, nextAfter);
    } else {
      assert Filled(statuses, es[..i + 1]) == Filled(statuses, es[..i]);
      assert after == before;
    }
  }

  /** Handling one more order adds it to the filled ones exactly when its status is "filled". */
  lemma FilledStep(statuses: map<Hash, string>, es: seq<Order>, i: nat)
    requires i < |es|
    ensures Filled(statuses, es[..i + 1])
      == Filled(statuses, es[..i]) + if StatusOf(statuses, es[i].hash) == "filled" then [es[i]] else []
  {
    assert es[..i + 1][..i] == es[..i];
  }

  /** One more filled order adds its replacement at the end. */
  lemma ReplacementsPush(symbol: string, spacing: real, price: real, fs: seq<Order>, e: Order)
    requires price > 0.0 && spacing >= 0.0
    ensures Replacements(symbol, spacing, price, fs + [e])
      == Replacements(symbol, spacing, price, fs) + [Replenishment(symbol, spacing, price, e)]
  {
    assert (fs + [e])[..|fs|] == fs;
  }

  /** The calls for one executed order read back: its replacement if filled, and its own hash asked once. */
  lemma CallsForParts(symbol: string, spacing: real, price: real, statuses: map<Hash, string>, e: Order)
    requires price > 0.0 && spacing >= 0.0
    ensures Requests(CallsFor(symbol, spacing, price, statuses, e))
      == if StatusOf(statuses, e.hash) == "filled" then [Replenishment(symbol, spacing, price, e)] else []
    ensures InfoHashes(CallsFor(symbol, spacing, price, statuses, e)) == [e.hash]
  {
    var c := CallsFor(symbol, spacing, price, statuses, e);
    var info: seq<Call> := [Info(e.hash)];
    assert info[..0] == [];
    assert Requests(info) == [] && InfoHashes(info) == [e.hash];
    if StatusOf(statuses, e.hash) == "filled" {
      assert c[..1] == info;
    } else {
      assert c == info;
    }
  }

  /**
   * A pass creates one replacement per executed order whose status is exactly
   * "filled", in order, and no other order.
   */
  lemma {:induction false} PassCreatesExactlyFilled(symbol: string, spacing: real, price: real, statuses: map<Hash, string>, es: seq<Order>)
    requires price > 0.0 && spacing >= 0.0
    ensures Requests(PassCalls(symbol, spacing, price, statuses, es)) == Replacements(symbol, spacing, price, Filled(statuses, es))
  {
    if es != [] {
      var init := es[..|es| - 1];
      var e := es[|es| - 1];
      PassCreatesExactlyFilled(symbol, spacing, price, statuses, init);
      RequestsAppend(PassCalls(symbol, spacing, price, statuses, init), CallsFor(symbol, spacing, price, statuses, e));
      CallsForParts(symbol, spacing, price, statuses, e);
      var f := Filled(statuses, es);
      if StatusOf(statuses, e.hash) == "filled" {
      }
    }
  }

  /** The order-info calls of a log, by hash, in order. */
  function InfoHashes(calls: seq<Call>): seq<Hash>
  {
    if calls == [] then []
    else if calls[|calls| - 1].Info? then InfoHashes(calls[..|calls| - 1]) + [calls[|calls| - 1].hash]
    else InfoHashes(calls[..|calls| - 1])
  }

  /** The order-info hashes of two logs one after the other. */
  lemma {:induction false} InfoHashesAppend(a: seq<Call>, b: seq<Call>)
    ensures InfoHashes(a + b) == InfoHashes(a) + InfoHashes(b)
  {
    if b != [] {
      assert (a + b)[..|a + b| - 1] == a + b[..|b| - 1];
      InfoHashesAppend(a, b[..|b| - 1]);
    } else {
      assert a + b == a;
    }
  }

  /** The hashes of a list of orders, in order. */
  function HashesOf(os: seq<Order>): (r: seq<Hash>)
    ensures |r| == |os|
    ensures forall k :: 0 <= k < |os| ==> r[k] == os[k].hash
  {
    if os == [] then [] else HashesOf(os[..|os| - 1]) + [os[|os| - 1].hash]
  }

  /** A pass asks for the status of every executed order once, in order, and of no other. */
  lemma {:induction false} PassAsksEveryExecuted(symbol: string, spacing: real, price: real, statuses: map<Hash, string>, es: seq<Order>)
    requires price > 0.0 && spacing >= 0.0
    ensures InfoHashes(PassCalls(symbol, spacing, price, statuses, es)) == HashesOf(es)
  {
    if es != [] {
      var init := es[..|es| - 1];
      var e := es[|es| - 1];
      PassAsksEveryExecuted(symbol, spacing, price, statuses, init);
      InfoHashesAppend(PassCalls(symbol, spacing, price, statuses, init), CallsFor(symbol, spacing, price, statuses, e));
      CallsForParts(symbol, spacing, price, statuses, e);
    }
  }
}
