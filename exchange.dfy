/**
 * The exchange as the grid engine sees it: an abstract gateway holding the
 * pair's open orders, the account balances, the ticker price, the status the
 * exchange reports for each order hash, and a log of the create, cancel and
 * order-info calls the engine makes on it.
 *
 * Two fields decide how the exchange answers: `createErrors` is the error code
 * of each successive createOrder call (0, success, once it runs out), indexed
 * by `creates`, the number of createOrder calls made so far, and
 * `stuck` holds the hashes of orders the exchange keeps listing as open
 * however often they are cancelled.
 */
module Exchange {

  type Id = nat
  type Hash = nat

  /** The `side` of an order request: 'buy' or 'sell'. */
  datatype CreateSide = BuySide | SellSide

  /** The `type` of an order request: 'limit' or 'market'. */
  datatype OrderType = Limit | Market

  datatype OrderRequest = OrderRequest(symbol: string, side: CreateSide, kind: OrderType, amount: real, price: real)

  /** An order as the exchange lists it; `side` is the exchange's own text ("BUY", "SELL"). */
  datatype Order = Order(id: Id, hash: Hash, side: string, rate: real, amount: real, receive: real)

  datatype Call =
    | Create(request: OrderRequest)
    | Cancel(hash: Hash)
    | Info(hash: Hash)

  /** The error code the k-th next createOrder call returns. */
  function ErrorAt(script: seq<int>, k: nat): int
  {
    if k < |script| then script[k] else 0
  }

  /** The status getOrderInfo reports for a hash; an unknown hash has none. */
  function StatusOf(statuses: map<Hash, string>, h: Hash): string
  {
    if h in statuses then statuses[h] else ""
  }

  /** The orders of `os` whose hash is not in `gone`, in their order. */
  function Remove(os: seq<Order>, gone: set<Hash>): (r: seq<Order>)
    ensures |r| <= |os|
  {
    if os == [] then []
    else if os[|os| - 1].hash in gone then Remove(os[..|os| - 1], gone)
    else Remove(os[..|os| - 1], gone) + [os[|os| - 1]]
  }

  /** The orders of `os` whose hash is in `stuck`, in their order. */
  function StuckOnly(os: seq<Order>, stuck: set<Hash>): (r: seq<Order>)
    ensures |r| <= |os|
  {
    if os == [] then []
    else if os[|os| - 1].hash in stuck then StuckOnly(os[..|os| - 1], stuck) + [os[|os| - 1]]
    else StuckOnly(os[..|os| - 1], stuck)
  }

  /** An order survives `Remove` exactly when it was listed and its hash is not gone. */
  lemma {:induction false} RemoveMembers(os: seq<Order>, gone: set<Hash>)
    ensures forall o :: o in Remove(os, gone) <==> o in os && o.hash !in gone
  {
    if os != [] {
      var init := os[..|os| - 1];
      RemoveMembers(init, gone);
      assert os == init + [os[|os| - 1]];
    }
  }

  /** An order is kept by `StuckOnly` exactly when it was listed and its hash is stuck. */
  lemma {:induction false} StuckOnlyMembers(os: seq<Order>, stuck: set<Hash>)
    ensures forall o :: o in StuckOnly(os, stuck) <==> o in os && o.hash in stuck
  {
    if os != [] {
      var init := os[..|os| - 1];
      StuckOnlyMembers(init, stuck);
      assert os == init + [os[|os| - 1]];
    }
  }

  /** Removing two sets of hashes one after the other is removing their union. */
  lemma {:induction false} RemoveRemove(os: seq<Order>, a: set<Hash>, b: set<Hash>)
    ensures Remove(Remove(os, a), b) == Remove(os, a + b)
  {
    if os != [] {
      var init := os[..|os| - 1];
      RemoveRemove(init, a, b);
      if os[|os| - 1].hash !in a {
        assert Remove(os, a) == Remove(init, a) + [os[|os| - 1]];
      }
    }
  }

  /** Removing exactly the hashes that are not stuck leaves the stuck orders. */
  lemma {:induction false} RemoveUnstuck(os: seq<Order>, gone: set<Hash>, stuck: set<Hash>)
    requires forall o :: o in os ==> (o.hash in gone <==> o.hash !in stuck)
    ensures Remove(os, gone) == StuckOnly(os, stuck)
  {
    if os != [] {
      assert os[|os| - 1] in os;
      var init := os[..|os| - 1];
      assert forall o :: o in init ==> o in os;
      RemoveUnstuck(init, gone, stuck);
    }
  }

  /** With no stuck hash, nothing survives a cancel round. */
  lemma {:induction false} StuckOnlyNothing(os: seq<Order>)
    ensures StuckOnly(os, {}) == []
  {
    if os != [] {
      StuckOnlyNothing(os[..|os| - 1]);
    }
  }

  /** A second cancel round over what a round left removes nothing more. */
  lemma {:induction false} StuckOnlyIdempotent(os: seq<Order>, stuck: set<Hash>)
    ensures StuckOnly(StuckOnly(os, stuck), stuck) == StuckOnly(os, stuck)
  {
    if os != [] {
      var init := os[..|os| - 1];
      StuckOnlyIdempotent(init, stuck);
      if os[|os| - 1].hash in stuck {
        var r := StuckOnly(init, stuck) + [os[|os| - 1]];
      }
    }
  }

  /** The cancelOrder calls of one pass over `os`, by hash, in list order. */
  function CancelCalls(os: seq<Order>): (r: seq<Call>)
    ensures |r| == |os|
  {
    if os == [] then [] else CancelCalls(os[..|os| - 1]) + [Cancel(os[|os| - 1].hash)]
  }

  /** Call k of a cancel pass cancels the k-th listed order. */
  lemma {:induction false} CancelCallsAt(os: seq<Order>)
    ensures forall k :: 0 <= k < |os| ==> CancelCalls(os)[k] == Cancel(os[k].hash)
  {
    if os != [] {
      CancelCallsAt(os[..|os| - 1]);
    }
  }

  /** The cancel calls of successive passes, each over the list fetched before it. */
  function CancelLog(rounds: seq<seq<Order>>): seq<Call>
  {
    if rounds == [] then [] else CancelCalls(rounds[0]) + CancelLog(rounds[1..])
  }

  /*
   * The next three lemmas state facts Dafny's sequence axioms already give.
   * The methods call them at the one point where they are needed, so that
   * the solver does not have to find the right instance of the axiom among
   * the many sequence terms of a method's frame.
   */

  /** Regrouping a list that grew in two steps. */
  lemma Regroup<T>(a: seq<T>, b: seq<T>, c: seq<T>)
    ensures (a + b) + c == a + (b + c)
  {
  }

  /** The first part of a concatenation is a prefix of it. */
  lemma PrefixOfAppend<T>(a: seq<T>, b: seq<T>)
    ensures a <= a + b
  {
    assert (a + b)[..|a|] == a;
  }

  /** A concatenation split back at the length of its first part. */
  lemma SplitAt<T>(a: seq<T>, b: seq<T>)
    ensures (a + b)[..|a|] == a && (a + b)[|a|..] == b
  {
  }

  /** Each round after the first fetched what the round before left: its stuck orders, and not none. */
  predicate Chained(rounds: seq<seq<Order>>, stuck: set<Hash>)
  {
    |rounds| <= 1 || (rounds[1] == StuckOnly(rounds[0], stuck) && rounds[1] != [] && Chained(rounds[1..], stuck))
  }

  /** Putting a first round in front of a chain of later rounds. */
  lemma RoundsCons(first: seq<Order>, rest: seq<seq<Order>>, stuck: set<Hash>)
    requires rest != [] && rest[0] == StuckOnly(first, stuck) && rest[0] != []
    requires Chained(rest, stuck)
    ensures var rounds := [first] + rest;
      && Chained(rounds, stuck)
      && rounds[|rounds| - 1] == rest[|rest| - 1]
      && CancelLog(rounds) == CancelCalls(first) + CancelLog(rest)
  {
    var rounds := [first] + rest;
    assert rounds[1..] == rest;
  }

  /** Every call of a cancel log is a cancelOrder. */
  lemma {:induction false} CancelLogOnlyCancels(rounds: seq<seq<Order>>)
    ensures forall k :: 0 <= k < |CancelLog(rounds)| ==> CancelLog(rounds)[k].Cancel?
  {
    if rounds != [] {
      CancelCallsAt(rounds[0]);
      CancelLogOnlyCancels(rounds[1..]);
    }
  }

  /** Removing no hash keeps the list as it is. */
  lemma {:induction false} RemoveNothing(os: seq<Order>)
    ensures Remove(os, {}) == os
  {
    if os != [] {
      RemoveNothing(os[..|os| - 1]);
    }
  }

  /** The createOrder calls for `reqs`, in order. */
  function CreateCalls(reqs: seq<OrderRequest>): (r: seq<Call>)
    ensures |r| == |reqs|
  {
    if reqs == [] then [] else CreateCalls(reqs[..|reqs| - 1]) + [Create(reqs[|reqs| - 1])]
  }

  /** Call k of a run of creates places the k-th request. */
  lemma {:induction false} CreateCallsAt(reqs: seq<OrderRequest>)
    ensures forall k :: 0 <= k < |reqs| ==> CreateCalls(reqs)[k] == Create(reqs[k])
  {
    if reqs != [] {
      CreateCallsAt(reqs[..|reqs| - 1]);
    }
  }

  /** Two more requests add their two create calls. */
  lemma CreateCallsTwo(reqs: seq<OrderRequest>, b: OrderRequest, s: OrderRequest)
    ensures CreateCalls(reqs + [b, s]) == CreateCalls(reqs) + [Create(b), Create(s)]
  {
    var more := reqs + [b, s];
    assert more[..|more| - 1] == reqs + [b];
    assert (reqs + [b])[..|reqs|] == reqs;
  }

  /** The requests of the createOrder calls in a log, in order. */
  function Requests(calls: seq<Call>): seq<OrderRequest>
  {
    if calls == [] then []
    else if calls[|calls| - 1].Create? then Requests(calls[..|calls| - 1]) + [calls[|calls| - 1].request]
    else Requests(calls[..|calls| - 1])
  }

  /** The requests of two logs one after the other. */
  lemma {:induction false} RequestsAppend(a: seq<Call>, b: seq<Call>)
    ensures Requests(a + b) == Requests(a) + Requests(b)
  {
    if b != [] {
      assert (a + b)[..|a + b| - 1] == a + b[..|b| - 1];
      RequestsAppend(a, b[..|b| - 1]);
    } else {
      assert a + b == a;
    }
  }

  /** Reading the requests back out of a run of createOrder calls gives the requests. */
  lemma {:induction false} RequestsOfCreates(reqs: seq<OrderRequest>)
    ensures Requests(CreateCalls(reqs)) == reqs
  {
    if reqs != [] {
      var c := CreateCalls(reqs);
      assert c[..|c| - 1] == CreateCalls(reqs[..|reqs| - 1]);
      RequestsOfCreates(reqs[..|reqs| - 1]);
    }
  }

  /** A cancel log holds no createOrder call. */
  lemma {:induction false} RequestsOfCancelLog(rounds: seq<seq<Order>>)
    ensures Requests(CancelLog(rounds)) == []
  {
    if rounds != [] {
      RequestsOfCancels(rounds[0]);
      RequestsOfCancelLog(rounds[1..]);
      RequestsAppend(CancelCalls(rounds[0]), CancelLog(rounds[1..]));
    }
  }

  /** A cancel pass holds no createOrder call. */
  lemma {:induction false} RequestsOfCancels(os: seq<Order>)
    ensures Requests(CancelCalls(os)) == []
  {
    if os != [] {
      var c := CancelCalls(os);
      assert c[..|c| - 1] == CancelCalls(os[..|os| - 1]);
      RequestsOfCancels(os[..|os| - 1]);
    }
  }

  /** The hashes a cancel round over `os` actually removes: those that are not stuck. */
  function CancelledHashes(os: seq<Order>, stuck: set<Hash>): set<Hash>
  {
    if os == [] then {}
    else CancelledHashes(os[..|os| - 1], stuck) + if os[|os| - 1].hash in stuck then {} else {os[|os| - 1].hash}
  }

  /** A hash is cancelled in a round exactly when it is listed and not stuck. */
  lemma {:induction false} CancelledHashesSpec(os: seq<Order>, stuck: set<Hash>)
    ensures forall h :: h in CancelledHashes(os, stuck) ==> h !in stuck
    ensures forall o :: o in os ==> (o.hash in CancelledHashes(os, stuck) <==> o.hash !in stuck)
  {
    if os != [] {
      var init := os[..|os| - 1];
      CancelledHashesSpec(init, stuck);
      assert os == init + [os[|os| - 1]];
    }
  }

  /** After cancelling every order of `os` once, only its stuck orders remain. */
  lemma RemoveCancelled(os: seq<Order>, stuck: set<Hash>)
    ensures Remove(os, CancelledHashes(os, stuck)) == StuckOnly(os, stuck)
  {
    CancelledHashesSpec(os, stuck);
    RemoveUnstuck(os, CancelledHashes(os, stuck), stuck);
  }

  /** One more cancel call of a round: the open list and the log it leaves. */
  lemma CancelStep(listed: seq<Order>, i: nat, stuck: set<Hash>, log0: seq<Call>,
                   open1: seq<Order>, log1: seq<Call>, open2: seq<Order>, log2: seq<Call>)
    requires i < |listed|
    requires open1 == Remove(listed, CancelledHashes(listed[..i], stuck)) && log1 == log0 + CancelCalls(listed[..i])
    requires open2 == (if listed[i].hash in stuck then open1 else Remove(open1, {listed[i].hash}))
    requires log2 == log1 + [Cancel(listed[i].hash)]
    ensures open2 == Remove(listed, CancelledHashes(listed[..i + 1], stuck))
    ensures log2 == log0 + CancelCalls(listed[..i + 1])
  {
    var done := listed[..i];
    var hash := listed[i].hash;
    assert listed[..i + 1][..i] == done;
    assert listed[..i + 1][i] == listed[i];
    var before := CancelledHashes(done, stuck);
    var after := CancelledHashes(listed[..i + 1], stuck);
    if hash !in stuck {
      assert after == before + {hash};
      RemoveRemove(listed, before, {hash});
    } else {
      assert after == before;
    }
    Regroup(log0, CancelCalls(done), [Cancel(hash)]);
  }

  /** How the exchange labels the side of an order it lists. */
  function SideLabel(side: CreateSide): string
  {
    if side == BuySide then "BUY" else "SELL"
  }

  /** The order the exchange lists after accepting `req` under id and hash `n`. */
  function Placed(n: nat, req: OrderRequest): Order
  {
    Order(n, n, SideLabel(req.side), req.price, req.amount, 0.0)
  }

  /** The orders the exchange lists after accepting every request of `reqs`, from id `n` on. */
  function PlacedFrom(n: nat, reqs: seq<OrderRequest>): (r: seq<Order>)
    ensures |r| == |reqs|
  {
    if reqs == [] then [] else PlacedFrom(n, reqs[..|reqs| - 1]) + [Placed(n + |reqs| - 1, reqs[|reqs| - 1])]
  }

  /** The k-th accepted request is listed under id and hash n + k. */
  lemma {:induction false} PlacedFromAt(n: nat, reqs: seq<OrderRequest>)
    ensures forall k :: 0 <= k < |reqs| ==> PlacedFrom(n, reqs)[k] == Placed(n + k, reqs[k])
  {
    if reqs != [] {
      PlacedFromAt(n, reqs[..|reqs| - 1]);
    }
  }

  /** Two more accepted requests add their two orders under the next two ids. */
  lemma PlacedFromTwo(n: nat, reqs: seq<OrderRequest>, next: nat, b: OrderRequest, s: OrderRequest)
    requires next == n + |reqs|
    ensures PlacedFrom(n, reqs + [b, s]) == PlacedFrom(n, reqs) + [Placed(next, b), Placed(next + 1, s)]
  {
    var more := reqs + [b, s];
    assert more[..|more| - 1] == reqs + [b];
    assert (reqs + [b])[..|reqs|] == reqs;
  }

  /**
   * The orders the exchange lists for the requests `reqs` sent one after
   * another, the first as create number `from`: a request is listed, under
   * the next id from `id` on, exactly when its scripted error is 0.
   */
  function AcceptedFrom(errors: seq<int>, from: nat, id: nat, reqs: seq<OrderRequest>): (r: seq<Order>)
    ensures |r| <= |reqs|
  {
    if reqs == [] then []
    else
      var init := AcceptedFrom(errors, from, id, reqs[..|reqs| - 1]);
      init + if ErrorAt(errors, from + |reqs| - 1) == 0 then [Placed(id + |init|, reqs[|reqs| - 1])] else []
  }

  /** One more request sent: it is listed after the earlier accepted ones exactly when its error is 0. */
  lemma AcceptedFromStep(errors: seq<int>, from: nat, id: nat, reqs: seq<OrderRequest>, req: OrderRequest)
    ensures AcceptedFrom(errors, from, id, reqs + [req])
      == AcceptedFrom(errors, from, id, reqs)
         + if ErrorAt(errors, from + |reqs|) == 0 then [Placed(id + |AcceptedFrom(errors, from, id, reqs)|, req)] else []
  {
    var all := reqs + [req];
    assert all[..|all| - 1] == reqs && all[|all| - 1] == req && from + |all| - 1 == from + |reqs|;
    var init := AcceptedFrom(errors, from, id, reqs);
    assert AcceptedFrom(errors, from, id, all)
      == init + if ErrorAt(errors, from + |reqs|) == 0 then [Placed(id + |init|, req)] else [];
  }

  /** The gateway state after one more create of the run, regrouped as the run one request longer. */
  lemma AcceptedPush(errors: seq<int>, from: nat, id: nat, open0: seq<Order>, reqs: seq<OrderRequest>, req: OrderRequest,
                     before: seq<Order>, nextBefore: nat, createsBefore: nat, after: seq<Order>, nextAfter: nat)
    requires before == open0 + AcceptedFrom(errors, from, id, reqs)
    requires nextBefore == id + |AcceptedFrom(errors, from, id, reqs)| && createsBefore == from + |reqs|
    requires var accepted := if ErrorAt(errors, createsBefore) == 0 then [Placed(nextBefore, req)] else [];
      after == before + accepted && nextAfter == nextBefore + |accepted|
    ensures after == open0 + AcceptedFrom(errors, from, id, reqs + [req])
    ensures nextAfter == id + |AcceptedFrom(errors, from, id, reqs + [req])|
  {
    AcceptedFromStep(errors, from, id, reqs, req);
    Regroup(open0, AcceptedFrom(errors, from, id, reqs), after[|before|..]);
  }

  /** When no create of the run fails, every request is listed, in order, under consecutive ids. */
  lemma {:induction false} AcceptedFromAllZero(errors: seq<int>, from: nat, id: nat, reqs: seq<OrderRequest>)
    requires forall k :: from <= k < from + |reqs| ==> ErrorAt(errors, k) == 0
    ensures AcceptedFrom(errors, from, id, reqs) == PlacedFrom(id, reqs)
  {
    if reqs != [] {
      AcceptedFromAllZero(errors, from, id, reqs[..|reqs| - 1]);
    }
  }

  /** The accepted orders carry consecutive ids from `id` on, and each is one of the requests. */
  lemma {:induction false} AcceptedFromIds(errors: seq<int>, from: nat, id: nat, reqs: seq<OrderRequest>)
    ensures forall k :: 0 <= k < |AcceptedFrom(errors, from, id, reqs)| ==>
      AcceptedFrom(errors, from, id, reqs)[k].id == id + k && AcceptedFrom(errors, from, id, reqs)[k].hash == id + k
  {
    if reqs != [] {
      var init := reqs[..|reqs| - 1];
      AcceptedFromIds(errors, from, id, init);
      var a := AcceptedFrom(errors, from, id, init);
      var r := AcceptedFrom(errors, from, id, reqs);
      assert r == a + if ErrorAt(errors, from + |reqs| - 1) == 0 then [Placed(id + |a|, reqs[|reqs| - 1])] else [];
      forall k | 0 <= k < |r|
        ensures r[k].id == id + k && r[k].hash == id + k
      {
        if k < |a| {
          assert r[k] == a[k];
        } else {
          assert r[k] == Placed(id + |a|, reqs[|reqs| - 1]);
        }
      }
    }
  }

  class Gateway {
    var openOrders: seq<Order>
    var balances: map<string, real>
    var price: real
    var statuses: map<Hash, string>
    var stuck: set<Hash>
    const createErrors: seq<int>
    var creates: nat
    var nextId: nat
    var log: seq<Call>

    constructor (openOrders: seq<Order>, balances: map<string, real>, price: real,
                 statuses: map<Hash, string>, stuck: set<Hash>, createErrors: seq<int>, nextId: nat)
      ensures this.openOrders == openOrders && this.balances == balances && this.price == price
      ensures this.statuses == statuses && this.stuck == stuck && this.createErrors == createErrors
      ensures this.nextId == nextId && creates == 0 && log == []
    {
      this.openOrders := openOrders;
      this.balances := balances;
      this.price := price;
      this.statuses := statuses;
      this.stuck := stuck;
      this.createErrors := createErrors;
      this.nextId := nextId;
      creates := 0;
      log := [];
    }

    /** Since the log was `log0` and `creates0` creates had been made, exactly the creates for `reqs` were sent. */
    ghost predicate Issued(log0: seq<Call>, creates0: nat, reqs: seq<OrderRequest>)
      reads this
    {
      log == log0 + CreateCalls(reqs) && creates == creates0 + |reqs|
    }

    /** Since the list was `open0` and the next id `id0`, every request of `reqs` was accepted, in order. */
    ghost predicate Accepted(open0: seq<Order>, id0: nat, reqs: seq<OrderRequest>)
      reads this
    {
      openOrders == open0 + PlacedFrom(id0, reqs) && nextId == id0 + |reqs|
    }

    /** Balances, price, statuses and the stuck hashes are the same as on entry. */
    twostate predicate Steady()
      reads this
    {
      balances == old(balances) && price == old(price)
      && statuses == old(statuses) && stuck == old(stuck)
    }

    /** createOrder: a non-zero error code means nothing was placed. */
    method CreateOrder(req: OrderRequest) returns (error: int)
      modifies this
      ensures error == ErrorAt(createErrors, old(creates))
      ensures creates == old(creates) + 1
      ensures log == old(log) + [Create(req)]
      ensures error == 0 ==> openOrders == old(openOrders) + [Placed(old(nextId), req)] && nextId == old(nextId) + 1
      ensures error != 0 ==> openOrders == old(openOrders) && nextId == old(nextId)
      ensures Steady()
    {
      error := ErrorAt(createErrors, creates);
      creates := creates + 1;
      log := log + [Create(req)];
      if error == 0 {
        openOrders := openOrders + [Placed(nextId, req)];
        nextId := nextId + 1;
      }
    }

    /** cancelOrder by hash; a stuck order stays listed. */
    method CancelOrder(hash: Hash)
      modifies this
      ensures log == old(log) + [Cancel(hash)]
      ensures openOrders == if hash in stuck then old(openOrders) else Remove(old(openOrders), {hash})
      ensures creates == old(creates) && nextId == old(nextId)
      ensures Steady()
    {
      log := log + [Cancel(hash)];
      if hash !in stuck {
        openOrders := Remove(openOrders, {hash});
      }
    }

    /** getOrderInfo by hash: the status the exchange reports. */
    method GetOrderInfo(hash: Hash) returns (status: string)
      modifies this`log
      ensures status == StatusOf(statuses, hash)
      ensures log == old(log) + [Info(hash)]
    {
      status := StatusOf(statuses, hash);
      log := log + [Info(hash)];
    }
  }
}
