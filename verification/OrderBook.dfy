/** The order book as the source runs it: orders filled in place, maps and price lists rewritten step by
    step. Every method is proved to do what the functions of OrderModel and OrderMatching say. */
module OrderBooks {
  import opened Word64
  import opened Results
  import opened Seqs
  import opened OrderModel
  import opened OrderMatching

  class LiveOrder {
    const id: nat
    const owner: Address
    const side: Side
    const quantity: u64
    const price: nat
    const kind: OrderType
    const time: int
    var filled: u64
    var status: Status

    /** A new order, as callers build it. */
    constructor (id: nat, owner: Address, side: Side, quantity: u64, price: nat, kind: OrderType, time: int)
      ensures Value() == Order(id, owner, side, quantity, 0, price, kind, Pending, time)
    {
      this.id, this.owner, this.side, this.quantity := id, owner, side, quantity;
      this.price, this.kind, this.time := price, kind, time;
      filled, status := 0, Pending;
    }

    function Value(): Order
      reads this
    {
      Order(id, owner, side, quantity, filled, price, kind, status, time)
    }

    method Fill(q: u64) returns (done: u64)
      modifies this
      ensures Value() == old(Value()).Fill(q)
      ensures done == if q >= old(Value()).Remaining() then old(Value()).Remaining() else q
    {
      var remaining := Value().Remaining();
      if q >= remaining {
        filled := quantity;
        status := Filled;
        return remaining;
      }
      filled := filled + q;
      status := PartialFilled;
      return q;
    }
  }

  /** findBestPrice: the scan of the opposite price list. */
  method FindBestPrice(order: Order, prices: seq<nat>) returns (best: nat)
    ensures best == BestPrice(order, prices)
  {
    if |prices| == 0 {
      return 0;
    }
    if order.kind.Market? {
      return if order.side.Buy? then prices[0] else prices[|prices| - 1];
    }
    if order.side.Buy? {
      var i := 0;
      while i < |prices|
        invariant 0 <= i <= |prices|
        invariant FirstAtMost(prices, order.price) == FirstAtMost(prices[i..], order.price)
      {
        if prices[i] <= order.price {
          return prices[i];
        }
        i := i + 1;
      }
    } else {
      var i := |prices| - 1;
      assert prices[..i + 1] == prices;
      while i >= 0
        invariant -1 <= i < |prices|
        invariant LastAtLeast(prices, order.price) == LastAtLeast(prices[..i + 1], order.price)
      {
        if prices[i] >= order.price {
          return prices[i];
        }
        assert prices[..i + 1][..i] == prices[..i];
        i := i - 1;
      }
    }
    return 0;
  }

  /** sortPriceList: the exchange sort run after every new price. */
  method SortPriceList(ps: seq<nat>, descending: bool) returns (sorted: seq<nat>)
    ensures multiset(sorted) == multiset(ps)
    ensures forall a, b :: 0 <= a < b < |sorted| ==> !Before(descending, sorted[b], sorted[a])
  {
    sorted := ps;
    var i := 0;
    while i < |sorted| - 1
      invariant 0 <= i && |sorted| == |ps| && (i <= |sorted| - 1 || |sorted| == 0)
      invariant multiset(sorted) == multiset(ps)
      invariant forall a, b :: 0 <= a < b < |sorted| && a < i ==> !Before(descending, sorted[b], sorted[a])
    {
      var j := i + 1;
      while j < |sorted|
        invariant i < j <= |sorted| && |sorted| == |ps|
        invariant multiset(sorted) == multiset(ps)
        invariant forall a, b :: 0 <= a < b < |sorted| && a < i ==> !Before(descending, sorted[b], sorted[a])
        invariant forall b :: i < b < j ==> !Before(descending, sorted[b], sorted[i])
      {
        if Before(descending, sorted[j], sorted[i]) {
          SwapKeepsElements(sorted, i, j);
          sorted := sorted[i := sorted[j]][j := sorted[i]];
        }
        j := j + 1;
      }
      i := i + 1;
    }
  }

  lemma SwapKeepsElements(s: seq<nat>, i: nat, j: nat)
    requires i < j < |s|
    ensures multiset(s[i := s[j]][j := s[i]]) == multiset(s)
  {
  }

  /** On a list that was sorted before its last element came in, the sort is an insertion. */
  lemma SortInserts(ps: seq<nat>, p: nat, sorted: seq<nat>, descending: bool)
    requires Sorted(ps, descending) && p !in ps
    requires multiset(sorted) == multiset(ps + [p])
    requires forall a, b :: 0 <= a < b < |sorted| ==> !Before(descending, sorted[b], sorted[a])
    ensures sorted == Insert(ps, p, descending)
  {
    forall q ensures q in sorted <==> q == p || q in ps {
      assert q in sorted <==> q in multiset(sorted);
      assert q in ps + [p] <==> q in multiset(ps + [p]);
    }
    DistinctFromMultiset(ps + [p], sorted);
    InsertSorted(ps, p, descending);
    SortedUnique(sorted, Insert(ps, p, descending), descending);
  }

  /** A rearrangement of distinct elements has distinct elements. */
  lemma DistinctFromMultiset(s: seq<nat>, r: seq<nat>)
    requires Distinct(s) && multiset(r) == multiset(s)
    ensures Distinct(r)
  {
    forall i, j | 0 <= i < j < |r| ensures r[i] != r[j] {
      assert r == r[..i] + [r[i]] + r[i + 1..j] + [r[j]] + r[j + 1..];
      CountAtMostOne(s, r[i]);
      assert multiset(r)[r[i]] <= 1;
    }
  }

  lemma {:induction false} CountAtMostOne(s: seq<nat>, x: nat)
    requires Distinct(s)
    ensures multiset(s)[x] <= 1
  {
    if s != [] {
      assert s == [s[0]] + s[1..];
      CountAtMostOne(s[1..], x);
      if s[0] == x {
        assert x !in s[1..];
      }
    }
  }

  /** removePriceFromList. */
  method RemovePrice(ps: seq<nat>, price: nat) returns (rest: seq<nat>)
    ensures rest == Without(ps, price)
  {
    var i := 0;
    while i < |ps|
      invariant 0 <= i <= |ps| && price !in ps[..i]
    {
      if ps[i] == price {
        WithoutAt(ps, i);
        return ps[..i] + ps[i + 1..];
      }
      i := i + 1;
    }
    WithoutAbsent(ps, price);
    return ps;
  }

  lemma {:induction false} WithoutAbsent(ps: seq<nat>, x: nat)
    requires x !in ps
    ensures Without(ps, x) == ps
  {
    if ps != [] {
      WithoutAbsent(ps[1..], x);
    }
  }

  /** The level and price-list half of addOrderToBook. */
  method PushToLevel(levels: map<nat, Level>, prices: seq<nat>, order: Order, now: nat)
      returns (levels': map<nat, Level>, prices': seq<nat>)
    requires HalfWF(Half(levels, prices), order.side.Buy?)
    ensures Half(levels', prices') ==
            PushNode(Half(levels, prices), order.price, order.id, order.Remaining(), order.side.Buy?, now)
  {
    var level := Level([], 0, now);
    prices' := prices;
    if order.price in levels {
      level := levels[order.price];
    } else {
      prices' := SortPriceList(prices + [order.price], order.side.Buy?);
      SortInserts(prices, order.price, prices', order.side.Buy?);
    }
    level := level.(queue := level.queue + [order.id], totalQty := Add(level.totalQty, order.Remaining()));
    levels' := levels[order.price := level];
  }

  /** The matching loop is under way: the trades so far, then those still to come, make the goal. */
  ghost predicate Continues(goal: Matched, b: Book, t: Order, done: seq<Trade>) {
    WF(b) && TakerWF(b, t) && goal == Matched(Match(b, t).book, Match(b, t).taker, done + Match(b, t).trades)
  }

  lemma ContinuesPass(goal: Matched, b: Book, t: Order, done: seq<Trade>)
    requires Continues(goal, b, t, done) && NextMove(b, t).Take?
    ensures NextMove(b, t).id in b.all
    ensures var m := Pass(b, t, NextMove(b, t).id, NextMove(b, t).price);
            Continues(goal, m.book, m.taker, done + m.trades) && m.taker.Remaining() < t.Remaining()
  {
    PassKeepsShape(b, t);
    var m := Pass(b, t, NextMove(b, t).id, NextMove(b, t).price);
    var rest := Match(m.book, m.taker).trades;
    assert done + (m.trades + rest) == done + m.trades + rest;
  }

  lemma ContinuesStop(goal: Matched, b: Book, t: Order, done: seq<Trade>)
    requires Continues(goal, b, t, done) && NextMove(b, t).Stop?
    ensures goal == Matched(b, t, done)
  {
    assert done + [] == done;
  }

  class OrderBook {
    var bids: map<nat, Level>
    var asks: map<nat, Level>
    var bidPrices: seq<nat>
    var askPrices: seq<nat>
    var orders: map<nat, Element>
    var allOrders: map<nat, LiveOrder>
    var trades: seq<Trade>

    constructor ()
      ensures Keyed() && View() == EMPTY
    {
      bids, asks, bidPrices, askPrices := map[], map[], [], [];
      orders, allOrders, trades := map[], map[], [];
    }

    /** Every order is recorded under its own id; so different ids are different objects. */
    ghost predicate Keyed()
      reads this
    {
      forall id :: id in allOrders ==> allOrders[id].id == id
    }

    /** The book's present value. */
    ghost function View(): Book
      reads this, allOrders.Values
    {
      Book(Half(bids, bidPrices), Half(asks, askPrices), orders,
           map id | id in allOrders :: allOrders[id].Value(), trades)
    }

    method ExecuteTrade(taker: LiveOrder, maker: LiveOrder, price: nat) returns (trade: Trade)
      requires Keyed() && taker.id !in allOrders && maker.id in allOrders && allOrders[maker.id] == maker
      modifies taker, maker, this`trades
      ensures View() == Traded(old(View()), old(taker.Value()), maker.id, price)
      ensures var q := Min(old(taker.Value()).Remaining(), old(maker.Value()).Remaining());
              && taker.Value() == old(taker.Value()).Fill(q)
              && trade == TradeOf(old(taker.Value()), old(maker.Value()), q, price)
    {
      var quantity := taker.Value().Remaining();
      var makerRemaining := maker.Value().Remaining();
      if quantity > makerRemaining {
        quantity := makerRemaining;
      }
      ghost var before := View();
      var takerFilled := taker.Fill(quantity);
      var ignored := maker.Fill(quantity);
      trade := TradeOf(taker.Value(), maker.Value(), takerFilled, price);
      trades := trades + [trade];
      assert View().all == before.all[maker.id := maker.Value()];
    }

    method RemoveOrderFromBook(order: LiveOrder)
      modifies this`bids, this`asks, this`bidPrices, this`askPrices, this`orders
      ensures View() == RemoveFromBook(old(View()), order.Value())
    {
      var levels := if order.side.Buy? then bids else asks;
      if order.price !in levels {
        return;
      }
      var level := levels[order.price];
      var queue := Without(level.queue, order.id);
      level := level.(queue := queue, totalQty := Sub(level.totalQty, order.Value().Remaining()));
      if |queue| == 0 {
        levels := levels - {order.price};
        if order.side.Buy? {
          bidPrices := RemovePrice(bidPrices, order.price);
        } else {
          askPrices := RemovePrice(askPrices, order.price);
        }
      } else {
        levels := levels[order.price := level];
      }
      if order.side.Buy? { bids := levels; } else { asks := levels; }
      orders := orders - {order.id};
    }

    method AddOrderToBook(order: LiveOrder)
      requires HalfWF(Half(bids, bidPrices), true) && HalfWF(Half(asks, askPrices), false)
      modifies this`bids, this`asks, this`bidPrices, this`askPrices, this`orders
      ensures View() == AddToBook(old(View()), order.Value())
    {
      if order.side.Buy? {
        bids, bidPrices := PushToLevel(bids, bidPrices, order.Value(), |trades|);
      } else {
        asks, askPrices := PushToLevel(asks, askPrices, order.Value(), |trades|);
      }
      orders := orders[order.id := Element(order.side, order.price)];
    }

    /** One round of the matching loop: trade with the front of the best level, or find nothing to do. */
    method MatchOnce(order: LiveOrder) returns (made: Option<Trade>)
      requires Keyed() && WF(View()) && TakerWF(View(), order.Value())
      requires order.Value().IsActive() && order.Value().Remaining() > 0
      modifies this`bids, this`asks, this`bidPrices, this`askPrices, this`orders, this`trades, order, allOrders.Values
      ensures made.None? ==> View() == old(View()) && order.Value() == old(order.Value()) && NextMove(View(), order.Value()).Stop?
      ensures made.Some? ==>
                var move := NextMove(old(View()), old(order.Value()));
                && move.Take? && move.id in old(View()).all
                && Matched(View(), order.Value(), [made.value]) == Pass(old(View()), old(order.Value()), move.id, move.price)
    {
      var best := FindBestPrice(order.Value(), if order.side.Buy? then askPrices else bidPrices);
      if best == 0 || !CanMatch(order.Value(), best) {
        return None;
      }
      var levels := if order.side.Buy? then asks else bids;
      if best !in levels || |levels[best].queue| == 0 {
        return None;
      }
      ghost var b, t := View(), order.Value();
      NextMaker(b, t);
      var maker := allOrders[levels[best].queue[0]];
      var trade := ExecuteTrade(order, maker, best);
      if maker.Value().IsFilled() || maker.status.Cancelled? {
        RemoveOrderFromBook(maker);
      }
      made := Some(trade);
    }

    /** matchOrder. */
    method MatchOrder(order: LiveOrder) returns (newTrades: seq<Trade>)
      requires Keyed() && WF(View()) && TakerWF(View(), order.Value())
      modifies this`bids, this`asks, this`bidPrices, this`askPrices, this`orders, this`trades, order, allOrders.Values
      ensures Matched(View(), order.Value(), newTrades) == Match(old(View()), old(order.Value()))
    {
      newTrades := [];
      ghost var goal := Match(View(), order.Value());
      while order.Value().IsActive() && order.Value().Remaining() > 0
        invariant Continues(goal, View(), order.Value(), newTrades)
        decreases order.Value().Remaining()
      {
        ghost var b, t := View(), order.Value();
        var made := MatchOnce(order);
        if made.None? {
          break;
        }
        ContinuesPass(goal, b, t, newTrades);
        newTrades := newTrades + [made.value];
      }
      ContinuesStop(goal, View(), order.Value(), newTrades);
    }

    method RecordOrder(order: LiveOrder)
      requires Keyed()
      modifies this`allOrders
      ensures Keyed() && View() == old(View()).(all := old(View()).all[order.id := order.Value()])
    {
      ghost var all := View().all;
      allOrders := allOrders[order.id := order];
      assert View().all == all[order.id := order.Value()];
    }

    /** The end of PlaceOrder: rest what is left, record the order. */
    method SettleOrder(order: LiveOrder)
      requires Keyed() && WF(View()) && order.id !in allOrders
      modifies this`bids, this`asks, this`bidPrices, this`askPrices, this`orders, this`allOrders
      ensures Keyed() && View() == Settle(old(View()), order.Value())
    {
      if order.Value().IsActive() && order.Value().Remaining() > 0 {
        AddOrderToBook(order);
      }
      RecordOrder(order);
    }

    /** PlaceOrder. The book never checks that the id is new; its callers have to. */
    method PlaceOrder(order: LiveOrder?) returns (r: Result<LiveOrder, Error>, newTrades: seq<Trade>)
      requires Keyed() && WF(View())
      requires order != null ==> order.id !in allOrders && order.Value().IsNew()
      modifies this, if order == null then {} else {order}, allOrders.Values
      ensures Keyed() && WF(View())
      ensures order == null ==> View() == old(View()) && r == Err(OrderIsNil) && newTrades == []
      ensures order != null ==>
                var p := Place(old(View()), old(order.Value()));
                && View() == p.book && newTrades == p.trades
                && (r.Ok? ==> r.value == order && p.outcome == Ok(order.Value()))
                && (r.Err? ==> p.outcome == Err(r.error))
    {
      if order == null {
        return Err(OrderIsNil), [];
      }
      PlaceKeepsShape(View(), order.Value());
      var invalid := Validate(order.Value());
      if invalid.Some? {
        return Err(invalid.value), [];
      }
      newTrades := MatchOrder(order);
      SettleOrder(order);
      r := Ok(order);
    }

    /** Marks a known order cancelled and takes its node, if it has one, out of the book. */
    method Withdraw(order: LiveOrder)
      requires Keyed() && order.id in allOrders && allOrders[order.id] == order
      modifies order`status, this`bids, this`asks, this`bidPrices, this`askPrices, this`orders
      ensures var o, b := old(order.Value()).(status := Cancelled), old(View());
              View() == if o.id in b.orders then RemoveFromBook(b.(all := b.all[o.id := o]), o)
                        else b.(all := b.all[o.id := o])
    {
      ghost var before := View();
      order.status := Cancelled;
      assert View().all == before.all[order.id := order.Value()];
      if order.id in orders {
        RemoveOrderFromBook(order);
      }
    }

    /** CancelOrder. */
    method CancelOrder(orderId: nat, owner: Address) returns (e: Option<Error>)
      requires Keyed() && WF(View())
      modifies this, allOrders.Values
      ensures Keyed() && WF(View())
      ensures (View(), e) == Cancel(old(View()), orderId, owner)
    {
      CancelKeepsShape(View(), orderId, owner);
      if orderId !in allOrders {
        return Some(OrderNotFound);
      }
      var order := allOrders[orderId];
      if order.owner != owner {
        return Some(Unauthorized);
      }
      if !order.Value().IsActive() {
        return Some(OrderNotPending);
      }
      Withdraw(order);
      e := None;
    }
  }
}
