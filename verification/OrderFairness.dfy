/** Every trade a book ever logs is one both parties asked for. */
module OrderFairness {
  import opened Word64
  import opened OrderModel
  import opened OrderMatching
  import opened OrderSweep
  import opened OrderRuns
  import opened OrderDepth
  import opened OrderArrival

  /** By time, then by id. */
  ghost predicate Earlier(o: Order, p: Order) { o.time < p.time || (o.time == p.time && o.id < p.id) }

  /** A trade between two known orders of opposite sides and at a price within both limits, for a quantity that
      is not zero; the earlier of the two is its maker. */
  ghost predicate Fair(all: map<nat, Order>, t: Trade) {
    && t.makerId in all && t.takerId in all && 0 < t.quantity
    && var maker, taker := all[t.makerId], all[t.takerId];
    && t.maker == maker.owner && t.taker == taker.owner
    && maker.side == taker.side.Opposite()
    && CanMatch(maker, t.price) && CanMatch(taker, t.price)
    && !Earlier(taker, maker)
  }

  ghost predicate AllFair(trades: seq<Trade>, all: map<nat, Order>) {
    forall i :: 0 <= i < |trades| ==> Fair(all, trades[i])
  }

  /** Only fills and statuses differ, and orders may have been added. */
  ghost predicate SameTerms(all: map<nat, Order>, all': map<nat, Order>) {
    forall id :: id in all ==>
      id in all' && all'[id] == all[id].(filled := all'[id].filled, status := all'[id].status)
  }

  lemma FairStays(trades: seq<Trade>, all: map<nat, Order>, all': map<nat, Order>)
    requires AllFair(trades, all) && SameTerms(all, all')
    ensures AllFair(trades, all')
  {
    forall i | 0 <= i < |trades| ensures Fair(all', trades[i]) {
      assert Fair(all, trades[i]);
    }
  }

  lemma TradeIsFair(all: map<nat, Order>, taker: Order, resting: Order, quantity: u64, price: nat)
    requires taker.id in all && all[taker.id] == taker && resting.id in all && all[resting.id] == resting
    requires resting.side == taker.side.Opposite() && resting.price == price && CanMatch(taker, price)
    requires 0 < quantity
    ensures Fair(all, TradeOf(taker, resting, quantity, price))
  {
  }

  lemma PassIsFair(b: Book, t: Order)
    requires WF(b) && TakerWF(b, t) && NextMove(b, t).Take? && AllFair(b.trades, b.all[t.id := t])
    ensures NextMove(b, t).id in b.all
    ensures var m := Pass(b, t, NextMove(b, t).id, NextMove(b, t).price);
            AllFair(m.book.trades, m.book.all[t.id := m.taker])
  {
    NextMaker(b, t);
    PassEffect(b, t);
    var Take(id, price) := NextMove(b, t);
    var m, all := Pass(b, t, id, price), b.all[t.id := t];
    TradeIsFair(all, t, b.all[id], m.trades[0].quantity, price);
    assert m.book.trades == b.trades + m.trades;
    assert AllFair(m.book.trades, all);
    FairStays(m.book.trades, all, m.book.all[t.id := m.taker]);
  }

  lemma {:induction false} MatchIsFair(b: Book, t: Order)
    requires WF(b) && TakerWF(b, t) && AllFair(b.trades, b.all[t.id := t])
    ensures var m := Match(b, t); AllFair(m.book.trades, m.book.all[t.id := m.taker])
    decreases t.Remaining()
  {
    if NextMove(b, t).Take? {
      PassKeepsShape(b, t);
      PassIsFair(b, t);
      var m := Pass(b, t, NextMove(b, t).id, NextMove(b, t).price);
      MatchIsFair(m.book, m.taker);
    }
  }

  lemma PlaceIsFair(b: Book, o: Order)
    requires WF(b) && o.id !in b.all && o.IsNew() && AllFair(b.trades, b.all)
    ensures AllFair(Place(b, o).book.trades, Place(b, o).book.all)
  {
    if Validate(o).None? {
      FairStays(b.trades, b.all, b.all[o.id := o]);
      MatchIsFair(b, o);
      MatchKeepsIdentity(b, o);
    }
  }

  lemma CancelIsFair(b: Book, id: nat, owner: Address)
    requires AllFair(b.trades, b.all)
    ensures AllFair(Cancel(b, id, owner).0.trades, Cancel(b, id, owner).0.all)
  {
    FairStays(b.trades, b.all, Cancel(b, id, owner).0.all);
  }

  /** Over every run, every logged trade is fair. */
  lemma {:induction false} RunIsFair(b: Book, ops: seq<Op>)
    requires WF(b) && Legal(b, ops) && AllFair(b.trades, b.all)
    ensures AllFair(Run(b, ops).trades, Run(b, ops).all)
    decreases |ops|
  {
    if ops != [] {
      match ops[0] {
        case PlaceOp(o) => PlaceIsFair(b, o);
        case CancelOp(id, owner) => CancelIsFair(b, id, owner);
      }
      RunIsFair(Step(b, ops[0]), ops[1..]);
    }
  }

  lemma NothingYet()
    ensures WF(EMPTY) && LedgerWF(EMPTY.trades, EMPTY.all) && DepthWF(EMPTY) && AllFair(EMPTY.trades, EMPTY.all)
    ensures InOrder(EMPTY, [])
  {
  }

  /** What a book has to show for itself after any legal run from empty: its indexes agree, its fills are the
      logged trades, its cached depths are explained, every trade is fair, and its queues are in order of arrival. */
  lemma EveryRun(ops: seq<Op>)
    requires Legal(EMPTY, ops)
    ensures var b := Run(EMPTY, ops);
            WF(b) && LedgerWF(b.trades, b.all) && DepthWF(b) && AllFair(b.trades, b.all)
            && InOrder(b, Accepted([], ops))
  {
    NothingYet();
    RunKeepsLedger(EMPTY, ops);
    RunKeepsDepth(EMPTY, ops);
    RunIsFair(EMPTY, ops);
    RunKeepsOrder(EMPTY, ops, []);
  }
}
