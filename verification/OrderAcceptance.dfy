/** What a caller of the order book gets: which orders are accepted and which cancelled, with the error of every
    refusal, and what an accepted one comes to. Stated from the order and the book before the call. */
module OrderAcceptance {
  import opened Results
  import opened OrderModel
  import opened OrderInvariants
  import opened OrderMatching
  import opened OrderSweep
  import opened OrderRuns

  /** The trades a matching makes are the ones it logs, in order. */
  lemma {:induction false} MatchLogs(b: Book, t: Order)
    requires WF(b) && TakerWF(b, t)
    ensures Match(b, t).book.trades == b.trades + Match(b, t).trades
    decreases t.Remaining()
  {
    if NextMove(b, t).Take? {
      PassKeepsShape(b, t);
      var m := Pass(b, t, NextMove(b, t).id, NextMove(b, t).price);
      PassLogs(b, t, NextMove(b, t).id, NextMove(b, t).price);
      MatchLogs(m.book, m.taker);
      Regroup(b.trades, m.trades, Match(m.book, m.taker).trades);
    }
  }

  lemma Regroup(x: seq<Trade>, y: seq<Trade>, z: seq<Trade>)
    ensures x + y + z == x + (y + z)
  {
  }

  lemma PassLogs(b: Book, t: Order, id: nat, price: nat)
    requires id in b.all
    ensures Pass(b, t, id, price).book.trades == b.trades + Pass(b, t, id, price).trades
  {
  }

  /** The status says how far an active order has been filled. */
  ghost predicate Marked(o: Order) {
    (o.status.Pending? ==> o.filled == 0) && (o.status.PartialFilled? ==> 0 < o.filled < o.quantity)
  }

  ghost predicate AllMarked(all: map<nat, Order>) { forall id {:trigger all[id]} :: id in all ==> Marked(all[id]) }

  lemma FillMarks(o: Order, q: nat)
    requires OrderWF(o) && 0 < q <= o.Remaining()
    ensures Marked(o.Fill(q))
  {
  }

  /** A pass that fills two orders leaves both marked. */
  lemma PassMarks(b: Book, t: Order)
    requires WF(b) && TakerWF(b, t) && NextMove(b, t).Take?
    ensures NextMove(b, t).id in b.all
    ensures var m := Pass(b, t, NextMove(b, t).id, NextMove(b, t).price);
            Marked(m.taker) && (AllMarked(b.all) ==> AllMarked(m.book.all))
  {
    NextMaker(b, t);
    PassEffect(b, t);
    var Take(id, price) := NextMove(b, t);
    FillMarks(t, Min(t.Remaining(), b.all[id].Remaining()));
    FillMarks(b.all[id], Min(t.Remaining(), b.all[id].Remaining()));
  }

  lemma {:induction false} MatchMarks(b: Book, t: Order)
    requires WF(b) && TakerWF(b, t) && Marked(t)
    ensures Marked(Match(b, t).taker) && (AllMarked(b.all) ==> AllMarked(Match(b, t).book.all))
    decreases t.Remaining()
  {
    if NextMove(b, t).Take? {
      PassKeepsShape(b, t);
      PassMarks(b, t);
      var m := Pass(b, t, NextMove(b, t).id, NextMove(b, t).price);
      MatchMarks(m.book, m.taker);
    }
  }

  lemma StepKeepsMarks(b: Book, op: Op)
    requires WF(b) && Allowed(b, op) && AllMarked(b.all)
    ensures AllMarked(Step(b, op).all)
  {
    if op.PlaceOp? && Validate(op.order).None? {
      MatchMarks(b, op.order);
      PlacedOrder(b, op.order);
    }
  }

  /** Over every run, the status of each known order is what its fill says it is. */
  lemma {:induction false} RunKeepsMarks(b: Book, ops: seq<Op>)
    requires WF(b) && Legal(b, ops) && AllMarked(b.all)
    ensures AllMarked(Run(b, ops).all)
    decreases |ops|
  {
    if ops != [] {
      StepKeepsMarks(b, ops[0]);
      RunKeepsMarks(Step(b, ops[0]), ops[1..]);
    }
  }

  /** An order is accepted exactly when it has a quantity, an owner, and, if it is a limit order, a price; a market
      order needs none. A refused one gets the first error that applies and changes nothing. */
  lemma PlaceAcceptsExactly(b: Book, o: Order)
    requires WF(b) && o.id !in b.all && o.IsNew()
    ensures Place(b, o).outcome.Ok? <==> 0 < o.quantity && o.owner != 0 && (o.kind.Market? || 0 < o.price)
    ensures o.quantity == 0 ==> Place(b, o).outcome == Err(InvalidQuantity)
    ensures 0 < o.quantity && o.kind.Limit? && o.price == 0 ==> Place(b, o).outcome == Err(InvalidPrice)
    ensures 0 < o.quantity && (o.kind.Market? || 0 < o.price) && o.owner == 0 ==> Place(b, o).outcome == Err(InvalidOwner)
    ensures Place(b, o).outcome.Err? ==> Place(b, o).book == b && Place(b, o).trades == []
  {
  }

  /** What is left of an order after it was filled by that much. */
  ghost predicate FilledBy(o: Order, o': Order, got: nat) {
    && got <= o.quantity
    && o' == o.(filled := got, status := o'.status)
    && o'.status == if got == o.quantity then Filled else if got == 0 then Pending else PartialFilled
  }

  lemma FilledByRemaining(o: Order, o': Order, got: nat)
    requires o.IsNew() && OrderWF(o) && OrderWF(o') && Marked(o') && o' == o.(filled := o'.filled, status := o'.status)
    requires o'.IsActive() || o'.status.Filled?
    requires o'.Remaining() == o.Remaining() - got
    ensures FilledBy(o, o', got) && (o'.IsActive() <==> o'.filled < o.quantity)
  {
  }

  /** An accepted order makes the trades of the greedy sweep, or none behind a price-0 level, and is filled by their
      volume. */
  lemma PlaceSweeps(b: Book, o: Order)
    requires WF(b) && o.id !in b.all && o.IsNew()
    requires 0 < o.quantity && o.owner != 0 && (o.kind.Market? || 0 < o.price)
    ensures var p := Place(b, o);
            && Fills(p.trades, o.id) == (if Blocked(b, o) then [] else Sweep(Ladder(b, o), o.quantity))
            && p.outcome.Ok? && FilledBy(o, p.outcome.value, Volume(Fills(p.trades, o.id)))
  {
    var m := Match(b, o);
    MatchIsSweep(b, o);
    MatchMarks(b, o);
    MatchKeepsIdentity(b, o);
    FilledByRemaining(o, m.taker, Volume(Fills(m.trades, o.id)));
  }

  /** Its trades are logged in that order; it is known afterwards, and rests exactly if it is not filled. */
  lemma PlaceRecords(b: Book, o: Order)
    requires WF(b) && o.id !in b.all && o.IsNew()
    requires 0 < o.quantity && o.owner != 0 && (o.kind.Market? || 0 < o.price)
    ensures var p := Place(b, o);
            && p.book.trades == b.trades + p.trades && p.outcome.Ok?
            && o.id in p.book.all && p.book.all[o.id] == p.outcome.value && p.book.all.Keys == b.all.Keys + {o.id}
            && (o.id in p.book.orders <==> p.outcome.value.filled < o.quantity)
  {
    MatchLogs(b, o);
    PlacedOrder(b, o);
    PlaceSweeps(b, o);
    FilledMeans(o, Place(b, o).outcome.value, Volume(Fills(Place(b, o).trades, o.id)));
  }

  lemma FilledMeans(o: Order, o': Order, got: nat)
    requires FilledBy(o, o', got)
    ensures o'.IsActive() <==> o'.filled < o.quantity
  {
  }

  /** The book and the answer after matching, in terms of the matched taker. */
  lemma PlacedOrder(b: Book, o: Order)
    requires WF(b) && o.id !in b.all && o.IsNew() && Validate(o).None?
    ensures var p, m := Place(b, o), Match(b, o);
            && p.trades == m.trades && p.book.trades == m.book.trades && p.outcome == Ok(m.taker)
            && m.taker.id == o.id && p.book.all == m.book.all[o.id := m.taker] && m.book.all.Keys == b.all.Keys
            && (o.id in p.book.orders <==> m.taker.IsActive())
  {
    MatchKeepsIdentity(b, o);
    PlaceKeepsShape(b, o);
    assert o.id in Place(b, o).book.all;
  }

  /** In reach of a taker is exactly every price of the other side for a market order; and for a limit order those up to
      its price when it buys, and from its price on when it sells. */
  lemma InReachExactly(b: Book, t: Order, p: nat)
    ensures p in Eligible(b, t)
       <==> && p in (if t.side.Buy? then b.asks else b.bids).levels
            && (t.kind.Market? || (t.side.Buy? && p <= t.price) || (t.side.Sell? && p >= t.price))
  {
  }

  /** Exactly the owner of a known order that is not filled or cancelled yet can cancel it. */
  lemma CancelAcceptsExactly(b: Book, id: nat, owner: Address)
    requires WF(b)
    ensures var e := Cancel(b, id, owner).1;
            && (e.None? <==> id in b.all && b.all[id].owner == owner && (b.all[id].status.Pending? || b.all[id].status.PartialFilled?))
            && (id !in b.all ==> e == Some(OrderNotFound))
            && (id in b.all && b.all[id].owner != owner ==> e == Some(Unauthorized))
            && (id in b.all && b.all[id].owner == owner && e.Some? ==> e == Some(OrderNotPending))
            && (e.Some? ==> Cancel(b, id, owner).0 == b)
  {
  }

  /** A cancelled order keeps its fill and its terms, and rests no longer; no other order and no trade changes. */
  lemma CancelEffect(b: Book, id: nat, owner: Address)
    requires WF(b) && Cancel(b, id, owner).1.None?
    ensures id in b.all
    ensures var b' := Cancel(b, id, owner).0;
            && b'.all == b.all[id := b.all[id].(status := Cancelled)] && b'.trades == b.trades
            && b'.orders == b.orders - {id}
            && (forall s :: id !in Resters(b', s))
            && (forall s, x :: x != id && x in Resters(b, s) ==> x in Resters(b', s))
  {
    CancelKeepsShape(b, id, owner);
    var b' := Cancel(b, id, owner).0;
    forall s ensures id !in Resters(b', s) {
      RestersIndexed(b', s);
    }
    forall s, x | x != id && x in Resters(b, s) ensures x in Resters(b', s) {
      RestersIndexed(b, s);
      RestersIndexed(b', s);
    }
  }

  /** The ids queued on one side, at any price. */
  ghost function Resters(b: Book, s: Side): iset<nat> {
    iset id, p | p in b.On(s).levels && id in b.On(s).levels[p].queue :: id
  }

  lemma RestersIndexed(b: Book, s: Side)
    requires WF(b)
    ensures forall id :: id in Resters(b, s) <==> id in b.orders && b.orders[id].side == s
  {
    assert Indexed(b.On(s), s, b.orders);
    forall id ensures id in Resters(b, s) <==> id in b.orders && b.orders[id].side == s {
      if id in Resters(b, s) {
        var p :| p in b.On(s).levels && id in b.On(s).levels[p].queue;
        assert id in Ids(b.On(s), p);
      }
      if id in b.orders && b.orders[id].side == s {
        assert id in Ids(b.On(s), b.orders[id].price);
      }
    }
  }
}
