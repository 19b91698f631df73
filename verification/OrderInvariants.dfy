/** What every step of the order book keeps: the price lists, the levels, the index and the orders agree. */
module OrderInvariants {
  import opened Word64
  import opened Seqs
  import opened OrderModel

  /** The prices of one side that the taker accepts. */
  ghost function InReach(h: Half, t: Order): set<nat> {
    set p | p in h.levels && CanMatch(t, p)
  }

  /** The prices on the opposite side that the taker accepts. */
  ghost function Eligible(b: Book, t: Order): set<nat> {
    InReach(b.On(t.side.Opposite()), t)
  }

  lemma {:induction false} FirstAtMostIsLeast(ps: seq<nat>, limit: nat)
    requires Sorted(ps, false)
    ensures FirstAtMost(ps, limit) == 0 || FirstAtMost(ps, limit) in ps
    ensures FirstAtMost(ps, limit) <= limit
    ensures forall p :: p in ps && p <= limit ==> FirstAtMost(ps, limit) in ps && FirstAtMost(ps, limit) <= p
  {
    if ps != [] {
      assert ps == [ps[0]] + ps[1..];
      if ps[0] > limit {
        FirstAtMostIsLeast(ps[1..], limit);
      }
    }
  }

  lemma {:induction false} LastAtLeastIsLeast(ps: seq<nat>, limit: nat)
    requires Sorted(ps, true)
    ensures LastAtLeast(ps, limit) == 0 || (LastAtLeast(ps, limit) in ps && LastAtLeast(ps, limit) >= limit)
    ensures forall p :: p in ps && p >= limit ==> LastAtLeast(ps, limit) in ps && limit <= LastAtLeast(ps, limit) <= p
  {
    if ps != [] {
      var n := |ps| - 1;
      assert ps == ps[..n] + [ps[n]];
      if ps[n] < limit {
        LastAtLeastIsLeast(ps[..n], limit);
      }
    }
  }

  /** Both sides of the book are searched from the low end: the price found is the lowest one the
      taker accepts, for buyers and for sellers alike, and 0 when there is none. */
  lemma BestPriceIsLeastEligible(b: Book, t: Order)
    requires HalfWF(b.On(t.side.Opposite()), t.side.Sell?)
    ensures BestPrice(t, b.On(t.side.Opposite()).prices)
         == (if Eligible(b, t) == {} then 0 else Least(Eligible(b, t)))
  {
    var h := b.On(t.side.Opposite());
    var best := BestPrice(t, h.prices);
    if t.kind.Limit? {
      if t.side.Buy? { FirstAtMostIsLeast(h.prices, t.price); } else { LastAtLeastIsLeast(h.prices, t.price); }
    }
    forall p | p in Eligible(b, t) ensures best in Eligible(b, t) && best <= p {
      assert p in h.prices;
    }
    if Eligible(b, t) == {} {
      assert best in h.prices && CanMatch(t, best) ==> best in Eligible(b, t);
    }
  }

  lemma DropNodeIds(h: Half, price: nat, id: nat, remaining: u64, p: nat)
    requires price in h.levels && Distinct(h.levels[price].queue)
    ensures Ids(DropNode(h, price, id, remaining), p) == (if p == price then Ids(h, p) - {id} else Ids(h, p))
  {
    if p == price {
      WithoutElements(h.levels[price].queue, id);
    }
  }

  lemma DropNodeShape(h: Half, price: nat, id: nat, remaining: u64, descending: bool)
    requires HalfWF(h, descending) && price in h.levels
    ensures HalfWF(DropNode(h, price, id, remaining), descending)
  {
    WithoutElements(h.levels[price].queue, id);
    if Without(h.levels[price].queue, id) == [] {
      WithoutSorted(h.prices, price, descending);
    }
  }

  lemma DropNodeEffect(h: Half, price: nat, id: nat, remaining: u64, descending: bool)
    requires HalfWF(h, descending) && price in h.levels
    ensures HalfWF(DropNode(h, price, id, remaining), descending)
    ensures forall p :: Ids(DropNode(h, price, id, remaining), p) == (if p == price then Ids(h, p) - {id} else Ids(h, p))
  {
    DropNodeShape(h, price, id, remaining, descending);
    forall p ensures Ids(DropNode(h, price, id, remaining), p) == (if p == price then Ids(h, p) - {id} else Ids(h, p)) {
      DropNodeIds(h, price, id, remaining, p);
    }
  }

  lemma PushNodeEffect(h: Half, price: nat, id: nat, remaining: u64, descending: bool, now: nat)
    requires HalfWF(h, descending) && id !in Ids(h, price)
    ensures HalfWF(PushNode(h, price, id, remaining, descending, now), descending)
    ensures forall p :: Ids(PushNode(h, price, id, remaining, descending, now), p)
                     == (if p == price then Ids(h, p) + {id} else Ids(h, p))
  {
    if price !in h.levels {
      InsertSorted(h.prices, price, descending);
    }
  }

  /** Unlisting x from the index fits exactly the side that lost x's node. */
  lemma IndexedDrop(h: Half, h': Half, s: Side, orders: map<nat, Element>, x: nat)
    requires Indexed(h, s, orders) && x in orders
    requires forall q :: Ids(h', q) == (if orders[x] == Element(s, q) then Ids(h, q) - {x} else Ids(h, q))
    ensures Indexed(h', s, orders - {x})
  {
    forall q, id ensures id in Ids(h', q) <==> id in orders - {x} && orders[id] == Element(s, q) {
      assert id in Ids(h, q) <==> id in orders && orders[id] == Element(s, q);
    }
  }

  lemma IndexedPush(h: Half, h': Half, s: Side, orders: map<nat, Element>, x: nat, e: Element)
    requires Indexed(h, s, orders) && x !in orders
    requires forall q :: Ids(h', q) == (if e == Element(s, q) then Ids(h, q) + {x} else Ids(h, q))
    ensures Indexed(h', s, orders[x := e])
  {
    forall q, id ensures id in Ids(h', q) <==> id in orders[x := e] && orders[x := e][id] == Element(s, q) {
      assert id in Ids(h, q) <==> id in orders && orders[id] == Element(s, q);
    }
  }

  lemma DropKeepsHalf(h: Half, s: Side, orders: map<nat, Element>, x: nat, price: nat, remaining: u64)
    requires HalfWF(h, s.Buy?) && Indexed(h, s, orders)
    requires x in orders && orders[x] == Element(s, price)
    ensures price in h.levels
    ensures HalfWF(DropNode(h, price, x, remaining), s.Buy?)
    ensures Indexed(DropNode(h, price, x, remaining), s, orders - {x})
  {
    assert x in Ids(h, price);
    DropNodeEffect(h, price, x, remaining, s.Buy?);
    IndexedDrop(h, DropNode(h, price, x, remaining), s, orders, x);
  }

  lemma PushKeepsHalf(h: Half, s: Side, orders: map<nat, Element>, x: nat, price: nat, remaining: u64, now: nat)
    requires HalfWF(h, s.Buy?) && Indexed(h, s, orders) && x !in orders
    ensures HalfWF(PushNode(h, price, x, remaining, s.Buy?, now), s.Buy?)
    ensures Indexed(PushNode(h, price, x, remaining, s.Buy?, now), s, orders[x := Element(s, price)])
  {
    assert x !in Ids(h, price);
    PushNodeEffect(h, price, x, remaining, s.Buy?, now);
    IndexedPush(h, PushNode(h, price, x, remaining, s.Buy?, now), s, orders, x, Element(s, price));
  }

  /** Taking an order that is no longer active out of its level restores the whole shape. */
  lemma RemoveKeepsShape(b: Book, o: Order)
    requires Shape(b, {o.id}) && o.id in b.all && b.all[o.id] == o
    ensures WF(RemoveFromBook(b, o))
  {
    DropKeepsHalf(b.On(o.side), o.side, b.orders, o.id, o.price, o.Remaining());
    var across := o.side.Opposite();
    IndexedDrop(b.On(across), b.On(across), across, b.orders, o.id);
  }

  /** The shape of a book in which one side and the index have taken in the order o. */
  lemma RestingKeepsShape(b: Book, o: Order, h: Half)
    requires WF(b) && TakerWF(b, o) && o.IsActive()
    requires HalfWF(h, o.side.Buy?) && Indexed(h, o.side, b.orders[o.id := Element(o.side, o.price)])
    ensures WF(b.With(o.side, h).(orders := b.orders[o.id := Element(o.side, o.price)], all := b.all[o.id := o]))
  {
    assert o.id !in b.orders;
    var across := o.side.Opposite();
    IndexedPush(b.On(across), b.On(across), across, b.orders, o.id, Element(o.side, o.price));
  }

  lemma AddKeepsShape(b: Book, o: Order)
    requires WF(b) && TakerWF(b, o) && o.IsActive()
    ensures WF(AddToBook(b, o).(all := b.all[o.id := o]))
  {
    assert o.id !in b.orders;
    PushKeepsHalf(b.On(o.side), o.side, b.orders, o.id, o.price, o.Remaining(), |b.trades|);
    RestingKeepsShape(b, o, PushNode(b.On(o.side), o.price, o.id, o.Remaining(), o.side.Buy?, |b.trades|));
  }
}
