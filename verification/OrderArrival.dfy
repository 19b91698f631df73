/** Time priority over whole runs: every queue of the book is exactly the active orders of its side and price, in
    the order in which they were accepted. */
module OrderArrival {
  import opened Word64
  import opened Seqs
  import opened OrderModel
  import opened OrderMatching
  import opened OrderSweep
  import opened OrderRuns

  ghost predicate Waits(all: map<nat, Order>, id: nat, s: Side, p: nat) {
    id in all && all[id].IsActive() && all[id].side == s && all[id].price == p
  }

  /** Of the given orders, those that wait on side s at price p. */
  ghost function Waiting(all: map<nat, Order>, arrivals: seq<nat>, s: Side, p: nat): seq<nat> {
    if arrivals == [] then []
    else
      var last := arrivals[|arrivals| - 1];
      Waiting(all, arrivals[..|arrivals| - 1], s, p) + (if Waits(all, last, s, p) then [last] else [])
  }

  /** The queue at a price, empty where there is no level. */
  ghost function QueueAt(h: Half, p: nat): seq<nat> {
    if p in h.levels then h.levels[p].queue else []
  }

  /** One side of the book, rebuilt from the orders alone. */
  ghost predicate Queued(h: Half, s: Side, all: map<nat, Order>, arrivals: seq<nat>) {
    forall p :: QueueAt(h, p) == Waiting(all, arrivals, s, p)
  }

  /** The orders accepted so far, each once, and the queues they make. */
  ghost predicate InOrder(b: Book, arrivals: seq<nat>) {
    && Distinct(arrivals) && (forall id :: id in arrivals <==> id in b.all)
    && Queued(b.bids, Buy, b.all, arrivals) && Queued(b.asks, Sell, b.all, arrivals)
  }

  // ---------------------------------------------------------------- rewriting one order

  lemma {:induction false} WaitingSame(all: map<nat, Order>, all': map<nat, Order>, arrivals: seq<nat>, s: Side, p: nat)
    requires forall id :: id in arrivals ==> (Waits(all, id, s, p) <==> Waits(all', id, s, p))
    ensures Waiting(all', arrivals, s, p) == Waiting(all, arrivals, s, p)
  {
    if arrivals != [] {
      WaitingSame(all, all', arrivals[..|arrivals| - 1], s, p);
    }
  }

  lemma {:induction false} WaitingAmong(all: map<nat, Order>, arrivals: seq<nat>, s: Side, p: nat)
    ensures forall id :: id in Waiting(all, arrivals, s, p) ==> id in arrivals
  {
    if arrivals != [] {
      WaitingAmong(all, arrivals[..|arrivals| - 1], s, p);
    }
  }

  lemma {:induction false} WithoutSnoc(q: seq<nat>, x: nat, id: nat)
    requires x == id ==> id !in q
    ensures Without(q + [x], id) == if x == id then q else Without(q, id) + [x]
  {
    if q == [] {
      assert q + [x] == [x];
    } else {
      assert (q + [x])[1..] == q[1..] + [x];
      if q[0] != id {
        WithoutSnoc(q[1..], x, id);
      }
    }
  }

  /** An order that stops being active leaves its queue; the others move up. */
  lemma {:induction false} WaitingWithout(all: map<nat, Order>, id: nat, o: Order, arrivals: seq<nat>, s: Side, p: nat)
    requires Distinct(arrivals) && id in arrivals && Waits(all, id, s, p) && !o.IsActive()
    ensures Waiting(all[id := o], arrivals, s, p) == Without(Waiting(all, arrivals, s, p), id)
  {
    var n := |arrivals| - 1;
    var before, last := arrivals[..n], arrivals[n];
    WaitingAmong(all, before, s, p);
    if last == id {
      WaitingSame(all, all[id := o], before, s, p);
      WithoutSnoc(Waiting(all, before, s, p), id, id);
    } else {
      WaitingWithout(all, id, o, before, s, p);
      assert Waits(all[id := o], last, s, p) <==> Waits(all, last, s, p);
      if Waits(all, last, s, p) {
        WithoutSnoc(Waiting(all, before, s, p), last, id);
      } else {
        assert Waiting(all, arrivals, s, p) == Waiting(all, before, s, p);
      }
    }
  }

  /** A side keeps its queues when an order of it that waits goes on waiting, or one that does not wait there is
      rewritten. */
  lemma QueuedSame(h: Half, s: Side, all: map<nat, Order>, all': map<nat, Order>, arrivals: seq<nat>)
    requires Queued(h, s, all, arrivals)
    requires forall id, p :: id in arrivals ==> (Waits(all, id, s, p) <==> Waits(all', id, s, p))
    ensures Queued(h, s, all', arrivals)
  {
    forall p ensures QueueAt(h, p) == Waiting(all', arrivals, s, p) {
      WaitingSame(all, all', arrivals, s, p);
    }
  }

  lemma QueuedDrop(h: Half, s: Side, all: map<nat, Order>, id: nat, o: Order, arrivals: seq<nat>, price: nat, remaining: u64)
    requires Queued(h, s, all, arrivals) && Distinct(arrivals) && id in arrivals
    requires Waits(all, id, s, price) && !o.IsActive() && price in h.levels
    ensures Queued(DropNode(h, price, id, remaining), s, all[id := o], arrivals)
  {
    var h' := DropNode(h, price, id, remaining);
    forall p ensures QueueAt(h', p) == Waiting(all[id := o], arrivals, s, p) {
      assert QueueAt(h, p) == Waiting(all, arrivals, s, p);
      if p == price {
        WaitingWithout(all, id, o, arrivals, s, p);
      } else {
        WaitingSame(all, all[id := o], arrivals, s, p);
      }
    }
  }

  // ---------------------------------------------------------------- matching

  /** The side of the maker that was hit. */
  lemma HitKeepsQueues(h: Half, s: Side, all: map<nat, Order>, id: nat, hit: Order, arrivals: seq<nat>)
    requires Queued(h, s, all, arrivals) && Distinct(arrivals) && id in arrivals
    requires id in all && all[id].IsActive() && all[id].side == s && all[id].price in h.levels
    requires hit.side == s && hit.price == all[id].price && (hit.IsFilled() <==> !hit.IsActive())
    ensures Queued(if hit.IsFilled() then DropNode(h, hit.price, id, 0) else h, s, all[id := hit], arrivals)
  {
    if hit.IsFilled() {
      QueuedDrop(h, s, all, id, hit, arrivals, hit.price, 0);
    } else {
      QueuedSame(h, s, all, all[id := hit], arrivals);
    }
  }

  /** The side of the taker. */
  lemma HitKeepsBeside(h: Half, s: Side, all: map<nat, Order>, id: nat, hit: Order, arrivals: seq<nat>)
    requires Queued(h, s, all, arrivals) && id in all && all[id].side != s && hit.side != s
    ensures Queued(h, s, all[id := hit], arrivals)
  {
    QueuedSame(h, s, all, all[id := hit], arrivals);
  }

  /** A book b' that differs from b in the maker `id` and, if that is filled, in its node. */
  lemma HitKeepsOrder(b: Book, b': Book, s: Side, id: nat, hit: Order, arrivals: seq<nat>)
    requires InOrder(b, arrivals) && id in b.all
    requires b.all[id].IsActive() && b.all[id].side == s.Opposite() && b.all[id].price in b.On(s.Opposite()).levels
    requires hit.side == b.all[id].side && hit.price == b.all[id].price && (hit.IsFilled() <==> !hit.IsActive())
    requires b'.all == b.all[id := hit] && b'.On(s) == b.On(s)
    requires b'.On(s.Opposite()) == if hit.IsFilled() then DropNode(b.On(s.Opposite()), hit.price, id, 0) else b.On(s.Opposite())
    ensures InOrder(b', arrivals)
  {
    HitKeepsBeside(b.On(s), s, b.all, id, hit, arrivals);
    HitKeepsQueues(b.On(s.Opposite()), s.Opposite(), b.all, id, hit, arrivals);
    OrderFromSides(b', s, arrivals);
  }

  lemma HitTerms(b: Book, t: Order, id: nat)
    requires id in b.all && OrderWF(t) && OrderWF(b.all[id]) && b.all[id].IsActive()
    ensures var o, hit := b.all[id], Hit(b, t, id);
            hit.side == o.side && hit.price == o.price && (hit.IsFilled() <==> !hit.IsActive())
  {
  }

  lemma PassKeepsOrder(b: Book, t: Order, arrivals: seq<nat>)
    requires WF(b) && TakerWF(b, t) && NextMove(b, t).Take? && InOrder(b, arrivals)
    ensures NextMove(b, t).id in b.all
    ensures InOrder(Pass(b, t, NextMove(b, t).id, NextMove(b, t).price).book, arrivals)
  {
    NextMaker(b, t);
    PassEffect(b, t);
    var Take(id, price) := NextMove(b, t);
    HitTerms(b, t, id);
    HitKeepsOrder(b, Pass(b, t, id, price).book, t.side, id, Hit(b, t, id), arrivals);
  }

  lemma OrderFromSides(b: Book, s: Side, arrivals: seq<nat>)
    requires Distinct(arrivals) && forall id :: id in arrivals <==> id in b.all
    requires Queued(b.On(s), s, b.all, arrivals) && Queued(b.On(s.Opposite()), s.Opposite(), b.all, arrivals)
    ensures InOrder(b, arrivals)
  {
  }

  lemma {:induction false} MatchKeepsOrder(b: Book, t: Order, arrivals: seq<nat>)
    requires WF(b) && TakerWF(b, t) && InOrder(b, arrivals)
    ensures InOrder(Match(b, t).book, arrivals)
    decreases t.Remaining()
  {
    if NextMove(b, t).Take? {
      PassKeepsShape(b, t);
      PassKeepsOrder(b, t, arrivals);
      var m := Pass(b, t, NextMove(b, t).id, NextMove(b, t).price);
      MatchKeepsOrder(m.book, m.taker, arrivals);
    }
  }

  // ---------------------------------------------------------------- placing and cancelling

  /** An order that arrives goes to the end of its own queue. */
  lemma WaitingArrival(all: map<nat, Order>, o: Order, arrivals: seq<nat>, s: Side, p: nat)
    requires o.id !in arrivals
    ensures Waiting(all[o.id := o], arrivals + [o.id], s, p)
         == Waiting(all, arrivals, s, p) + (if o.IsActive() && o.side == s && o.price == p then [o.id] else [])
  {
    assert (arrivals + [o.id])[..|arrivals|] == arrivals;
    WaitingSame(all, all[o.id := o], arrivals, s, p);
  }

  lemma QueuedPush(h: Half, all: map<nat, Order>, o: Order, arrivals: seq<nat>, now: nat)
    requires Queued(h, o.side, all, arrivals) && o.id !in arrivals && o.IsActive()
    ensures Queued(PushNode(h, o.price, o.id, o.Remaining(), o.side.Buy?, now), o.side, all[o.id := o], arrivals + [o.id])
  {
    var h' := PushNode(h, o.price, o.id, o.Remaining(), o.side.Buy?, now);
    forall p ensures QueueAt(h', p) == Waiting(all[o.id := o], arrivals + [o.id], o.side, p) {
      assert QueueAt(h, p) == Waiting(all, arrivals, o.side, p);
      WaitingArrival(all, o, arrivals, o.side, p);
    }
  }

  lemma QueuedBeside(h: Half, s: Side, all: map<nat, Order>, o: Order, arrivals: seq<nat>)
    requires Queued(h, s, all, arrivals) && o.id !in arrivals && !(o.IsActive() && o.side == s)
    ensures Queued(h, s, all[o.id := o], arrivals + [o.id])
  {
    forall p ensures QueueAt(h, p) == Waiting(all[o.id := o], arrivals + [o.id], s, p) {
      assert QueueAt(h, p) == Waiting(all, arrivals, s, p);
      WaitingArrival(all, o, arrivals, s, p);
    }
  }

  /** A book b' that has recorded the order o and, while o is active, queues it. */
  lemma ArrivalKeepsOrder(b: Book, b': Book, o: Order, arrivals: seq<nat>, now: nat)
    requires InOrder(b, arrivals) && o.id !in arrivals
    requires b'.all == b.all[o.id := o] && b'.On(o.side.Opposite()) == b.On(o.side.Opposite())
    requires b'.On(o.side) == if o.IsActive() then PushNode(b.On(o.side), o.price, o.id, o.Remaining(), o.side.Buy?, now)
                              else b.On(o.side)
    ensures InOrder(b', arrivals + [o.id])
  {
    var across := o.side.Opposite();
    QueuedBeside(b.On(across), across, b.all, o, arrivals);
    if o.IsActive() {
      QueuedPush(b.On(o.side), b.all, o, arrivals, now);
    } else {
      QueuedBeside(b.On(o.side), o.side, b.all, o, arrivals);
    }
    OrderFromSides(b', o.side, arrivals + [o.id]);
  }

  lemma SettleKeepsOrder(b: Book, o: Order, arrivals: seq<nat>)
    requires InOrder(b, arrivals) && o.id !in b.all && (o.IsActive() ==> o.Remaining() > 0)
    ensures InOrder(Settle(b, o), arrivals + [o.id])
  {
    ArrivalKeepsOrder(b, Settle(b, o), o, arrivals, |b.trades|);
  }

  /** A book b' in which the order under `id` has been withdrawn and its node is gone. */
  lemma WithdrawalKeepsOrder(b: Book, b': Book, id: nat, o: Order, arrivals: seq<nat>)
    requires InOrder(b, arrivals) && id in b.all && b.all[id].IsActive() && !o.IsActive()
    requires o.side == b.all[id].side && o.price == b.all[id].price && o.price in b.On(o.side).levels
    requires b'.all == b.all[id := o] && b'.On(o.side.Opposite()) == b.On(o.side.Opposite())
    requires b'.On(o.side) == DropNode(b.On(o.side), o.price, id, o.Remaining())
    ensures InOrder(b', arrivals)
  {
    QueuedDrop(b.On(o.side), o.side, b.all, id, o, arrivals, o.price, o.Remaining());
    HitKeepsBeside(b.On(o.side.Opposite()), o.side.Opposite(), b.all, id, o, arrivals);
    OrderFromSides(b', o.side, arrivals);
  }

  /** An active order is at a level of its own price. */
  lemma ActiveHasLevel(b: Book, id: nat)
    requires WF(b) && id in b.all && b.all[id].IsActive()
    ensures id in b.orders && b.all[id].id == id && b.all[id].price in b.On(b.all[id].side).levels
  {
    assert Indexed(b.On(b.all[id].side), b.all[id].side, b.orders);
    assert id in Ids(b.On(b.all[id].side), b.all[id].price);
  }

  lemma CancelKeepsOrder(b: Book, id: nat, owner: Address, arrivals: seq<nat>)
    requires WF(b) && InOrder(b, arrivals)
    ensures InOrder(Cancel(b, id, owner).0, arrivals)
  {
    if id in b.all && b.all[id].owner == owner && b.all[id].IsActive() {
      ActiveHasLevel(b, id);
      WithdrawalKeepsOrder(b, Cancel(b, id, owner).0, id, b.all[id].(status := Cancelled), arrivals);
    }
  }

  /** The accepted orders, with what the step accepts. */
  ghost function Accept(arrivals: seq<nat>, op: Op): seq<nat> {
    if op.PlaceOp? && Validate(op.order).None? then arrivals + [op.order.id] else arrivals
  }

  ghost function Accepted(arrivals: seq<nat>, ops: seq<Op>): seq<nat>
    decreases |ops|
  {
    if ops == [] then arrivals else Accepted(Accept(arrivals, ops[0]), ops[1..])
  }

  lemma StepKeepsOrder(b: Book, op: Op, arrivals: seq<nat>)
    requires WF(b) && Allowed(b, op) && InOrder(b, arrivals)
    ensures InOrder(Step(b, op), Accept(arrivals, op))
  {
    match op
    case PlaceOp(o) =>
      if Validate(o).None? {
        MatchKeepsOrder(b, o, arrivals);
        MatchKeepsIdentity(b, o);
        SettleKeepsOrder(Match(b, o).book, Match(b, o).taker, arrivals);
      }
    case CancelOp(id, owner) => CancelKeepsOrder(b, id, owner, arrivals);
  }

  /** Over every run, the queues are the accepted orders that are still active, in the order of acceptance: so
      the sweep of `MatchIsSweep` serves equal prices strictly by arrival. */
  lemma {:induction false} RunKeepsOrder(b: Book, ops: seq<Op>, arrivals: seq<nat>)
    requires WF(b) && Legal(b, ops) && InOrder(b, arrivals)
    ensures InOrder(Run(b, ops), Accepted(arrivals, ops))
    decreases |ops|
  {
    if ops != [] {
      StepKeepsOrder(b, ops[0], arrivals);
      RunKeepsOrder(Step(b, ops[0]), ops[1..], Accept(arrivals, ops[0]));
    }
  }
}
