/** Price-time priority: the matching loop computes the greedy sweep of the opposite side. What the taker can reach is
    laid out here from the levels' queues and the resting orders, without the price lists, the index or the search. */
module OrderSweep {
  import opened Seqs
  import opened OrderModel
  import opened OrderInvariants
  import opened OrderMatching

  /** A resting order as a taker sees it. */
  datatype Offer = Offer(id: nat, price: nat, quantity: nat)

  ghost function Left(all: map<nat, Order>, id: nat): nat {
    if id in all then all[id].Remaining() else 0
  }

  /** The orders of one queue, oldest first. */
  ghost function Line(all: map<nat, Order>, queue: seq<nat>, price: nat): seq<Offer> {
    if queue == [] then []
    else [Offer(queue[0], price, Left(all, queue[0]))] + Line(all, queue[1..], price)
  }

  /** The queues at the given prices, one after the other. */
  ghost function Stack(all: map<nat, Order>, h: Half, prices: seq<nat>): seq<Offer> {
    if prices == [] then []
    else
      (if prices[0] in h.levels then Line(all, h.levels[prices[0]].queue, prices[0]) else [])
      + Stack(all, h, prices[1..])
  }

  /** Everything the taker could trade with, from the lowest price up, oldest first at each price. */
  ghost function Ladder(b: Book, t: Order): seq<Offer> {
    Stack(b.all, b.On(t.side.Opposite()), Ascending(Eligible(b, t)))
  }

  /** Take from the front until the quantity is used up. */
  ghost function Sweep(offers: seq<Offer>, quantity: nat): seq<Offer> {
    if offers == [] || quantity == 0 then []
    else if quantity < offers[0].quantity then [offers[0].(quantity := quantity)]
    else [offers[0]] + Sweep(offers[1..], quantity - offers[0].quantity)
  }

  /** What such a sweep leaves behind. */
  ghost function Leftover(offers: seq<Offer>, quantity: nat): seq<Offer> {
    if offers == [] || quantity == 0 then offers
    else if quantity < offers[0].quantity
    then [offers[0].(quantity := offers[0].quantity - quantity)] + offers[1..]
    else Leftover(offers[1..], quantity - offers[0].quantity)
  }

  ghost function Volume(offers: seq<Offer>): nat {
    if offers == [] then 0 else offers[0].quantity + Volume(offers[1..])
  }

  /** The trades of one taker as (resting order, price, quantity). */
  ghost function Fills(trades: seq<Trade>, taker: nat): seq<Offer> {
    if trades == [] then []
    else
      var other := if trades[0].makerId == taker then trades[0].takerId else trades[0].makerId;
      [Offer(other, trades[0].price, trades[0].quantity)] + Fills(trades[1..], taker)
  }

  /** A level at price 0 within reach hides the whole side: 0 is also the answer "no match". */
  ghost predicate Blocked(b: Book, t: Order) { 0 in Eligible(b, t) }

  // ---------------------------------------------------------------- one pass

  /** The maker after the pass. */
  function Hit(b: Book, t: Order, id: nat): Order
    requires id in b.all
  {
    b.all[id].Fill(Min(t.Remaining(), b.all[id].Remaining()))
  }

  /** One pass changes one resting order; only when that order is filled does its node go. */
  lemma PassEffect(b: Book, t: Order)
    requires WF(b) && TakerWF(b, t) && NextMove(b, t).Take?
    ensures NextMove(b, t).id in b.all && NextMove(b, t).price in b.On(t.side.Opposite()).levels
    ensures var Take(id, price) := NextMove(b, t);
            var m := Pass(b, t, id, price);
            var h := b.On(t.side.Opposite());
            && m.book.all == b.all[id := Hit(b, t, id)]
            && m.book.On(t.side) == b.On(t.side)
            && m.book.On(t.side.Opposite()) == if Hit(b, t, id).IsFilled() then DropNode(h, price, id, 0) else h
  {
    NextMaker(b, t);
  }

  /** Dropping the front node shortens the queue, and drops a level left empty. */
  lemma DropFront(h: Half, price: nat, descending: bool)
    requires HalfWF(h, descending) && price in h.levels
    ensures DropNode(h, price, h.levels[price].queue[0], 0).levels ==
            if h.levels[price].queue[1..] == [] then h.levels - {price}
            else h.levels[price := h.levels[price].(queue := h.levels[price].queue[1..])]
  {
    WithoutAt(h.levels[price].queue, 0);
  }

  lemma {:induction false} LineFrame(all: map<nat, Order>, id: nat, o: Order, queue: seq<nat>, price: nat)
    requires id !in queue
    ensures Line(all[id := o], queue, price) == Line(all, queue, price)
  {
    if queue != [] {
      LineFrame(all, id, o, queue[1..], price);
    }
  }

  lemma {:induction false} StackFrame(all: map<nat, Order>, id: nat, o: Order, h: Half, h': Half, prices: seq<nat>)
    requires forall p :: p in prices ==> p in h.levels && p in h'.levels
    requires forall p :: p in prices ==> h'.levels[p] == h.levels[p] && id !in h.levels[p].queue
    ensures Stack(all[id := o], h', prices) == Stack(all, h, prices)
  {
    if prices != [] {
      LineFrame(all, id, o, h.levels[prices[0]].queue, prices[0]);
      StackFrame(all, id, o, h, h', prices[1..]);
    }
  }

  lemma {:induction false} AscendingElements(s: set<nat>)
    ensures forall p :: p in Ascending(s) <==> p in s
  {
    if s != {} {
      AscendingElements(s - {Least(s)});
    }
  }

  /** A queued id waits at one price only. */
  lemma QueuedOnce(b: Book, s: Side, p: nat, q: nat, id: nat)
    requires WF(b) && p in b.On(s).levels && q in b.On(s).levels && p != q && id in b.On(s).levels[p].queue
    ensures id !in b.On(s).levels[q].queue
  {
    assert Indexed(b.On(s), s, b.orders);
    assert id in Ids(b.On(s), p);
    assert b.orders[id] == Element(s, p);
    assert id !in Ids(b.On(s), q);
  }

  /** `id` is the front order of the lowest of the given levels, and waits nowhere else among them. */
  ghost predicate Front(h: Half, prices: set<nat>, id: nat) {
    && prices != {} && (forall q :: q in prices ==> q in h.levels)
    && h.levels[Least(prices)].queue != [] && h.levels[Least(prices)].queue[0] == id
    && id !in h.levels[Least(prices)].queue[1..]
    && (forall q :: q in prices && q != Least(prices) ==> id !in h.levels[q].queue)
  }

  /** A stack is its front order, then the rest of that queue, then the levels behind. */
  lemma StackFront(all: map<nat, Order>, h: Half, prices: set<nat>, id: nat)
    requires Front(h, prices, id)
    ensures var p := Least(prices);
            Stack(all, h, Ascending(prices)) == [Offer(id, p, Left(all, id))]
              + (Line(all, h.levels[p].queue[1..], p) + Stack(all, h, Ascending(prices - {p})))
  {
    var up := Ascending(prices);
    assert up[0] == Least(prices) && up[1..] == Ascending(prices - {Least(prices)});
  }

  /** Rewriting the front order changes the front offer only. */
  lemma StackRewrite(all: map<nat, Order>, h: Half, prices: set<nat>, id: nat, o: Order)
    requires Front(h, prices, id)
    ensures Stack(all[id := o], h, Ascending(prices))
         == [Offer(id, Least(prices), o.Remaining())] + Stack(all, h, Ascending(prices))[1..]
  {
    var p := Least(prices);
    StackFront(all, h, prices, id);
    StackFront(all[id := o], h, prices, id);
    LineFrame(all, id, o, h.levels[p].queue[1..], p);
    AscendingElements(prices - {p});
    StackFrame(all, id, o, h, h, Ascending(prices - {p}));
  }

  /** Dropping the front order's node drops the front offer. */
  lemma StackDrop(all: map<nat, Order>, h: Half, h': Half, prices: set<nat>, id: nat, o: Order)
    requires Front(h, prices, id)
    requires var p := Least(prices);
             h'.levels == if h.levels[p].queue[1..] == [] then h.levels - {p}
                          else h.levels[p := h.levels[p].(queue := h.levels[p].queue[1..])]
    ensures var p := Least(prices);
            var prices' := if h.levels[p].queue[1..] == [] then prices - {p} else prices;
            Stack(all[id := o], h', Ascending(prices')) == Stack(all, h, Ascending(prices))[1..]
  {
    var p := Least(prices);
    StackFront(all, h, prices, id);
    AscendingElements(prices - {p});
    StackFrame(all, id, o, h, h', Ascending(prices - {p}));
    if h.levels[p].queue[1..] == [] {
      assert Line(all, [], p) == [];
    } else {
      LineFrame(all, id, o, h.levels[p].queue[1..], p);
      var up := Ascending(prices);
      assert up[0] == p && up[1..] == Ascending(prices - {p});
    }
  }

  lemma FrontOfBook(b: Book, t: Order)
    requires WF(b) && NextMove(b, t).Take?
    ensures Front(b.On(t.side.Opposite()), Eligible(b, t), NextMove(b, t).id)
    ensures NextMove(b, t).price == Least(Eligible(b, t))
  {
    NextMaker(b, t);
    var Take(id, price) := NextMove(b, t);
    var h := b.On(t.side.Opposite());
    forall q | q in Eligible(b, t) && q != price ensures id !in h.levels[q].queue {
      QueuedOnce(b, t.side.Opposite(), price, q, id);
    }
    assert Distinct(h.levels[price].queue);
  }

  /** The orders that agree on what they accept. */
  ghost predicate SameReach(t: Order, t': Order) {
    t'.side == t.side && t'.kind == t.kind && t'.price == t.price
  }

  /** The offers in reach after the front order has been rewritten ... */
  lemma OffersAfterPart(all: map<nat, Order>, h: Half, t: Order, t': Order, id: nat, o: Order)
    requires Front(h, InReach(h, t), id) && SameReach(t, t')
    ensures InReach(h, t') == InReach(h, t)
    ensures Stack(all[id := o], h, Ascending(InReach(h, t')))
         == [Offer(id, Least(InReach(h, t)), o.Remaining())] + Stack(all, h, Ascending(InReach(h, t)))[1..]
  {
    assert InReach(h, t') == InReach(h, t);
    StackRewrite(all, h, InReach(h, t), id, o);
  }

  /** ... and after its node has been dropped. */
  lemma OffersAfterWhole(all: map<nat, Order>, h: Half, t: Order, t': Order, id: nat, o: Order, descending: bool)
    requires Front(h, InReach(h, t), id) && SameReach(t, t') && HalfWF(h, descending)
    ensures var h' := DropNode(h, Least(InReach(h, t)), id, 0);
            && InReach(h', t') <= InReach(h, t)
            && Stack(all[id := o], h', Ascending(InReach(h', t'))) == Stack(all, h, Ascending(InReach(h, t)))[1..]
  {
    var price := Least(InReach(h, t));
    var h' := DropNode(h, price, id, 0);
    DropFront(h, price, descending);
    StackDrop(all, h, h', InReach(h, t), id, o);
    assert InReach(h', t') == if h.levels[price].queue[1..] == [] then InReach(h, t) - {price} else InReach(h, t);
  }

  /** A pass takes the front offer off the ladder, or fills the taker out of it. */
  lemma PassOnLadder(b: Book, t: Order)
    requires WF(b) && TakerWF(b, t) && NextMove(b, t).Take?
    ensures NextMove(b, t).id in b.all && Ladder(b, t) != []
    ensures var Take(id, price) := NextMove(b, t);
            var m := Pass(b, t, id, price);
            && Ladder(b, t)[0] == Offer(id, price, b.all[id].Remaining())
            && Eligible(m.book, m.taker) <= Eligible(b, t)
            && Ladder(m.book, m.taker) ==
               (if Hit(b, t, id).IsFilled() then [] else [Offer(id, price, Hit(b, t, id).Remaining())]) + Ladder(b, t)[1..]
  {
    PassEffect(b, t);
    FrontOfBook(b, t);
    var Take(id, price) := NextMove(b, t);
    var h, m, hit := b.On(t.side.Opposite()), Pass(b, t, id, price), Hit(b, t, id);
    StackFront(b.all, h, InReach(h, t), id);
    if hit.IsFilled() {
      OffersAfterWhole(b.all, h, t, m.taker, id, hit, t.side.Sell?);
    } else {
      OffersAfterPart(b.all, h, t, m.taker, id, hit);
    }
  }

  // ---------------------------------------------------------------- the theorem

  /** One pass makes one fill, of the smaller of what the two orders still want. */
  lemma PassFill(b: Book, t: Order)
    requires WF(b) && TakerWF(b, t) && NextMove(b, t).Take?
    ensures NextMove(b, t).id in b.all
    ensures var Take(id, price) := NextMove(b, t);
            var m := Pass(b, t, id, price);
            && m.taker.id == t.id
            && Fills(m.trades, t.id) == [Offer(id, price, Min(t.Remaining(), b.all[id].Remaining()))]
            && m.taker.Remaining() == t.Remaining() - Min(t.Remaining(), b.all[id].Remaining())
            && Hit(b, t, id).Remaining() == b.all[id].Remaining() - Min(t.Remaining(), b.all[id].Remaining())
            && (Hit(b, t, id).IsFilled() <==> b.all[id].Remaining() <= t.Remaining())
  {
    NextMaker(b, t);
    var Take(id, price) := NextMove(b, t);
    var m := Pass(b, t, id, price);
    assert Fills(m.trades[1..], t.id) == [];
  }

  lemma {:induction false} FillsAppend(xs: seq<Trade>, ys: seq<Trade>, taker: nat)
    ensures Fills(xs + ys, taker) == Fills(xs, taker) + Fills(ys, taker)
  {
    if xs == [] {
      assert xs + ys == ys;
    } else {
      assert (xs + ys)[1..] == xs[1..] + ys;
      FillsAppend(xs[1..], ys, taker);
    }
  }

  /** Nothing to do: the taker is done, or no price is in reach, or a price-0 level hides the rest. */
  lemma StopMeans(b: Book, t: Order)
    requires WF(b) && OrderWF(t) && (t.IsActive() || t.status.Filled?)
    ensures NextMove(b, t).Stop? <==> t.Remaining() == 0 || Eligible(b, t) == {} || Blocked(b, t)
  {
    BestPriceIsLeastEligible(b, t);
    if Eligible(b, t) != {} {
      var p := Least(Eligible(b, t));
      assert p in b.On(t.side.Opposite()).levels;
      assert p == 0 <==> 0 in Eligible(b, t);
    }
  }

  /** What `MatchIsSweep` says of one call. */
  ghost predicate IsSweep(b: Book, t: Order, m: Matched) {
    && Fills(m.trades, t.id) == (if Blocked(b, t) then [] else Sweep(Ladder(b, t), t.Remaining()))
    && Ladder(m.book, m.taker) == (if Blocked(b, t) then Ladder(b, t) else Leftover(Ladder(b, t), t.Remaining()))
    && m.taker.Remaining() == t.Remaining() - Volume(Fills(m.trades, t.id))
  }

  /** A sweep begins with the smaller of what the front offers and what is wanted. */
  lemma SweepFront(offers: seq<Offer>, quantity: nat, got: nat)
    requires offers != [] && 0 < quantity && 0 < offers[0].quantity
    requires got == if quantity < offers[0].quantity then quantity else offers[0].quantity
    ensures var offers' := (if offers[0].quantity <= quantity then []
                            else [offers[0].(quantity := offers[0].quantity - got)]) + offers[1..];
            && Sweep(offers, quantity) == [offers[0].(quantity := got)] + Sweep(offers', quantity - got)
            && Leftover(offers, quantity) == Leftover(offers', quantity - got)
  {
    assert [] + offers[1..] == offers[1..];
  }

  /** A fill and the sweep of the rest make a sweep. */
  lemma FillThenSweep(b: Book, t: Order, m: Matched, rest: Matched, offer: Offer)
    requires IsSweep(m.book, m.taker, rest) && !Blocked(b, t) && !Blocked(m.book, m.taker)
    requires m.taker.id == t.id && 0 < t.Remaining() && 0 < offer.quantity
    requires Ladder(b, t) != [] && Ladder(b, t)[0] == offer
    requires var got := Min(t.Remaining(), offer.quantity);
             && Fills(m.trades, t.id) == [offer.(quantity := got)]
             && m.taker.Remaining() == t.Remaining() - got
             && Ladder(m.book, m.taker) ==
                (if offer.quantity <= t.Remaining() then []
                 else [offer.(quantity := offer.quantity - got)]) + Ladder(b, t)[1..]
    ensures IsSweep(b, t, Matched(rest.book, rest.taker, m.trades + rest.trades))
  {
    SweepFront(Ladder(b, t), t.Remaining(), Min(t.Remaining(), offer.quantity));
    FillsAppend(m.trades, rest.trades, t.id);
  }

  lemma PassThenSweep(b: Book, t: Order, rest: Matched)
    requires WF(b) && TakerWF(b, t) && NextMove(b, t).Take?
    requires NextMove(b, t).id in b.all
    requires var m := Pass(b, t, NextMove(b, t).id, NextMove(b, t).price); IsSweep(m.book, m.taker, rest)
    ensures var m := Pass(b, t, NextMove(b, t).id, NextMove(b, t).price);
            IsSweep(b, t, Matched(rest.book, rest.taker, m.trades + rest.trades))
  {
    NextMaker(b, t);
    PassOnLadder(b, t);
    PassFill(b, t);
    var Take(id, price) := NextMove(b, t);
    FillThenSweep(b, t, Pass(b, t, id, price), rest, Offer(id, price, b.all[id].Remaining()));
  }

  /** matchOrder makes exactly the trades of the greedy sweep, one by one and in order: lowest price in
      reach first, oldest first at each price, each at the maker's own price, until the taker is filled or
      nothing is in reach; and it leaves behind exactly what the sweep leaves. A price-0 level in
      reach is the one exception: then there is no trade at all. */
  lemma {:induction false} MatchIsSweep(b: Book, t: Order)
    requires WF(b) && TakerWF(b, t) && (t.IsActive() || t.status.Filled?)
    ensures IsSweep(b, t, Match(b, t))
    decreases t.Remaining()
  {
    StopMeans(b, t);
    if NextMove(b, t).Take? {
      PassKeepsShape(b, t);
      var m := Pass(b, t, NextMove(b, t).id, NextMove(b, t).price);
      MatchIsSweep(m.book, m.taker);
      PassThenSweep(b, t, Match(m.book, m.taker));
    } else if Eligible(b, t) == {} {
      assert Ladder(b, t) == [];
    }
  }

  // ---------------------------------------------------------------- price priority for sellers

  ghost function Greatest(s: set<nat>): (p: nat)
    requires s != {}
    ensures p in s && forall q :: q in s ==> q <= p
  {
    var x :| x in s;
    if s == {x} then x
    else
      var rest := s - {x};
      assert s == rest + {x};
      assert rest != {};
      var y := Greatest(rest);
      if x > y then x else y
  }

  ghost function Descending(s: set<nat>): seq<nat> {
    if s == {} then [] else [Greatest(s)] + Descending(s - {Greatest(s)})
  }

  /** The ladder the comments in findBestPrice promise a seller: highest bid first. */
  ghost function PromisedLadder(b: Book, t: Order): seq<Offer> {
    Stack(b.all, b.On(t.side.Opposite()), Descending(Eligible(b, t)))
  }

  /** The first offer of a stack is the front order of its first level. */
  lemma StackHead(b: Book, s: Side, prices: seq<nat>, quantity: nat)
    requires WF(b) && prices != [] && prices[0] in b.On(s).levels && 0 < quantity
    ensures Sweep(Stack(b.all, b.On(s), prices), quantity) != []
    ensures Sweep(Stack(b.all, b.On(s), prices), quantity)[0].price == prices[0]
  {
    var queue := b.On(s).levels[prices[0]].queue;
    assert queue != [];
    var stack := Stack(b.all, b.On(s), prices);
    assert stack[0] == Line(b.all, queue, prices[0])[0];
  }

  ghost predicate OnePrice(prices: set<nat>) {
    forall p, q :: p in prices && q in prices ==> p == q
  }

  lemma OnePriceOrders(p: nat)
    ensures Ascending({p}) == [p] && Descending({p}) == [p]
  {
    assert {p} - {p} == {};
    assert Ascending({p}) == [p] + Ascending({p} - {p});
    assert Descending({p}) == [p] + Descending({p} - {p});
  }

  lemma LaddersDiffer(b: Book, t: Order)
    requires WF(b) && 0 < t.Remaining()
    ensures Sweep(Ladder(b, t), t.Remaining()) == Sweep(PromisedLadder(b, t), t.Remaining())
       <==> OnePrice(Eligible(b, t))
  {
    var e := Eligible(b, t);
    if e != {} {
      var lo, hi := Least(e), Greatest(e);
      if lo == hi {
        assert e == {lo};
        OnePriceOrders(lo);
      } else {
        StackHead(b, t.side.Opposite(), Ascending(e), t.Remaining());
        StackHead(b, t.side.Opposite(), Descending(e), t.Remaining());
      }
    }
  }

  /** A price-0 level in reach keeps the taker from everything there is. */
  lemma BlockedMissesAll(b: Book, t: Order)
    requires WF(b) && TakerWF(b, t) && t.IsActive() && Blocked(b, t)
    ensures Fills(Match(b, t).trades, t.id) == [] && Sweep(PromisedLadder(b, t), t.Remaining()) != []
  {
    MatchIsSweep(b, t);
    StackHead(b, t.side.Opposite(), Descending(Eligible(b, t)), t.Remaining());
  }

  /** A seller gets the promised trades exactly when at most one bid price is in reach, and that is not 0: with two
      or more the code starts from the lowest. */
  lemma SellPriorityExactly(b: Book, t: Order)
    requires WF(b) && TakerWF(b, t) && t.IsActive() && t.side.Sell?
    ensures Fills(Match(b, t).trades, t.id) == Sweep(PromisedLadder(b, t), t.Remaining())
       <==> OnePrice(Eligible(b, t)) && !Blocked(b, t)
  {
    if Blocked(b, t) {
      BlockedMissesAll(b, t);
    } else {
      MatchIsSweep(b, t);
      LaddersDiffer(b, t);
    }
  }

  /** The book with o resting in it. */
  function Rested(b: Book, o: Order): Book { AddToBook(b, o).(all := b.all[o.id := o]) }

  lemma RestedLevels(b: Book, o: Order)
    requires WF(b) && TakerWF(b, o) && o.IsActive()
    ensures WF(Rested(b, o))
    ensures Rested(b, o).On(o.side).levels.Keys == b.On(o.side).levels.Keys + {o.price}
    ensures Rested(b, o).all.Keys == b.all.Keys + {o.id}
  {
    AddKeepsShape(b, o);
  }

  lemma EmptyWF()
    ensures WF(EMPTY)
  {
  }

  /** With bids at 10 and at 20, a seller asking 5 does not get the promised trades. */
  lemma AskingFive(b: Book, seller: Order)
    requires WF(b) && 10 in b.bids.levels && 20 in b.bids.levels && 3 !in b.all
    requires seller == Order(3, 8, Sell, 1, 0, 5, Limit, Pending, 3)
    ensures TakerWF(b, seller) && Fills(Match(b, seller).trades, 3) != Sweep(PromisedLadder(b, seller), 1)
  {
    assert 10 in Eligible(b, seller) && 20 in Eligible(b, seller);
    TwoInReach(b, seller, 10, 20);
  }

  lemma TwoInReach(b: Book, t: Order, p: nat, q: nat)
    requires WF(b) && TakerWF(b, t) && t.IsActive() && t.side.Sell?
    requires p in Eligible(b, t) && q in Eligible(b, t) && p != q
    ensures Fills(Match(b, t).trades, t.id) != Sweep(PromisedLadder(b, t), t.Remaining())
  {
    SellPriorityExactly(b, t);
  }
}
