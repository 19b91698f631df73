/** What holds over every run of PlaceOrder and CancelOrder. */
module OrderRuns {
  import opened OrderModel
  import opened OrderInvariants
  import opened OrderMatching
  import opened OrderSweep

  datatype Op = PlaceOp(order: Order) | CancelOp(id: nat, owner: Address)

  /** What callers owe the book, which never checks it: a new order under an id not used before. */
  ghost predicate Allowed(b: Book, op: Op) {
    op.PlaceOp? ==> op.order.id !in b.all && op.order.IsNew()
  }

  ghost function Step(b: Book, op: Op): (b': Book)
    requires WF(b) && Allowed(b, op)
    ensures WF(b')
  {
    match op
    case PlaceOp(o) => PlaceKeepsShape(b, o); Place(b, o).book
    case CancelOp(id, owner) => CancelKeepsShape(b, id, owner); Cancel(b, id, owner).0
  }

  ghost predicate Legal(b: Book, ops: seq<Op>)
    requires WF(b)
    decreases |ops|
  {
    ops != [] ==> Allowed(b, ops[0]) && Legal(Step(b, ops[0]), ops[1..])
  }

  /** The book after a run. */
  ghost function Run(b: Book, ops: seq<Op>): (b': Book)
    requires WF(b) && Legal(b, ops)
    ensures WF(b')
    decreases |ops|
  {
    if ops == [] then b else Run(Step(b, ops[0]), ops[1..])
  }

  // ---------------------------------------------------------------- the trade log accounts for every fill

  ghost function Named(trades: seq<Trade>, id: nat): nat {
    if trades == [] then 0
    else
      var last := trades[|trades| - 1];
      Named(trades[..|trades| - 1], id) + (if last.Names(id) then last.quantity else 0)
  }

  lemma NamedSnoc(trades: seq<Trade>, trade: Trade, id: nat)
    ensures Named(trades + [trade], id) == Named(trades, id) + (if trade.Names(id) then trade.quantity else 0)
  {
    assert (trades + [trade])[..|trades|] == trades;
  }

  /** Every known order has been filled by exactly what the logged trades naming it say, and trades
      name known orders only. */
  ghost predicate LedgerWF(trades: seq<Trade>, all: map<nat, Order>) {
    && (forall id :: id in all ==> all[id].filled == Named(trades, id))
    && (forall id :: id !in all ==> Named(trades, id) == 0)
  }

  /** A trade that fills the two orders it names, and no other. */
  lemma LedgerStep(trades: seq<Trade>, trade: Trade, all: map<nat, Order>, i: nat, j: nat, oi: Order, oj: Order)
    requires LedgerWF(trades, all) && i in all && j in all && i != j
    requires forall id :: trade.Names(id) <==> id == i || id == j
    requires oi.filled == all[i].filled + trade.quantity && oj.filled == all[j].filled + trade.quantity
    ensures LedgerWF(trades + [trade], all[i := oi][j := oj])
  {
    forall id ensures Named(trades + [trade], id) == Named(trades, id) + (if trade.Names(id) then trade.quantity else 0) {
      NamedSnoc(trades, trade, id);
    }
  }

  lemma PassKeepsLedger(b: Book, t: Order)
    requires WF(b) && TakerWF(b, t) && NextMove(b, t).Take? && LedgerWF(b.trades, b.all[t.id := t])
    ensures NextMove(b, t).id in b.all
    ensures var m := Pass(b, t, NextMove(b, t).id, NextMove(b, t).price);
            LedgerWF(m.book.trades, m.book.all[t.id := m.taker])
  {
    PassEffect(b, t);
    NextMaker(b, t);
    var Take(id, price) := NextMove(b, t);
    var m, hit := Pass(b, t, id, price), Hit(b, t, id);
    LedgerStep(b.trades, m.trades[0], b.all[t.id := t], id, t.id, hit, m.taker);
    assert b.all[t.id := t][id := hit][t.id := m.taker] == m.book.all[t.id := m.taker];
  }

  lemma {:induction false} MatchKeepsLedger(b: Book, t: Order)
    requires WF(b) && TakerWF(b, t) && LedgerWF(b.trades, b.all[t.id := t])
    ensures var m := Match(b, t); LedgerWF(m.book.trades, m.book.all[t.id := m.taker])
    decreases t.Remaining()
  {
    if NextMove(b, t).Take? {
      PassKeepsShape(b, t);
      PassKeepsLedger(b, t);
      var m := Pass(b, t, NextMove(b, t).id, NextMove(b, t).price);
      MatchKeepsLedger(m.book, m.taker);
    }
  }

  lemma PlaceKeepsLedger(b: Book, o: Order)
    requires WF(b) && o.id !in b.all && o.IsNew() && LedgerWF(b.trades, b.all)
    ensures LedgerWF(Place(b, o).book.trades, Place(b, o).book.all)
  {
    if Validate(o).None? {
      MatchKeepsLedger(b, o);
      MatchKeepsIdentity(b, o);
    }
  }

  lemma CancelKeepsLedger(b: Book, id: nat, owner: Address)
    requires WF(b) && LedgerWF(b.trades, b.all)
    ensures LedgerWF(Cancel(b, id, owner).0.trades, Cancel(b, id, owner).0.all)
  {
  }

  lemma StepKeepsLedger(b: Book, op: Op)
    requires WF(b) && Allowed(b, op) && LedgerWF(b.trades, b.all)
    ensures LedgerWF(Step(b, op).trades, Step(b, op).all)
  {
    match op
    case PlaceOp(o) => PlaceKeepsLedger(b, o);
    case CancelOp(id, owner) => CancelKeepsLedger(b, id, owner);
  }

  /** Over every run, what an order has been filled is what the trades naming it add up to. */
  lemma {:induction false} RunKeepsLedger(b: Book, ops: seq<Op>)
    requires WF(b) && Legal(b, ops) && LedgerWF(b.trades, b.all)
    ensures LedgerWF(Run(b, ops).trades, Run(b, ops).all)
    decreases |ops|
  {
    if ops != [] {
      StepKeepsLedger(b, ops[0]);
      RunKeepsLedger(Step(b, ops[0]), ops[1..]);
    }
  }

  // ---------------------------------------------------------------- orders that are done stay as they are

  lemma {:induction false} MatchKeepsDone(b: Book, t: Order, id: nat)
    requires WF(b) && TakerWF(b, t) && id in b.all && !b.all[id].IsActive()
    ensures id in Match(b, t).book.all && Match(b, t).book.all[id] == b.all[id]
    decreases t.Remaining()
  {
    if NextMove(b, t).Take? {
      PassKeepsShape(b, t);
      NextMaker(b, t);
      PassEffect(b, t);
      var m := Pass(b, t, NextMove(b, t).id, NextMove(b, t).price);
      MatchKeepsDone(m.book, m.taker, id);
    }
  }

  lemma StepKeepsDone(b: Book, op: Op, id: nat)
    requires WF(b) && Allowed(b, op) && id in b.all && !b.all[id].IsActive()
    ensures id in Step(b, op).all && Step(b, op).all[id] == b.all[id]
  {
    if op.PlaceOp? && Validate(op.order).None? {
      MatchKeepsDone(b, op.order, id);
    }
  }

  /** A cancelled or filled order never changes again, whatever the run. */
  lemma {:induction false} RunKeepsDone(b: Book, ops: seq<Op>, id: nat)
    requires WF(b) && Legal(b, ops) && id in b.all && !b.all[id].IsActive()
    ensures id in Run(b, ops).all && Run(b, ops).all[id] == b.all[id]
    decreases |ops|
  {
    if ops != [] {
      StepKeepsDone(b, ops[0], id);
      RunKeepsDone(Step(b, ops[0]), ops[1..], id);
    }
  }

  // ---------------------------------------------------------------- the book is never crossed

  ghost predicate Uncrossed(b: Book) {
    forall p, q :: p in b.bids.levels && q in b.asks.levels ==> p < q
  }

  /** No level sits at the sentinel price. */
  ghost predicate Priced(b: Book) { 0 !in b.bids.levels && 0 !in b.asks.levels }

  ghost predicate Sound(b: Book) { Uncrossed(b) && Priced(b) }

  ghost predicate Fewer(b: Book, b': Book) {
    b'.bids.levels.Keys <= b.bids.levels.Keys && b'.asks.levels.Keys <= b.asks.levels.Keys
  }

  lemma {:induction false} MatchOnlyRemovesLevels(b: Book, t: Order)
    requires WF(b) && TakerWF(b, t)
    ensures Fewer(b, Match(b, t).book)
    decreases t.Remaining()
  {
    if NextMove(b, t).Take? {
      PassKeepsShape(b, t);
      PassEffect(b, t);
      var m := Pass(b, t, NextMove(b, t).id, NextMove(b, t).price);
      assert Fewer(b, m.book);
      MatchOnlyRemovesLevels(m.book, m.taker);
    }
  }

  /** What is left of a priced order rests on its own side of every opposite price. */
  lemma RestsApart(b: Book, t: Order)
    requires WF(b) && OrderWF(t) && t.IsActive() && 0 < t.Remaining() && 0 < t.price
    requires Priced(b) && NextMove(b, t).Stop?
    ensures forall q :: q in b.On(t.side.Opposite()).levels ==> if t.side.Buy? then t.price < q else q < t.price
  {
    StopMeans(b, t);
    forall q | q in b.On(t.side.Opposite()).levels ensures if t.side.Buy? then t.price < q else q < t.price {
      assert q !in Eligible(b, t);
    }
  }

  lemma RestingKeepsUncrossed(b: Book, t: Order)
    requires WF(b) && OrderWF(t) && t.IsActive() && 0 < t.Remaining() && 0 < t.price
    requires Sound(b) && NextMove(b, t).Stop?
    ensures Sound(AddToBook(b, t))
  {
    RestsApart(b, t);
    assert AddToBook(b, t).On(t.side).levels.Keys == b.On(t.side).levels.Keys + {t.price};
  }

  lemma PlaceKeepsUncrossed(b: Book, o: Order)
    requires WF(b) && o.id !in b.all && o.IsNew() && 0 < o.price && Sound(b)
    ensures Sound(Place(b, o).book)
  {
    if Validate(o).None? {
      var m := Match(b, o);
      MatchOnlyRemovesLevels(b, o);
      MatchKeepsIdentity(b, o);
      if m.taker.IsActive() && m.taker.Remaining() > 0 {
        RestingKeepsUncrossed(m.book, m.taker);
      }
    }
  }

  lemma {:induction false} SweepVolume(offers: seq<Offer>, quantity: nat)
    ensures Volume(Sweep(offers, quantity)) == Min(quantity, Volume(offers))
  {
    if offers != [] && quantity != 0 {
      if quantity < offers[0].quantity {
        assert Volume([offers[0].(quantity := quantity)]) == quantity + Volume([]);
      } else {
        SweepVolume(offers[1..], quantity - offers[0].quantity);
      }
    }
  }

  /** An order without a price keeps the book sound exactly when there is enough on the other side to fill
      it: what is left of it would rest at the sentinel price 0. Every other order keeps the book sound. */
  lemma PlaceKeepsSoundExactly(b: Book, o: Order)
    requires WF(b) && o.id !in b.all && o.IsNew() && Sound(b)
    ensures Sound(Place(b, o).book) <==> 0 < o.price || Validate(o).Some? || o.quantity <= Volume(Ladder(b, o))
  {
    if 0 < o.price {
      PlaceKeepsUncrossed(b, o);
    } else if Validate(o).None? {
      UnpricedFill(b, o);
      UnpricedRests(b, o);
    }
  }

  lemma UnpricedFill(b: Book, o: Order)
    requires WF(b) && o.id !in b.all && o.IsNew() && Priced(b) && Validate(o).None?
    ensures Match(b, o).taker.Remaining() == 0 <==> o.quantity <= Volume(Ladder(b, o))
  {
    MatchIsSweep(b, o);
    assert 0 !in b.On(o.side.Opposite()).levels;
    SweptRemaining(b, o, Match(b, o));
  }

  lemma SweptRemaining(b: Book, o: Order, m: Matched)
    requires IsSweep(b, o, m) && !Blocked(b, o)
    ensures m.taker.Remaining() == o.Remaining() - Min(o.Remaining(), Volume(Ladder(b, o)))
  {
    SweepVolume(Ladder(b, o), o.Remaining());
  }

  lemma UnpricedRests(b: Book, o: Order)
    requires WF(b) && o.id !in b.all && o.IsNew() && Sound(b) && Validate(o).None? && o.price == 0
    ensures Sound(Place(b, o).book) <==> Match(b, o).taker.Remaining() == 0
  {
    var m := Match(b, o);
    MatchKeepsIdentity(b, o);
    MatchOnlyRemovesLevels(b, o);
    if m.taker.Remaining() > 0 {
      assert 0 in Place(b, o).book.On(o.side).levels;
    }
  }

  /** With nothing left in reach, what is left of the order rests on its own side of every opposite price. */
  lemma RestingOutOfReach(b: Book, t: Order)
    requires Uncrossed(b) && Eligible(b, t) == {}
    ensures Uncrossed(AddToBook(b, t))
  {
    forall q | q in b.On(t.side.Opposite()).levels ensures if t.side.Buy? then t.price < q else q < t.price {
      assert q !in Eligible(b, t);
    }
    assert AddToBook(b, t).On(t.side).levels.Keys == b.On(t.side).levels.Keys + {t.price};
  }

  lemma UnblockedKeepsUncrossed(b: Book, o: Order)
    requires WF(b) && o.id !in b.all && o.IsNew() && Uncrossed(b) && Validate(o).None? && !Blocked(b, o)
    ensures Uncrossed(Place(b, o).book)
  {
    var m := Match(b, o);
    MatchOnlyRemovesLevels(b, o);
    MatchKeepsIdentity(b, o);
    if m.taker.IsActive() && m.taker.Remaining() > 0 {
      StopMeans(m.book, m.taker);
      assert Eligible(m.book, m.taker) == {};
      RestingOutOfReach(m.book, m.taker);
    }
  }

  lemma BlockedRests(b: Book, o: Order)
    requires WF(b) && o.id !in b.all && o.IsNew() && Uncrossed(b) && Validate(o).None? && Blocked(b, o)
    ensures Uncrossed(Place(b, o).book) <==> o.side.Sell? && forall p :: p in b.bids.levels ==> p < o.price
  {
    StopMeans(b, o);
    var b' := Place(b, o).book;
    assert b'.On(o.side).levels.Keys == b.On(o.side).levels.Keys + {o.price};
    assert b'.On(o.side.Opposite()) == b.On(o.side.Opposite());
    assert 0 in b'.On(o.side.Opposite()).levels;
  }

  /** When a book becomes crossed: an order crosses an uncrossed book exactly when a price-0 level on the other side
      is in its reach, so that it rests unmatched, unless it sells above every bid. */
  lemma PlaceKeepsUncrossedExactly(b: Book, o: Order)
    requires WF(b) && o.id !in b.all && o.IsNew() && Uncrossed(b)
    ensures Uncrossed(Place(b, o).book)
       <==> Validate(o).Some? || !Blocked(b, o) || (o.side.Sell? && forall p :: p in b.bids.levels ==> p < o.price)
  {
    if Validate(o).None? {
      if Blocked(b, o) { BlockedRests(b, o); } else { UnblockedKeepsUncrossed(b, o); }
    }
  }

  /** An order that finds nothing to trade with is recorded and rests as it came. */
  lemma RestsWhole(b: Book, o: Order)
    requires WF(b) && o.id !in b.all && o.IsNew() && Validate(o).None? && NextMove(b, o).Stop?
    ensures Place(b, o).book == Rested(b, o) && Place(b, o).trades == []
  {
  }

  /** With nothing on the other side, an order rests as it came. */
  lemma RestsAlone(b: Book, op: Op)
    requires WF(b) && op.PlaceOp? && Allowed(b, op) && Validate(op.order).None?
    requires b.On(op.order.side.Opposite()).prices == []
    ensures var o, b' := op.order, Step(b, op);
            && b'.On(o.side).levels.Keys == b.On(o.side).levels.Keys + {o.price}
            && b'.On(o.side.Opposite()) == b.On(o.side.Opposite()) && b'.all.Keys == b.all.Keys + {o.id}
  {
    RestsWhole(b, op.order);
    RestedLevels(b, op.order);
  }

  lemma TwoRest(b: Book, ops: seq<Op>)
    requires WF(b) && |ops| == 2 && ops[0].PlaceOp? && ops[1].PlaceOp? && ops[0].order.side == ops[1].order.side
    requires b.On(ops[0].order.side.Opposite()).prices == []
    requires Allowed(b, ops[0]) && Allowed(b, ops[1]) && ops[0].order.id != ops[1].order.id
    requires Validate(ops[0].order).None? && Validate(ops[1].order).None?
    ensures Legal(b, ops)
    ensures var b', s := Run(b, ops), ops[0].order.side;
            && ops[0].order.price in b'.On(s).levels && ops[1].order.price in b'.On(s).levels
            && forall id :: id in b'.all ==> id in b.all || id == ops[0].order.id || id == ops[1].order.id
  {
    RestsAlone(b, ops[0]);
    RestsAlone(Step(b, ops[0]), ops[1]);
    LegalTwo(b, ops);
  }

  ghost predicate AreTwoBids(ops: seq<Op>) {
    && |ops| == 2 && ops[0] == PlaceOp(Order(1, 7, Buy, 4, 0, 10, Limit, Pending, 1))
    && ops[1] == PlaceOp(Order(2, 7, Buy, 4, 0, 20, Limit, Pending, 2))
  }

  lemma TwoBids(b: Book, ops: seq<Op>)
    requires WF(b) && b.asks.prices == [] && b.all == map[] && AreTwoBids(ops)
    ensures Legal(b, ops)
    ensures 10 in Run(b, ops).bids.levels && 20 in Run(b, ops).bids.levels && 3 !in Run(b, ops).all
  {
    TwoRest(b, ops);
  }

  /** After orders to buy 4 at 10 and 4 at 20, a seller asking 5 does not get the promised trades. */
  lemma SellerMissesHighBid(ops: seq<Op>, seller: Order)
    requires AreTwoBids(ops) && seller == Order(3, 8, Sell, 1, 0, 5, Limit, Pending, 3)
    ensures WF(EMPTY) && Legal(EMPTY, ops) && TakerWF(Run(EMPTY, ops), seller)
    ensures Fills(Match(Run(EMPTY, ops), seller).trades, 3) != Sweep(PromisedLadder(Run(EMPTY, ops), seller), 1)
  {
    EmptyWF();
    TwoBids(EMPTY, ops);
    AskingFive(Run(EMPTY, ops), seller);
  }

  /** Two orders that cross an empty book: an unpriced market order to sell 4, which rests at price 0, and a limit
      order to buy 4 at 10, which that level blocks and which rests above it. */
  lemma CrossingRun() returns (ops: seq<Op>)
    ensures |ops| == 2 && ops[0].PlaceOp? && ops[1].PlaceOp?
    ensures ops[0].order == Order(1, 7, Sell, 4, 0, 0, Market, Pending, 1)
    ensures ops[1].order == Order(2, 8, Buy, 4, 0, 10, Limit, Pending, 2)
    ensures WF(EMPTY) && Legal(EMPTY, ops) && !Uncrossed(Run(EMPTY, ops))
    ensures Blocked(Step(EMPTY, ops[0]), ops[1].order)
  {
    var seller := Order(1, 7, Sell, 4, 0, 0, Market, Pending, 1);
    var buyer := Order(2, 8, Buy, 4, 0, 10, Limit, Pending, 2);
    ops := [PlaceOp(seller), PlaceOp(buyer)];
    EmptyWF();
    RestsWhole(EMPTY, seller);
    RestedLevels(EMPTY, seller);
    var b := Step(EMPTY, ops[0]);
    assert b == Rested(EMPTY, seller);
    assert 0 in b.asks.levels && 0 in Eligible(b, buyer);
    PlaceKeepsUncrossedExactly(b, buyer);
    LegalTwo(EMPTY, ops);
  }

  lemma LegalTwo(b: Book, ops: seq<Op>)
    requires WF(b) && |ops| == 2 && Allowed(b, ops[0]) && Allowed(Step(b, ops[0]), ops[1])
    ensures Legal(b, ops) && Run(b, ops) == Step(Step(b, ops[0]), ops[1])
  {
    var b1 := Step(b, ops[0]);
    assert ops[1..] == [ops[1]] && ops[1..][1..] == [];
    assert Legal(Step(b1, ops[1]), []);
    assert Legal(b1, ops[1..]);
    assert Run(b1, ops[1..]) == Run(Step(b1, ops[1]), []);
  }

  lemma CancelKeepsUncrossed(b: Book, id: nat, owner: Address)
    requires WF(b) && Sound(b)
    ensures Sound(Cancel(b, id, owner).0)
  {
    assert Fewer(b, Cancel(b, id, owner).0);
  }

  lemma StepKeepsUncrossed(b: Book, op: Op)
    requires WF(b) && Allowed(b, op) && Sound(b)
    requires op.PlaceOp? ==> 0 < op.order.price || Validate(op.order).Some?
    ensures Sound(Step(b, op))
  {
    match op
    case PlaceOp(o) => PlaceKeepsSoundExactly(b, o);
    case CancelOp(id, owner) => CancelKeepsUncrossed(b, id, owner);
  }

  /** In every run whose accepted orders all carry a price (every limit order does), no resting bid reaches a
      resting ask at any time. */
  lemma {:induction false} RunKeepsUncrossed(b: Book, ops: seq<Op>)
    requires WF(b) && Legal(b, ops) && Sound(b)
    requires forall i :: 0 <= i < |ops| && ops[i].PlaceOp? ==>
               0 < ops[i].order.price || Validate(ops[i].order).Some?
    ensures Sound(Run(b, ops))
    decreases |ops|
  {
    if ops != [] {
      StepKeepsUncrossed(b, ops[0]);
      RunKeepsUncrossed(Step(b, ops[0]), ops[1..]);
    }
  }
}
