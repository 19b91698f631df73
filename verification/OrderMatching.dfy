/** The matching loop, PlaceOrder and CancelOrder, and what one call keeps. */
module OrderMatching {
  import opened Results
  import opened Seqs
  import opened OrderModel
  import opened OrderInvariants

  /** The next maker is an active resting order of the opposite side, first in its queue. */
  lemma NextMaker(b: Book, t: Order)
    requires WF(b) && NextMove(b, t).Take?
    ensures var Take(id, price) := NextMove(b, t);
            && id in b.all && b.all[id].id == id
            && b.all[id].side == t.side.Opposite() && b.all[id].price == price
            && OrderWF(b.all[id]) && b.all[id].IsActive() && 0 < b.all[id].Remaining()
            && id in b.orders
            && price in b.On(t.side.Opposite()).levels
            && b.On(t.side.Opposite()).levels[price].queue[0] == id
            && price in Eligible(b, t) && price == Least(Eligible(b, t)) && price != 0
  {
    var s := t.side.Opposite();
    var Take(id, price) := NextMove(b, t);
    BestPriceIsLeastEligible(b, t);
    assert price in Eligible(b, t);
    assert id in Ids(b.On(s), price);
    assert Indexed(b.On(s), s, b.orders);
  }

  /** The resting order after a pass, still in the book. */
  function Traded(b: Book, t: Order, id: nat, price: nat): Book
    requires id in b.all
  {
    var quantity := Min(t.Remaining(), b.all[id].Remaining());
    b.(all := b.all[id := b.all[id].Fill(quantity)],
       trades := b.trades + [TradeOf(t, b.all[id], quantity, price)])
  }

  lemma TradedKeepsShape(b: Book, t: Order, id: nat, price: nat)
    requires WF(b) && OrderWF(t) && 0 < t.Remaining()
    requires id in b.all && b.all[id].IsActive() && 0 < b.all[id].Remaining()
    ensures Shape(Traded(b, t, id, price), if Traded(b, t, id, price).all[id].IsFilled() then {id} else {})
  {
    assert id in b.orders;
  }

  /** One pass keeps the book well formed and brings the taker closer to being filled. */
  lemma PassKeepsShape(b: Book, t: Order)
    requires WF(b) && TakerWF(b, t) && NextMove(b, t).Take?
    ensures NextMove(b, t).id in b.all
    ensures var m := Pass(b, t, NextMove(b, t).id, NextMove(b, t).price);
            && WF(m.book) && TakerWF(m.book, m.taker)
            && m.taker.Remaining() < t.Remaining()
            && m.book.all.Keys == b.all.Keys
  {
    NextMaker(b, t);
    var Take(id, price) := NextMove(b, t);
    TradedKeepsShape(b, t, id, price);
    var b' := Traded(b, t, id, price);
    if b'.all[id].IsFilled() {
      RemoveKeepsShape(b', b'.all[id]);
    }
  }

  /** matchOrder. */
  function Match(b: Book, t: Order): (m: Matched)
    requires WF(b) && TakerWF(b, t)
    ensures WF(m.book) && TakerWF(m.book, m.taker) && m.book.all.Keys == b.all.Keys
    ensures NextMove(m.book, m.taker).Stop?
    decreases t.Remaining()
  {
    match NextMove(b, t)
    case Stop => Matched(b, t, [])
    case Take(id, price) =>
      PassKeepsShape(b, t);
      var first := Pass(b, t, id, price);
      var rest := Match(first.book, first.taker);
      Matched(rest.book, rest.taker, first.trades + rest.trades)
  }

  function Validate(o: Order): Option<Error> {
    if o.quantity == 0 then Some(InvalidQuantity)
    else if o.kind.Limit? && o.price == 0 then Some(InvalidPrice)
    else if o.owner == 0 then Some(InvalidOwner)
    else None
  }

  /** What is left of a matched order rests in the book; the order is recorded either way. */
  function Settle(b: Book, o: Order): Book {
    (if o.IsActive() && o.Remaining() > 0 then AddToBook(b, o) else b).(all := b.all[o.id := o])
  }

  datatype Placed = Placed(book: Book, outcome: Result<Order, Error>, trades: seq<Trade>)

  /** PlaceOrder of an order whose id the book has not seen. */
  function Place(b: Book, o: Order): Placed
    requires WF(b) && o.id !in b.all && o.IsNew()
  {
    if Validate(o).Some? then Placed(b, Err(Validate(o).value), [])
    else
      var m := Match(b, o);
      Placed(Settle(m.book, m.taker), Ok(m.taker), m.trades)
  }

  /** CancelOrder. */
  function Cancel(b: Book, id: nat, owner: Address): (Book, Option<Error>) {
    if id !in b.all then (b, Some(OrderNotFound))
    else if b.all[id].owner != owner then (b, Some(Unauthorized))
    else if !b.all[id].IsActive() then (b, Some(OrderNotPending))
    else
      var o := b.all[id].(status := Cancelled);
      var b' := b.(all := b.all[id := o]);
      (if id in b.orders then RemoveFromBook(b', o) else b', None)
  }

  lemma MatchKeepsIdentity(b: Book, t: Order)
    requires WF(b) && TakerWF(b, t)
    ensures var t' := Match(b, t).taker;
            && t' == t.(filled := t'.filled, status := t'.status) && t.filled <= t'.filled
            && (t.IsActive() ==> t'.IsActive() || t'.status.Filled?)
    decreases t.Remaining()
  {
    if NextMove(b, t).Take? {
      PassKeepsShape(b, t);
      var m := Pass(b, t, NextMove(b, t).id, NextMove(b, t).price);
      MatchKeepsIdentity(m.book, m.taker);
    }
  }

  lemma SettleKeepsShape(b: Book, o: Order)
    requires WF(b) && TakerWF(b, o) && (o.IsActive() ==> o.Remaining() > 0)
    ensures WF(Settle(b, o))
  {
    if o.IsActive() {
      AddKeepsShape(b, o);
    } else {
      assert o.id !in b.orders;
    }
  }

  /** PlaceOrder keeps the book well formed. */
  lemma PlaceKeepsShape(b: Book, o: Order)
    requires WF(b) && o.id !in b.all && o.IsNew()
    ensures WF(Place(b, o).book)
  {
    if Validate(o).None? {
      var m := Match(b, o);
      MatchKeepsIdentity(b, o);
      SettleKeepsShape(m.book, m.taker);
    }
  }

  /** CancelOrder keeps the book well formed. */
  lemma CancelKeepsShape(b: Book, id: nat, owner: Address)
    requires WF(b)
    ensures WF(Cancel(b, id, owner).0)
  {
    if id in b.all && b.all[id].owner == owner && b.all[id].IsActive() {
      var o := b.all[id].(status := Cancelled);
      var b' := b.(all := b.all[id := o]);
      assert Shape(b', {id});
      RemoveKeepsShape(b', o);
    }
  }
}
