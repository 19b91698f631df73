/** The order book of pkg/channel/orderbook.go as values: what each operation computes. The class in
    OrderBook.dfy performs the same operations in place and is proved against these functions. */
module OrderModel {
  import opened Word64
  import opened Seqs

  type Address = nat   // 0 is Go's zero address

  datatype Side = Buy | Sell {
    function Opposite(): Side { if Buy? then Sell else Buy }
  }

  datatype OrderType = Limit | Market

  datatype Status = Pending | PartialFilled | Filled | Cancelled | Expired

  datatype Order = Order(
    id: nat, owner: Address, side: Side, quantity: u64, filled: u64, price: nat,
    kind: OrderType, status: Status, time: int)
  {
    function Remaining(): u64 { if quantity >= filled then quantity - filled else 0 }

    predicate IsFilled() { status.Filled? || filled >= quantity }

    predicate IsActive() { status.Pending? || status.PartialFilled? }

    function Fill(q: u64): Order {
      if q >= Remaining() then this.(filled := quantity, status := Filled)
      else this.(filled := filled + q, status := PartialFilled)
    }

    /** What a caller hands to PlaceOrder: nothing filled yet, status Pending. */
    predicate IsNew() { filled == 0 && status.Pending? }
  }

  datatype Trade = Trade(
    makerId: nat, takerId: nat, maker: Address, taker: Address, side: Side, quantity: u64, price: nat)
  {
    predicate Names(id: nat) { makerId == id || takerId == id }
  }

  /** A price level. `queue` lists the ids of its orders in arrival order. `born` is a history
      variable the source does not have: the length of the trade log when the level was created. */
  datatype Level = Level(queue: seq<nat>, totalQty: u64, born: nat)

  /** One side of the book: levels by price and the sorted list of those prices. */
  datatype Half = Half(levels: map<nat, Level>, prices: seq<nat>)

  /** The list node holding an order, named by the level whose list it is in. */
  datatype Element = Element(side: Side, price: nat)

  datatype Book = Book(
    bids: Half, asks: Half, orders: map<nat, Element>, all: map<nat, Order>, trades: seq<Trade>)
  {
    function On(s: Side): Half { if s.Buy? then bids else asks }

    function With(s: Side, h: Half): Book {
      Book(if s.Buy? then h else bids, if s.Buy? then asks else h, orders, all, trades)
    }
  }

  const EMPTY: Book := Book(Half(map[], []), Half(map[], []), map[], map[], [])

  datatype Error =
    | OrderIsNil | InvalidQuantity | InvalidPrice | InvalidOwner
    | OrderNotFound | Unauthorized | OrderNotPending

  // ---------------------------------------------------------------- matching

  predicate CanMatch(o: Order, price: nat) {
    o.kind.Market? || (if o.side.Buy? then price <= o.price else price >= o.price)
  }

  function FirstAtMost(ps: seq<nat>, limit: nat): nat {
    if ps == [] then 0 else if ps[0] <= limit then ps[0] else FirstAtMost(ps[1..], limit)
  }

  function LastAtLeast(ps: seq<nat>, limit: nat): nat {
    if ps == [] then 0
    else if ps[|ps| - 1] >= limit then ps[|ps| - 1]
    else LastAtLeast(ps[..|ps| - 1], limit)
  }

  /** The price findBestPrice returns; 0 doubles as "nothing to match". */
  function BestPrice(o: Order, prices: seq<nat>): nat {
    if prices == [] then 0
    else if o.kind.Market? then (if o.side.Buy? then prices[0] else prices[|prices| - 1])
    else if o.side.Buy? then FirstAtMost(prices, o.price)
    else LastAtLeast(prices, o.price)
  }

  function Min(a: nat, b: nat): nat { if a > b then b else a }

  /** A trade names the earlier of the two orders (by time, then id) as its maker. */
  function TradeOf(taker: Order, resting: Order, quantity: u64, price: nat): Trade {
    if resting.time < taker.time || (resting.time == taker.time && resting.id < taker.id)
    then Trade(resting.id, taker.id, resting.owner, taker.owner, taker.side, quantity, price)
    else Trade(taker.id, resting.id, taker.owner, resting.owner, taker.side, quantity, price)
  }

  /** Takes one node out of the level at `price`, and the level with its last node. */
  function DropNode(h: Half, price: nat, id: nat, remaining: u64): Half
    requires price in h.levels
  {
    var level := h.levels[price];
    var queue := Without(level.queue, id);
    if queue == [] then Half(h.levels - {price}, Without(h.prices, price))
    else h.(levels := h.levels[price := level.(queue := queue, totalQty := Sub(level.totalQty, remaining))])
  }

  /** Appends a node to the level at `price`, creating the level if there is none. */
  function PushNode(h: Half, price: nat, id: nat, remaining: u64, descending: bool, now: nat): Half {
    var isNew := price !in h.levels;
    var level := if isNew then Level([], 0, now) else h.levels[price];
    var prices := if isNew then Insert(h.prices, price, descending) else h.prices;
    var level' := level.(queue := level.queue + [id], totalQty := Add(level.totalQty, remaining));
    Half(h.levels[price := level'], prices)
  }

  /** The book without the order's node; without its level there is nothing to do. */
  function RemoveFromBook(b: Book, o: Order): Book {
    if o.price !in b.On(o.side).levels then b
    else
      b.With(o.side, DropNode(b.On(o.side), o.price, o.id, o.Remaining())).(orders := b.orders - {o.id})
  }

  function AddToBook(b: Book, o: Order): Book {
    b.With(o.side, PushNode(b.On(o.side), o.price, o.id, o.Remaining(), o.side.Buy?, |b.trades|))
     .(orders := b.orders[o.id := Element(o.side, o.price)])
  }

  datatype Matched = Matched(book: Book, taker: Order, trades: seq<Trade>)

  /** One pass of the matching loop against the resting order `id` at `price`. */
  function Pass(b: Book, taker: Order, id: nat, price: nat): Matched
    requires id in b.all
  {
    var resting := b.all[id];
    var quantity := Min(taker.Remaining(), resting.Remaining());
    var resting' := resting.Fill(quantity);
    var trade := TradeOf(taker, resting, quantity, price);
    var b' := b.(all := b.all[id := resting'], trades := b.trades + [trade]);
    var b'' :=
      if resting'.IsFilled() || resting'.status.Cancelled?
      then RemoveFromBook(b', resting')
      else b';
    Matched(b'', taker.Fill(quantity), [trade])
  }

  /** What the matching loop does next: stop, or trade with the front of the best level. */
  datatype Move = Stop | Take(id: nat, price: nat)

  function NextMove(b: Book, taker: Order): Move {
    if !taker.IsActive() || taker.Remaining() == 0 then Stop
    else
      var h := b.On(taker.side.Opposite());
      var best := BestPrice(taker, h.prices);
      if best == 0 || !CanMatch(taker, best) || best !in h.levels || h.levels[best].queue == [] then Stop
      else Take(h.levels[best].queue[0], best)
  }

  // ---------------------------------------------------------------- well-formed books

  /** The price list is strictly sorted, lists exactly the levels, and no level is empty. */
  ghost predicate HalfWF(h: Half, descending: bool) {
    && Sorted(h.prices, descending)
    && (forall p :: p in h.prices <==> p in h.levels)
    && (forall p :: p in h.levels ==> h.levels[p].queue != [] && Distinct(h.levels[p].queue))
  }

  /** The ids waiting at price p. */
  ghost function Ids(h: Half, p: nat): set<nat> {
    if p in h.levels then set id | id in h.levels[p].queue else {}
  }

  /** Of the nodes of side s, the index holds exactly the queued ones, each under its order's id. */
  ghost predicate Indexed(h: Half, s: Side, orders: map<nat, Element>) {
    forall p, id :: id in Ids(h, p) <==> id in orders && orders[id] == Element(s, p)
  }

  ghost predicate IndexWF(b: Book) {
    Indexed(b.bids, Buy, b.orders) && Indexed(b.asks, Sell, b.orders)
  }

  ghost predicate OrderWF(o: Order) {
    && 0 < o.quantity && o.filled <= o.quantity
    && (o.status.Filled? <==> o.filled == o.quantity)
    && !o.status.Expired?
  }

  /** Every indexed order is known and its node is at its own side and price. */
  ghost predicate NodesWF(b: Book) {
    forall id :: id in b.orders ==> id in b.all && b.orders[id] == Element(b.all[id].side, b.all[id].price)
  }

  /** Every known order is sound and is indexed exactly while it is active. The orders in `limbo`
      have just stopped being active and are still to be taken out of the book. */
  ghost predicate OrdersWF(b: Book, limbo: set<nat>) {
    forall id :: id in b.all ==>
      && b.all[id].id == id && OrderWF(b.all[id])
      && (id in b.orders <==> b.all[id].IsActive() || id in limbo)
      && (id in limbo ==> !b.all[id].IsActive())
  }

  ghost predicate Shape(b: Book, limbo: set<nat>) {
    && HalfWF(b.bids, true) && HalfWF(b.asks, false)
    && IndexWF(b) && NodesWF(b) && OrdersWF(b, limbo)
  }

  ghost predicate WF(b: Book) { Shape(b, {}) }

  /** An order being matched: not yet known to the book. */
  ghost predicate TakerWF(b: Book, t: Order) {
    t.id !in b.all && OrderWF(t)
  }
}
