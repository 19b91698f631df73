/** Quantities: what rests on each side, and what a level's cached `totalQty` means. */
module OrderDepth {
  import opened Word64
  import opened Seqs
  import opened OrderModel
  import opened OrderMatching
  import opened OrderSweep
  import opened OrderRuns
  import MapSums

  /** What the queued orders still want. */
  ghost function Want(all: map<nat, Order>, queue: seq<nat>): nat {
    if queue == [] then 0 else Left(all, queue[0]) + Want(all, queue[1..])
  }

  lemma {:induction false} WantFrame(all: map<nat, Order>, id: nat, o: Order, queue: seq<nat>)
    requires id !in queue
    ensures Want(all[id := o], queue) == Want(all, queue)
  {
    if queue != [] {
      WantFrame(all, id, o, queue[1..]);
    }
  }

  lemma {:induction false} WantSnoc(all: map<nat, Order>, queue: seq<nat>, id: nat)
    ensures Want(all, queue + [id]) == Want(all, queue) + Left(all, id)
  {
    if queue != [] {
      assert (queue + [id])[1..] == queue[1..] + [id];
      WantSnoc(all, queue[1..], id);
    } else {
      assert queue + [id] == [id];
      assert Want(all, [id]) == Left(all, id) + Want(all, []);
    }
  }

  lemma {:induction false} WantDrop(all: map<nat, Order>, queue: seq<nat>, id: nat)
    requires id in queue
    ensures Want(all, Without(queue, id)) == Want(all, queue) - Left(all, id)
  {
    if queue[0] != id {
      WantDrop(all, queue[1..], id);
      assert Without(queue, id) == [queue[0]] + Without(queue[1..], id);
    }
  }

  // ---------------------------------------------------------------- conservation

  ghost function WantedAt(all: map<nat, Order>, h: Half): map<nat, int> {
    map p | p in h.levels :: Want(all, h.levels[p].queue)
  }

  /** The quantity resting on side s. */
  ghost function Resting(b: Book, s: Side): int { MapSums.Sum(WantedAt(b.all, b.On(s))) }

  lemma WaitingFrame(all: map<nat, Order>, id: nat, o: Order, h: Half)
    requires forall p :: p in h.levels ==> id !in h.levels[p].queue
    ensures WantedAt(all[id := o], h) == WantedAt(all, h)
  {
    forall p | p in h.levels ensures Want(all[id := o], h.levels[p].queue) == Want(all, h.levels[p].queue) {
      WantFrame(all, id, o, h.levels[p].queue);
    }
  }

  /** Rewriting an order that waits at one price moves that price's share by the difference. */
  lemma WaitingRewrite(all: map<nat, Order>, id: nat, o: Order, h: Half, price: nat)
    requires price in h.levels && id in all && id in h.levels[price].queue && Distinct(h.levels[price].queue)
    requires forall p :: p in h.levels && p != price ==> id !in h.levels[p].queue
    ensures MapSums.Sum(WantedAt(all[id := o], h)) == MapSums.Sum(WantedAt(all, h)) + o.Remaining() - Left(all, id)
  {
    var queue, all' := h.levels[price].queue, all[id := o];
    forall p | p in h.levels && p != price ensures Want(all', h.levels[p].queue) == Want(all, h.levels[p].queue) {
      WantFrame(all, id, o, h.levels[p].queue);
    }
    WantDrop(all, queue, id);
    WantDrop(all', queue, id);
    WithoutElements(queue, id);
    WantFrame(all, id, o, Without(queue, id));
    assert WantedAt(all', h) == WantedAt(all, h)[price := Want(all', queue)];
    MapSums.Update(WantedAt(all, h), price, Want(all', queue));
  }

  /** Dropping a node takes away what its order still wanted. */
  lemma WaitingDrop(all: map<nat, Order>, id: nat, h: Half, price: nat, remaining: u64)
    requires price in h.levels && id in h.levels[price].queue
    ensures MapSums.Sum(WantedAt(all, DropNode(h, price, id, remaining))) == MapSums.Sum(WantedAt(all, h)) - Left(all, id)
  {
    var queue, h' := h.levels[price].queue, DropNode(h, price, id, remaining);
    WantDrop(all, queue, id);
    if Without(queue, id) == [] {
      assert WantedAt(all, h') == WantedAt(all, h) - {price};
      MapSums.Split(WantedAt(all, h), price);
    } else {
      assert WantedAt(all, h') == WantedAt(all, h)[price := Want(all, Without(queue, id))];
      MapSums.Update(WantedAt(all, h), price, Want(all, Without(queue, id)));
    }
  }

  lemma WaitingPush(all: map<nat, Order>, h: Half, price: nat, id: nat, remaining: u64, descending: bool, now: nat)
    ensures MapSums.Sum(WantedAt(all, PushNode(h, price, id, remaining, descending, now)))
         == MapSums.Sum(WantedAt(all, h)) + Left(all, id)
  {
    var queue := if price in h.levels then h.levels[price].queue else [];
    var h' := PushNode(h, price, id, remaining, descending, now);
    WantSnoc(all, queue, id);
    assert WantedAt(all, h') == WantedAt(all, h)[price := Want(all, queue + [id])];
    MapSums.Update(WantedAt(all, h), price, Want(all, queue + [id]));
  }

  /** An indexed order waits on its own side, at its own price, once. */
  lemma WaitsOnce(b: Book, id: nat)
    requires WF(b) && id in b.orders
    ensures id in b.all
    ensures var o := b.all[id];
            var h := b.On(o.side);
            && o.price in h.levels && id in h.levels[o.price].queue && Distinct(h.levels[o.price].queue)
            && (forall p :: p in h.levels && p != o.price ==> id !in h.levels[p].queue)
            && (forall p :: p in b.On(o.side.Opposite()).levels ==> id !in b.On(o.side.Opposite()).levels[p].queue)
  {
    var o := b.all[id];
    var s, across := o.side, o.side.Opposite();
    assert Indexed(b.On(s), s, b.orders) && Indexed(b.On(across), across, b.orders);
    assert id in Ids(b.On(s), o.price);
    forall p | p in b.On(s).levels && p != o.price ensures id !in b.On(s).levels[p].queue {
      assert id !in Ids(b.On(s), p);
    }
    forall p | p in b.On(across).levels ensures id !in b.On(across).levels[p].queue {
      assert id !in Ids(b.On(across), p);
    }
  }

  /** A pass moves the same quantity off the resting side as onto the taker. */
  lemma PassConserves(b: Book, t: Order)
    requires WF(b) && TakerWF(b, t) && NextMove(b, t).Take?
    ensures NextMove(b, t).id in b.all
    ensures var m := Pass(b, t, NextMove(b, t).id, NextMove(b, t).price);
            && Resting(m.book, t.side.Opposite()) == Resting(b, t.side.Opposite()) - (t.Remaining() - m.taker.Remaining())
            && Resting(m.book, t.side) == Resting(b, t.side)
  {
    NextMaker(b, t);
    PassEffect(b, t);
    PassFill(b, t);
    var Take(id, price) := NextMove(b, t);
    var hit, h := Hit(b, t, id), b.On(t.side.Opposite());
    WaitsOnce(b, id);
    assert b.all[id].side.Opposite() == t.side;
    WaitingFrame(b.all, id, hit, b.On(t.side));
    WaitingRewrite(b.all, id, hit, h, price);
    if hit.IsFilled() {
      WaitingDrop(b.all[id := hit], id, h, price, 0);
    }
  }

  lemma {:induction false} MatchConserves(b: Book, t: Order)
    requires WF(b) && TakerWF(b, t)
    ensures var m := Match(b, t);
            && Resting(m.book, t.side.Opposite()) == Resting(b, t.side.Opposite()) - (t.Remaining() - m.taker.Remaining())
            && Resting(m.book, t.side) == Resting(b, t.side)
    decreases t.Remaining()
  {
    if NextMove(b, t).Take? {
      PassKeepsShape(b, t);
      PassConserves(b, t);
      var m := Pass(b, t, NextMove(b, t).id, NextMove(b, t).price);
      MatchConserves(m.book, m.taker);
    }
  }

  /** An id the book does not know waits nowhere. */
  lemma WaitsNowhere(b: Book, id: nat, s: Side)
    requires WF(b) && id !in b.orders
    ensures forall p :: p in b.On(s).levels ==> id !in b.On(s).levels[p].queue
  {
    assert Indexed(b.On(s), s, b.orders);
    forall p | p in b.On(s).levels ensures id !in b.On(s).levels[p].queue {
      assert id !in Ids(b.On(s), p);
    }
  }

  /** Resting an order adds what it still wants to its own side. */
  lemma RestConserves(b: Book, o: Order)
    requires WF(b) && o.id !in b.all
    ensures var b' := AddToBook(b, o).(all := b.all[o.id := o]);
            && Resting(b', o.side) == Resting(b, o.side) + o.Remaining()
            && Resting(b', o.side.Opposite()) == Resting(b, o.side.Opposite())
  {
    WaitsNowhere(b, o.id, o.side);
    WaitsNowhere(b, o.id, o.side.Opposite());
    WaitingFrame(b.all, o.id, o, b.On(o.side));
    WaitingFrame(b.all, o.id, o, b.On(o.side.Opposite()));
    WaitingPush(b.all[o.id := o], b.On(o.side), o.price, o.id, o.Remaining(), o.side.Buy?, |b.trades|);
  }

  lemma SettleConserves(b: Book, o: Order)
    requires WF(b) && o.id !in b.all && (o.IsActive() || o.Remaining() == 0)
    ensures Resting(Settle(b, o), o.side) == Resting(b, o.side) + o.Remaining()
    ensures Resting(Settle(b, o), o.side.Opposite()) == Resting(b, o.side.Opposite())
  {
    if o.IsActive() && o.Remaining() > 0 {
      RestConserves(b, o);
    } else {
      WaitsNowhere(b, o.id, o.side);
      WaitsNowhere(b, o.id, o.side.Opposite());
      WaitingFrame(b.all, o.id, o, b.On(o.side));
      WaitingFrame(b.all, o.id, o, b.On(o.side.Opposite()));
    }
  }

  /** PlaceOrder takes from the resting side exactly what it fills on the taker, and adds to the taker's
      own side exactly what is left of it. */
  lemma PlaceConserves(b: Book, o: Order)
    requires WF(b) && o.id !in b.all && o.IsNew() && Validate(o).None?
    ensures var p := Place(b, o);
            && p.outcome.Ok?
            && Resting(p.book, o.side.Opposite()) == Resting(b, o.side.Opposite()) - p.outcome.value.filled
            && Resting(p.book, o.side) == Resting(b, o.side) + p.outcome.value.Remaining()
            && p.outcome.value.filled + p.outcome.value.Remaining() == o.quantity
  {
    MatchConserves(b, o);
    MatchKeepsIdentity(b, o);
    SettleConserves(Match(b, o).book, Match(b, o).taker);
  }

  /** CancelOrder takes away exactly what the order still wanted. */
  lemma CancelConserves(b: Book, id: nat, owner: Address)
    requires WF(b) && Cancel(b, id, owner).1.None?
    ensures id in b.all
    ensures var b', o := Cancel(b, id, owner).0, b.all[id];
            && Resting(b', o.side) == Resting(b, o.side) - o.Remaining()
            && Resting(b', o.side.Opposite()) == Resting(b, o.side.Opposite())
  {
    var o := b.all[id];
    var o' := o.(status := Cancelled);
    WaitsOnce(b, id);
    WaitingFrame(b.all, id, o', b.On(o.side.Opposite()));
    WaitingRewrite(b.all, id, o', b.On(o.side), o.price);
    WaitingDrop(b.all[id := o'], id, b.On(o.side), o.price, o.Remaining());
  }

  // ---------------------------------------------------------------- the cached quantity of a level

  ghost predicate At(trade: Trade, s: Side, p: nat) { trade.price == p && trade.side == s.Opposite() }

  /** The quantity traded against side s at price p. */
  ghost function TradedAt(trades: seq<Trade>, s: Side, p: nat): nat {
    if trades == [] then 0
    else
      var last := trades[|trades| - 1];
      TradedAt(trades[..|trades| - 1], s, p) + (if At(last, s, p) then last.quantity else 0)
  }

  lemma TradedSnoc(trades: seq<Trade>, trade: Trade, born: nat, s: Side, p: nat)
    requires born <= |trades|
    ensures TradedAt((trades + [trade])[born..], s, p)
         == TradedAt(trades[born..], s, p) + (if At(trade, s, p) then trade.quantity else 0)
  {
    assert (trades + [trade])[born..] == trades[born..] + [trade];
    assert (trades[born..] + [trade])[..|trades[born..]|] == trades[born..];
  }

  /** What `totalQty` should be: the quantity waiting there plus what has traded there since the level
      was created, because fills do not lower it. */
  ghost function Cached(level: Level, s: Side, p: nat, all: map<nat, Order>, trades: seq<Trade>): nat
    requires level.born <= |trades|
  {
    Want(all, level.queue) + TradedAt(trades[level.born..], s, p)
  }

  ghost predicate LevelDepth(level: Level, s: Side, p: nat, all: map<nat, Order>, trades: seq<Trade>) {
    level.born <= |trades| && level.totalQty == Cached(level, s, p, all, trades) % MOD
  }

  ghost predicate DepthOn(h: Half, s: Side, all: map<nat, Order>, trades: seq<Trade>) {
    forall p :: p in h.levels ==> LevelDepth(h.levels[p], s, p, all, trades)
  }

  ghost predicate DepthWF(b: Book) {
    forall s :: DepthOn(b.On(s), s, b.all, b.trades)
  }

  lemma DepthFrame(level: Level, s: Side, p: nat, all: map<nat, Order>, trades: seq<Trade>, id: nat, o: Order, trade: Trade)
    requires LevelDepth(level, s, p, all, trades) && id !in level.queue && !At(trade, s, p)
    ensures LevelDepth(level, s, p, all[id := o], trades + [trade])
  {
    WantFrame(all, id, o, level.queue);
    TradedSnoc(trades, trade, level.born, s, p);
  }

  /** A trade with the front order moves its quantity from "waiting" to "traded". */
  lemma DepthFront(level: Level, s: Side, p: nat, all: map<nat, Order>, trades: seq<Trade>, o: Order, trade: Trade)
    requires LevelDepth(level, s, p, all, trades) && At(trade, s, p)
    requires level.queue != [] && level.queue[0] !in level.queue[1..]
    requires trade.quantity == Left(all, level.queue[0]) - o.Remaining()
    ensures LevelDepth(level, s, p, all[level.queue[0] := o], trades + [trade])
    ensures o.Remaining() == 0 ==>
              LevelDepth(level.(queue := level.queue[1..]), s, p, all[level.queue[0] := o], trades + [trade])
  {
    WantFrame(all, level.queue[0], o, level.queue[1..]);
    TradedSnoc(trades, trade, level.born, s, p);
  }

  /** The other side, and the other levels, do not see the trade. */
  lemma DepthElsewhere(h: Half, s: Side, all: map<nat, Order>, trades: seq<Trade>, id: nat, o: Order, trade: Trade)
    requires DepthOn(h, s, all, trades)
    ensures forall p :: p in h.levels && id !in h.levels[p].queue && !At(trade, s, p) ==>
              LevelDepth(h.levels[p], s, p, all[id := o], trades + [trade])
  {
    forall p | p in h.levels && id !in h.levels[p].queue && !At(trade, s, p)
      ensures LevelDepth(h.levels[p], s, p, all[id := o], trades + [trade])
    {
      DepthFrame(h.levels[p], s, p, all, trades, id, o, trade);
    }
  }

  /** A pass keeps the cached quantities of the side it trades with ... */
  lemma PassKeepsDepthAcross(b: Book, t: Order)
    requires WF(b) && TakerWF(b, t) && NextMove(b, t).Take?
    requires DepthOn(b.On(t.side.Opposite()), t.side.Opposite(), b.all, b.trades)
    ensures NextMove(b, t).id in b.all
    ensures var m := Pass(b, t, NextMove(b, t).id, NextMove(b, t).price);
            DepthOn(m.book.On(t.side.Opposite()), t.side.Opposite(), m.book.all, m.book.trades)
  {
    NextMaker(b, t);
    PassEffect(b, t);
    PassFill(b, t);
    var Take(id, price) := NextMove(b, t);
    var m, s, h, hit := Pass(b, t, id, price), t.side.Opposite(), b.On(t.side.Opposite()), Hit(b, t, id);
    var trade := m.trades[0];
    assert m.book.trades == b.trades + [trade];
    assert At(trade, s, price) && trade.quantity == b.all[id].Remaining() - hit.Remaining();
    WaitsOnce(b, id);
    DepthElsewhere(h, s, b.all, b.trades, id, hit, trade);
    assert id !in h.levels[price].queue[1..];
    DepthFront(h.levels[price], s, price, b.all, b.trades, hit, trade);
    if hit.IsFilled() {
      DropFront(h, price, t.side.Sell?);
    }
  }

  /** ... and those of the taker's own side. */
  lemma PassKeepsDepthBeside(b: Book, t: Order)
    requires WF(b) && TakerWF(b, t) && NextMove(b, t).Take?
    requires DepthOn(b.On(t.side), t.side, b.all, b.trades)
    ensures NextMove(b, t).id in b.all
    ensures var m := Pass(b, t, NextMove(b, t).id, NextMove(b, t).price);
            DepthOn(m.book.On(t.side), t.side, m.book.all, m.book.trades)
  {
    NextMaker(b, t);
    PassEffect(b, t);
    var Take(id, price) := NextMove(b, t);
    var m := Pass(b, t, id, price);
    WaitsOnce(b, id);
    assert b.all[id].side.Opposite() == t.side;
    DepthElsewhere(b.On(t.side), t.side, b.all, b.trades, id, Hit(b, t, id), m.trades[0]);
    assert m.book.trades == b.trades + [m.trades[0]];
  }

  lemma PassKeepsDepth(b: Book, t: Order)
    requires WF(b) && TakerWF(b, t) && NextMove(b, t).Take? && DepthWF(b)
    ensures NextMove(b, t).id in b.all
    ensures DepthWF(Pass(b, t, NextMove(b, t).id, NextMove(b, t).price).book)
  {
    PassKeepsDepthAcross(b, t);
    PassKeepsDepthBeside(b, t);
    forall s ensures DepthOn(Pass(b, t, NextMove(b, t).id, NextMove(b, t).price).book.On(s), s,
                             Pass(b, t, NextMove(b, t).id, NextMove(b, t).price).book.all,
                             Pass(b, t, NextMove(b, t).id, NextMove(b, t).price).book.trades) {
      assert s == t.side || s == t.side.Opposite();
    }
  }

  lemma {:induction false} MatchKeepsDepth(b: Book, t: Order)
    requires WF(b) && TakerWF(b, t) && DepthWF(b)
    ensures DepthWF(Match(b, t).book)
    decreases t.Remaining()
  {
    if NextMove(b, t).Take? {
      PassKeepsShape(b, t);
      PassKeepsDepth(b, t);
      var m := Pass(b, t, NextMove(b, t).id, NextMove(b, t).price);
      MatchKeepsDepth(m.book, m.taker);
    }
  }

  /** Rewriting an order that waits nowhere on a side. */
  lemma DepthIgnores(h: Half, s: Side, all: map<nat, Order>, trades: seq<Trade>, id: nat, o: Order)
    requires DepthOn(h, s, all, trades)
    requires forall p :: p in h.levels ==> id !in h.levels[p].queue
    ensures DepthOn(h, s, all[id := o], trades)
  {
    forall p | p in h.levels ensures LevelDepth(h.levels[p], s, p, all[id := o], trades) {
      WantFrame(all, id, o, h.levels[p].queue);
    }
  }

  lemma LevelPush(level: Level, s: Side, all: map<nat, Order>, trades: seq<Trade>, o: Order)
    requires LevelDepth(level, s, o.price, all, trades) && o.id in all && all[o.id] == o
    ensures LevelDepth(level.(queue := level.queue + [o.id], totalQty := Add(level.totalQty, o.Remaining())),
                       s, o.price, all, trades)
  {
    WantSnoc(all, level.queue, o.id);
  }

  lemma DepthPush(h: Half, s: Side, all: map<nat, Order>, trades: seq<Trade>, o: Order)
    requires DepthOn(h, s, all, trades) && o.id in all && all[o.id] == o
    ensures DepthOn(PushNode(h, o.price, o.id, o.Remaining(), s.Buy?, |trades|), s, all, trades)
  {
    var blank := Level([], 0, |trades|);
    assert trades[|trades|..] == [];
    assert LevelDepth(blank, s, o.price, all, trades);
    LevelPush(if o.price in h.levels then h.levels[o.price] else blank, s, all, trades, o);
  }

  lemma LevelDrop(level: Level, s: Side, all: map<nat, Order>, trades: seq<Trade>, o: Order)
    requires LevelDepth(level, s, o.price, all, trades) && o.id in all && all[o.id] == o && o.id in level.queue
    ensures LevelDepth(level.(queue := Without(level.queue, o.id), totalQty := Sub(level.totalQty, o.Remaining())),
                       s, o.price, all, trades)
  {
    WantDrop(all, level.queue, o.id);
    SubReduced(Cached(level, s, o.price, all, trades), o.Remaining());
  }

  lemma DepthDrop(h: Half, s: Side, all: map<nat, Order>, trades: seq<Trade>, o: Order)
    requires DepthOn(h, s, all, trades) && o.id in all && all[o.id] == o
    requires o.price in h.levels && o.id in h.levels[o.price].queue
    ensures DepthOn(DropNode(h, o.price, o.id, o.Remaining()), s, all, trades)
  {
    LevelDrop(h.levels[o.price], s, all, trades, o);
  }

  lemma SettleKeepsDepth(b: Book, o: Order)
    requires WF(b) && o.id !in b.all && DepthWF(b)
    ensures DepthWF(Settle(b, o))
  {
    forall s ensures DepthOn(b.On(s), s, b.all[o.id := o], b.trades) {
      WaitsNowhere(b, o.id, s);
      DepthIgnores(b.On(s), s, b.all, b.trades, o.id, o);
    }
    DepthPush(b.On(o.side), o.side, b.all[o.id := o], b.trades, o);
    forall s ensures DepthOn(Settle(b, o).On(s), s, Settle(b, o).all, b.trades) {
      assert s == o.side || Settle(b, o).On(s) == b.On(s);
    }
  }

  lemma PlaceKeepsDepth(b: Book, o: Order)
    requires WF(b) && o.id !in b.all && o.IsNew() && DepthWF(b)
    ensures DepthWF(Place(b, o).book)
  {
    if Validate(o).None? {
      MatchKeepsDepth(b, o);
      MatchKeepsIdentity(b, o);
      SettleKeepsDepth(Match(b, o).book, Match(b, o).taker);
    }
  }

  /** Rewriting a queued order without changing what it wants. */
  lemma DepthSameWant(h: Half, s: Side, all: map<nat, Order>, trades: seq<Trade>, id: nat, o: Order)
    requires DepthOn(h, s, all, trades) && id in all && o.Remaining() == all[id].Remaining()
    ensures DepthOn(h, s, all[id := o], trades)
  {
    forall p | p in h.levels ensures LevelDepth(h.levels[p], s, p, all[id := o], trades) {
      WantSame(all, id, o, h.levels[p].queue);
    }
  }

  lemma {:induction false} WantSame(all: map<nat, Order>, id: nat, o: Order, queue: seq<nat>)
    requires id in all && o.Remaining() == all[id].Remaining()
    ensures Want(all[id := o], queue) == Want(all, queue)
  {
    if queue != [] {
      WantSame(all, id, o, queue[1..]);
    }
  }

  lemma RemoveKeepsDepth(b: Book, o: Order)
    requires DepthWF(b) && o.id in b.all && b.all[o.id] == o
    requires o.price in b.On(o.side).levels && o.id in b.On(o.side).levels[o.price].queue
    ensures DepthWF(RemoveFromBook(b, o))
  {
    assert DepthOn(b.On(o.side), o.side, b.all, b.trades);
    DepthDrop(b.On(o.side), o.side, b.all, b.trades, o);
    forall s ensures DepthOn(RemoveFromBook(b, o).On(s), s, b.all, b.trades) {
      assert s == o.side || RemoveFromBook(b, o).On(s) == b.On(s);
    }
  }

  lemma CancelKeepsDepth(b: Book, id: nat, owner: Address)
    requires WF(b) && DepthWF(b)
    ensures DepthWF(Cancel(b, id, owner).0)
  {
    if Cancel(b, id, owner).1.None? {
      var o := b.all[id].(status := Cancelled);
      WaitsOnce(b, id);
      forall s ensures DepthOn(b.On(s), s, b.all[id := o], b.trades) {
        DepthSameWant(b.On(s), s, b.all, b.trades, id, o);
      }
      var b' := b.(all := b.all[id := o]);
      assert DepthWF(b') by {
        forall s ensures DepthOn(b'.On(s), s, b'.all, b'.trades) {
          assert b'.On(s) == b.On(s);
        }
      }
      RemoveKeepsDepth(b', o);
    }
  }

  /** Over every run, every level's cached quantity is what waits there plus what has traded there since
      the level was created (as a 64-bit number). */
  lemma {:induction false} RunKeepsDepth(b: Book, ops: seq<Op>)
    requires WF(b) && Legal(b, ops) && DepthWF(b)
    ensures DepthWF(Run(b, ops))
    decreases |ops|
  {
    if ops != [] {
      match ops[0] {
        case PlaceOp(o) => PlaceKeepsDepth(b, o);
        case CancelOp(id, owner) => CancelKeepsDepth(b, id, owner);
      }
      RunKeepsDepth(Step(b, ops[0]), ops[1..]);
    }
  }

  /** So the reported depth is at least what rests exactly when the two do not wrap past it, and is what rests
      exactly when what has traded there is no more than a multiple of 2^64. */
  lemma DepthExactly(b: Book, s: Side, p: nat)
    requires DepthWF(b) && p in b.On(s).levels
    ensures var level := b.On(s).levels[p];
            && level.born <= |b.trades|
            && var rests, traded := Want(b.all, level.queue), TradedAt(b.trades[level.born..], s, p);
            && (rests <= level.totalQty <==> rests + traded % MOD < MOD)
            && (rests == level.totalQty <==> rests < MOD && traded % MOD == 0)
  {
    var level := b.On(s).levels[p];
    assert DepthOn(b.On(s), s, b.all, b.trades);
    assert LevelDepth(level, s, p, b.all, b.trades);
    WrappedSum(Want(b.all, level.queue), TradedAt(b.trades[level.born..], s, p));
  }

  lemma WrappedSum(x: nat, y: nat)
    ensures x <= (x + y) % MOD <==> x + y % MOD < MOD
    ensures x == (x + y) % MOD <==> x < MOD && y % MOD == 0
  {
  }

  /** In particular, as long as the two together fit in 64 bits, the depth never understates what rests and is exact
      until the first fill there. */
  lemma DepthNeverUnderstates(b: Book, s: Side, p: nat)
    requires DepthWF(b) && p in b.On(s).levels
    requires var level := b.On(s).levels[p]; level.born <= |b.trades| && Cached(level, s, p, b.all, b.trades) < MOD
    ensures var level := b.On(s).levels[p];
            && Want(b.all, level.queue) <= level.totalQty
            && (level.totalQty == Want(b.all, level.queue) <==> TradedAt(b.trades[level.born..], s, p) == 0)
  {
    assert DepthOn(b.On(s), s, b.all, b.trades);
    assert LevelDepth(b.On(s).levels[p], s, p, b.all, b.trades);
  }

  /** A taker that leaves something of the one order it trades with changes no level, only that order. */
  lemma PartFill(b: Book, t: Order, id: nat, price: nat)
    requires WF(b) && TakerWF(b, t) && NextMove(b, t) == Take(id, price)
    requires id in b.all && t.Remaining() < b.all[id].Remaining()
    ensures var m := Match(b, t);
            && m.book.On(t.side.Opposite()) == b.On(t.side.Opposite()) && m.taker.status.Filled?
            && id in m.book.all && m.book.all[id].Remaining() == b.all[id].Remaining() - t.Remaining()
  {
    PassKeepsShape(b, t);
    PassEffect(b, t);
    PassFill(b, t);
    var m := Pass(b, t, id, price);
    assert NextMove(m.book, m.taker).Stop?;
  }

  /** A sell of 10 at 5 and then a buy of 4 at 5: 6 rest there and the cached quantity is still 10. */
  lemma OverstatedDepth() returns (ops: seq<Op>)
    ensures |ops| == 2 && ops[0].PlaceOp? && ops[1].PlaceOp?
    ensures ops[0].order == Order(1, 7, Sell, 10, 0, 5, Limit, Pending, 1)
    ensures ops[1].order == Order(2, 8, Buy, 4, 0, 5, Limit, Pending, 2)
    ensures WF(EMPTY) && Legal(EMPTY, ops)
    ensures var b := Run(EMPTY, ops);
            && 5 in b.asks.levels && b.asks.levels[5].queue == [1]
            && Want(b.all, [1]) == 6 && b.asks.levels[5].totalQty == 10
  {
    var seller := Order(1, 7, Sell, 10, 0, 5, Limit, Pending, 1);
    var buyer := Order(2, 8, Buy, 4, 0, 5, Limit, Pending, 2);
    ops := [PlaceOp(seller), PlaceOp(buyer)];
    EmptyWF();
    OneAsk(ops[0]);
    PartlyBought(Step(EMPTY, ops[0]), buyer);
    LegalTwo(EMPTY, ops);
  }

  lemma PartlyBought(b: Book, buyer: Order)
    requires WF(b) && b.asks == Half(map[5 := Level([1], 10, 0)], [5])
    requires 1 in b.all && b.all[1] == Order(1, 7, Sell, 10, 0, 5, Limit, Pending, 1)
    requires 2 !in b.all && buyer == Order(2, 8, Buy, 4, 0, 5, Limit, Pending, 2)
    ensures var b' := Step(b, PlaceOp(buyer)); b'.asks == b.asks && Want(b'.all, [1]) == 6
  {
    assert NextMove(b, buyer) == Take(1, 5);
    PartFill(b, buyer, 1, 5);
    WantOne(Step(b, PlaceOp(buyer)).all, 1);
  }

  lemma OneAsk(op: Op)
    requires WF(EMPTY) && op == PlaceOp(Order(1, 7, Sell, 10, 0, 5, Limit, Pending, 1))
    ensures var b := Step(EMPTY, op);
            && b.asks == Half(map[5 := Level([1], 10, 0)], [5])
            && 1 in b.all && b.all[1] == op.order && b.all.Keys == {1}
  {
    RestsWhole(EMPTY, op.order);
    assert [] + [1] == [1];
    assert map[][5 := Level([1], 10, 0)] == map[5 := Level([1], 10, 0)];
  }

  lemma WantOne(all: map<nat, Order>, id: nat)
    ensures Want(all, [id]) == Left(all, id)
  {
    assert [id][1..] == [];
  }
}
