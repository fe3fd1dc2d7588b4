/** `OrderBook`: the single-writer book over shared order slots, proved against
    the level book of `BookRuns`. */
module OrderBooks {
  import opened Orders
  import opened LevelBook
  import opened Matching
  import opened FlatBook
  import opened BookRuns
  import opened BookMirror
  import opened BookCoherence
  import opened Depth
  import opened Limits

  // ---------- The pool of order slots

  class OrderPool {
    const capacity: nat
    /** Slots handed out and not yet returned. */
    var outstanding: set<Order>

    ghost predicate Valid()
      reads this
    {
      |outstanding| <= capacity
    }

    constructor (capacity: nat)
      ensures Valid() && this.capacity == capacity && outstanding == {}
    {
      this.capacity := capacity;
      outstanding := {};
    }

    /** Hand out a slot for an order, or none when all are out. */
    method Allocate(t: Ticket) returns (o: Order?)
      requires Valid()
      modifies this
      ensures Valid() && (o == null <==> |old(outstanding)| == capacity)
      ensures o == null ==> outstanding == old(outstanding)
      ensures o != null ==>
                fresh(o) && o.AsTicket() == t && o.status == Pending && outstanding == old(outstanding) + {o} && o !in old(outstanding)
    {
      if |outstanding| == capacity {
        return null;
      }
      var slot := new Order(t.id, t.side, t.kind, t.price, t.quantity);
      outstanding := outstanding + {slot};
      return slot;
    }

    /** Returning a slot twice, or one never handed out, is not possible. */
    method Deallocate(o: Order)
      requires o in outstanding
      modifies this
      ensures outstanding == old(outstanding) - {o}
    {
      outstanding := outstanding - {o};
    }

    /** Returning slots keeps within the capacity. */
    lemma {:induction false} Shrunk(before: set<Order>)
      requires outstanding <= before && |before| <= capacity
      ensures Valid()
    {
      SubsetSize(outstanding, before);
    }
  }

  // ---------- What a sweep writes into resting slots

  datatype Note = Note(status: OrderStatus, remaining: nat)

  ghost function Notes(orders: set<Order>): map<Order, Note>
    reads orders
  {
    map o | o in orders :: Note(o.status, o.remaining)
  }

  /** A resting order keeps its status unless it trades. */
  predicate Marked(before: Note, after: Note) {
    && after.remaining <= before.remaining
    && after.status == if after.remaining == before.remaining then before.status
                       else if after.remaining == 0 then Filled else PartiallyFilled
  }

  ghost predicate MarkedSince(notes: map<Order, Note>)
    reads notes.Keys
  {
    forall o :: o in notes ==> Marked(notes[o], Note(o.status, o.remaining))
  }

  lemma {:induction false} MarkedOnwards(a: Note, b: Note, c: Note)
    requires Marked(a, b) && Marked(b, c)
    ensures Marked(a, c)
  {
  }

  class OrderBook {
    const bids: FlatPriceBook
    const asks: FlatPriceBook
    const pool: OrderPool
    var lookup: Lookup
    var nextTradeId: nat
    var shutdown: bool
    var bbo: Bbo
    var bboSequence: nat

    /** The level book these fields represent. */
    ghost var view: Book
    /** Slots accepted and not returned to the pool, and those among them that were filled on arrival. */
    ghost var held: set<Order>
    ghost var filledOnArrival: set<Order>

    constructor (pool: OrderPool)
      ensures Consistent(lookup) && view == EMPTY_BOOK && lookup == map[] && held == {} && filledOnArrival == {}
      ensures !shutdown && bbo == Bbo(0, 0, 0, 0) && bboSequence == 0
      ensures this.pool == pool && bids != asks && fresh(bids) && fresh(asks)
    {
      bids := new FlatPriceBook(Buy);
      asks := new FlatPriceBook(Sell);
      this.pool := pool;
      lookup, nextTradeId, shutdown, bbo, bboSequence := map[], 1, false, Bbo(0, 0, 0, 0), 0;
      view, held, filledOnArrival := EMPTY_BOOK, {}, {};
    }

    function SideBook(side: Side): FlatPriceBook {
      if side.Buy? then bids else asks
    }

    /** The book represents `view`, with `known` the part of the lookup that rests in it. */
    ghost predicate Consistent(known: Lookup)
      reads this`view, this`nextTradeId, bids, asks, known.Values
    {
      && bids.side == Buy && asks.side == Sell && bids != asks
      && nextTradeId == view.nextTradeId
      && Coherent(view, Buy, bids.levels, asks.levels, known, Contents(known))
    }

    ghost function Slots(): SlotState
      reads this`lookup, this`held, this`filledOnArrival, pool
    {
      SlotState(lookup.Values, filledOnArrival, held, pool.outstanding)
    }

    /** The same, seen from either side. */
    ghost predicate ConsistentOn(side: Side, known: Lookup)
      reads this`view, this`nextTradeId, bids, asks, known.Values
    {
      && SideBook(side).side == side && SideBook(Opposite(side)) != SideBook(side)
      && nextTradeId == view.nextTradeId
      && Coherent(view, side, SideBook(side).levels, SideBook(Opposite(side)).levels, known, Contents(known))
    }

    lemma {:induction false} EitherSide(side: Side, known: Lookup)
      requires bids.side == Buy && asks.side == Sell
      ensures Consistent(known) <==> ConsistentOn(side, known)
    {
    }

    // ---------- Trades

    /** Both orders lose the traded quantity; trade ids go up by one. */
    method ExecuteTrade(aggressive: Order, passive: Order, quantity: nat, price: nat) returns (trade: Trade)
      requires aggressive != passive
      requires quantity <= aggressive.remaining && quantity <= passive.remaining
      modifies aggressive`remaining, aggressive`status, passive`remaining, passive`status, this`nextTradeId
      ensures aggressive.AsTicket() == Reduce(old(aggressive.AsTicket()), quantity)
      ensures passive.AsTicket() == Reduce(old(passive.AsTicket()), quantity)
      ensures aggressive.status == if aggressive.remaining == 0 then Filled else PartiallyFilled
      ensures passive.status == if passive.remaining == 0 then Filled else PartiallyFilled
      ensures nextTradeId == old(nextTradeId) + 1
      ensures trade == MakeTrade(old(nextTradeId), old(aggressive.AsTicket()), old(passive.AsTicket()), quantity, price)
    {
      aggressive.remaining := aggressive.remaining - quantity;
      passive.remaining := passive.remaining - quantity;
      aggressive.status := if aggressive.remaining == 0 then Filled else PartiallyFilled;
      passive.status := if passive.remaining == 0 then Filled else PartiallyFilled;
      trade := Trade(nextTradeId,
                     if aggressive.side == Buy then aggressive.id else passive.id,
                     if aggressive.side == Sell then aggressive.id else passive.id,
                     quantity, price);
      nextTradeId := nextTradeId + 1;
    }

    /** The book-keeping after a trade: an exhausted maker leaves level, lookup and pool. */
    method Settle(maker: Order, side: Side, q: nat)
      requires SideBook(side).levels != [] && Ordered(side, SideBook(side).levels) && SideBook(side).side == side
      requires q <= SideBook(side).levels[0].total && !SideBook(side).levels[0].Empty()
      requires maker in pool.outstanding
      modifies maker`status, this`lookup, this`held, SideBook(side)`levels, pool
      ensures maker.remaining > 0 ==>
                && SideBook(side).levels == old(SideBook(side).levels)[0 := old(SideBook(side).levels)[0].ReduceQuantity(q)]
                && lookup == old(lookup) && held == old(held) && pool.outstanding == old(pool.outstanding)
                && maker.status == old(maker.status)
      ensures maker.remaining == 0 ==>
                && SideBook(side).levels == Popped(old(SideBook(side).levels), q)
                && lookup == old(lookup) - {maker.id} && held == old(held) - {maker}
                && pool.outstanding == old(pool.outstanding) - {maker} && maker.status == Filled
    {
      var book := SideBook(side);
      var level := book.levels[0];
      if maker.remaining == 0 {
        book.levels := book.levels[0 := level.PopFront(q)];
        lookup := lookup - {maker.id};
        maker.status := Filled;
        pool.Deallocate(maker);
        held := held - {maker};
      } else {
        book.levels := book.levels[0 := level.ReduceQuantity(q)];
      }
      if book.levels[0].Empty() {
        book.Remove(level.price);
      }
    }

    /** `order` trades with `maker`, the front of `side`, which leaves its level when that exhausts it. */
    method TradeFront(order: Order, maker: Order, side: Side) returns (trade: Trade)
      requires maker != order && SideBook(side).levels != [] && Ordered(side, SideBook(side).levels) && SideBook(side).side == side
      requires maker.remaining <= SideBook(side).levels[0].total && !SideBook(side).levels[0].Empty()
      requires maker in pool.outstanding
      modifies order`remaining, order`status, maker`remaining, maker`status
      modifies this`lookup, this`nextTradeId, this`held, SideBook(side)`levels, pool
      ensures Struck(order, maker, side, trade, old(order.AsTicket()), old(maker.AsTicket()), old(nextTradeId), old(SideBook(side).levels))
      ensures maker.remaining > 0 ==> lookup == old(lookup) && held == old(held) && pool.outstanding == old(pool.outstanding)
      ensures maker.remaining == 0 ==>
                lookup == old(lookup) - {maker.id} && held == old(held) - {maker} && pool.outstanding == old(pool.outstanding) - {maker}
      ensures order.status == if order.remaining == 0 then Filled else PartiallyFilled
      ensures old(order.remaining) > 0 && old(maker.remaining) > 0 ==>
                Marked(Note(old(maker.status), old(maker.remaining)), Note(maker.status, maker.remaining))
    {
      var q := Min(order.remaining, maker.remaining);
      trade := ExecuteTrade(order, maker, q, SideBook(side).levels[0].price);
      Settle(maker, side, q);
    }

    /** The trade between `taker` and `made` at the front of `levels` has been made and stored. */
    ghost predicate Struck(order: Order, maker: Order, side: Side, trade: Trade,
                           taker: Ticket, made: Ticket, tradeId: nat, levels: seq<FlatLevel>)
      reads this`nextTradeId, order, maker, SideBook(side)
    {
      var q := Min(taker.quantity, made.quantity);
      && levels != [] && q <= levels[0].total
      && order.AsTicket() == Reduce(taker, q) && maker.AsTicket() == Reduce(made, q)
      && trade == MakeTrade(tradeId, taker, made, q, levels[0].price) && nextTradeId == tradeId + 1
      && SideBook(side).levels == FilledLevels(levels, made, q)
    }

    /** `TradeFront` on a book that already shows the trade. */
    method TradeCoherently(order: Order, maker: Order, side: Side) returns (trade: Trade)
      requires maker.id in lookup - {order.id} && lookup[maker.id] == maker && order !in (lookup - {order.id}).Values
      requires forall id :: id in lookup - {order.id} ==> lookup[id].id == id
      requires SideBook(side).levels != [] && Ordered(side, SideBook(side).levels) && SideBook(side).side == side
      requires maker.remaining <= SideBook(side).levels[0].total && !SideBook(side).levels[0].Empty()
      requires maker in pool.outstanding && SideBook(Opposite(side)) != SideBook(side) && view.nextTradeId == nextTradeId + 1
      requires var q, known := Min(order.remaining, maker.remaining), lookup - {order.id};
               Coherent(view, side, FilledLevels(SideBook(side).levels, maker.AsTicket(), q), SideBook(Opposite(side)).levels,
                        if q == maker.remaining then known - {maker.id} else known, FilledContents(Contents(known), maker.AsTicket(), q))
      modifies order`remaining, order`status, maker`remaining, maker`status
      modifies this`lookup, this`nextTradeId, this`held, SideBook(side)`levels, pool
      ensures ConsistentOn(side, lookup - {order.id})
      ensures Struck(order, maker, side, trade, old(order.AsTicket()), old(maker.AsTicket()), old(nextTradeId), old(SideBook(side).levels))
      ensures maker.remaining > 0 ==> lookup == old(lookup) && held == old(held) && pool.outstanding == old(pool.outstanding)
      ensures maker.remaining == 0 ==>
                lookup == old(lookup) - {maker.id} && held == old(held) - {maker} && pool.outstanding == old(pool.outstanding) - {maker}
      ensures order.status == if order.remaining == 0 then Filled else PartiallyFilled
      ensures old(order.remaining) > 0 && old(maker.remaining) > 0 ==>
                Marked(Note(old(maker.status), old(maker.remaining)), Note(maker.status, maker.remaining))
    {
      ghost var known, contents := lookup - {order.id}, Contents(lookup - {order.id});
      ghost var made, q := maker.AsTicket(), Min(order.remaining, maker.remaining);
      assert maker in known.Values;
      trade := TradeFront(order, maker, side);
      ForgetBoth(old(lookup), maker.id, order.id);
      forall id | id in known && id != maker.id ensures known[id].AsTicket() == contents[id] {
        assert known[id] in known.Values;
      }
      ContentsAre(lookup - {order.id}, FilledContents(contents, made, q));
    }

    /** One round of a sweep: the front order of `side` trades with `order`. */
    method FillFront(order: Order, maker: Order, side: Side) returns (trade: Trade)
      requires ConsistentOn(side, lookup - {order.id})
      requires order !in (lookup - {order.id}).Values
      requires Matchable(Levels(view, side), order.AsTicket()) && Levels(view, side)[0].orders != []
      requires Front(view, side).id in lookup - {order.id} && lookup[Front(view, side).id] == maker
      requires maker in pool.outstanding
      modifies order`remaining, order`status, maker`remaining, maker`status
      modifies this`lookup, this`nextTradeId, this`view, this`held, SideBook(side)`levels, pool
      ensures ConsistentOn(side, lookup - {order.id})
      ensures view == FilledBook(old(view), side, old(order.AsTicket()))
      ensures trade == FillTrade(Levels(old(view), side), old(order.AsTicket()), old(view).nextTradeId)
      ensures FillQuantity(Levels(old(view), side), old(order.AsTicket())) <= old(order.remaining)
      ensures order.AsTicket() == Reduce(old(order.AsTicket()), FillQuantity(Levels(old(view), side), old(order.AsTicket())))
      ensures maker.remaining > 0 ==> lookup == old(lookup) && held == old(held) && pool.outstanding == old(pool.outstanding)
      ensures maker.remaining == 0 ==>
                lookup == old(lookup) - {maker.id} && held == old(held) - {maker} && pool.outstanding == old(pool.outstanding) - {maker}
      ensures order.status == if order.remaining == 0 then Filled else PartiallyFilled
      ensures old(order.remaining) > 0 && old(maker.remaining) > 0 ==>
                Marked(Note(old(maker.status), old(maker.remaining)), Note(maker.status, maker.remaining))
    {
      ghost var taker, known := order.AsTicket(), lookup - {order.id};
      ghost var levels, other, contents := SideBook(side).levels, SideBook(Opposite(side)).levels, Contents(known);
      FrontMatches(view, side, levels, other, known, contents);
      assert maker.AsTicket() == Front(view, side);
      FillCoherentFor(view, side, levels, other, known, contents, taker, maker.AsTicket(), Min(order.remaining, maker.remaining));
      view := FilledBook(view, side, taker);
      trade := TradeCoherently(order, maker, side);
    }

    /** `FillFront`, with the resting orders marked since `notes`. */
    method FillMarked(order: Order, maker: Order, side: Side, ghost notes: map<Order, Note>) returns (trade: Trade)
      requires ConsistentOn(side, lookup - {order.id})
      requires order !in (lookup - {order.id}).Values
      requires Matchable(Levels(view, side), order.AsTicket()) && Levels(view, side)[0].orders != []
      requires Front(view, side).id in lookup - {order.id} && lookup[Front(view, side).id] == maker
      requires maker in pool.outstanding && order.remaining > 0 && maker.remaining > 0
      requires order !in notes && MarkedSince(notes)
      modifies order`remaining, order`status, maker`remaining, maker`status
      modifies this`lookup, this`nextTradeId, this`view, this`held, SideBook(side)`levels, pool
      ensures ConsistentOn(side, lookup - {order.id})
      ensures view == FilledBook(old(view), side, old(order.AsTicket()))
      ensures trade == FillTrade(Levels(old(view), side), old(order.AsTicket()), old(view).nextTradeId)
      ensures FillQuantity(Levels(old(view), side), old(order.AsTicket())) <= old(order.remaining)
      ensures order.AsTicket() == Reduce(old(order.AsTicket()), FillQuantity(Levels(old(view), side), old(order.AsTicket())))
      ensures maker.remaining > 0 ==> lookup == old(lookup) && held == old(held) && pool.outstanding == old(pool.outstanding)
      ensures maker.remaining == 0 ==>
                lookup == old(lookup) - {maker.id} && held == old(held) - {maker} && pool.outstanding == old(pool.outstanding) - {maker}
      ensures order.status == if order.remaining == 0 then Filled else PartiallyFilled
      ensures MarkedSince(notes)
    {
      ghost var before := Note(maker.status, maker.remaining);
      trade := FillFront(order, maker, side);
      forall o | o in notes ensures Marked(notes[o], Note(o.status, o.remaining)) {
        if o == maker {
          MarkedOnwards(notes[o], before, Note(o.status, o.remaining));
        }
      }
    }

    /** `FillFront` with the front order looked up, and the slots accounted for. */
    method FillNext(order: Order, side: Side, ghost notes: map<Order, Note>) returns (trade: Trade)
      requires order.id in lookup && lookup[order.id] == order && order !in (lookup - {order.id}).Values
      requires ConsistentOn(side, lookup - {order.id}) && SlotsHeld(lookup, held, filledOnArrival, pool.outstanding)
      requires Matchable(Levels(view, side), order.AsTicket()) && Levels(view, side)[0].orders != []
      requires order !in notes && MarkedSince(notes)
      modifies this`lookup, this`nextTradeId, this`view, this`held, SideBook(side)`levels, pool
      modifies lookup.Values`remaining, lookup.Values`status
      ensures order.id in lookup && lookup[order.id] == order && order !in (lookup - {order.id}).Values
      ensures Returned(old(lookup), lookup, old(pool.outstanding), pool.outstanding)
      ensures ConsistentOn(side, lookup - {order.id}) && SlotsHeld(lookup, held, filledOnArrival, pool.outstanding)
      ensures view == FilledBook(old(view), side, old(order.AsTicket()))
      ensures trade == FillTrade(Levels(old(view), side), old(order.AsTicket()), old(view).nextTradeId)
      ensures FillQuantity(Levels(old(view), side), old(order.AsTicket())) <= old(order.remaining)
      ensures order.AsTicket() == Reduce(old(order.AsTicket()), FillQuantity(Levels(old(view), side), old(order.AsTicket())))
      ensures order.status == if order.remaining == 0 then Filled else PartiallyFilled
      ensures MarkedSince(notes)
    {
      ghost var known := lookup - {order.id};
      FrontMatches(view, side, SideBook(side).levels, SideBook(Opposite(side)).levels, known, Contents(known));
      var level := SideBook(side).levels[0];
      var maker := level.orders[level.head];
      IdsTellSlotsApart(known, maker, order);
      SlotReturned(lookup, maker.id, held, filledOnArrival, pool.outstanding);
      trade := FillMarked(order, maker, side, notes);
    }

    /** Slots known under different ids are different slots. */
    lemma {:induction false} IdsTellSlotsApart(known: Lookup, maker: Order, order: Order)
      requires known == lookup - {order.id} && order.id in lookup && lookup[order.id] == order && order !in known.Values
      requires Agrees(view, Contents(known)) && maker.id in known && known[maker.id] == maker
      ensures maker.id in lookup && lookup[maker.id] == maker && maker in lookup.Values && maker != order
      ensures forall x :: x in lookup && x != maker.id ==> lookup[x] != maker
    {
      assert maker in known.Values;
      forall x | x in lookup && x != maker.id ensures lookup[x] != maker {
        if x != order.id {
          assert Contents(known)[x].id == x;
        }
      }
    }

    /** Sweep the opposite side: fill against its front until nothing crosses or the order is exhausted. */
    method MatchOrder(order: Order, ghost notes: map<Order, Note>) returns (trades: seq<Trade>)
      requires order.id in lookup && lookup[order.id] == order && order !in (lookup - {order.id}).Values
      requires ConsistentOn(Opposite(order.side), lookup - {order.id}) && SlotsHeld(lookup, held, filledOnArrival, pool.outstanding)
      requires order.remaining > 0
      requires order !in notes && MarkedSince(notes)
      modifies this`lookup, this`nextTradeId, this`view, this`held, SideBook(Opposite(order.side))`levels, pool
      modifies lookup.Values`remaining, lookup.Values`status
      ensures order.id in lookup && lookup[order.id] == order && order !in (lookup - {order.id}).Values
      ensures ConsistentOn(Opposite(order.side), lookup - {order.id}) && SlotsHeld(lookup, held, filledOnArrival, pool.outstanding)
      ensures view == Matched(old(view), old(order.AsTicket()))
      ensures trades == Swipe(old(view), old(order.AsTicket())).trades
      ensures order.AsTicket() == Swipe(old(view), old(order.AsTicket())).taker
      ensures order.remaining == 0 ==> order.status == Filled
      ensures Returned(old(lookup), lookup, old(pool.outstanding), pool.outstanding)
      ensures MarkedSince(notes)
    {
      trades := [];
      ghost var taker := order.AsTicket();
      var side := Opposite(order.side);
      var book := SideBook(side);
      while order.remaining > 0 && |book.levels| > 0
        invariant order.id in lookup && lookup[order.id] == order && order !in (lookup - {order.id}).Values
        invariant order.remaining == 0 ==> order.status == Filled
        invariant Returned(old(lookup), lookup, old(pool.outstanding), pool.outstanding)
        invariant ConsistentOn(side, lookup - {order.id}) && SlotsHeld(lookup, held, filledOnArrival, pool.outstanding)
        invariant SweepGoesOn(old(view), taker, view, order.AsTicket(), trades)
        invariant MarkedSince(notes)
        decreases order.remaining
      {
        FrontMatches(view, side, book.levels, SideBook(Opposite(side)).levels, lookup - {order.id}, Contents(lookup - {order.id}));
        var level := book.levels[0];
        var crosses := order.kind == Market || (if order.side == Buy then order.price >= level.price else order.price <= level.price);
        if !crosses {
          break;
        }
        SweepStep(old(view), taker, view, order.AsTicket(), trades);
        ghost var lookup1, outstanding1 := lookup, pool.outstanding;
        var trade := FillNext(order, side, notes);
        ReturnedOnwards(old(lookup), lookup1, lookup, old(pool.outstanding), outstanding1, pool.outstanding);
        trades := trades + [trade];
      }
      assert !Matchable(Levels(view, side), order.AsTicket());
    }

    // ---------- Resting and cancelling

    /** Put an order at the back of level `k`. */
    method PushAt(order: Order, k: nat)
      requires k < |SideBook(order.side).levels|
      modifies SideBook(order.side)`levels, order`status
      ensures var was := old(SideBook(order.side).levels);
              SideBook(order.side).levels == was[k := was[k].PushBack(order, order.remaining)]
      ensures order.status == OrderStatus.Accepted
    {
      var book := SideBook(order.side);
      book.levels := book.levels[k := book.levels[k].PushBack(order, order.remaining)];
      order.status := OrderStatus.Accepted;
    }

    /** `PushAt` on a book that already shows the order. */
    method PushCoherently(order: Order, k: nat)
      requires SideBook(order.side).side == order.side && SideBook(Opposite(order.side)) != SideBook(order.side)
      requires nextTradeId == view.nextTradeId && k < |SideBook(order.side).levels|
      requires var was := SideBook(order.side).levels;
               Coherent(view, order.side, was[k := was[k].PushBack(order, order.remaining)], SideBook(Opposite(order.side)).levels,
                        lookup, Contents(lookup))
      modifies SideBook(order.side)`levels, order`status
      ensures ConsistentOn(order.side, lookup)
      ensures order.status == OrderStatus.Accepted
    {
      ghost var contents := Contents(lookup);
      PushAt(order, k);
      ContentsAre(lookup, contents);
    }

    /** Rest an order at the back of the level of its price. */
    method AddToBook(order: Order)
      requires order.id in lookup && lookup[order.id] == order && order !in (lookup - {order.id}).Values
      requires ConsistentOn(order.side, lookup - {order.id}) && order.remaining > 0
      modifies SideBook(order.side)`levels, order`status, this`view
      ensures ConsistentOn(order.side, lookup)
      ensures view == Rest(old(view), order.AsTicket())
      ensures order.status == OrderStatus.Accepted
    {
      ghost var t, known := order.AsTicket(), lookup - {order.id};
      ghost var contents, other := Contents(known), SideBook(Opposite(order.side)).levels;
      var book := SideBook(order.side);
      MirrorsOrdered(order.side, book.levels, Levels(view, order.side), known);
      ContentsLearn(lookup, order);
      ghost var levels := book.levels;
      var k := book.FindOrInsert(order.price);
      RestCoherent(view, levels, other, known, contents, t, order, k);
      view := Rest(view, t);
      PushedIs(levels, book.levels, k, order, t);
      PushCoherently(order, k);
    }

    /** Where an order rests: level by binary search on its price, then a scan of the live references. */
    method Locate(order: Order) returns (k: nat, n: nat)
      requires order.id in lookup && lookup[order.id] == order
      requires ConsistentOn(order.side, lookup)
      ensures k < |SideBook(order.side).levels| && |SideBook(order.side).levels| == |Levels(view, order.side)|
      ensures var level, v := SideBook(order.side).levels[k], Levels(view, order.side)[k];
              && level.price == order.price && level.head <= n < |level.orders| == level.head + |v.orders|
              && v.orders[n - level.head] == order.AsTicket()
    {
      ghost var levels, ls := SideBook(order.side).levels, Levels(view, order.side);
      ghost var i, j := LocateSlot(view, order.side, levels, SideBook(Opposite(order.side)).levels, lookup, Contents(lookup), order.id);
      var book := SideBook(order.side);
      MirrorsOrdered(order.side, levels, ls, lookup);
      k := book.Find(order.price);
      SamePrice(order.side, levels, i, k);
      assert LevelMirrors(levels[k], ls[k], lookup);
      var level := book.levels[k];
      n := level.head;
      while n < |level.orders| && level.orders[n] != order
        invariant level.head <= n <= level.head + j
      {
        n := n + 1;
      }
      var m := n - level.head;
      assert ls[k].orders[m].id in lookup && level.orders[level.head + m] == lookup[ls[k].orders[m].id];
      SlotShowsTicket(view, ls, lookup, Contents(lookup), k, m);
    }

    /** Erase one reference, and its level when that was the last. */
    method EraseAt(side: Side, k: nat, n: nat, quantity: nat)
      requires SideBook(side).side == side && Ordered(side, SideBook(side).levels)
      requires k < |SideBook(side).levels| && n < |SideBook(side).levels[k].orders| && quantity <= SideBook(side).levels[k].total
      modifies SideBook(side)`levels
      ensures SideBook(side).levels == Erased(old(SideBook(side).levels), k, n, quantity)
    {
      var book := SideBook(side);
      var price := book.levels[k].price;
      book.levels := book.levels[k := book.levels[k].Erase(n, quantity)];
      if book.levels[k].Empty() {
        book.Remove(price);
      }
    }

    /** `EraseAt` on a book that already shows the order gone. */
    method EraseCoherently(side: Side, k: nat, n: nat, quantity: nat, ghost id: nat)
      requires SideBook(side).side == side && SideBook(Opposite(side)) != SideBook(side) && Ordered(side, SideBook(side).levels)
      requires k < |SideBook(side).levels| && n < |SideBook(side).levels[k].orders| && quantity <= SideBook(side).levels[k].total
      requires nextTradeId == view.nextTradeId
      requires Coherent(view, side, Erased(SideBook(side).levels, k, n, quantity), SideBook(Opposite(side)).levels,
                        lookup - {id}, Contents(lookup) - {id})
      modifies SideBook(side)`levels
      ensures ConsistentOn(side, lookup - {id})
    {
      ghost var contents := Contents(lookup);
      EraseAt(side, k, n, quantity);
      assert Contents(lookup - {id}) == contents - {id};
    }

    /** Take the order at index `n` of level `k` out of its level, and the level out of the book if that empties it. */
    method RemoveAt(order: Order, k: nat, n: nat)
      requires order.id in lookup && lookup[order.id] == order
      requires ConsistentOn(order.side, lookup)
      requires k < |SideBook(order.side).levels| == |Levels(view, order.side)|
      requires var level, v := SideBook(order.side).levels[k], Levels(view, order.side)[k];
               level.head <= n < |level.orders| == level.head + |v.orders| && v.orders[n - level.head] == order.AsTicket()
      modifies SideBook(order.side)`levels, this`view
      ensures ConsistentOn(order.side, lookup - {order.id})
      ensures Effect(view, [], Outcome.Accepted) == Cancel(old(view), order.id)
    {
      ghost var levels, other, contents := SideBook(order.side).levels, SideBook(Opposite(order.side)).levels, Contents(lookup);
      CancelCoherentAt(view, order.side, levels, other, lookup, contents, k, n, order.AsTicket());
      view := Cancel(view, order.id).book;
      EraseCoherently(order.side, k, n, order.remaining, order.id);
    }

    method RemoveFromBook(order: Order)
      requires order.id in lookup && lookup[order.id] == order
      requires ConsistentOn(order.side, lookup)
      modifies SideBook(order.side)`levels, this`view
      ensures ConsistentOn(order.side, lookup - {order.id})
      ensures Effect(view, [], Outcome.Accepted) == Cancel(old(view), order.id)
    {
      var k, n := Locate(order);
      RemoveAt(order, k, n);
    }

    // ---------- Best bid and offer

    /** The best prices and quantities, read off the vectors. */
    method Best() returns (best: Bbo)
      requires Consistent(lookup)
      ensures best == BestOf(view)
    {
      BestMirrors(bids.levels, view.bids, lookup);
      BestMirrors(asks.levels, view.asks, lookup);
      var bidPrice := bids.BestPrice();
      var bidQuantity := bids.BestQuantity();
      var askPrice := asks.BestPrice();
      var askQuantity := asks.BestQuantity();
      best := Bbo(bidPrice, bidQuantity, askPrice, askQuantity);
    }

    /** Everything that holds between operations but what the snapshot shows. */
    ghost predicate Orderly()
      reads this, bids, asks, pool, lookup.Values
    {
      && Consistent(lookup) && Uncrossed(view) && SlotsHeld(lookup, held, filledOnArrival, pool.outstanding)
      && bboSequence % 2 == 0
    }

    /** The snapshot shows the best prices and quantities; its sequence is odd only while it is being written. */
    method UpdateBbo()
      requires Orderly()
      modifies this`bbo, this`bboSequence
      ensures Orderly() && bbo == BestOf(view) && bboSequence == old(bboSequence) + 2
    {
      var best := Best();
      bboSequence := bboSequence + 1;
      bbo := best;
      bboSequence := bboSequence + 1;
    }

    // ---------- The public operations

    ghost predicate Valid()
      reads this, bids, asks, pool, lookup.Values
    {
      Orderly() && (!shutdown ==> bbo == BestOf(view))
    }

    /** Enter the lookup and sweep the opposite side. */
    method EnterAndMatch(order: Order, ghost notes: map<Order, Note>) returns (trades: seq<Trade>)
      requires Consistent(lookup) && SlotsHeld(lookup, held, filledOnArrival, pool.outstanding)
      requires order in pool.outstanding && order !in held && order.id !in lookup && order.remaining > 0
      requires order !in notes && MarkedSince(notes)
      modifies this`lookup, this`nextTradeId, this`view, this`held, SideBook(Opposite(order.side))`levels, pool
      modifies order`remaining, order`status, lookup.Values`remaining, lookup.Values`status
      ensures order.id in lookup && lookup[order.id] == order && order !in (lookup - {order.id}).Values
      ensures Consistent(lookup - {order.id}) && SlotsHeld(lookup, held, filledOnArrival, pool.outstanding)
      ensures view == Matched(old(view), old(order.AsTicket()))
      ensures trades == Swipe(old(view), old(order.AsTicket())).trades
      ensures order.AsTicket() == Swipe(old(view), old(order.AsTicket())).taker
      ensures order.remaining == 0 ==> order.status == Filled
      ensures Placed(order, true, old(Slots()), Slots())
      ensures MarkedSince(notes)
    {
      ghost var was := lookup;
      var opp := Opposite(order.side);
      lookup := lookup[order.id := order];
      held := held + {order};
      LookupLearns(was, order);
      EitherSide(opp, was);
      trades := MatchOrder(order, notes);
      EitherSide(opp, lookup - {order.id});
      EntersPlaced(was, lookup, order, filledOnArrival, old(held), held, old(pool.outstanding), pool.outstanding);
    }

    /** Rest what remains, or leave the lookup when nothing does. */
    method RestOrLeave(order: Order)
      requires order.id in lookup && lookup[order.id] == order && order !in (lookup - {order.id}).Values
      requires Consistent(lookup - {order.id}) && SlotsHeld(lookup, held, filledOnArrival, pool.outstanding)
      modifies this`lookup, this`view, this`filledOnArrival, SideBook(order.side)`levels, order`status
      ensures Consistent(lookup) && SlotsHeld(lookup, held, filledOnArrival, pool.outstanding)
      ensures view == Rest(old(view), order.AsTicket())
      ensures order.status == if order.remaining == 0 then old(order.status) else OrderStatus.Accepted
      ensures Slots() == if order.remaining == 0 then Left(order, old(Slots())) else old(Slots())
    {
      if order.remaining > 0 {
        EitherSide(order.side, lookup - {order.id});
        AddToBook(order);
        EitherSide(order.side, lookup);
      } else {
        LookupForgets(lookup, order.id);
        lookup := lookup - {order.id};
        filledOnArrival := filledOnArrival + {order};
      }
    }

    /** `RestOrLeave`, with the slots accounted for since `before` and the resting orders marked since `notes`. */
    method Conclude(order: Order, ghost before: SlotState, ghost notes: map<Order, Note>)
      requires order.id in lookup && lookup[order.id] == order && order !in (lookup - {order.id}).Values
      requires Consistent(lookup - {order.id}) && SlotsHeld(lookup, held, filledOnArrival, pool.outstanding)
      requires order !in notes && MarkedSince(notes) && order !in before.known && Placed(order, true, before, Slots())
      modifies this`lookup, this`view, this`filledOnArrival, SideBook(order.side)`levels, order`status
      ensures Consistent(lookup) && SlotsHeld(lookup, held, filledOnArrival, pool.outstanding)
      ensures view == Rest(old(view), order.AsTicket())
      ensures order.status == if order.remaining == 0 then old(order.status) else OrderStatus.Accepted
      ensures Placed(order, order.remaining > 0, before, Slots()) && MarkedSince(notes)
    {
      PlacedLeaves(order, before, Slots());
      RestOrLeave(order);
    }

    /** The accepted path of an add: enter the lookup, match, then rest the remainder or leave the lookup again. */
    method Accept(order: Order, ghost notes: map<Order, Note>) returns (trades: seq<Trade>)
      requires Consistent(lookup) && SlotsHeld(lookup, held, filledOnArrival, pool.outstanding)
      requires order in pool.outstanding && order !in held && order.id !in lookup && order.remaining > 0
      requires order !in notes && MarkedSince(notes)
      modifies this`lookup, this`nextTradeId, this`view, this`held, this`filledOnArrival, bids`levels, asks`levels, pool
      modifies order`remaining, order`status, lookup.Values`remaining, lookup.Values`status
      ensures Consistent(lookup) && SlotsHeld(lookup, held, filledOnArrival, pool.outstanding)
      ensures Effect(view, trades, Outcome.Accepted) == Add(old(view), old(order.AsTicket()))
      ensures order.status == if order.remaining == 0 then Filled else OrderStatus.Accepted
      ensures Placed(order, order.remaining > 0, old(Slots()), Slots()) && MarkedSince(notes)
    {
      ghost var before := Slots();
      assert Occurrences(view, order.id) == 0;
      AddAccepts(view, order.AsTicket());
      trades := EnterAndMatch(order, notes);
      Conclude(order, before, notes);
    }

    /** An accepted add, with the snapshot brought up to date. */
    method Process(order: Order, ghost notes: map<Order, Note>) returns (trades: seq<Trade>)
      requires Valid() && !shutdown && order in pool.outstanding && order !in held
      requires order.remaining > 0 && order.id !in lookup
      requires order !in notes && MarkedSince(notes)
      modifies this, bids`levels, asks`levels, pool, lookup.Values`remaining, lookup.Values`status, order`remaining, order`status
      ensures Valid() && !shutdown
      ensures Effect(view, trades, Outcome.Accepted) == Add(old(view), old(order.AsTicket()))
      ensures order.status == if order.remaining == 0 then Filled else OrderStatus.Accepted
      ensures Placed(order, order.remaining > 0, old(Slots()), Slots())
      ensures MarkedSince(notes)
      ensures bboSequence == old(bboSequence) + 2
    {
      ghost var before, t := view, order.AsTicket();
      trades := Accept(order, notes);
      assert Uncrossed(view) by {
        AddKeepsUncrossed(before, t);
      }
      UpdateBbo();
    }

    /** Match a new order, then rest what is left of it. The caller owns the slot, and the book does not hold it yet. */
    method AddOrder(order: Order?) returns (outcome: Outcome, trades: seq<Trade>)
      requires Valid()
      requires order != null ==> order in pool.outstanding && order !in held
      modifies this, bids`levels, asks`levels, pool, lookup.Values`remaining, lookup.Values`status
      modifies (if order == null then {} else {order})`remaining, (if order == null then {} else {order})`status
      ensures Valid() && shutdown == old(shutdown)
      ensures outcome == ShutDown <==> old(shutdown)
      ensures !old(shutdown) && order == null ==> outcome == Invalid
      ensures !old(shutdown) && order != null ==> Effect(view, trades, outcome) == Add(old(view), old(order.AsTicket()))
      ensures !outcome.Accepted? ==>
                && trades == [] && unchanged(this, bids, asks, pool) && (order != null ==> unchanged(order))
                && forall o :: o in lookup.Values ==> unchanged(o)
      ensures forall i :: 0 <= i < |trades| && order.kind.Limit? ==>
                if order.side.Buy? then trades[i].price <= order.price else trades[i].price >= order.price
      ensures outcome.Accepted? ==>
                && order.status == (if order.remaining == 0 then Filled else OrderStatus.Accepted)
                && Placed(order, order.remaining > 0, old(Slots()), Slots()) && bboSequence == old(bboSequence) + 2
                && MarkedSince(old(Notes(lookup.Values)))
    {
      trades := [];
      if shutdown {
        return ShutDown, trades;
      }
      if order == null || order.remaining == 0 {
        return Invalid, trades;
      }
      assert order.id in lookup <==> Occurrences(view, order.id) > 0;
      if order.id in lookup {
        return Duplicate, trades;
      }
      ghost var before, t := view, order.AsTicket();
      trades := Process(order, Notes(lookup.Values));
      forall i | 0 <= i < |trades| && t.kind.Limit?
        ensures if t.side.Buy? then trades[i].price <= t.price else trades[i].price >= t.price
      {
        AddWithinLimit(before, t, i);
      }
      outcome := Outcome.Accepted;
    }

    /** The successful path of a cancel. */
    method Withdraw(order: Order)
      requires Consistent(lookup) && SlotsHeld(lookup, held, filledOnArrival, pool.outstanding)
      requires order.id in lookup && lookup[order.id] == order
      modifies this`lookup, this`view, this`held, bids`levels, asks`levels, pool, order`status
      ensures Consistent(lookup) && SlotsHeld(lookup, held, filledOnArrival, pool.outstanding)
      ensures Effect(view, [], Outcome.Accepted) == Cancel(old(view), order.id)
      ensures lookup == old(lookup) - {order.id} && order.status == OrderStatus.Cancelled
      ensures Slots() == Freed(order, old(Slots()))
    {
      LookupIsInjective(lookup, order.id);
      SlotReturned(lookup, order.id, held, filledOnArrival, pool.outstanding);
      EitherSide(order.side, lookup);
      RemoveFromBook(order);
      EitherSide(order.side, lookup - {order.id});
      Release(order);
    }

    /** Out of the lookup, marked cancelled, slot back to the pool. */
    method Release(order: Order)
      requires order.id in lookup && order in pool.outstanding && order !in (lookup - {order.id}).Values
      requires Consistent(lookup - {order.id}) && (lookup - {order.id}).Values == lookup.Values - {order}
      requires SlotsHeld(lookup - {order.id}, held - {order}, filledOnArrival, pool.outstanding - {order})
      modifies this`lookup, this`held, pool, order`status
      ensures Consistent(lookup) && SlotsHeld(lookup, held, filledOnArrival, pool.outstanding)
      ensures lookup == old(lookup) - {order.id} && Slots() == Freed(order, old(Slots()))
      ensures order.status == OrderStatus.Cancelled
    {
      ghost var contents := Contents(lookup - {order.id});
      lookup := lookup - {order.id};
      order.status := OrderStatus.Cancelled;
      pool.Deallocate(order);
      held := held - {order};
      assert Contents(lookup) == contents;
    }

    /** A successful cancel, with the snapshot brought up to date. */
    method Retire(order: Order)
      requires Valid() && !shutdown && order.id in lookup && lookup[order.id] == order
      modifies this, bids`levels, asks`levels, pool, order`status
      ensures Valid() && !shutdown
      ensures Effect(view, [], Outcome.Accepted) == Cancel(old(view), order.id)
      ensures lookup == old(lookup) - {order.id} && order.status == OrderStatus.Cancelled
      ensures Slots() == Freed(order, old(Slots()))
      ensures bboSequence == old(bboSequence) + 2
    {
      CancelKeepsUncrossed(view, order.id);
      Withdraw(order);
      UpdateBbo();
    }

    /** Take a resting order off the book and give its slot back. */
    method CancelOrder(id: nat) returns (outcome: Outcome)
      requires Valid()
      modifies this, bids`levels, asks`levels, pool, lookup.Values`status
      ensures Valid() && shutdown == old(shutdown)
      ensures outcome == ShutDown <==> old(shutdown)
      ensures !old(shutdown) ==> Effect(view, [], outcome) == Cancel(old(view), id)
      ensures !outcome.Accepted? ==> unchanged(this, bids, asks, pool) && forall o :: o in lookup.Values ==> unchanged(o)
      ensures outcome.Accepted? ==>
                && id in old(lookup) && lookup == old(lookup) - {id} && old(lookup)[id].status == OrderStatus.Cancelled
                && Slots() == Freed(old(lookup)[id], old(Slots())) && bboSequence == old(bboSequence) + 2
                && forall o :: o in old(lookup).Values && o != old(lookup)[id] ==> o.status == old(o.status)
    {
      if shutdown {
        return ShutDown;
      }
      assert id in lookup <==> Occurrences(view, id) > 0;
      if id !in lookup {
        return NotFound;
      }
      LookupIsInjective(lookup, id);
      Retire(lookup[id]);
      outcome := Outcome.Accepted;
    }

    lemma {:induction false} LookupIsInjective(known: Lookup, id: nat)
      requires Agrees(view, Contents(known)) && id in known
      ensures known[id].id == id && known[id] in known.Values
      ensures forall x :: x in known && x != id ==> known[x] != known[id]
    {
      assert Contents(known)[id].id == id;
      forall x | x in known && x != id ensures known[x] != known[id] {
        assert Contents(known)[x].id == x;
      }
    }

    /** With a pool and orders within their configured maxima, no cached total of the book can wrap. */
    lemma {:induction false} TotalsFit(side: Side, i: nat)
      requires Valid() && pool.Valid() && pool.capacity <= MAX_POOL_SIZE && Total(view, Oversize) == 0
      requires i < |SideBook(side).levels|
      ensures SideBook(side).levels[i].total < TWO_64
    {
      EitherSide(side, lookup);
      RestingWithin(view, lookup.Keys);
      SlotsDistinct();
      InjectiveSize(lookup);
      SubsetSize(lookup.Values, pool.outstanding);
      assert LevelMirrors(SideBook(side).levels[i], Levels(view, side)[i], lookup);
      LevelTotalFits(view, side, i);
    }

    // ---------- Depth and maintenance

    /** The aggregated best levels of one side. */
    method SideDepth(side: Side, maxLevels: nat) returns (depth: seq<DepthLevel>)
      requires Consistent(lookup)
      ensures depth == DepthOf(Levels(view, side), Min(maxLevels, MAX_DEPTH_LEVELS))
    {
      depth := [];
      var book := SideBook(side);
      ghost var ls := Levels(view, side);
      MirrorsOrdered(side, book.levels, ls, lookup);
      for i := 0 to |book.levels|
        invariant depth == DepthOf(ls, Min(i, Min(maxLevels, MAX_DEPTH_LEVELS)))
      {
        if !(|depth| < maxLevels && |depth| < MAX_DEPTH_LEVELS) {
          break;
        }
        var l := book.levels[i];
        assert LevelMirrors(l, ls[i], lookup);
        if !l.Empty() {
          depth := depth + [DepthLevel(l.price, l.total, |l.orders| - l.head)];
        }
      }
    }

    method GetDepth(maxLevels: nat) returns (bidDepth: seq<DepthLevel>, askDepth: seq<DepthLevel>)
      requires Valid()
      ensures bidDepth == DepthOf(view.bids, Min(maxLevels, MAX_DEPTH_LEVELS))
      ensures askDepth == DepthOf(view.asks, Min(maxLevels, MAX_DEPTH_LEVELS))
    {
      bidDepth := SideDepth(Buy, maxLevels);
      askDepth := SideDepth(Sell, maxLevels);
    }

    /** Compaction does not change the book. */
    method Compact()
      requires Valid()
      modifies bids`levels, asks`levels
      ensures Valid()
    {
      MirrorsOrdered(Buy, bids.levels, view.bids, lookup);
      MirrorsOrdered(Sell, asks.levels, view.asks, lookup);
      ghost var bidLevels, askLevels := bids.levels, asks.levels;
      bids.CompactAll();
      asks.CompactAll();
      CompactMirrors(bidLevels, bids.levels, view.bids, lookup);
      CompactMirrors(askLevels, asks.levels, view.asks, lookup);
    }

    /** No level is ever empty between operations, so pruning removes nothing. */
    method Prune()
      requires Valid()
      modifies bids`levels, asks`levels
      ensures Valid() && bids.levels == old(bids.levels) && asks.levels == old(asks.levels)
    {
      MirrorsOrdered(Buy, bids.levels, view.bids, lookup);
      MirrorsOrdered(Sell, asks.levels, view.asks, lookup);
      NonEmptyAll(bids.levels);
      NonEmptyAll(asks.levels);
      bids.PruneEmpty();
      asks.PruneEmpty();
    }

    /** Mark every slot of the lookup cancelled and return it. */
    method CancelAll()
      requires lookup.Values <= pool.outstanding && Injective(lookup)
      modifies pool, lookup.Values`status
      ensures pool.outstanding == old(pool.outstanding) - lookup.Values
      ensures forall o :: o in lookup.Values ==> o.status == OrderStatus.Cancelled
    {
      var pending := lookup;
      while pending != map[]
        invariant pending.Values <= lookup.Values && Injective(pending)
        invariant pool.outstanding == old(pool.outstanding) - (lookup.Values - pending.Values)
        invariant forall o :: o in lookup.Values - pending.Values ==> o.status == OrderStatus.Cancelled
        decreases |pending|
      {
        assert pending.Keys != {};
        var id :| id in pending;
        var order := pending[id];
        assert order in pending.Values;
        LookupForgets(pending, id);
        order.status := OrderStatus.Cancelled;
        pool.Deallocate(order);
        pending := pending - {id};
      }
    }

    /** Forget every resting order. */
    method ClearBook()
      requires bids.side == Buy && asks.side == Sell && bids != asks && nextTradeId == view.nextTradeId
      requires filledOnArrival <= pool.outstanding && bboSequence % 2 == 0
      modifies this`lookup, this`view, this`held, bids`levels, asks`levels
      ensures Orderly() && view == Book([], [], old(view).nextTradeId) && lookup == map[]
      ensures held == filledOnArrival
    {
      lookup := map[];
      bids.Clear();
      asks.Clear();
      view := Book([], [], view.nextTradeId);
      held := filledOnArrival;
    }

    /** Every resting order is cancelled and its slot returned; only slots filled on arrival stay outstanding. */
    method Shutdown()
      requires Valid()
      modifies this, bids`levels, asks`levels, pool, lookup.Values`status
      ensures Valid() && shutdown
      ensures view == Book([], [], old(view).nextTradeId) && lookup == map[]
      ensures held == filledOnArrival == old(filledOnArrival)
      ensures pool.outstanding == old(pool.outstanding) - old(lookup).Values
      ensures forall o :: o in old(lookup).Values ==> o.status == OrderStatus.Cancelled
    {
      shutdown := true;
      SlotsDistinct();
      CancelAll();
      ClearBook();
    }

    lemma {:induction false} SlotsDistinct()
      requires Consistent(lookup)
      ensures Injective(lookup)
    {
    }
  }
}
