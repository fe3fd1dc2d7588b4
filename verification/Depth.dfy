/** Aggregated depth, and what it says about the resting orders themselves. */
module Depth {
  import opened Orders
  import opened LevelBook
  import opened PriceTime
  import opened BookRuns

  // ---------- Best bid and offer

  datatype Bbo = Bbo(bidPrice: nat, bidQuantity: nat, askPrice: nat, askQuantity: nat)

  function BestPrice(ls: seq<Level>): nat {
    if ls == [] then 0 else ls[0].price
  }

  function BestQuantity(ls: seq<Level>): nat {
    if ls == [] then 0 else Weigh(ls[0].orders, AnyQuantity)
  }

  function BestOf(b: Book): Bbo {
    Bbo(BestPrice(b.bids), BestQuantity(b.bids), BestPrice(b.asks), BestQuantity(b.asks))
  }

  // ---------- Depth

  const MAX_DEPTH_LEVELS := 20

  datatype DepthLevel = DepthLevel(price: nat, quantity: nat, orderCount: nat)

  function Summary(l: Level): DepthLevel {
    DepthLevel(l.price, Weigh(l.orders, AnyQuantity), |l.orders|)
  }

  /** The first `n` levels, aggregated. */
  function DepthOf(ls: seq<Level>, n: nat): seq<DepthLevel> {
    seq(Min(n, |ls|), i requires 0 <= i < Min(n, |ls|) => Summary(ls[i]))
  }

  lemma {:induction false} AtIndex(side: Side, ls: seq<Level>, i: nat)
    requires WellFormed(side, ls) && i < |ls|
    ensures At(ls, ls[i].price) == ls[i].orders
  {
    if i > 0 {
      TailFits(side, ls);
      assert Better(side, ls[0].price, ls[i].price);
      AtIndex(side, ls[1..], i - 1);
    }
  }

  lemma {:induction false} AtSomewhere(ls: seq<Level>, price: nat) returns (i: nat)
    requires At(ls, price) != []
    ensures i < |ls| && ls[i].price == price
  {
    if ls[0].price == price {
      i := 0;
    } else {
      i := AtSomewhere(ls[1..], price);
      i := i + 1;
    }
  }

  lemma {:induction false} FilterHas(queue: seq<Ticket>, j: nat)
    requires j < |queue|
    ensures Filter(queue, queue[j].price) != []
  {
    if j > 0 {
      FilterHas(queue[1..], j - 1);
    }
  }

  /** Depth in terms of the orders that rest: every entry counts and sums exactly the orders at its
      price, entries run from best to worse, and an order not covered is worse than a full depth. */
  lemma {:induction false} DepthOfArrivals(side: Side, ls: seq<Level>, queue: seq<Ticket>, n: nat)
    requires Represents(side, ls, queue)
    ensures var d := DepthOf(ls, n);
            && |d| <= n
            && (forall i :: 0 <= i < |d| ==>
                  && d[i].quantity == Weigh(Filter(queue, d[i].price), AnyQuantity)
                  && d[i].orderCount == |Filter(queue, d[i].price)| > 0)
            && (forall i, j :: 0 <= i < j < |d| ==> Better(side, d[i].price, d[j].price))
            && (forall t :: t in queue ==> Covered(side, d, n, t.price))
  {
    var d := DepthOf(ls, n);
    forall i | 0 <= i < |d| ensures Filter(queue, d[i].price) == ls[i].orders != [] {
      AtIndex(side, ls, i);
      assert LevelFits(side, ls[i]);
    }
    forall t | t in queue ensures Covered(side, d, n, t.price) {
      var j :| 0 <= j < |queue| && queue[j] == t;
      FilterHas(queue, j);
      var i := AtSomewhere(ls, t.price);
      if i < |d| {
        assert d[i].price == t.price;
      } else {
        assert forall k :: 0 <= k < n ==> Better(side, ls[k].price, ls[i].price);
      }
    }
  }

  /** The best price and quantity of a side in terms of the orders that rest: the price of the order first in
      priority, and the sum of all orders at that price. */
  lemma {:induction false} BestOfArrivals(side: Side, ls: seq<Level>, queue: seq<Ticket>)
    requires Represents(side, ls, queue)
    ensures queue == [] ==> BestPrice(ls) == 0 && BestQuantity(ls) == 0
    ensures queue != [] ==>
              var p := queue[FirstBest(side, queue)].price;
              BestPrice(ls) == p && BestQuantity(ls) == Weigh(Filter(queue, p), AnyQuantity) > 0
  {
    EmptyTogether(side, ls, queue);
    if queue != [] {
      var k := FirstBest(side, queue);
      HeadIsFirstBest(side, ls, queue, k);
      AtIndex(side, ls, 0);
      assert LevelFits(side, ls[0]);
      WeighSplit(ls[0].orders, 0, AnyQuantity);
    }
  }

  /** A best bid and offer in terms of the orders that rest: the price of the bid first in priority, no bid above it, and
      what all bids at that price have open; likewise for the asks; 0 for a side without orders. */
  ghost predicate Shows(bbo: Bbo, q: Queues) {
    && (q.bids == [] ==> bbo.bidPrice == 0 && bbo.bidQuantity == 0)
    && (q.asks == [] ==> bbo.askPrice == 0 && bbo.askQuantity == 0)
    && (q.bids != [] ==>
          && bbo.bidPrice == q.bids[FirstBest(Buy, q.bids)].price
          && bbo.bidQuantity == Weigh(Filter(q.bids, bbo.bidPrice), AnyQuantity)
          && forall i :: 0 <= i < |q.bids| ==> q.bids[i].price <= bbo.bidPrice)
    && (q.asks != [] ==>
          && bbo.askPrice == q.asks[FirstBest(Sell, q.asks)].price
          && bbo.askQuantity == Weigh(Filter(q.asks, bbo.askPrice), AnyQuantity)
          && forall i :: 0 <= i < |q.asks| ==> q.asks[i].price >= bbo.askPrice)
  }

  lemma {:induction false} BboOfArrivals(b: Book, q: Queues)
    requires Simulates(b, q)
    ensures Shows(BestOf(b), q)
  {
    BestOfArrivals(Buy, b.bids, q.bids);
    BestOfArrivals(Sell, b.asks, q.asks);
  }

  /** Over every run the snapshot is that of the orders resting in the reference. */
  lemma {:induction false} RunBbo(run: seq<Request>)
    ensures Shows(BestOf(After(run)), Reference(run))
  {
    BboOfArrivals(After(run), Reference(run));
  }

  /** The price has an entry, or all `n` entries are strictly better. */
  ghost predicate Covered(side: Side, d: seq<DepthLevel>, n: nat, price: nat) {
    (exists i :: 0 <= i < |d| && d[i].price == price)
    || (|d| == n && forall i :: 0 <= i < n ==> Better(side, d[i].price, price))
  }
}
