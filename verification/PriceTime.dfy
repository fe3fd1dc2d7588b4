/** The reference meaning of price-time priority: each side is just the list
    of resting orders in order of arrival, and matching repeatedly scans it for
    the best-priced, earliest-arrived order. The level book is proved to
    simulate this reference over every run. */
module PriceTime {
  import opened Orders
  import opened Sequences
  import opened LevelBook
  import opened Matching
  import opened BookRuns

  // ---------- The reference matcher

  /** Position `k` holds the best price, and no earlier order is as good. */
  ghost predicate IsFirstBest(side: Side, queue: seq<Ticket>, k: nat) {
    && k < |queue|
    && (forall i :: 0 <= i < |queue| ==> !Better(side, queue[i].price, queue[k].price))
    && (forall i :: 0 <= i < k ==> Better(side, queue[k].price, queue[i].price))
  }

  function FirstBest(side: Side, queue: seq<Ticket>): (k: nat)
    requires queue != []
    ensures IsFirstBest(side, queue, k)
  {
    var last := |queue| - 1;
    if last == 0 then 0
    else
      var k := FirstBest(side, queue[..last]);
      assert forall i :: 0 <= i < last ==> queue[..last][i] == queue[i];
      if Better(side, queue[last].price, queue[k].price) then last else k
  }

  ghost predicate Live(queue: seq<Ticket>) {
    forall i :: 0 <= i < |queue| ==> queue[i].quantity > 0
  }

  datatype Outcome = Outcome(queue: seq<Ticket>, taker: Ticket, trades: seq<Trade>)

  function AfterTrade(queue: seq<Ticket>, k: nat, q: nat): seq<Ticket>
    requires k < |queue| && q <= queue[k].quantity
  {
    if q == queue[k].quantity then DropAt(queue, k) else queue[k := Reduce(queue[k], q)]
  }

  ghost function MatchAll(side: Side, queue: seq<Ticket>, taker: Ticket, tradeId: nat): Outcome
    requires Live(queue)
    decreases taker.quantity
  {
    if taker.quantity == 0 || queue == [] then Outcome(queue, taker, [])
    else
      var k := FirstBest(side, queue);
      if !Crosses(taker, queue[k].price) then Outcome(queue, taker, [])
      else
        var q := Min(taker.quantity, queue[k].quantity);
        var rest := MatchAll(side, AfterTrade(queue, k, q), Reduce(taker, q), tradeId + 1);
        rest.(trades := [MakeTrade(tradeId, taker, queue[k], q, queue[k].price)] + rest.trades)
  }

  // ---------- Relating arrival lists to levels

  function Filter(queue: seq<Ticket>, price: nat): seq<Ticket> {
    if queue == [] then []
    else if queue[0].price == price then [queue[0]] + Filter(queue[1..], price)
    else Filter(queue[1..], price)
  }

  /** The queue at one price; empty when there is no such level. */
  function At(ls: seq<Level>, price: nat): seq<Ticket> {
    if ls == [] then []
    else if ls[0].price == price then ls[0].orders
    else At(ls[1..], price)
  }

  /** Every price's queue is the arrival list restricted to that price. */
  ghost predicate Represents(side: Side, ls: seq<Level>, queue: seq<Ticket>) {
    && WellFormed(side, ls)
    && Live(queue)
    && (forall p :: At(ls, p) == Filter(queue, p))
    && (forall id :: Weight(ls, IdCount(id)) == Weigh(queue, IdCount(id)))
  }

  lemma {:induction false} FilterConcat(a: seq<Ticket>, b: seq<Ticket>, price: nat)
    ensures Filter(a + b, price) == Filter(a, price) + Filter(b, price)
  {
    if a == [] {
      assert a + b == b;
    } else {
      FilterConcat(a[1..], b, price);
      assert (a + b)[1..] == a[1..] + b;
    }
  }

  lemma {:induction false} FilterOne(t: Ticket, price: nat)
    ensures Filter([t], price) == if t.price == price then [t] else []
  {
  }

  lemma {:induction false} FilterSplit(queue: seq<Ticket>, k: nat, price: nat)
    requires k < |queue|
    ensures Filter(queue, price)
         == Filter(queue[..k], price) + (if queue[k].price == price then [queue[k]] else []) + Filter(queue[k + 1..], price)
  {
    assert queue == queue[..k] + ([queue[k]] + queue[k + 1..]);
    FilterConcat(queue[..k], [queue[k]] + queue[k + 1..], price);
    FilterConcat([queue[k]], queue[k + 1..], price);
    FilterOne(queue[k], price);
  }

  lemma {:induction false} FilterAbsent(queue: seq<Ticket>, price: nat)
    requires forall i :: 0 <= i < |queue| ==> queue[i].price != price
    ensures Filter(queue, price) == []
  {
    if queue != [] {
      FilterAbsent(queue[1..], price);
    }
  }

  lemma {:induction false} FilterNonempty(queue: seq<Ticket>, price: nat) returns (i: nat)
    requires Filter(queue, price) != []
    ensures i < |queue| && queue[i].price == price
  {
    if queue[0].price == price {
      i := 0;
    } else {
      var j := FilterNonempty(queue[1..], price);
      i := j + 1;
    }
  }

  /** The first best order heads the filtered queue of its own price. */
  lemma {:induction false} FilterHead(side: Side, queue: seq<Ticket>, k: nat)
    requires IsFirstBest(side, queue, k)
    ensures Filter(queue, queue[k].price) == [queue[k]] + Filter(queue[k + 1..], queue[k].price)
  {
    FilterSplit(queue, k, queue[k].price);
    FilterAbsent(queue[..k], queue[k].price);
  }

  lemma {:induction false} AtLevel(side: Side, ls: seq<Level>, price: nat) returns (i: nat)
    requires At(ls, price) != []
    ensures i < |ls| && ls[i].price == price && ls[i].orders == At(ls, price)
  {
    if ls[0].price == price {
      i := 0;
    } else {
      var j := AtLevel(side, ls[1..], price);
      i := j + 1;
    }
  }

  /** The head of the best level is the first best order of the arrival list. */
  lemma {:induction false} HeadIsFirstBest(side: Side, ls: seq<Level>, queue: seq<Ticket>, k: nat)
    requires Represents(side, ls, queue) && IsFirstBest(side, queue, k)
    ensures ls != [] && ls[0].price == queue[k].price
    ensures ls[0].orders == [queue[k]] + Filter(queue[k + 1..], queue[k].price)
  {
    var p := queue[k].price;
    FilterHead(side, queue, k);
    assert At(ls, p) == Filter(queue, p);
    var i := AtLevel(side, ls, p);
    assert LevelFits(side, ls[0]);
    assert At(ls, ls[0].price) == Filter(queue, ls[0].price);
    var j := FilterNonempty(queue, ls[0].price);
    assert !Better(side, queue[j].price, p);
    BestFirst(side, ls, i);
  }

  lemma {:induction false} EmptyTogether(side: Side, ls: seq<Level>, queue: seq<Ticket>)
    requires Represents(side, ls, queue)
    ensures ls == [] <==> queue == []
  {
    if ls != [] {
      assert LevelFits(side, ls[0]);
      assert At(ls, ls[0].price) == Filter(queue, ls[0].price);
    }
    if queue != [] {
      assert At(ls, queue[0].price) == Filter(queue, queue[0].price);
    }
  }

  // ---------- One fill keeps the relation

  lemma {:induction false} TakeHeadAt(side: Side, ls: seq<Level>, price: nat)
    requires WellFormed(side, ls) && ls != []
    ensures At(TakeHead(ls), price) == if price == ls[0].price then ls[0].orders[1..] else At(ls, price)
  {
    assert LevelFits(side, ls[0]);
    if |ls[0].orders| == 1 {
      if price == ls[0].price {
        AtBeyond(side, ls, price);
      }
    } else {
      assert TakeHead(ls)[1..] == ls[1..];
    }
  }

  lemma {:induction false} AtNone(ls: seq<Level>, price: nat)
    requires forall i :: 0 <= i < |ls| ==> ls[i].price != price
    ensures At(ls, price) == []
  {
    if ls != [] {
      AtNone(ls[1..], price);
    }
  }

  /** Prices do not repeat below the best level. */
  lemma {:induction false} AtBeyond(side: Side, ls: seq<Level>, price: nat)
    requires WellFormed(side, ls) && ls != [] && !Better(side, ls[0].price, price)
    ensures At(ls[1..], price) == []
  {
    assert forall i :: 0 <= i < |ls[1..]| ==> Better(side, ls[0].price, ls[1..][i].price);
    AtNone(ls[1..], price);
  }

  lemma {:induction false} ReduceHeadAt(side: Side, ls: seq<Level>, q: nat, price: nat)
    requires WellFormed(side, ls) && ls != [] && q < ls[0].orders[0].quantity
    ensures At(ReduceHead(ls, q), price)
         == if price == ls[0].price then [Reduce(ls[0].orders[0], q)] + ls[0].orders[1..] else At(ls, price)
  {
  }

  lemma {:induction false} DropFilter(side: Side, queue: seq<Ticket>, k: nat, price: nat)
    requires IsFirstBest(side, queue, k)
    ensures Filter(DropAt(queue, k), price)
         == if price == queue[k].price then Filter(queue[k + 1..], price) else Filter(queue, price)
  {
    FilterConcat(queue[..k], queue[k + 1..], price);
    FilterSplit(queue, k, price);
    if price == queue[k].price {
      FilterAbsent(queue[..k], price);
    }
  }

  lemma {:induction false} ReduceFilter(side: Side, queue: seq<Ticket>, k: nat, t: Ticket, price: nat)
    requires IsFirstBest(side, queue, k) && t.price == queue[k].price
    ensures Filter(queue[k := t], price)
         == if price == t.price then [t] + Filter(queue[k + 1..], price) else Filter(queue, price)
  {
    FilterSplit(queue[k := t], k, price);
    FilterSplit(queue, k, price);
    assert queue[k := t][..k] == queue[..k] && queue[k := t][k + 1..] == queue[k + 1..];
    if price == t.price {
      FilterAbsent(queue[..k], price);
    }
  }

  lemma {:induction false} TakeKeeps(side: Side, ls: seq<Level>, queue: seq<Ticket>, k: nat)
    requires Represents(side, ls, queue) && IsFirstBest(side, queue, k) && ls != []
    ensures Represents(side, TakeHead(ls), DropAt(queue, k))
  {
    HeadIsFirstBest(side, ls, queue, k);
    TakeHeadFits(side, ls);
    forall p ensures At(TakeHead(ls), p) == Filter(DropAt(queue, k), p) {
      TakeHeadAt(side, ls, p);
      DropFilter(side, queue, k, p);
      assert At(ls, p) == Filter(queue, p);
    }
    forall id ensures Weight(TakeHead(ls), IdCount(id)) == Weigh(DropAt(queue, k), IdCount(id)) {
      TakeHeadWeight(ls, IdCount(id));
      DropAtWeight(queue, k, IdCount(id));
      assert Weight(ls, IdCount(id)) == Weigh(queue, IdCount(id));
    }
  }

  lemma {:induction false} UpdateWeight(queue: seq<Ticket>, k: nat, t: Ticket, f: Measure)
    requires k < |queue|
    ensures Weigh(queue[k := t], f) + f.Of(queue[k]) == Weigh(queue, f) + f.Of(t)
  {
    WeighSplit(queue, k, f);
    WeighSplit(queue[k := t], k, f);
    assert queue[k := t][..k] == queue[..k] && queue[k := t][k + 1..] == queue[k + 1..];
  }

  lemma {:induction false} ReduceKeeps(side: Side, ls: seq<Level>, queue: seq<Ticket>, k: nat, q: nat)
    requires Represents(side, ls, queue) && IsFirstBest(side, queue, k) && ls != []
    requires ls[0].orders != [] && queue[k] == ls[0].orders[0] && q < queue[k].quantity
    ensures Represents(side, ReduceHead(ls, q), queue[k := Reduce(queue[k], q)])
  {
    var t := Reduce(queue[k], q);
    HeadIsFirstBest(side, ls, queue, k);
    ReduceHeadFits(side, ls, q);
    forall p ensures At(ReduceHead(ls, q), p) == Filter(queue[k := t], p) {
      ReduceHeadAt(side, ls, q, p);
      ReduceFilter(side, queue, k, t, p);
      assert At(ls, p) == Filter(queue, p);
    }
    forall id ensures Weight(ReduceHead(ls, q), IdCount(id)) == Weigh(queue[k := t], IdCount(id)) {
      ReduceHeadWeight(ls, q, IdCount(id));
      UpdateWeight(queue, k, t, IdCount(id));
      assert Weight(ls, IdCount(id)) == Weigh(queue, IdCount(id));
    }
  }

  /** Sweeping the levels is matching against the arrival list: same trades, same remainder, related books. */
  lemma {:induction false} SweepIsMatchAll(side: Side, ls: seq<Level>, queue: seq<Ticket>, taker: Ticket, tradeId: nat)
    requires Represents(side, ls, queue)
    ensures var s, m := Sweep(side, ls, taker, tradeId), MatchAll(side, queue, taker, tradeId);
            s.trades == m.trades && s.taker == m.taker && Represents(side, s.levels, m.queue)
    decreases taker.quantity
  {
    EmptyTogether(side, ls, queue);
    if taker.quantity > 0 && queue != [] {
      var k := FirstBest(side, queue);
      HeadIsFirstBest(side, ls, queue, k);
      if Crosses(taker, queue[k].price) {
        FillKeepsFit(side, ls, taker);
        var q := FillQuantity(ls, taker);
        if q == queue[k].quantity {
          TakeKeeps(side, ls, queue, k);
        } else {
          ReduceKeeps(side, ls, queue, k, q);
        }
        SweepIsMatchAll(side, AfterFill(ls, taker), AfterTrade(queue, k, q), Reduce(taker, q), tradeId + 1);
      }
    }
  }

  // ---------- Resting and cancelling keep the relation

  lemma {:induction false} InsertAt(side: Side, ls: seq<Level>, t: Ticket, price: nat)
    requires WellFormed(side, ls)
    ensures At(Insert(side, ls, t), price) == if price == t.price then At(ls, price) + [t] else At(ls, price)
  {
    if ls == [] {
    } else if Better(side, t.price, ls[0].price) {
      assert ([Level(t.price, [t])] + ls)[1..] == ls;
      AtBeyond(side, ls, t.price);
    } else if ls[0].price == t.price {
      assert Insert(side, ls, t)[1..] == ls[1..];
    } else {
      TailFits(side, ls);
      InsertAt(side, ls[1..], t, price);
      assert Insert(side, ls, t)[1..] == Insert(side, ls[1..], t);
    }
  }

  lemma {:induction false} InsertKeeps(side: Side, ls: seq<Level>, queue: seq<Ticket>, t: Ticket)
    requires Represents(side, ls, queue) && t.quantity > 0 && t.side == side
    ensures Represents(side, Insert(side, ls, t), queue + [t])
  {
    InsertFits(side, ls, t);
    forall p ensures At(Insert(side, ls, t), p) == Filter(queue + [t], p) {
      InsertAt(side, ls, t, p);
      FilterConcat(queue, [t], p);
      FilterOne(t, p);
      assert At(ls, p) == Filter(queue, p);
    }
    forall id ensures Weight(Insert(side, ls, t), IdCount(id)) == Weigh(queue + [t], IdCount(id)) {
      InsertWeight(side, ls, t, IdCount(id));
      WeighConcat(queue, [t], IdCount(id));
      WeighOne(t, IdCount(id));
      assert Weight(ls, IdCount(id)) == Weigh(queue, IdCount(id));
    }
  }

  lemma {:induction false} AbsentBeyond(ls: seq<Level>, id: nat)
    requires ls != [] && Weight(ls, IdCount(id)) <= 1
    requires Position(ls[0].orders, id) < |ls[0].orders|
    ensures Weight(ls[1..], IdCount(id)) == 0
  {
    WeightIffPosition(ls[0].orders, id);
  }

  lemma {:induction false} AbsentAt(ls: seq<Level>, id: nat, price: nat)
    requires Weight(ls, IdCount(id)) == 0
    ensures Without(At(ls, price), id) == At(ls, price)
  {
    if ls != [] {
      WeightIffPosition(ls[0].orders, id);
      AbsentAt(ls[1..], id, price);
    }
  }

  /** A cancel takes one order out of one queue and keeps every other order's place. */
  lemma {:induction false} RemoveAt(side: Side, ls: seq<Level>, id: nat, price: nat)
    requires WellFormed(side, ls) && Weight(ls, IdCount(id)) <= 1
    ensures At(Remove(ls, id), price) == Without(At(ls, price), id)
  {
    if ls != [] {
      TailFits(side, ls);
      var here := ls[0].orders;
      if Position(here, id) < |here| {
        AbsentBeyond(ls, id);
        AbsentAt(ls[1..], id, price);
        AtBeyond(side, ls, ls[0].price);
        if |here| > 1 {
          assert Remove(ls, id)[1..] == ls[1..];
        } else {
          assert Without(here, id) == [];
        }
      } else {
        RemoveAt(side, ls[1..], id, price);
        assert Remove(ls, id)[1..] == Remove(ls[1..], id);
      }
    }
  }

  lemma {:induction false} PositionConcat(a: seq<Ticket>, b: seq<Ticket>, id: nat)
    requires Position(a, id) == |a|
    ensures Position(a + b, id) == |a| + Position(b, id)
  {
    var n := |a| + Position(b, id);
    assert n < |a + b| ==> (a + b)[n].id == id;
    assert forall i :: 0 <= i < |a| ==> (a + b)[i] == a[i];
    assert forall i :: |a| <= i < n ==> (a + b)[i] == b[i - |a|];
    assert forall i :: 0 <= i < n ==> (a + b)[i].id != id;
  }

  lemma {:induction false} FilterWeight(queue: seq<Ticket>, price: nat, f: Measure)
    ensures Weigh(Filter(queue, price), f) <= Weigh(queue, f)
  {
    if queue != [] {
      FilterWeight(queue[1..], price, f);
      if queue[0].price == price {
        assert ([queue[0]] + Filter(queue[1..], price))[1..] == Filter(queue[1..], price);
      }
    }
  }

  lemma {:induction false} DropMiddle(a: seq<Ticket>, t: Ticket, b: seq<Ticket>)
    ensures DropAt(a + [t] + b, |a|) == a + b
  {
  }

  /** Filtering commutes with removal of an id that occurs at most once. */
  lemma {:induction false} WithoutFilter(queue: seq<Ticket>, id: nat, price: nat)
    requires Weigh(queue, IdCount(id)) <= 1
    ensures Filter(Without(queue, id), price) == Without(Filter(queue, price), id)
  {
    var k := Position(queue, id);
    if k == |queue| {
      FilterWeight(queue, price, IdCount(id));
      WeightIffPosition(queue, id);
      WeightIffPosition(Filter(queue, price), id);
    } else {
      var before, after := queue[..k], queue[k + 1..];
      FilterConcat(before, after, price);
      FilterSplit(queue, k, price);
      FilterWithoutId(queue, id, k, price);
      var fb, fa := Filter(before, price), Filter(after, price);
      if queue[k].price == price {
        PositionConcat(fb, [queue[k]] + fa, id);
        Associative(fb, [queue[k]], fa);
        DropMiddle(fb, queue[k], fa);
      } else {
        PositionConcat(fb, fa, id);
        assert fb + [] + fa == fb + fa;
      }
    }
  }

  lemma {:induction false} FilterWithoutId(queue: seq<Ticket>, id: nat, k: nat, price: nat)
    requires Weigh(queue, IdCount(id)) <= 1 && k == Position(queue, id) < |queue|
    ensures Position(Filter(queue[..k], price), id) == |Filter(queue[..k], price)|
    ensures Position(Filter(queue[k + 1..], price), id) == |Filter(queue[k + 1..], price)|
  {
    WeighSplit(queue, k, IdCount(id));
    FilterWeight(queue[..k], price, IdCount(id));
    FilterWeight(queue[k + 1..], price, IdCount(id));
    WeightIffPosition(queue[..k], id);
    WeightIffPosition(Filter(queue[..k], price), id);
    WeightIffPosition(Filter(queue[k + 1..], price), id);
  }

  lemma {:induction false} WithoutWeight(queue: seq<Ticket>, ls: seq<Level>, id: nat, x: nat)
    requires Weight(ls, IdCount(id)) > 0
    requires Weight(ls, IdCount(id)) == Weigh(queue, IdCount(id))
    requires Weight(ls, IdCount(x)) == Weigh(queue, IdCount(x))
    ensures Weight(Remove(ls, id), IdCount(x)) == Weigh(Without(queue, id), IdCount(x))
  {
    RemoveWeight(ls, id, IdCount(x));
    WeightIffPosition(queue, id);
    DropAtWeight(queue, Position(queue, id), IdCount(x));
  }

  lemma {:induction false} RemoveKeeps(side: Side, ls: seq<Level>, queue: seq<Ticket>, id: nat)
    requires Represents(side, ls, queue) && Weight(ls, IdCount(id)) == 1
    ensures Represents(side, Remove(ls, id), Without(queue, id))
  {
    assert Weigh(queue, IdCount(id)) == 1;
    RemoveFits(side, ls, id);
    forall p ensures At(Remove(ls, id), p) == Filter(Without(queue, id), p) {
      RemoveAt(side, ls, id, p);
      WithoutFilter(queue, id, p);
      assert At(ls, p) == Filter(queue, p);
    }
    forall x ensures Weight(Remove(ls, id), IdCount(x)) == Weigh(Without(queue, id), IdCount(x)) {
      WithoutWeight(queue, ls, id, x);
    }
  }

  // ---------- The reference over whole runs

  datatype Queues = Queues(bids: seq<Ticket>, asks: seq<Ticket>, nextTradeId: nat)

  datatype Answer = Answer(queues: Queues, trades: seq<Trade>, accepted: bool)

  ghost predicate AllLive(q: Queues) {
    Live(q.bids) && Live(q.asks)
  }

  predicate Rests(q: Queues, id: nat) {
    Weigh(q.bids, IdCount(id)) + Weigh(q.asks, IdCount(id)) > 0
  }

  /** A new order trades against the other side's list; what is left joins the end of its own. */
  ghost function Arrive(q: Queues, t: Ticket): Answer
    requires AllLive(q)
  {
    if t.quantity == 0 || Rests(q, t.id) then Answer(q, [], false)
    else if t.side.Buy? then
      var m := MatchAll(Sell, q.asks, t, q.nextTradeId);
      Answer(Queues(if m.taker.quantity == 0 then q.bids else q.bids + [m.taker], m.queue, q.nextTradeId + |m.trades|),
             m.trades, true)
    else
      var m := MatchAll(Buy, q.bids, t, q.nextTradeId);
      Answer(Queues(m.queue, if m.taker.quantity == 0 then q.asks else q.asks + [m.taker], q.nextTradeId + |m.trades|),
             m.trades, true)
  }

  function Leave(q: Queues, id: nat): Answer {
    if !Rests(q, id) then Answer(q, [], false)
    else Answer(Queues(Without(q.bids, id), Without(q.asks, id), q.nextTradeId), [], true)
  }

  ghost function Respond(q: Queues, r: Request): Answer
    requires AllLive(q)
  {
    match r
    case NewOrder(t) => Arrive(q, t)
    case CancelOrder(id) => Leave(q, id)
  }

  ghost predicate Simulates(b: Book, q: Queues) {
    Represents(Buy, b.bids, q.bids) && Represents(Sell, b.asks, q.asks) && b.nextTradeId == q.nextTradeId
  }

  lemma {:induction false} SameIds(b: Book, q: Queues, id: nat)
    requires Simulates(b, q)
    ensures Occurrences(b, id) == Weigh(q.bids, IdCount(id)) + Weigh(q.asks, IdCount(id))
  {
    assert Weight(b.bids, IdCount(id)) == Weigh(q.bids, IdCount(id));
    assert Weight(b.asks, IdCount(id)) == Weigh(q.asks, IdCount(id));
  }

  lemma {:induction false} BuySimulates(b: Book, q: Queues, t: Ticket)
    requires Simulates(b, q) && t.side.Buy? && Add(b, t).outcome.Accepted? && Arrive(q, t).accepted
    ensures var e, a := Add(b, t), Arrive(q, t);
            Simulates(e.book, a.queues) && e.trades == a.trades
  {
    SweepIsMatchAll(Sell, b.asks, q.asks, t, b.nextTradeId);
    SweepStops(Sell, b.asks, t, b.nextTradeId);
    var rest := Swipe(b, t).taker;
    if rest.quantity > 0 {
      InsertKeeps(Buy, b.bids, q.bids, rest);
    }
  }

  lemma {:induction false} SellSimulates(b: Book, q: Queues, t: Ticket)
    requires Simulates(b, q) && t.side.Sell? && Add(b, t).outcome.Accepted? && Arrive(q, t).accepted
    ensures var e, a := Add(b, t), Arrive(q, t);
            Simulates(e.book, a.queues) && e.trades == a.trades
  {
    SweepIsMatchAll(Buy, b.bids, q.bids, t, b.nextTradeId);
    SweepStops(Buy, b.bids, t, b.nextTradeId);
    var rest := Swipe(b, t).taker;
    if rest.quantity > 0 {
      InsertKeeps(Sell, b.asks, q.asks, rest);
    }
  }

  /** One add against the level book and against the arrival lists gives the same trades and related states. */
  lemma {:induction false} AddSimulates(b: Book, q: Queues, t: Ticket)
    requires Simulates(b, q)
    ensures var e, a := Add(b, t), Arrive(q, t);
            Simulates(e.book, a.queues) && e.trades == a.trades && (e.outcome.Accepted? <==> a.accepted)
  {
    SameIds(b, q, t.id);
    if Arrive(q, t).accepted {
      if t.side.Buy? {
        BuySimulates(b, q, t);
      } else {
        SellSimulates(b, q, t);
      }
    }
  }

  lemma {:induction false} CancelSimulates(b: Book, q: Queues, id: nat)
    requires Simulates(b, q) && UniqueIds(b)
    ensures var e, a := Cancel(b, id), Leave(q, id);
            Simulates(e.book, a.queues) && (e.outcome.Accepted? <==> a.accepted)
  {
    SameIds(b, q, id);
    assert Occurrences(b, id) <= 1;
    if Occurrences(b, id) > 0 {
      WeightIffPosition(q.bids, id);
      WeightIffPosition(q.asks, id);
      assert Weight(b.bids, IdCount(id)) == Weigh(q.bids, IdCount(id));
      if SideOf(b, id).Buy? {
        RemoveKeeps(Buy, b.bids, q.bids, id);
      } else {
        RemoveKeeps(Sell, b.asks, q.asks, id);
      }
    }
  }

  lemma {:induction false} RespondSimulates(b: Book, q: Queues, r: Request)
    requires Simulates(b, q) && UniqueIds(b)
    ensures var e, a := Apply(b, r), Respond(q, r);
            Simulates(e.book, a.queues) && e.trades == a.trades && (e.outcome.Accepted? <==> a.accepted)
  {
    match r
    case NewOrder(t) => AddSimulates(b, q, t);
    case CancelOrder(id) => CancelSimulates(b, q, id);
  }

  /** The reference lists after a run from empty lists. */
  ghost function Reference(run: seq<Request>): (q: Queues)
    ensures AllLive(q) && Simulates(After(run), q)
  {
    if run == [] then EmptySimulates(); Queues([], [], 1)
    else
      var q := Reference(run[..|run| - 1]);
      RespondSimulates(After(run[..|run| - 1]), q, run[|run| - 1]);
      Respond(q, run[|run| - 1]).queues
  }

  lemma {:induction false} EmptySimulates()
    ensures Simulates(EMPTY_BOOK, Queues([], [], 1))
  {
  }

  ghost function ReferenceTape(run: seq<Request>): seq<Trade> {
    if run == [] then []
    else ReferenceTape(run[..|run| - 1]) + Respond(Reference(run[..|run| - 1]), run[|run| - 1]).trades
  }

  /** Over every run the level book prints exactly the reference's trades and represents its lists. */
  lemma {:induction false} RunRefinesReference(run: seq<Request>)
    ensures Tape(run) == ReferenceTape(run)
    ensures Simulates(After(run), Reference(run))
  {
    if run != [] {
      var prefix := run[..|run| - 1];
      RunRefinesReference(prefix);
      RespondSimulates(After(prefix), Reference(prefix), run[|run| - 1]);
    }
  }

  /** Levels are determined by the arrival list: two books representing the same list are equal. */
  lemma {:induction false} Canonical(side: Side, a: seq<Level>, b: seq<Level>)
    requires WellFormed(side, a) && WellFormed(side, b)
    requires forall p :: At(a, p) == At(b, p)
    ensures a == b
  {
    SameHead(side, a, b);
    if a != [] {
      TailFits(side, a);
      TailFits(side, b);
      forall p ensures At(a[1..], p) == At(b[1..], p) {
        assert At(a, p) == At(b, p);
        if p == a[0].price {
          AtBeyond(side, a, p);
          AtBeyond(side, b, p);
        }
      }
      Canonical(side, a[1..], b[1..]);
      assert a == [a[0]] + a[1..] && b == [b[0]] + b[1..];
    }
  }

  lemma {:induction false} SameHead(side: Side, a: seq<Level>, b: seq<Level>)
    requires WellFormed(side, a) && WellFormed(side, b)
    requires forall p :: At(a, p) == At(b, p)
    ensures a == [] <==> b == []
    ensures a != [] ==> a[0] == b[0]
  {
    if b != [] {
      assert LevelFits(side, b[0]);
      assert At(a, b[0].price) == At(b, b[0].price);
      var i := AtLevel(side, a, b[0].price);
      BestFirst(side, a, i);
    }
    if a != [] {
      assert LevelFits(side, a[0]);
      var j := AtLevel(side, b, a[0].price);
      BestFirst(side, b, j);
    }
  }
}
