/** What the book promises the clients whose orders trade, in terms of prices and of the requests themselves: no one
    trades beyond their limit, every trade joins a buyer and a seller that asked for it, and what is left of a limit
    order could not have traded. */
module Limits {
  import opened Orders
  import opened LevelBook
  import opened Matching
  import opened BookRuns

  // ---------- One add

  /** No trade of a limit order is beyond its limit. */
  lemma {:induction false} AddWithinLimit(b: Book, t: Ticket, i: nat)
    requires Fits(b) && t.kind.Limit? && i < |Add(b, t).trades|
    ensures t.side.Buy? ==> Add(b, t).trades[i].price <= t.price
    ensures t.side.Sell? ==> Add(b, t).trades[i].price >= t.price
  {
    SweepWithinLimit(Opposite(t.side), Levels(b, Opposite(t.side)), t, b.nextTradeId, i);
  }

  /** An accepted order rests exactly if some of it is left. */
  lemma {:induction false} AddRests(b: Book, t: Ticket)
    requires Fits(b) && Add(b, t).outcome.Accepted?
    ensures Occurrences(Add(b, t).book, t.id) > 0 <==> Swipe(b, t).taker.quantity > 0
  {
    var opp := Opposite(t.side);
    SweepAddsNoId(opp, Levels(b, opp), t, b.nextTradeId, t.id);
    SweepStops(opp, Levels(b, opp), t, b.nextTradeId);
    RestTotal(Matched(b, t), Swipe(b, t).taker, IdCount(t.id));
  }

  /** What is left of a limit order could not have traded: every level left opposite it is beyond its limit. */
  lemma {:induction false} RemainderBeyond(b: Book, t: Ticket, i: nat)
    requires Fits(b) && Add(b, t).outcome.Accepted? && t.kind.Limit? && Occurrences(Add(b, t).book, t.id) > 0
    ensures t.side.Buy? && i < |Add(b, t).book.asks| ==> Add(b, t).book.asks[i].price > t.price
    ensures t.side.Sell? && i < |Add(b, t).book.bids| ==> Add(b, t).book.bids[i].price < t.price
  {
    AddRests(b, t);
    AddFate(b, t);
  }

  /** And what is left of a market order faces an empty side. */
  lemma {:induction false} MarketTakesAll(b: Book, t: Ticket)
    requires Fits(b) && Add(b, t).outcome.Accepted? && t.kind.Market? && Occurrences(Add(b, t).book, t.id) > 0
    ensures t.side.Buy? ==> Add(b, t).book.asks == []
    ensures t.side.Sell? ==> Add(b, t).book.bids == []
  {
    AddRests(b, t);
    AddFate(b, t);
  }

  /** Some order of this id rests. */
  ghost predicate Present(ls: seq<Level>, id: nat) {
    exists i, j :: 0 <= i < |ls| && 0 <= j < |ls[i].orders| && ls[i].orders[j].id == id
  }

  lemma {:induction false} Where(ls: seq<Level>, id: nat) returns (i: nat, j: nat)
    requires Weight(ls, IdCount(id)) > 0
    ensures i < |ls| && j < |ls[i].orders| && ls[i].orders[j].id == id
  {
    WeightIffPosition(ls[0].orders, id);
    if Position(ls[0].orders, id) < |ls[0].orders| {
      i, j := 0, Position(ls[0].orders, id);
    } else {
      i, j := Where(ls[1..], id);
      i := i + 1;
    }
  }

  lemma {:induction false} PresentCounts(ls: seq<Level>, id: nat)
    ensures Present(ls, id) <==> Weight(ls, IdCount(id)) > 0
  {
    if Present(ls, id) {
      var i, j :| 0 <= i < |ls| && 0 <= j < |ls[i].orders| && ls[i].orders[j].id == id;
      WeightSplit(ls, i, IdCount(id));
      WeighSplit(ls[i].orders, j, IdCount(id));
    }
    if Weight(ls, IdCount(id)) > 0 {
      var i, j := Where(ls, id);
    }
  }

  /** Which answer an add gets: nothing to fill, an order of that id resting on either side, or accepted. */
  lemma {:induction false} AddAnswers(b: Book, t: Ticket)
    requires Fits(b)
    ensures Add(b, t).outcome == if t.quantity == 0 then Invalid
                                 else if Present(b.bids, t.id) || Present(b.asks, t.id) then Duplicate else Accepted
  {
    PresentCounts(b.bids, t.id);
    PresentCounts(b.asks, t.id);
  }

  /** And a cancel: afterwards no order of that id rests. */
  lemma {:induction false} CancelAnswers(b: Book, id: nat)
    requires UniqueIds(b)
    ensures Cancel(b, id).outcome == if Present(b.bids, id) || Present(b.asks, id) then Accepted else NotFound
    ensures Occurrences(Cancel(b, id).book, id) == 0
    ensures !Present(Cancel(b, id).book.bids, id) && !Present(Cancel(b, id).book.asks, id)
  {
    PresentCounts(b.bids, id);
    PresentCounts(b.asks, id);
    if Occurrences(b, id) > 0 {
      assert Occurrences(b, id) <= 1;
      CancelTotal(b, id, IdCount(id));
    }
    PresentCounts(Cancel(b, id).book.bids, id);
    PresentCounts(Cancel(b, id).book.asks, id);
  }

  // ---------- Whole runs

  /** The order of request `i` was accepted when its turn came. */
  ghost predicate Entered(run: seq<Request>, i: nat) {
    i < |run| && run[i].NewOrder? && Apply(After(run[..i]), run[i]).outcome.Accepted?
  }

  /** The orders accepted so far, without their quantities. */
  ghost function Origins(run: seq<Request>): set<Ticket> {
    set i | 0 <= i < |run| && Entered(run, i) :: Stem(run[i].ticket)
  }

  lemma {:induction false} EnteredPrefix(run: seq<Request>, n: nat, i: nat)
    requires n <= |run| && i < n
    ensures Entered(run[..n], i) <==> Entered(run, i)
  {
    assert run[..n][..i] == run[..i];
  }

  lemma {:induction false} OriginsGrow(run: seq<Request>)
    requires run != []
    ensures Origins(run[..|run| - 1]) <= Origins(run)
    ensures Entered(run, |run| - 1) ==> Stem(run[|run| - 1].ticket) in Origins(run)
  {
    var n := |run| - 1;
    forall o | o in Origins(run[..n]) ensures o in Origins(run) {
      var i :| 0 <= i < n && Entered(run[..n], i) && o == Stem(run[..n][i].ticket);
      EnteredPrefix(run, n, i);
    }
  }

  lemma {:induction false} WeighFewerStray(orders: seq<Ticket>, a: set<Ticket>, b: set<Ticket>)
    requires a <= b
    ensures Weigh(orders, Stray(b)) <= Weigh(orders, Stray(a))
  {
    if orders != [] {
      WeighFewerStray(orders[1..], a, b);
    }
  }

  lemma {:induction false} FewerStray(ls: seq<Level>, a: set<Ticket>, b: set<Ticket>)
    requires a <= b
    ensures Weight(ls, Stray(b)) <= Weight(ls, Stray(a))
  {
    if ls != [] {
      WeighFewerStray(ls[0].orders, a, b);
      FewerStray(ls[1..], a, b);
    }
  }

  lemma {:induction false} ApplyNoStray(b: Book, r: Request, origins: set<Ticket>)
    requires Fits(b) && Total(b, Stray(origins)) == 0
    requires r.NewOrder? && Apply(b, r).outcome.Accepted? ==> Stem(r.ticket) in origins
    ensures Total(Apply(b, r).book, Stray(origins)) == 0
  {
    match r
    case NewOrder(t) =>
      if Add(b, t).outcome.Accepted? {
        var opp := Opposite(t.side);
        SweepNoMore(opp, Levels(b, opp), t, b.nextTradeId, Stray(origins));
        SweepStops(opp, Levels(b, opp), t, b.nextTradeId);
        RestTotal(Matched(b, t), Swipe(b, t).taker, Stray(origins));
      }
    case CancelOrder(id) =>
      if Occurrences(b, id) > 0 {
        CancelTotal(b, id, Stray(origins));
      }
  }

  /** Over every run, what rests is what is left of accepted orders: same id, side, kind and price. */
  lemma {:induction false} RunNoStray(run: seq<Request>)
    ensures Total(After(run), Stray(Origins(run))) == 0
  {
    if run != [] {
      var prefix := run[..|run| - 1];
      RunNoStray(prefix);
      OriginsGrow(run);
      FewerStray(After(prefix).bids, Origins(prefix), Origins(run));
      FewerStray(After(prefix).asks, Origins(prefix), Origins(run));
      ApplyNoStray(After(prefix), run[|run| - 1], Origins(run));
    }
  }

  /** Requests `i` and `j` are the accepted buyer and seller of a trade, both within their limits; the one that came
      first was resting at the price of the trade. */
  ghost predicate Joins(run: seq<Request>, trade: Trade, i: nat, j: nat) {
    && Entered(run, i) && Entered(run, j) && i != j
    && var buy, sell := run[i].ticket, run[j].ticket;
       && buy.side.Buy? && buy.id == trade.buyId && (buy.kind.Limit? ==> trade.price <= buy.price)
       && sell.side.Sell? && sell.id == trade.sellId && (sell.kind.Limit? ==> trade.price >= sell.price)
       && trade.price == if i < j then buy.price else sell.price
  }

  /** A trade of request `n`. */
  lemma {:induction false} TradeJoins(run: seq<Request>, n: nat, k: nat) returns (i: nat, j: nat)
    requires n < |run| && k < |Apply(After(run[..n]), run[n]).trades|
    ensures Joins(run, Apply(After(run[..n]), run[n]).trades[k], i, j)
  {
    var b, t := After(run[..n]), run[n].ticket;
    var opp := Opposite(t.side);
    var ls := Levels(b, opp);
    RunNoStray(run[..n]);
    SweepPrints(opp, ls, t, b.nextTradeId, k);
    var maker := SweepMaker(opp, ls, t, b.nextTradeId, k, Origins(run[..n]));
    var m :| 0 <= m < n && Entered(run[..n], m) && maker == Stem(run[..n][m].ticket);
    EnteredPrefix(run, n, m);
    if t.kind.Limit? {
      AddWithinLimit(b, t, k);
    }
    i, j := if t.side.Buy? then n else m, if t.side.Buy? then m else n;
  }

  ghost predicate Backed(run: seq<Request>, trade: Trade) {
    exists i, j :: Joins(run, trade, i, j)
  }

  ghost predicate AllBacked(run: seq<Request>, trades: seq<Trade>) {
    forall k :: 0 <= k < |trades| ==> Backed(run, trades[k])
  }

  lemma {:induction false} BackedConcat(run: seq<Request>, a: seq<Trade>, b: seq<Trade>, all: seq<Trade>)
    requires AllBacked(run, a) && AllBacked(run, b) && all == a + b
    ensures AllBacked(run, all)
  {
  }

  lemma {:induction false} TradesBacked(run: seq<Request>, n: nat)
    requires n < |run|
    ensures AllBacked(run, Apply(After(run[..n]), run[n]).trades)
  {
    var trades := Apply(After(run[..n]), run[n]).trades;
    forall k | 0 <= k < |trades| ensures Backed(run, trades[k]) {
      var i, j := TradeJoins(run, n, k);
    }
  }

  lemma {:induction false} TapeUnfold(run: seq<Request>, n: nat)
    requires n < |run|
    ensures Tape(run[..n + 1]) == Tape(run[..n]) + Apply(After(run[..n]), run[n]).trades
  {
    assert run[..n + 1][..n] == run[..n];
  }

  lemma {:induction false} PrefixBacked(run: seq<Request>, n: nat)
    requires n <= |run|
    ensures AllBacked(run, Tape(run[..n]))
  {
    if n == 0 {
      NothingBacked(run, run[..n]);
    } else {
      PrefixBacked(run, n - 1);
      OneMoreBacked(run, n - 1, Tape(run[..n - 1]));
    }
  }

  lemma {:induction false} NothingBacked(run: seq<Request>, none: seq<Request>)
    requires none == []
    ensures AllBacked(run, Tape(none))
  {
  }

  lemma {:induction false} OneMoreBacked(run: seq<Request>, n: nat, before: seq<Trade>)
    requires n < |run| && before == Tape(run[..n]) && AllBacked(run, before)
    ensures AllBacked(run, Tape(run[..n + 1]))
  {
    TradesBacked(run, n);
    TapeUnfold(run, n);
    BackedConcat(run, before, Apply(After(run[..n]), run[n]).trades, Tape(run[..n + 1]));
  }

  /** Over every run each trade joins an accepted buyer and an accepted seller within their limits, at the price of the
      one that was resting. */
  lemma {:induction false} TapeWithinLimits(run: seq<Request>)
    ensures AllBacked(run, Tape(run))
  {
    PrefixBacked(run, |run|);
    assert run[..|run|] == run;
  }

  /** Over every run, right after its turn, what is left of a limit order faces only prices beyond its limit. */
  lemma {:induction false} RunRemainder(run: seq<Request>, i: nat, k: nat)
    requires Entered(run, i) && run[i].ticket.kind.Limit? && Occurrences(After(run[..i + 1]), run[i].ticket.id) > 0
    ensures var b, t := After(run[..i + 1]), run[i].ticket;
            && (t.side.Buy? && k < |b.asks| ==> b.asks[k].price > t.price)
            && (t.side.Sell? && k < |b.bids| ==> b.bids[k].price < t.price)
  {
    assert run[..i + 1][..i] == run[..i] && run[..i + 1][i] == run[i];
    RemainderBeyond(After(run[..i]), run[i].ticket, k);
  }

  /** Over every run bids fall, asks rise, and every bid is below every ask. */
  lemma {:induction false} RunOrdered(run: seq<Request>, i: nat, j: nat)
    ensures var b := After(run);
            && (i < j < |b.bids| ==> b.bids[i].price > b.bids[j].price)
            && (i < j < |b.asks| ==> b.asks[i].price < b.asks[j].price)
            && (i < |b.bids| && j < |b.asks| ==> b.bids[i].price < b.asks[j].price)
  {
    var b := After(run);
    if i < |b.bids| {
      BestFirst(Buy, b.bids, i);
    }
    if j < |b.asks| {
      BestFirst(Sell, b.asks, j);
    }
  }
}
