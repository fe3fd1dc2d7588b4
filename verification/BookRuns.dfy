/** The order book as a state machine over add and cancel requests, and what
    holds after every run of requests. */
module BookRuns {
  import opened Orders
  import opened LevelBook
  import opened Matching

  datatype Book = Book(bids: seq<Level>, asks: seq<Level>, nextTradeId: nat)

  const EMPTY_BOOK := Book([], [], 1)

  datatype Effect = Effect(book: Book, trades: seq<Trade>, outcome: Outcome)

  function Levels(b: Book, side: Side): seq<Level> {
    if side.Buy? then b.bids else b.asks
  }

  function WithLevels(b: Book, side: Side, ls: seq<Level>): Book {
    if side.Buy? then b.(bids := ls) else b.(asks := ls)
  }

  function Total(b: Book, f: Measure): nat {
    Weight(b.bids, f) + Weight(b.asks, f)
  }

  // ---------- The invariant

  ghost predicate Fits(b: Book) {
    WellFormed(Buy, b.bids) && WellFormed(Sell, b.asks)
  }

  function Occurrences(b: Book, id: nat): nat {
    Total(b, IdCount(id))
  }

  /** The id lookup is a bijection: no id rests twice on either side. */
  ghost predicate UniqueIds(b: Book) {
    forall id :: Occurrences(b, id) <= 1
  }

  predicate Uncrossed(b: Book) {
    b.bids != [] && b.asks != [] ==> b.bids[0].price < b.asks[0].price
  }

  ghost predicate Sound(b: Book) {
    Fits(b) && UniqueIds(b) && Uncrossed(b)
  }

  // ---------- Requests

  ghost function Swipe(b: Book, t: Ticket): Swept
    requires Fits(b)
  {
    Sweep(Opposite(t.side), Levels(b, Opposite(t.side)), t, b.nextTradeId)
  }

  /** The book after matching, before the remainder rests. */
  ghost function Matched(b: Book, t: Ticket): Book
    requires Fits(b)
  {
    var s := Swipe(b, t);
    WithLevels(b, Opposite(t.side), s.levels).(nextTradeId := b.nextTradeId + |s.trades|)
  }

  function Rest(b: Book, t: Ticket): Book {
    if t.quantity == 0 then b
    else WithLevels(b, t.side, Insert(t.side, Levels(b, t.side), t))
  }

  ghost function Add(b: Book, t: Ticket): Effect
    requires Fits(b)
  {
    if t.quantity == 0 then Effect(b, [], Invalid)
    else if Occurrences(b, t.id) > 0 then Effect(b, [], Duplicate)
    else Effect(Rest(Matched(b, t), Swipe(b, t).taker), Swipe(b, t).trades, Accepted)
  }

  lemma {:induction false} AddAccepts(b: Book, t: Ticket)
    requires Fits(b) && t.quantity > 0 && Occurrences(b, t.id) == 0
    ensures Add(b, t) == Effect(Rest(Matched(b, t), Swipe(b, t).taker), Swipe(b, t).trades, Accepted)
  {
  }

  function SideOf(b: Book, id: nat): Side {
    if Weight(b.bids, IdCount(id)) > 0 then Buy else Sell
  }

  function Cancel(b: Book, id: nat): Effect {
    if Occurrences(b, id) == 0 then Effect(b, [], NotFound)
    else Effect(WithLevels(b, SideOf(b, id), Remove(Levels(b, SideOf(b, id)), id)), [], Accepted)
  }

  /** The order a successful cancel takes off the book. */
  function Resting(b: Book, id: nat): Ticket
    requires Occurrences(b, id) > 0
  {
    Find(Levels(b, SideOf(b, id)), id)
  }

  datatype Request = NewOrder(ticket: Ticket) | CancelOrder(id: nat)

  ghost function Apply(b: Book, r: Request): Effect
    requires Fits(b)
  {
    match r
    case NewOrder(t) => Add(b, t)
    case CancelOrder(id) => Cancel(b, id)
  }

  // ---------- Each request keeps the invariant

  lemma {:induction false} MatchedFits(b: Book, t: Ticket)
    requires Fits(b)
    ensures Fits(Matched(b, t))
  {
    SweepStops(Opposite(t.side), Levels(b, Opposite(t.side)), t, b.nextTradeId);
  }

  lemma {:induction false} AddFits(b: Book, t: Ticket)
    requires Fits(b)
    ensures Fits(Add(b, t).book)
  {
    MatchedFits(b, t);
    SweepStops(Opposite(t.side), Levels(b, Opposite(t.side)), t, b.nextTradeId);
    var t' := Swipe(b, t).taker;
    if t'.quantity > 0 {
      InsertFits(t'.side, Levels(Matched(b, t), t'.side), t');
    }
  }

  lemma {:induction false} CancelFits(b: Book, id: nat)
    requires Fits(b)
    ensures Fits(Cancel(b, id).book)
  {
    RemoveFits(SideOf(b, id), Levels(b, SideOf(b, id)), id);
  }

  lemma {:induction false} ApplyFits(b: Book, r: Request)
    requires Fits(b)
    ensures Fits(Apply(b, r).book)
  {
    match r
    case NewOrder(t) => AddFits(b, t);
    case CancelOrder(id) => CancelFits(b, id);
  }

  /** Any measure of the book after an add: the remainder's share is what resting adds to the matched book. */
  lemma {:induction false} RestTotal(b: Book, t: Ticket, f: Measure)
    ensures Total(Rest(b, t), f) == Total(b, f) + if t.quantity == 0 then 0 else f.Of(t)
  {
    if t.quantity > 0 {
      InsertWeight(t.side, Levels(b, t.side), t, f);
    }
  }

  lemma {:induction false} AddOccurrences(b: Book, t: Ticket, id: nat)
    requires Fits(b)
    ensures Occurrences(Add(b, t).book, id) <= Occurrences(b, id) + if t.id == id && Add(b, t).outcome.Accepted? then 1 else 0
  {
    if Add(b, t).outcome.Accepted? {
      SweepAddsNoId(Opposite(t.side), Levels(b, Opposite(t.side)), t, b.nextTradeId, id);
      SweepStops(Opposite(t.side), Levels(b, Opposite(t.side)), t, b.nextTradeId);
      RestTotal(Matched(b, t), Swipe(b, t).taker, IdCount(id));
    }
  }

  lemma {:induction false} AddKeepsUnique(b: Book, t: Ticket)
    requires Fits(b) && UniqueIds(b)
    ensures UniqueIds(Add(b, t).book)
  {
    forall id ensures Occurrences(Add(b, t).book, id) <= 1 {
      AddOccurrences(b, t, id);
    }
  }

  lemma {:induction false} CancelTotal(b: Book, id: nat, f: Measure)
    requires Occurrences(b, id) > 0
    ensures Resting(b, id).id == id
    ensures Total(Cancel(b, id).book, f) + f.Of(Resting(b, id)) == Total(b, f)
  {
    RemoveWeight(Levels(b, SideOf(b, id)), id, f);
  }

  lemma {:induction false} CancelKeepsUnique(b: Book, id: nat)
    requires UniqueIds(b)
    ensures UniqueIds(Cancel(b, id).book)
  {
    if Occurrences(b, id) > 0 {
      forall x ensures Occurrences(Cancel(b, id).book, x) <= 1 {
        CancelTotal(b, id, IdCount(x));
        assert Occurrences(b, x) <= 1;
      }
    }
  }

  /** After an add, a limit order is filled or crosses nothing that is left;
      a market order leaves a remainder only when the opposite side is empty. */
  lemma {:induction false} AddFate(b: Book, t: Ticket)
    requires Fits(b) && Add(b, t).outcome.Accepted?
    ensures var left := Levels(Add(b, t).book, Opposite(t.side));
            var rest := Swipe(b, t).taker;
            && left == Swipe(b, t).levels
            && rest == t.(quantity := rest.quantity)
            && (rest.quantity == 0 || left == [] || (t.kind.Limit? && forall i :: 0 <= i < |left| ==> !Crosses(t, left[i].price)))
            && (left != [] ==>
                  && Levels(b, Opposite(t.side)) != []
                  && !Better(Opposite(t.side), left[0].price, Levels(b, Opposite(t.side))[0].price))
  {
    var opp := Opposite(t.side);
    SweepStops(opp, Levels(b, opp), t, b.nextTradeId);
    var s := Swipe(b, t);
    forall i | 0 <= i < |s.levels| && s.taker.quantity > 0 ensures !Crosses(t, s.levels[i].price) {
      if i > 0 {
        assert Better(opp, s.levels[0].price, s.levels[i].price);
      }
    }
  }

  lemma {:induction false} AddKeepsUncrossed(b: Book, t: Ticket)
    requires Fits(b) && Uncrossed(b)
    ensures Uncrossed(Add(b, t).book)
  {
    if Add(b, t).outcome.Accepted? {
      AddFate(b, t);
      MatchedFits(b, t);
      var rest := Swipe(b, t).taker;
      if rest.quantity > 0 {
        InsertFits(t.side, Levels(b, t.side), rest);
      }
    }
  }

  lemma {:induction false} CancelKeepsUncrossed(b: Book, id: nat)
    requires Fits(b) && Uncrossed(b)
    ensures Uncrossed(Cancel(b, id).book)
  {
  }

  lemma {:induction false} ApplySound(b: Book, r: Request)
    requires Sound(b)
    ensures Sound(Apply(b, r).book)
  {
    ApplyFits(b, r);
    match r
    case NewOrder(t) =>
      AddKeepsUnique(b, t);
      AddKeepsUncrossed(b, t);
    case CancelOrder(id) =>
      CancelKeepsUnique(b, id);
      CancelKeepsUncrossed(b, id);
  }

  // ---------- Runs

  /** The book after a run of requests from the empty book. */
  ghost function After(run: seq<Request>): (b: Book)
    ensures Sound(b)
  {
    if run == [] then EmptyIsSound(); EMPTY_BOOK
    else
      var b := After(run[..|run| - 1]);
      ApplySound(b, run[|run| - 1]);
      Apply(b, run[|run| - 1]).book
  }

  lemma {:induction false} EmptyIsSound()
    ensures Sound(EMPTY_BOOK)
  {
  }

  ghost function Tape(run: seq<Request>): seq<Trade> {
    if run == [] then []
    else Tape(run[..|run| - 1]) + Apply(After(run[..|run| - 1]), run[|run| - 1]).trades
  }

  /** Quantity of order `id` that the run's accepted adds brought in, and that its cancels took out. */
  ghost function Brought(run: seq<Request>, id: nat): nat {
    if run == [] then 0
    else
      Brought(run[..|run| - 1], id) + BroughtBy(After(run[..|run| - 1]), run[|run| - 1], id)
  }

  ghost function Withdrawn(run: seq<Request>, id: nat): nat {
    if run == [] then 0
    else
      Withdrawn(run[..|run| - 1], id) + WithdrawnBy(After(run[..|run| - 1]), run[|run| - 1], id)
  }

  lemma {:induction false} AddConserves(b: Book, t: Ticket, id: nat)
    requires Fits(b)
    ensures var e, f := Add(b, t), IdQuantity(id);
            Total(b, f) + (if t.id == id && e.outcome.Accepted? then t.quantity else 0)
            == Total(e.book, f) + Traded(e.trades, id)
  {
    if Add(b, t).outcome.Accepted? {
      var opp := Opposite(t.side);
      SweepConserves(opp, Levels(b, opp), t, b.nextTradeId, id);
      SweepStops(opp, Levels(b, opp), t, b.nextTradeId);
      RestTotal(Matched(b, t), Swipe(b, t).taker, IdQuantity(id));
    }
  }

  lemma {:induction false} CancelConserves(b: Book, id: nat, x: nat)
    ensures Total(b, IdQuantity(x))
         == Total(Cancel(b, id).book, IdQuantity(x)) + if x == id && Occurrences(b, id) > 0 then Resting(b, id).quantity else 0
  {
    if Occurrences(b, id) > 0 {
      CancelTotal(b, id, IdQuantity(x));
    }
  }

  /** One request's contribution to `Brought` and to `Withdrawn`. */
  ghost function BroughtBy(b: Book, r: Request, id: nat): nat
    requires Fits(b)
  {
    if r.NewOrder? && r.ticket.id == id && Apply(b, r).outcome.Accepted? then r.ticket.quantity else 0
  }

  function WithdrawnBy(b: Book, r: Request, id: nat): nat {
    if r.CancelOrder? && r.id == id && Occurrences(b, id) > 0 then Resting(b, id).quantity else 0
  }

  lemma {:induction false} ApplyConserves(b: Book, r: Request, id: nat)
    requires Fits(b)
    ensures Total(b, IdQuantity(id)) + BroughtBy(b, r, id)
         == Total(Apply(b, r).book, IdQuantity(id)) + Traded(Apply(b, r).trades, id) + WithdrawnBy(b, r, id)
  {
    match r
    case NewOrder(t) => AddConserves(b, t, id);
    case CancelOrder(x) => CancelConserves(b, x, id);
  }

  /** Conservation: everything ever accepted under an id is still resting, was traded, or was cancelled. */
  lemma {:induction false} RunConserves(run: seq<Request>, id: nat)
    ensures Brought(run, id) == Total(After(run), IdQuantity(id)) + Traded(Tape(run), id) + Withdrawn(run, id)
  {
    if run != [] {
      var prefix, last := run[..|run| - 1], run[|run| - 1];
      RunConserves(prefix, id);
      ApplyConserves(After(prefix), last, id);
      TradedConcat(Tape(prefix), Apply(After(prefix), last).trades, id);
    }
  }

  /** Trades carry consecutive ids from `first` on, and are never empty. */
  ghost predicate Numbered(trades: seq<Trade>, first: nat) {
    forall i :: 0 <= i < |trades| ==> trades[i].id == first + i && trades[i].quantity > 0
  }

  lemma {:induction false} NumberedConcat(a: seq<Trade>, b: seq<Trade>, first: nat)
    requires Numbered(a, first) && Numbered(b, first + |a|)
    ensures Numbered(a + b, first)
  {
  }

  lemma {:induction false} ApplyNumbered(b: Book, r: Request)
    requires Fits(b)
    ensures Numbered(Apply(b, r).trades, b.nextTradeId)
    ensures Apply(b, r).book.nextTradeId == b.nextTradeId + |Apply(b, r).trades|
  {
    var trades := Apply(b, r).trades;
    forall i | 0 <= i < |trades| ensures trades[i].id == b.nextTradeId + i && trades[i].quantity > 0 {
      var t := r.ticket;
      SweepPrints(Opposite(t.side), Levels(b, Opposite(t.side)), t, b.nextTradeId, i);
    }
  }

  /** Trade ids are consecutive from 1 over the whole run. */
  lemma {:induction false} TapeConsecutive(run: seq<Request>)
    ensures After(run).nextTradeId == |Tape(run)| + 1
    ensures forall i :: 0 <= i < |Tape(run)| ==> Tape(run)[i].id == i + 1 && Tape(run)[i].quantity > 0
  {
    if run != [] {
      var prefix, last := run[..|run| - 1], run[|run| - 1];
      TapeConsecutive(prefix);
      ApplyNumbered(After(prefix), last);
      assert Numbered(Tape(prefix), 1);
      NumberedConcat(Tape(prefix), Apply(After(prefix), last).trades, 1);
      assert Numbered(Tape(run), 1);
    }
  }

  /** In every add the opposite side's open quantity falls by exactly the traded volume. */
  lemma {:induction false} AddVolume(b: Book, t: Ticket)
    requires Fits(b)
    ensures var e, opp := Add(b, t), Opposite(t.side);
            Weight(Levels(b, opp), AnyQuantity) == Weight(Levels(e.book, opp), AnyQuantity) + Volume(e.trades)
  {
    if Add(b, t).outcome.Accepted? {
      SweepVolume(Opposite(t.side), Levels(b, Opposite(t.side)), t, b.nextTradeId);
      SweepStops(Opposite(t.side), Levels(b, Opposite(t.side)), t, b.nextTradeId);
    }
  }

  // ---------- Add and cancel undo each other

  lemma {:induction false} RemoveInserted(side: Side, ls: seq<Level>, t: Ticket)
    requires Weight(ls, IdCount(t.id)) == 0
    requires WellFormed(side, ls)
    ensures Remove(Insert(side, ls, t), t.id) == ls
  {
    if ls == [] || Better(side, t.price, ls[0].price) {
      assert ([Level(t.price, [t])] + ls)[1..] == ls;
    } else {
      TailFits(side, ls);
      WeightIffPosition(ls[0].orders, t.id);
      if ls[0].price == t.price {
        var orders := ls[0].orders + [t];
        assert orders[|ls[0].orders|].id == t.id;
        assert Position(orders, t.id) == |ls[0].orders|;
        assert DropAt(orders, |ls[0].orders|) == ls[0].orders;
        assert LevelFits(side, ls[0]);
        assert Insert(side, ls, t)[1..] == ls[1..];
      } else {
        RemoveInserted(side, ls[1..], t);
        assert Insert(side, ls, t)[1..] == Insert(side, ls[1..], t);
      }
    }
  }

  lemma {:induction false} TradelessRests(b: Book, t: Ticket)
    requires Fits(b) && Add(b, t).outcome.Accepted? && Add(b, t).trades == []
    ensures Add(b, t).book == Rest(b, t) && t.quantity > 0 && Occurrences(b, t.id) == 0
  {
    assert !Matchable(Levels(b, Opposite(t.side)), t);
  }

  lemma {:induction false} RestThenCancel(b: Book, t: Ticket)
    requires Fits(b) && t.quantity > 0 && Occurrences(b, t.id) == 0
    ensures Cancel(Rest(b, t), t.id) == Effect(b, [], Accepted)
  {
    InsertWeight(t.side, Levels(b, t.side), t, IdCount(t.id));
    RemoveInserted(t.side, Levels(b, t.side), t);
  }

  /** An order that trades with nobody and is then cancelled leaves the book exactly as it was. */
  lemma {:induction false} AddThenCancel(b: Book, t: Ticket)
    requires Sound(b) && Add(b, t).outcome.Accepted? && Add(b, t).trades == []
    ensures Cancel(Add(b, t).book, t.id) == Effect(b, [], Accepted)
  {
    TradelessRests(b, t);
    RestThenCancel(b, t);
  }

  // ---------- Cached totals fit the machine word

  const MAX_POOL_SIZE := 10_000_000
  const TWO_64 := 0x1_0000_0000_0000_0000

  /** A sweep makes no order larger and none stray. */
  lemma {:induction false} SweepNoMore(side: Side, ls: seq<Level>, taker: Ticket, tradeId: nat, f: Measure)
    requires WellFormed(side, ls) && (f.Oversize? || f.Stray?)
    ensures Weight(Sweep(side, ls, taker, tradeId).levels, f) <= Weight(ls, f)
    decreases taker.quantity
  {
    if Matchable(ls, taker) {
      FillKeepsFit(side, ls, taker);
      AfterFillWeight(ls, taker, f);
      SweepNoMore(side, AfterFill(ls, taker), Reduce(taker, FillQuantity(ls, taker)), tradeId + 1, f);
    }
  }

  lemma {:induction false} ApplyNoOversize(b: Book, r: Request)
    requires Fits(b) && Total(b, Oversize) == 0
    requires r.NewOrder? ==> r.ticket.quantity <= MAX_ORDER_SIZE
    ensures Total(Apply(b, r).book, Oversize) == 0
  {
    match r
    case NewOrder(t) =>
      if Add(b, t).outcome.Accepted? {
        var opp := Opposite(t.side);
        SweepNoMore(opp, Levels(b, opp), t, b.nextTradeId, Oversize);
        SweepStops(opp, Levels(b, opp), t, b.nextTradeId);
        RestTotal(Matched(b, t), Swipe(b, t).taker, Oversize);
      }
    case CancelOrder(id) =>
      if Occurrences(b, id) > 0 {
        CancelTotal(b, id, Oversize);
      }
  }

  lemma {:induction false} RunNoOversize(run: seq<Request>)
    requires forall i :: 0 <= i < |run| && run[i].NewOrder? ==> run[i].ticket.quantity <= MAX_ORDER_SIZE
    ensures Total(After(run), Oversize) == 0
  {
    if run != [] {
      RunNoOversize(run[..|run| - 1]);
      ApplyNoOversize(After(run[..|run| - 1]), run[|run| - 1]);
    }
  }

  lemma {:induction false} QuantityBound(orders: seq<Ticket>)
    requires Weigh(orders, Oversize) == 0
    ensures Weigh(orders, AnyQuantity) <= MAX_ORDER_SIZE * Weigh(orders, AnyCount)
  {
    if orders != [] {
      QuantityBound(orders[1..]);
    }
  }

  lemma {:induction false} LevelTotalFits(b: Book, side: Side, i: nat)
    requires Total(b, Oversize) == 0 && Total(b, AnyCount) <= MAX_POOL_SIZE && i < |Levels(b, side)|
    ensures Weigh(Levels(b, side)[i].orders, AnyQuantity) < TWO_64
  {
    var ls := Levels(b, side);
    WeightSplit(ls, i, Oversize);
    WeightSplit(ls, i, AnyCount);
    QuantityBound(ls[i].orders);
  }

  /** With order sizes and pool size within their configured maxima, no cached level total can wrap. */
  lemma {:induction false} RunTotalsFit(run: seq<Request>, side: Side, i: nat)
    requires forall k :: 0 <= k < |run| && run[k].NewOrder? ==> run[k].ticket.quantity <= MAX_ORDER_SIZE
    requires Total(After(run), AnyCount) <= MAX_POOL_SIZE
    requires i < |Levels(After(run), side)|
    ensures Weigh(Levels(After(run), side)[i].orders, AnyQuantity) < TWO_64
  {
    RunNoOversize(run);
    LevelTotalFits(After(run), side, i);
  }

  // ---------- As many orders rest as there are ids

  function Flat(ls: seq<Level>): seq<Ticket> {
    if ls == [] then [] else ls[0].orders + Flat(ls[1..])
  }

  lemma {:induction false} FlatWeight(ls: seq<Level>, f: Measure)
    ensures Weigh(Flat(ls), f) == Weight(ls, f)
  {
    if ls != [] {
      FlatWeight(ls[1..], f);
      WeighConcat(ls[0].orders, Flat(ls[1..]), f);
    }
  }

  lemma {:induction false} FlatTotal(b: Book, f: Measure)
    ensures Weigh(Flat(b.bids) + Flat(b.asks), f) == Total(b, f)
  {
    WeighConcat(Flat(b.bids), Flat(b.asks), f);
    FlatWeight(b.bids, f);
    FlatWeight(b.asks, f);
  }

  lemma {:induction false} DistinctCount(orders: seq<Ticket>, ids: set<nat>)
    requires forall id :: Weigh(orders, IdCount(id)) <= if id in ids then 1 else 0
    ensures Weigh(orders, AnyCount) <= |ids|
  {
    if orders != [] {
      var first := orders[0].id;
      assert Weigh(orders, IdCount(first)) <= if first in ids then 1 else 0;
      forall id ensures Weigh(orders[1..], IdCount(id)) <= if id in ids - {first} then 1 else 0 {
        assert Weigh(orders, IdCount(id)) <= if id in ids then 1 else 0;
      }
      DistinctCount(orders[1..], ids - {first});
    }
  }

  /** A book with unique ids, all of them among `ids`, holds at most that many orders. */
  lemma {:induction false} RestingWithin(b: Book, ids: set<nat>)
    requires UniqueIds(b) && forall id :: Occurrences(b, id) > 0 ==> id in ids
    ensures Total(b, AnyCount) <= |ids|
  {
    forall id ensures Weigh(Flat(b.bids) + Flat(b.asks), IdCount(id)) <= if id in ids then 1 else 0 {
      FlatTotal(b, IdCount(id));
      assert Occurrences(b, id) <= 1;
    }
    DistinctCount(Flat(b.bids) + Flat(b.asks), ids);
    FlatTotal(b, AnyCount);
  }
}
