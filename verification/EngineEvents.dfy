/** The market data a matching engine publishes, over whole runs: trades as they happen, and the best
    bid and offer whenever a request changes their prices. */
module EngineEvents {
  import opened Orders
  import opened BookRuns
  import opened Depth
  import opened PriceTime
  import opened Sequences

  datatype Event = TradeEvent(trade: Trade) | BboEvent(bbo: Bbo)

  /** Best bid and best ask price, 0 for an empty side. */
  function Prices(b: Book): (nat, nat) {
    (BestPrice(b.bids), BestPrice(b.asks))
  }

  function TradeEvents(trades: seq<Trade>): (events: seq<Event>)
    ensures |events| == |trades|
    ensures forall i :: 0 <= i < |events| ==> events[i] == TradeEvent(trades[i])
  {
    seq(|trades|, i requires 0 <= i < |trades| => TradeEvent(trades[i]))
  }

  /** What one request makes the engine publish. */
  function Emitted(before: Book, e: Effect): seq<Event> {
    TradeEvents(e.trades) + if Prices(e.book) != Prices(before) then [BboEvent(BestOf(e.book))] else []
  }

  /** Everything a run publishes. */
  ghost function Stream(run: seq<Request>): seq<Event> {
    if run == [] then []
    else
      var b := After(run[..|run| - 1]);
      Stream(run[..|run| - 1]) + Emitted(b, Apply(b, run[|run| - 1]))
  }

  /** How many requests changed a best price. */
  ghost function PriceChanges(run: seq<Request>): nat {
    if run == [] then 0
    else PriceChanges(run[..|run| - 1]) + if Prices(After(run)) != Prices(After(run[..|run| - 1])) then 1 else 0
  }

  /** The prices a subscriber believes in: those of the last best-price event, or (0, 0). */
  function LastPrices(events: seq<Event>): (nat, nat) {
    if events == [] then (0, 0)
    else
      match events[|events| - 1]
      case BboEvent(bbo) => (bbo.bidPrice, bbo.askPrice)
      case TradeEvent(_) => LastPrices(events[..|events| - 1])
  }

  lemma {:induction false} LastPricesConcat(a: seq<Event>, b: seq<Event>)
    ensures LastPrices(a + b) == if forall i :: 0 <= i < |b| ==> b[i].TradeEvent? then LastPrices(a) else LastPrices(b)
    decreases |b|
  {
    if b == [] {
      assert a + b == a;
    } else {
      var n := |b| - 1;
      LastPricesConcat(a, b[..n]);
      assert (a + b)[..|a + b| - 1] == a + b[..n] && (a + b)[|a + b| - 1] == b[n];
      assert b == b[..n] + [b[n]];
    }
  }

  lemma {:induction false} EmittedShows(events: seq<Event>, before: Book, e: Effect)
    requires LastPrices(events) == Prices(before)
    ensures LastPrices(events + Emitted(before, e)) == Prices(e.book)
  {
    var out := Emitted(before, e);
    LastPricesConcat(events, out);
    if Prices(e.book) != Prices(before) {
      assert out[|out| - 1] == BboEvent(BestOf(e.book));
    }
  }

  /** Over every run the published best prices are those of the book. */
  lemma {:induction false} StreamShowsBook(run: seq<Request>)
    ensures LastPrices(Stream(run)) == Prices(After(run))
  {
    if run != [] {
      var b := After(run[..|run| - 1]);
      StreamShowsBook(run[..|run| - 1]);
      EmittedShows(Stream(run[..|run| - 1]), b, Apply(b, run[|run| - 1]));
    }
  }

  lemma {:induction false} StreamCounts(run: seq<Request>)
    ensures |Stream(run)| == |Tape(run)| + PriceChanges(run)
  {
    if run != [] {
      StreamCounts(run[..|run| - 1]);
    }
  }

  // ---------- What the stream carries

  function TradesOf(events: seq<Event>): seq<Trade> {
    if events == [] then []
    else
      var n := |events| - 1;
      TradesOf(events[..n]) + if events[n].TradeEvent? then [events[n].trade] else []
  }

  lemma {:induction false} TradesOfConcat(a: seq<Event>, b: seq<Event>)
    ensures TradesOf(a + b) == TradesOf(a) + TradesOf(b)
    decreases |b|
  {
    if b == [] {
      assert a + b == a;
    } else {
      var n := |b| - 1;
      TradesOfConcat(a, b[..n]);
      assert (a + b)[..|a + b| - 1] == a + b[..n] && (a + b)[|a + b| - 1] == b[n];
      Associative(TradesOf(a), TradesOf(b[..n]), if b[n].TradeEvent? then [b[n].trade] else []);
    }
  }

  lemma {:induction false} TradesOfTrades(trades: seq<Trade>)
    ensures TradesOf(TradeEvents(trades)) == trades
    decreases |trades|
  {
    if trades != [] {
      var n := |trades| - 1;
      TradesOfTrades(trades[..n]);
      assert TradeEvents(trades)[..n] == TradeEvents(trades[..n]);
      LastApart(trades);
    }
  }

  lemma {:induction false} TradesOfBbo(bbo: Bbo)
    ensures TradesOf([BboEvent(bbo)]) == []
  {
  }

  lemma {:induction false} TradesOfEmitted(before: Book, e: Effect)
    ensures TradesOf(Emitted(before, e)) == e.trades
  {
    TradesOfTrades(e.trades);
    TradesOfBbo(BestOf(e.book));
    TradesOfConcat(TradeEvents(e.trades), [BboEvent(BestOf(e.book))]);
    assert TradeEvents(e.trades) + [] == TradeEvents(e.trades);
  }

  /** The trade events of a run are its trades, in order. */
  lemma {:induction false} StreamTrades(run: seq<Request>)
    ensures TradesOf(Stream(run)) == Tape(run)
  {
    if run != [] {
      var b := After(run[..|run| - 1]);
      var e := Apply(b, run[|run| - 1]);
      StreamTrades(run[..|run| - 1]);
      TradesOfEmitted(b, e);
      TradesOfConcat(Stream(run[..|run| - 1]), Emitted(b, e));
    }
  }

  lemma {:induction false} StreamUnfold(run: seq<Request>, n: nat)
    requires n < |run|
    ensures Stream(run[..n + 1]) == Stream(run[..n]) + Emitted(After(run[..n]), Apply(After(run[..n]), run[n]))
    ensures After(run[..n + 1]) == Apply(After(run[..n]), run[n]).book
  {
    assert run[..n + 1][..n] == run[..n] && run[..n + 1][n] == run[n];
  }

  /** Event `k` is the last of request `n`, comes right behind the trades of that request, and shows the orders that
      rest after it. */
  ghost predicate Reported(run: seq<Request>, k: nat, bbo: Bbo, n: nat) {
    && n < |run| && |Stream(run[..n + 1])| == k + 1
    && |Stream(run[..n])| + |Apply(After(run[..n]), run[n]).trades| == k
    && Shows(bbo, Reference(run[..n + 1]))
    && (bbo.bidPrice, bbo.askPrice) != Prices(After(run[..n]))
  }

  lemma {:induction false} EmittedLast(before: Book, e: Effect, k: nat)
    requires k < |Emitted(before, e)| && Emitted(before, e)[k].BboEvent?
    ensures Emitted(before, e)[k] == BboEvent(BestOf(e.book)) && k == |e.trades| && |Emitted(before, e)| == k + 1
    ensures Prices(e.book) != Prices(before)
  {
  }

  lemma {:induction false} BboReported(run: seq<Request>, n: nat, k: nat)
    requires n < |run| && |Stream(run[..n])| <= k < |Stream(run[..n + 1])| && Stream(run[..n + 1])[k].BboEvent?
    ensures Reported(run, k, Stream(run[..n + 1])[k].bbo, n)
  {
    var b := After(run[..n]);
    var e := Apply(b, run[n]);
    StreamUnfold(run, n);
    EmittedLast(b, e, k - |Stream(run[..n])|);
    RunBbo(run[..n + 1]);
  }

  lemma {:induction false} NoneYet(run: seq<Request>)
    ensures Stream(run[..0]) == []
  {
  }

  lemma {:induction false} PrefixReported(run: seq<Request>, m: nat, k: nat) returns (n: nat)
    requires m <= |run| && k < |Stream(run[..m])| && Stream(run[..m])[k].BboEvent?
    ensures Reported(run, k, Stream(run[..m])[k].bbo, n)
    decreases m
  {
    NoneYet(run);
    StreamUnfold(run, m - 1);
    var b := After(run[..m - 1]);
    Either(Stream(run[..m - 1]), Emitted(b, Apply(b, run[m - 1])), k);
    if k < |Stream(run[..m - 1])| {
      n := PrefixReported(run, m - 1, k);
    } else {
      n := m - 1;
      BboReported(run, n, k);
    }
  }

  /** Over every run each best-price event follows the trades of one request, shows best prices and quantities of the
      orders that rest after it, and differs in a price from what was before. */
  lemma {:induction false} EveryBboReported(run: seq<Request>, k: nat) returns (n: nat)
    requires k < |Stream(run)| && Stream(run)[k].BboEvent?
    ensures Reported(run, k, Stream(run)[k].bbo, n)
  {
    assert run[..|run|] == run;
    n := PrefixReported(run, |run|, k);
  }

  // ---------- From any book on

  /** The book a sequence of requests leads to from `b`. */
  ghost function From(b: Book, run: seq<Request>): (b': Book)
    requires Fits(b)
    ensures Fits(b')
  {
    if run == [] then b
    else
      var mid := From(b, run[..|run| - 1]);
      ApplyFits(mid, run[|run| - 1]);
      Apply(mid, run[|run| - 1]).book
  }

  ghost function StreamFrom(b: Book, run: seq<Request>): seq<Event>
    requires Fits(b)
  {
    if run == [] then []
    else
      var mid := From(b, run[..|run| - 1]);
      StreamFrom(b, run[..|run| - 1]) + Emitted(mid, Apply(mid, run[|run| - 1]))
  }

  lemma {:induction false} FromSnoc(b: Book, run: seq<Request>, r: Request)
    requires Fits(b)
    ensures From(b, run + [r]) == Apply(From(b, run), r).book
    ensures StreamFrom(b, run + [r]) == StreamFrom(b, run) + Emitted(From(b, run), Apply(From(b, run), r))
  {
  }

  lemma {:induction false} FromConcat(b: Book, run: seq<Request>, more: seq<Request>)
    requires Fits(b)
    ensures From(b, run + more) == From(From(b, run), more)
    ensures StreamFrom(b, run + more) == StreamFrom(b, run) + StreamFrom(From(b, run), more)
    decreases |more|
  {
    if more == [] {
      assert run + more == run;
    } else {
      var n := |more| - 1;
      FromConcat(b, run, more[..n]);
      FromSnoc(b, run + more[..n], more[n]);
      FromSnoc(From(b, run), more[..n], more[n]);
      LastApart(more);
      Associative(run, more[..n], [more[n]]);
      var mid := From(b, run + more[..n]);
      Associative(StreamFrom(b, run), StreamFrom(From(b, run), more[..n]), Emitted(mid, Apply(mid, more[n])));
    }
  }

  /** A single request. */
  lemma {:induction false} FromOne(b: Book, r: Request)
    requires Fits(b)
    ensures From(b, [r]) == Apply(b, r).book && StreamFrom(b, [r]) == Emitted(b, Apply(b, r))
  {
  }

  /** From the empty book these are the book and the stream of a run. */
  lemma {:induction false} FromEmpty(run: seq<Request>)
    ensures Fits(EMPTY_BOOK) && From(EMPTY_BOOK, run) == After(run) && StreamFrom(EMPTY_BOOK, run) == Stream(run)
  {
    EmptyIsSound();
    if run != [] {
      FromEmpty(run[..|run| - 1]);
    }
  }

  // ---------- A queue that may be full

  /** The events that got through, when attempt number i succeeds exactly if `accepts(i)`. */
  function Kept(events: seq<Event>, accepts: nat -> bool): seq<Event> {
    if events == [] then []
    else
      var n := |events| - 1;
      Kept(events[..n], accepts) + if accepts(n) then [events[n]] else []
  }

  function Dropped(events: seq<Event>, accepts: nat -> bool): nat {
    if events == [] then 0
    else Dropped(events[..|events| - 1], accepts) + if accepts(|events| - 1) then 0 else 1
  }

  lemma {:induction false} KeptSnoc(events: seq<Event>, e: Event, accepts: nat -> bool)
    ensures Kept(events + [e], accepts) == Kept(events, accepts) + if accepts(|events|) then [e] else []
    ensures Dropped(events + [e], accepts) == Dropped(events, accepts) + if accepts(|events|) then 0 else 1
  {
  }

  /** An accepted event is delivered behind exactly the accepted ones before it. */
  lemma {:induction false} KeptAt(events: seq<Event>, accepts: nat -> bool, i: nat)
    requires i < |events| && accepts(i)
    ensures |Kept(events[..i], accepts)| < |Kept(events, accepts)|
    ensures Kept(events, accepts)[|Kept(events[..i], accepts)|] == events[i]
  {
    var n := |events| - 1;
    if i < n {
      KeptAt(events[..n], accepts, i);
      assert events[..n][..i] == events[..i];
    }
  }

  /** Whether the most recent best-price event, if any, got through. */
  predicate LatestKept(events: seq<Event>, accepts: nat -> bool) {
    if events == [] then true
    else if events[|events| - 1].BboEvent? then accepts(|events| - 1)
    else LatestKept(events[..|events| - 1], accepts)
  }

  lemma {:induction false} KeptShows(events: seq<Event>, accepts: nat -> bool)
    requires LatestKept(events, accepts)
    ensures LastPrices(Kept(events, accepts)) == LastPrices(events)
  {
    if events != [] {
      var n := |events| - 1;
      var kept := Kept(events[..n], accepts);
      if events[n].TradeEvent? {
        KeptShows(events[..n], accepts);
      }
      LastPricesConcat(kept, [events[n]]);
      assert kept + [] == kept;
    }
  }

  lemma {:induction false} KeptCounts(events: seq<Event>, accepts: nat -> bool)
    ensures |Kept(events, accepts)| + Dropped(events, accepts) == |events|
  {
    if events != [] {
      KeptCounts(events[..|events| - 1], accepts);
    }
  }

  /** Over every run and whatever the queue refuses: the subscriber's prices are the book's unless the latest
      best-price event was refused, and every trade and every price change is either delivered or counted as dropped. */
  lemma {:induction false} SubscribersAgree(run: seq<Request>, accepts: nat -> bool)
    ensures LatestKept(Stream(run), accepts) ==> LastPrices(Kept(Stream(run), accepts)) == Prices(After(run))
    ensures |Kept(Stream(run), accepts)| + Dropped(Stream(run), accepts) == |Tape(run)| + PriceChanges(run)
  {
    StreamShowsBook(run);
    StreamCounts(run);
    KeptCounts(Stream(run), accepts);
    if LatestKept(Stream(run), accepts) {
      KeptShows(Stream(run), accepts);
    }
  }
}
