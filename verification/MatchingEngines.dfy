/** The matching engine: requests in, book operations, market data out. */
module MatchingEngines {
  import opened Orders
  import opened FlatBook
  import opened BookRuns
  import opened BookMirror
  import opened BookCoherence
  import opened Depth
  import opened EngineEvents
  import opened Limits
  import opened OrderBooks
  import opened Sequences

  const BATCH_SIZE := 256
  const COMPACT_INTERVAL := 8192

  // ---------- The input queue

  datatype Job = Entry(order: Order?) | Removal(id: nat)

  function JobOrders(jobs: seq<Job>): set<Order> {
    set j | j in jobs && j.Entry? && j.order != null :: j.order
  }

  ghost function Tickets(orders: set<Order>): map<Order, Ticket>
    reads orders
  {
    map o | o in orders :: o.AsTicket()
  }

  /** Queued slots are handed out, not held by the book, and queued once. */
  ghost predicate Queued(jobs: seq<Job>, outstanding: set<Order>, held: set<Order>) {
    && JobOrders(jobs) <= outstanding && JobOrders(jobs) !! held
    && forall i, j :: 0 <= i < j < |jobs| && jobs[i].Entry? && jobs[j].Entry? && jobs[i].order != null ==> jobs[i].order != jobs[j].order
  }

  /** The requests jobs stand for; a null order is none. */
  function Request1(job: Job, tickets: map<Order, Ticket>): seq<Request> {
    match job
    case Entry(order) => if order != null && order in tickets then [NewOrder(tickets[order])] else []
    case Removal(id) => [CancelOrder(id)]
  }

  function Requests(jobs: seq<Job>, tickets: map<Order, Ticket>): seq<Request> {
    if jobs == [] then [] else Requests(jobs[..|jobs| - 1], tickets) + Request1(jobs[|jobs| - 1], tickets)
  }

  lemma {:induction false} RequestsSnoc(jobs: seq<Job>, n: nat, tickets: map<Order, Ticket>)
    requires n < |jobs|
    ensures Requests(jobs[..n + 1], tickets) == Requests(jobs[..n], tickets) + Request1(jobs[n], tickets)
  {
    assert jobs[..n + 1][..n] == jobs[..n];
  }

  /** A job that asks for nothing. */
  predicate Void(job: Job) {
    job.Entry? && job.order == null
  }

  /** How many jobs ask for something. */
  function Asking(jobs: seq<Job>): nat {
    if jobs == [] then 0 else Asking(jobs[..|jobs| - 1]) + if Void(jobs[|jobs| - 1]) then 0 else 1
  }

  lemma {:induction false} AskingCounts(jobs: seq<Job>, tickets: map<Order, Ticket>)
    requires forall i :: 0 <= i < |jobs| && jobs[i].Entry? && jobs[i].order != null ==> jobs[i].order in tickets
    ensures |Requests(jobs, tickets)| == Asking(jobs)
  {
    if jobs != [] {
      AskingCounts(jobs[..|jobs| - 1], tickets);
    }
  }

  /** What a queue asks for: one request per job that is not void, in queue order. An entered order asks for a new order
      with its ticket, a removal for a cancel of its id. */
  lemma {:induction false} JobAsks(jobs: seq<Job>, tickets: map<Order, Ticket>, i: nat)
    requires forall k :: 0 <= k < |jobs| && jobs[k].Entry? && jobs[k].order != null ==> jobs[k].order in tickets
    requires i < |jobs| && !Void(jobs[i])
    ensures Asking(jobs[..i]) < |Requests(jobs, tickets)| == Asking(jobs)
    ensures jobs[i].Entry? ==> Requests(jobs, tickets)[Asking(jobs[..i])] == NewOrder(tickets[jobs[i].order])
    ensures jobs[i].Removal? ==> Requests(jobs, tickets)[Asking(jobs[..i])] == CancelOrder(jobs[i].id)
  {
    var n := |jobs| - 1;
    AskingCounts(jobs, tickets);
    AskingCounts(jobs[..n], tickets);
    if i < n {
      JobAsks(jobs[..n], tickets, i);
      assert jobs[..n][..i] == jobs[..i];
    }
  }

  lemma {:induction false} FromUnique(b: Book, run: seq<Request>)
    requires Fits(b) && UniqueIds(b)
    ensures UniqueIds(From(b, run))
  {
    if run != [] {
      var mid := From(b, run[..|run| - 1]);
      FromUnique(b, run[..|run| - 1]);
      match run[|run| - 1]
      case NewOrder(t) => AddKeepsUnique(mid, t);
      case CancelOrder(id) => CancelKeepsUnique(mid, id);
    }
  }

  /** What the last job of a queue does to the book: it enters its order, or takes every order of its id off. */
  lemma {:induction false} LastJob(b: Book, jobs: seq<Job>, tickets: map<Order, Ticket>)
    requires Fits(b) && UniqueIds(b) && jobs != []
    ensures var n := |jobs| - 1; var before, after := From(b, Requests(jobs[..n], tickets)), From(b, Requests(jobs, tickets));
            && (jobs[n].Removal? ==> after == Cancel(before, jobs[n].id).book && Occurrences(after, jobs[n].id) == 0)
            && (jobs[n].Entry? && jobs[n].order != null && jobs[n].order in tickets ==>
                  after == Add(before, tickets[jobs[n].order]).book)
            && (Void(jobs[n]) ==> after == before)
  {
    var n := |jobs| - 1;
    var before := From(b, Requests(jobs[..n], tickets));
    FromUnique(b, Requests(jobs[..n], tickets));
    FromConcat(b, Requests(jobs[..n], tickets), Request1(jobs[n], tickets));
    if jobs[n].Removal? {
      FromOne(before, CancelOrder(jobs[n].id));
      CancelAnswers(before, jobs[n].id);
    } else if jobs[n].order != null && jobs[n].order in tickets {
      FromOne(before, NewOrder(tickets[jobs[n].order]));
    }
  }

  /** Processing a job accepts at most its own order and returns at most that one and known ones. */
  ghost predicate Advanced(orders: set<Order>, before: SlotState, after: SlotState) {
    && after.known <= before.known + orders && after.held <= before.held + orders
    && before.outstanding - before.known - orders <= after.outstanding
  }

  /** The next job's order is none of the later ones, and none of them is held. */
  lemma {:induction false} QueueSplits(jobs: seq<Job>, n: nat, before: SlotState)
    requires n < |jobs| && Queued(jobs[n..], before.outstanding, before.held)
    ensures Queued([jobs[n]], before.outstanding, before.held)
    ensures JobOrders([jobs[n]]) <= JobOrders(jobs[n..]) * JobOrders(jobs) && JobOrders(jobs[n + 1..]) <= JobOrders(jobs[n..])
    ensures JobOrders([jobs[n]]) !! JobOrders(jobs[n + 1..])
  {
  }

  lemma {:induction false} OneOfQueue(jobs: seq<Job>, n: nat)
    requires n < |jobs|
    ensures JobOrders([jobs[n]]) <= JobOrders(jobs)
  {
  }

  lemma {:induction false} QueueAdvances(jobs: seq<Job>, n: nat, before: SlotState, after: SlotState)
    requires n < |jobs| && Queued(jobs[n..], before.outstanding, before.held) && before.known <= before.held
    requires Advanced(JobOrders([jobs[n]]), before, after)
    ensures Queued(jobs[n + 1..], after.outstanding, after.held)
  {
  }

  /** The market data queue, if one is attached, and which push attempts it accepts. */
  datatype Feed = Detached | Attached(accepts: nat -> bool)

  class MatchingEngine {
    const book: OrderBook
    const feed: Feed
    var events: seq<Event>
    var attempts: nat
    var dropped: nat
    var tradesExecuted: nat
    var totalProcessed: nat

    /** Every event pushed or dropped. */
    ghost var attempted: seq<Event>

    ghost predicate Published()
      reads this`events, this`attempts, this`dropped, this`attempted
    {
      && attempts == |attempted|
      && (feed.Detached? ==> events == attempted == [] && dropped == 0)
      && (feed.Attached? ==> events == Kept(attempted, feed.accepts) && dropped == Dropped(attempted, feed.accepts))
    }

    /** The last best prices published, or dropped, are those of `view`. */
    ghost predicate InStep(view: Book)
      reads this`attempted
    {
      feed.Attached? ==> LastPrices(attempted) == Prices(view)
    }

    ghost predicate Valid()
      reads this, book, book.bids, book.asks, book.pool, book.lookup.Values
    {
      book.Valid() && !book.shutdown && Published() && InStep(book.view)
    }

    /** Request `r` took the book from `before` to its present state, and has been published. */
    ghost predicate Took(r: Request, before: Book, sent: seq<Event>, traded: nat)
      requires Fits(before)
      reads this`attempted, this`tradesExecuted, book`view
    {
      var e := Apply(before, r);
      && book.view == e.book
      && attempted == sent + (if feed.Attached? then Emitted(before, e) else [])
      && tradesExecuted == traded + |e.trades|
    }

    constructor (pool: OrderPool, feed: Feed)
      ensures Valid() && book.view == EMPTY_BOOK && attempted == [] && book.pool == pool && this.feed == feed
      ensures totalProcessed == 0 && tradesExecuted == 0 && fresh(book)
    {
      book := new OrderBook(pool);
      this.feed := feed;
      events, attempts, dropped, attempted := [], 0, 0, [];
      tradesExecuted, totalProcessed := 0, 0;
    }

    // ---------- Publishing

    /** Push one event; a refusal is only counted. */
    method Publish(e: Event)
      requires Published()
      modifies this`events, this`attempts, this`dropped, this`attempted
      ensures Published() && attempted == old(attempted) + if feed.Attached? then [e] else []
    {
      if feed.Detached? {
        return;
      }
      KeptSnoc(attempted, e, feed.accepts);
      if feed.accepts(attempts) {
        events := events + [e];
      } else {
        dropped := dropped + 1;
      }
      attempts := attempts + 1;
      attempted := attempted + [e];
    }

    /** The trade callback, once per trade of a sweep. */
    method PublishTrades(trades: seq<Trade>)
      requires Published()
      modifies this`events, this`attempts, this`dropped, this`attempted, this`tradesExecuted
      ensures Published() && attempted == old(attempted) + if feed.Attached? then TradeEvents(trades) else []
      ensures tradesExecuted == old(tradesExecuted) + |trades|
    {
      for i := 0 to |trades|
        invariant Published() && tradesExecuted == old(tradesExecuted) + i
        invariant attempted == old(attempted) + if feed.Attached? then TradeEvents(trades)[..i] else []
      {
        TakeOneMore(TradeEvents(trades), i);
        Associative(old(attempted), TradeEvents(trades)[..i], [TradeEvents(trades)[i]]);
        tradesExecuted := tradesExecuted + 1;
        Publish(TradeEvent(trades[i]));
      }
      assert TradeEvents(trades)[..|trades|] == TradeEvents(trades);
    }

    /** Publish the trades of a request, then the best bid and offer if either price changed. */
    method PublishOutcome(trades: seq<Trade>, was: Bbo, now: Bbo, ghost before: Book, ghost e: Effect)
      requires Published() && trades == e.trades && was == BestOf(before) && now == BestOf(e.book)
      modifies this`events, this`attempts, this`dropped, this`attempted, this`tradesExecuted
      ensures Published() && tradesExecuted == old(tradesExecuted) + |trades|
      ensures attempted == old(attempted) + if feed.Attached? then Emitted(before, e) else []
    {
      PublishTrades(trades);
      if now.bidPrice != was.bidPrice || now.askPrice != was.askPrice {
        Associative(old(attempted), TradeEvents(trades), [BboEvent(now)]);
        Publish(BboEvent(now));
      } else {
        assert TradeEvents(trades) + [] == TradeEvents(trades);
      }
    }

    /** `PublishOutcome`, which leaves the book alone. */
    method Announce(trades: seq<Trade>, was: Bbo, now: Bbo, ghost before: Book, ghost e: Effect)
      requires book.Valid() && Published() && InStep(before)
      requires trades == e.trades && was == BestOf(before) && now == BestOf(e.book)
      modifies this`events, this`attempts, this`dropped, this`attempted, this`tradesExecuted
      ensures book.Valid() && Published() && InStep(e.book) && tradesExecuted == old(tradesExecuted) + |trades|
      ensures attempted == old(attempted) + if feed.Attached? then Emitted(before, e) else []
    {
      if feed.Attached? {
        EmittedShows(attempted, before, e);
      }
      PublishOutcome(trades, was, now, before, e);
    }

    // ---------- Requests

    /** Mark a rejected order and give its slot back. */
    method ReturnRejected(order: Order)
      requires book.Valid() && order in book.pool.outstanding && order !in book.held
      modifies order`status, book.pool
      ensures book.Valid() && order.status == OrderStatus.Rejected
      ensures book.pool.outstanding == old(book.pool.outstanding) - {order}
    {
      order.status := OrderStatus.Rejected;
      book.pool.Deallocate(order);
    }

    /** Hand an order to the book; a rejected order's slot goes back to the pool. */
    method Submit(order: Order) returns (outcome: Outcome, trades: seq<Trade>)
      requires book.Valid() && !book.shutdown && order in book.pool.outstanding && order !in book.held
      modifies book, book.bids`levels, book.asks`levels, book.pool, book.lookup.Values`remaining, book.lookup.Values`status
      modifies order`remaining, order`status
      ensures book.Valid() && !book.shutdown
      ensures Effect(book.view, trades, outcome) == Add(old(book.view), old(order.AsTicket()))
      ensures Settled(order, outcome, old(book.Slots()))
    {
      outcome, trades := book.AddOrder(order);
      if !outcome.Accepted? {
        ReturnRejected(order);
      }
    }

    /** An accepted order is placed; a rejected one is marked, and its slot is the only one to move. */
    ghost predicate Settled(order: Order, outcome: Outcome, before: SlotState)
      reads order, book`lookup, book`held, book`filledOnArrival, book.pool
    {
      if outcome.Accepted? then Placed(order, order.remaining > 0, before, book.Slots())
      else order.status == OrderStatus.Rejected && book.Slots() == before.(outstanding := before.outstanding - {order})
    }

    /** Match an order and publish what happened. */
    method Handle(order: Order)
      requires Valid() && order in book.pool.outstanding && order !in book.held
      modifies this, book, book.bids`levels, book.asks`levels, book.pool, book.lookup.Values`remaining, book.lookup.Values`status
      modifies order`remaining, order`status
      ensures Valid() && totalProcessed == old(totalProcessed)
      ensures Took(NewOrder(old(order.AsTicket())), old(book.view), old(attempted), old(tradesExecuted))
      ensures Settled(order, Add(old(book.view), old(order.AsTicket())).outcome, old(book.Slots()))
    {
      ghost var before := book.view;
      var was := book.Best();
      var outcome, trades := Submit(order);
      var now := book.Best();
      Announce(trades, was, now, before, Effect(book.view, trades, outcome));
    }

    method ProcessNewOrder(order: Order?)
      requires Valid()
      requires order != null ==> order in book.pool.outstanding && order !in book.held
      modifies this, book, book.bids`levels, book.asks`levels, book.pool, book.lookup.Values`remaining, book.lookup.Values`status
      modifies (if order == null then {} else {order})`remaining, (if order == null then {} else {order})`status
      ensures Valid() && totalProcessed == old(totalProcessed)
      ensures order == null ==> book.view == old(book.view) && attempted == old(attempted) && book.Slots() == old(book.Slots())
      ensures order != null ==>
                && Took(NewOrder(old(order.AsTicket())), old(book.view), old(attempted), old(tradesExecuted))
                && Settled(order, Add(old(book.view), old(order.AsTicket())).outcome, old(book.Slots()))
    {
      if order != null {
        Handle(order);
      }
    }

    /** Take an order off the book. */
    method Revoke(id: nat) returns (outcome: Outcome)
      requires book.Valid() && !book.shutdown
      modifies book, book.bids`levels, book.asks`levels, book.pool, book.lookup.Values`status
      ensures book.Valid() && !book.shutdown
      ensures Effect(book.view, [], outcome) == Cancel(old(book.view), id)
      ensures Receded(old(book.Slots()), book.Slots())
    {
      outcome := book.CancelOrder(id);
    }

    method ProcessCancel(id: nat)
      requires Valid()
      modifies this, book, book.bids`levels, book.asks`levels, book.pool, book.lookup.Values`status
      ensures Valid() && totalProcessed == old(totalProcessed)
      ensures Took(CancelOrder(id), old(book.view), old(attempted), old(tradesExecuted))
      ensures Receded(old(book.Slots()), book.Slots())
    {
      ghost var before := book.view;
      var was := book.Best();
      var _ := Revoke(id);
      var now := book.Best();
      Announce([], was, now, before, Cancel(before, id));
    }

    /** Periodic maintenance changes neither the book nor the stream. */
    method MaybeCompact()
      requires Valid()
      modifies book.bids`levels, book.asks`levels
      ensures Valid()
    {
      if totalProcessed % COMPACT_INTERVAL == 0 {
        book.Compact();
        book.Prune();
      }
    }

    /** What requests starting from `b` make this engine push. */
    ghost function Outgoing(b: Book, run: seq<Request>): seq<Event>
      requires Fits(b)
    {
      if feed.Attached? then StreamFrom(b, run) else []
    }

    lemma {:induction false} OutgoingConcat(b: Book, run: seq<Request>, more: seq<Request>, sent: seq<Event>)
      requires Fits(b)
      ensures From(b, run + more) == From(From(b, run), more)
      ensures sent + Outgoing(b, run) + Outgoing(From(b, run), more) == sent + Outgoing(b, run + more)
    {
      FromConcat(b, run, more);
      Associative(sent, Outgoing(b, run), Outgoing(From(b, run), more));
    }

    /** Process one queued request. */
    method ProcessJob(job: Job, ghost tickets: map<Order, Ticket>)
      requires Valid() && Queued([job], book.pool.outstanding, book.held)
      requires forall o :: o in JobOrders([job]) ==> o in tickets && o.AsTicket() == tickets[o]
      modifies this, book, book.bids`levels, book.asks`levels, book.pool, book.lookup.Values`remaining, book.lookup.Values`status
      modifies JobOrders([job])`remaining, JobOrders([job])`status
      ensures Valid() && totalProcessed == old(totalProcessed)
      ensures book.view == From(old(book.view), Request1(job, tickets))
      ensures attempted == old(attempted) + Outgoing(old(book.view), Request1(job, tickets))
      ensures Advanced(JobOrders([job]), old(book.Slots()), book.Slots())
    {
      match job
      case Entry(order) =>
        if order != null {
          assert job in [job] && order in JobOrders([job]);
          FromOne(book.view, NewOrder(tickets[order]));
          Handle(order);
        }
      case Removal(id) =>
        FromOne(book.view, CancelOrder(id));
        ProcessCancel(id);
    }

    /** The first `n` jobs have been processed, starting from `start` with `sent` published; the others wait untouched. */
    ghost predicate Drained(queue: seq<Job>, n: nat, tickets: map<Order, Ticket>, start: Book, sent: seq<Event>)
      requires n <= |queue| && Fits(start)
      reads this`attempted, book`view, book`held, book.pool, JobOrders(queue)
    {
      && Queued(queue[n..], book.pool.outstanding, book.held)
      && (forall o :: o in JobOrders(queue) * JobOrders(queue[n..]) ==> o in tickets && o.AsTicket() == tickets[o])
      && book.view == From(start, Requests(queue[..n], tickets))
      && attempted == sent + Outgoing(start, Requests(queue[..n], tickets))
    }

    lemma {:induction false} RunAdvances(
      queue: seq<Job>, n: nat, tickets: map<Order, Ticket>, start: Book, sent: seq<Event>, view: Book, out: seq<Event>, out': seq<Event>)
      requires n < |queue| && Fits(start)
      requires view == From(start, Requests(queue[..n], tickets)) && out == sent + Outgoing(start, Requests(queue[..n], tickets))
      requires out' == out + Outgoing(view, Request1(queue[n], tickets))
      ensures From(start, Requests(queue[..n + 1], tickets)) == From(view, Request1(queue[n], tickets))
      ensures out' == sent + Outgoing(start, Requests(queue[..n + 1], tickets))
    {
      RequestsSnoc(queue, n, tickets);
      OutgoingConcat(start, Requests(queue[..n], tickets), Request1(queue[n], tickets), sent);
    }

    /** Process the next job of the queue. */
    method ProcessNext(queue: seq<Job>, n: nat, ghost tickets: map<Order, Ticket>, ghost start: Book, ghost sent: seq<Event>)
      requires n < |queue| && Fits(start) && Valid() && Drained(queue, n, tickets, start, sent)
      modifies this, book, book.bids`levels, book.asks`levels, book.pool, book.lookup.Values`remaining, book.lookup.Values`status
      modifies JobOrders([queue[n]])`remaining, JobOrders([queue[n]])`status
      ensures Valid() && Drained(queue, n + 1, tickets, start, sent) && totalProcessed == old(totalProcessed)
      ensures book.lookup.Values <= old(book.lookup).Values + JobOrders([queue[n]])
    {
      ghost var before, later, view, out := book.Slots(), JobOrders(queue[n + 1..]), book.view, attempted;
      QueueSplits(queue, n, before);
      assert later !! book.lookup.Values && later !! JobOrders([queue[n]]);
      ProcessJob(queue[n], tickets);
      QueueAdvances(queue, n, before, book.Slots());
      RunAdvances(queue, n, tickets, start, sent, view, out, attempted);
    }

    /** The batch loop. */
    method ProcessBatch(queue: seq<Job>, ghost tickets: map<Order, Ticket>, ghost start: Book, ghost sent: seq<Event>) returns (count: nat)
      requires Fits(start) && Valid() && Drained(queue, 0, tickets, start, sent)
      modifies this, book, book.bids`levels, book.asks`levels, book.pool, book.lookup.Values`remaining, book.lookup.Values`status
      modifies JobOrders(queue)`remaining, JobOrders(queue)`status
      ensures Valid() && count == Min(|queue|, BATCH_SIZE) && totalProcessed == old(totalProcessed)
      ensures Drained(queue, count, tickets, start, sent)
    {
      count := 0;
      ghost var known := book.lookup.Values + JobOrders(queue);
      ghost var total := totalProcessed;
      while count < BATCH_SIZE && count < |queue|
        invariant count <= |queue| && count <= BATCH_SIZE && totalProcessed == total
        invariant Valid() && Drained(queue, count, tickets, start, sent)
        invariant book.lookup.Values <= known
        modifies this, book, book.bids`levels, book.asks`levels, book.pool, known`remaining, known`status
      {
        OneOfQueue(queue, count);
        ProcessNext(queue, count, tickets, start, sent);
        count := count + 1;
      }
    }

    method Tally(count: nat)
      requires Valid()
      modifies this`totalProcessed
      ensures Valid() && totalProcessed == old(totalProcessed) + count
    {
      totalProcessed := totalProcessed + count;
    }

    /** Process up to a batch of queued requests, in order. Queued orders are distinct slots no one else holds. */
    method DrainBatch(queue: seq<Job>) returns (count: nat)
      requires Valid() && Queued(queue, book.pool.outstanding, book.held)
      modifies this, book, book.bids`levels, book.asks`levels, book.pool, book.lookup.Values`remaining, book.lookup.Values`status
      modifies JobOrders(queue)`remaining, JobOrders(queue)`status
      ensures Valid() && count == Min(|queue|, BATCH_SIZE) && totalProcessed == old(totalProcessed) + count
      ensures Drained(queue, count, old(Tickets(JobOrders(queue))), old(book.view), old(attempted))
      ensures count > 0 && queue[count - 1].Removal? ==> Occurrences(book.view, queue[count - 1].id) == 0
    {
      assert queue[0..] == queue;
      ghost var start, tickets := book.view, Tickets(JobOrders(queue));
      count := ProcessBatch(queue, tickets, start, attempted);
      Tally(count);
      if count > 0 {
        LastJob(start, queue[..count], tickets);
      }
    }
  }
}
