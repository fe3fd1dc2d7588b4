/** What an approval means, in terms of the requests a client made: which orders reach a matching engine, and that every
    order that meets the conditions does. */
module RiskApprovals {
  import opened Bits
  import RateLimit
  import opened Risk
  import opened RiskRuns

  // ---------- The state of the books, read off the run

  /** The latest reference price given for a symbol. */
  function LastPrice(run: seq<Request>, symbol: Symbol): Option<nat> {
    if run == [] then None
    else
      var r := run[|run| - 1];
      if r.Price? && r.symbol == symbol then Some(r.price) else LastPrice(run[..|run| - 1], symbol)
  }

  /** The client's order of this id was approved and not cancelled by the client since. */
  predicate Open(cfg: Config, run: seq<Request>, client: ClientId, id: nat) {
    run != [] && (
      var before, r := run[..|run| - 1], run[|run| - 1];
      if r.New? && r.order.client == client && r.order.id == id && IsApproved(Books(cfg, before), cfg, r) then true
      else if r.Cancel? && r.client == client && r.id == id then false
      else Open(cfg, before, client, id))
  }

  /** A new order of a client, for a configured symbol and of a size within bounds. */
  predicate Proper(cfg: Config, r: Request, client: ClientId) {
    r.New? && r.order.client == client && r.order.symbol in cfg.collarPct && 0 < r.order.quantity <= cfg.maxOrderSize
  }

  /** When the client's proper orders came, and when the first of them made the client known. */
  function Calls(cfg: Config, run: seq<Request>, client: ClientId): seq<nat> {
    if run == [] then []
    else
      var n := |run| - 1;
      Calls(cfg, run[..n], client) + if Proper(cfg, run[n], client) then [run[n].now] else []
  }

  function Since(cfg: Config, run: seq<Request>, client: ClientId): nat {
    if run == [] then 0
    else
      var n := |run| - 1;
      if Calls(cfg, run[..n], client) == [] && Proper(cfg, run[n], client) then run[n].since else Since(cfg, run[..n], client)
  }

  /** The client's rate limit after the run: the gate opened at the first proper order, with all of them through it. */
  function GateAfter(cfg: Config, run: seq<Request>, client: ClientId): RateLimit.Gate {
    RateLimit.After(Since(cfg, run, client), Calls(cfg, run, client), cfg.maxOrdersPerSecond)
  }

  lemma {:induction false} PricesAre(cfg: Config, run: seq<Request>, symbol: Symbol)
    ensures LastPrice(run, symbol) ==
              if symbol in Books(cfg, run).prices then Some(Books(cfg, run).prices[symbol]) else None
  {
    if run != [] {
      PricesAre(cfg, run[..|run| - 1], symbol);
    }
  }

  lemma {:induction false} OpenIsOwned(cfg: Config, run: seq<Request>, client: ClientId, id: nat)
    ensures Open(cfg, run, client, id) <==> Owns(Books(cfg, run), client, id)
  {
    if run != [] {
      var l, r := Books(cfg, run[..|run| - 1]), run[|run| - 1];
      OpenIsOwned(cfg, run[..|run| - 1], client, id);
      match r
      case New(o, since, now, room) => DecideOwns(l, cfg, o, since, now, room, client, id);
      case _ =>
    }
  }

  /** What the books know of a client's rate limit. */
  ghost predicate GateIs(l: Ledger, client: ClientId, calls: seq<nat>, gate: RateLimit.Gate) {
    (client in l.clients <==> calls != []) && (client in l.clients ==> l.clients[client].gate == gate)
  }

  lemma {:induction false} DecideGate(l: Ledger, cfg: Config, r: Request, client: ClientId)
    requires r.New?
    ensures var l' := Apply(l, cfg, r);
            if Proper(cfg, r, client) then
              && client in l'.clients
              && l'.clients[client].gate == RateLimit.Admit(ClientOf(l, client, r.since).gate, r.now, cfg.maxOrdersPerSecond)
            else
              && (client in l'.clients <==> client in l.clients)
              && (client in l.clients ==> l'.clients[client].gate == l.clients[client].gate)
  {
  }

  lemma {:induction false} CallAfter(since: nat, calls: seq<nat>, now: nat, max: nat)
    ensures RateLimit.After(since, calls + [now], max) == RateLimit.Admit(RateLimit.After(since, calls, max), now, max)
    ensures RateLimit.After(since, [], max) == RateLimit.Gate(0, since)
  {
    RateLimit.CallSnoc(since, calls, now, max);
  }

  lemma {:induction false} GatesAre(cfg: Config, run: seq<Request>, client: ClientId)
    ensures GateIs(Books(cfg, run), client, Calls(cfg, run, client), GateAfter(cfg, run, client))
  {
    if run != [] {
      var n := |run| - 1;
      var r, calls := run[n], Calls(cfg, run[..n], client);
      GatesAre(cfg, run[..n], client);
      if r.New? {
        DecideGate(Books(cfg, run[..n]), cfg, r, client);
        CallAfter(Since(cfg, run, client), calls, r.now, cfg.maxOrdersPerSecond);
      }
      assert calls + [] == calls;
    }
  }

  // ---------- What earns an approval

  /** Within the collar: a whole percentage of the reference, in exact arithmetic. Percentages that configuration
      validation refuses are compared as the code compares them. */
  ghost predicate Collared(price: nat, reference: nat, p: Percent) {
    if Truncate(p) <= 100 then WithinBand(price, reference, Truncate(p) as real) else CollarOk(price, reference, Truncate(p))
  }

  /** No price is known, the collar is off, or the price is within it. */
  ghost predicate FairPrice(cfg: Config, run: seq<Request>, o: Incoming)
    requires o.symbol in cfg.collarPct
  {
    var reference := LastPrice(run, o.symbol);
    cfg.collarEnabled && reference.Some? && reference.value > 0 ==> Collared(o.price, reference.value, cfg.collarPct[o.symbol])
  }

  /** The client's window is over and the maximum positive, or the window has room. */
  predicate RateRoom(cfg: Config, run: seq<Request>, r: Request)
    requires r.New?
  {
    var gate := if Calls(cfg, run, r.order.client) == [] then RateLimit.Gate(0, r.since) else GateAfter(cfg, run, r.order.client);
    if (r.now - gate.start) % TWO_64 >= RateLimit.WINDOW then cfg.maxOrdersPerSecond > 0 else gate.inWindow < cfg.maxOrdersPerSecond
  }

  /** Everything asked of a new order, on the fields of the request and on what the run says. */
  ghost predicate Earned(cfg: Config, run: seq<Request>, r: Request) {
    && r.New? && r.room
    && var o := r.order;
       && o.symbol in cfg.collarPct && o.symbol in cfg.engines
       && 0 < o.quantity <= cfg.maxOrderSize
       && !Open(cfg, run, o.client, o.id)
       && (Spent(cfg, run, o.client) + o.price * o.quantity) % TWO_64 <= cfg.maxNotional
       && FairPrice(cfg, run, o) && RateRoom(cfg, run, r)
  }

  lemma {:induction false} CollaredIsOk(price: nat, reference: nat, p: Percent)
    requires reference > 0
    ensures Collared(price, reference, p) <==> CollarOk(price, reference, Truncate(p))
  {
    if Truncate(p) <= 100 {
      CollarIsBand(price, reference, Truncate(p));
    }
  }

  /** The collar check on the books is the collar on the run. */
  lemma {:induction false} PriceEarned(cfg: Config, run: seq<Request>, o: Incoming)
    requires o.symbol in cfg.collarPct
    ensures PriceOk(Books(cfg, run), cfg, o) <==> FairPrice(cfg, run, o)
  {
    var l := Books(cfg, run);
    PricesAre(cfg, run, o.symbol);
    if o.symbol in l.prices && l.prices[o.symbol] > 0 {
      CollaredIsOk(o.price, l.prices[o.symbol], cfg.collarPct[o.symbol]);
    }
  }

  lemma {:induction false} CreditEarned(cfg: Config, run: seq<Request>, client: ClientId, since: nat, price: nat, quantity: nat)
    ensures (ClientOf(Books(cfg, run), client, since).exposure + Notional(price, quantity)) % TWO_64 ==
              (Spent(cfg, run, client) + price * quantity) % TWO_64
  {
    ExposureIsSum(cfg, run, client);
    AddWords(Spent(cfg, run, client), price * quantity);
  }

  /** The rate limit on the books is the one on the run. */
  lemma {:induction false} RateEarned(cfg: Config, run: seq<Request>, r: Request)
    requires r.New?
    ensures RateLimit.Admits(ClientOf(Books(cfg, run), r.order.client, r.since).gate, r.now, cfg.maxOrdersPerSecond) <==>
              RateRoom(cfg, run, r)
  {
    GatesAre(cfg, run, r.order.client);
  }

  lemma {:induction false} ApprovedMeans(l: Ledger, cfg: Config, o: Incoming, since: nat, now: nat, room: bool)
    requires o.symbol in cfg.collarPct
    ensures Judge(l, cfg, o, since, now, room).Approved? <==>
              && room && o.symbol in cfg.engines && 0 < o.quantity <= cfg.maxOrderSize && !Owns(l, o.client, o.id) && PriceOk(l, cfg, o)
              && RateLimit.Admits(ClientOf(l, o.client, since).gate, now, cfg.maxOrdersPerSecond)
              && (ClientOf(l, o.client, since).exposure + Notional(o.price, o.quantity)) % TWO_64 <= cfg.maxNotional
  {
  }

  /** An order is approved exactly when it has earned it: every check of the risk manager, and no other. */
  lemma {:induction false} ApprovedExactly(cfg: Config, run: seq<Request>, r: Request)
    ensures IsApproved(Books(cfg, run), cfg, r) <==> Earned(cfg, run, r)
  {
    if r.New? && r.order.symbol in cfg.collarPct {
      var o := r.order;
      ApprovedMeans(Books(cfg, run), cfg, o, r.since, r.now, r.room);
      OpenIsOwned(cfg, run, o.client, o.id);
      RateEarned(cfg, run, r);
      CreditEarned(cfg, run, o.client, r.since, o.price, o.quantity);
      PriceEarned(cfg, run, o);
    }
  }

  // ---------- What reaches the engines

  /** A hand-over of an order comes from request `i`, which had earned it. */
  ghost predicate SubmittedFor(cfg: Config, run: seq<Request>, d: Dispatch, i: nat) {
    && i < |run| && Earned(cfg, run[..i], run[i])
    && d == Submit(run[i].order.symbol, run[i].order.id, run[i].order.client)
  }

  lemma {:induction false} SentGrows(l: Ledger, cfg: Config, r: Request)
    ensures var sent' := Apply(l, cfg, r).sent;
            && l.sent <= sent' && |sent'| <= |l.sent| + 1
            && (IsApproved(l, cfg, r) ==> sent' == l.sent + [Submit(r.order.symbol, r.order.id, r.order.client)])
            && (!IsApproved(l, cfg, r) && |l.sent| < |sent'| ==> sent'[|l.sent|].Withdraw?)
  {
  }

  ghost predicate Backed(cfg: Config, run: seq<Request>, d: Dispatch) {
    d.Submit? ==> exists i :: SubmittedFor(cfg, run, d, i)
  }

  ghost predicate AllBacked(cfg: Config, run: seq<Request>, sent: seq<Dispatch>) {
    forall k :: 0 <= k < |sent| ==> Backed(cfg, run, sent[k])
  }

  /** What request `n` adds. */
  lemma {:induction false} OneBacked(cfg: Config, run: seq<Request>, n: nat)
    requires n < |run|
    ensures var l := Books(cfg, run[..n]); var sent' := Apply(l, cfg, run[n]).sent;
            l.sent <= sent' && |sent'| <= |l.sent| + 1 && (|l.sent| < |sent'| ==> Backed(cfg, run, sent'[|l.sent|]))
  {
    var l := Books(cfg, run[..n]);
    SentGrows(l, cfg, run[n]);
    ApprovedExactly(cfg, run[..n], run[n]);
    if IsApproved(l, cfg, run[n]) {
      assert SubmittedFor(cfg, run, Submit(run[n].order.symbol, run[n].order.id, run[n].order.client), n);
    }
  }

  lemma {:induction false} BackedGrows(cfg: Config, run: seq<Request>, sent: seq<Dispatch>, sent': seq<Dispatch>)
    requires AllBacked(cfg, run, sent) && sent <= sent' && |sent'| <= |sent| + 1
    requires |sent| < |sent'| ==> Backed(cfg, run, sent'[|sent|])
    ensures AllBacked(cfg, run, sent')
  {
  }

  lemma {:induction false} PrefixBacked(cfg: Config, run: seq<Request>, n: nat)
    requires n <= |run|
    ensures AllBacked(cfg, run, Books(cfg, run[..n]).sent)
  {
    if n > 0 {
      PrefixBacked(cfg, run, n - 1);
      OneBacked(cfg, run, n - 1);
      assert run[..n][..n - 1] == run[..n - 1];
      BackedGrows(cfg, run, Books(cfg, run[..n - 1]).sent, Books(cfg, run[..n]).sent);
    }
  }

  /** Over every run, whatever was handed to an engine comes from a request that had earned it. */
  lemma {:induction false} EverySubmitEarned(cfg: Config, run: seq<Request>, k: nat) returns (i: nat)
    requires k < |Books(cfg, run).sent| && Books(cfg, run).sent[k].Submit?
    ensures SubmittedFor(cfg, run, Books(cfg, run).sent[k], i)
  {
    assert run[..|run|] == run;
    PrefixBacked(cfg, run, |run|);
    assert Backed(cfg, run, Books(cfg, run).sent[k]);
    i :| SubmittedFor(cfg, run, Books(cfg, run).sent[k], i);
  }

  /** So no order beyond the configured band reaches an engine while its collar is on, for percentages from 0 to 101. */
  lemma {:induction false} SubmitWithinBand(cfg: Config, run: seq<Request>, k: nat) returns (i: nat)
    requires k < |Books(cfg, run).sent| && Books(cfg, run).sent[k].Submit?
    ensures SubmittedFor(cfg, run, Books(cfg, run).sent[k], i)
    ensures var o, reference := run[i].order, LastPrice(run[..i], run[i].order.symbol);
            cfg.collarEnabled && reference.Some? && reference.value > 0 && 0.0 <= cfg.collarPct[o.symbol] < 101.0 ==>
              WithinBand(o.price, reference.value, cfg.collarPct[o.symbol])
  {
    i := EverySubmitEarned(cfg, run, k);
    var o, reference := run[i].order, LastPrice(run[..i], run[i].order.symbol);
    if cfg.collarEnabled && reference.Some? && reference.value > 0 && 0.0 <= cfg.collarPct[o.symbol] < 101.0 {
      BandGrows(o.price, reference.value, Truncate(cfg.collarPct[o.symbol]) as real, cfg.collarPct[o.symbol]);
    }
  }

  /** And a request that has earned it is handed over. */
  lemma {:induction false} EarnedIsSubmitted(cfg: Config, run: seq<Request>, r: Request)
    requires Earned(cfg, run, r)
    ensures Books(cfg, run + [r]).sent == Books(cfg, run).sent + [Submit(r.order.symbol, r.order.id, r.order.client)]
    ensures Open(cfg, run + [r], r.order.client, r.order.id)
  {
    ApprovedExactly(cfg, run, r);
    SentGrows(Books(cfg, run), cfg, r);
    assert (run + [r])[..|run|] == run;
  }
}
