/** What holds of the risk manager's books over every run of requests. */
module RiskRuns {
  import opened Bits
  import opened RateLimit
  import opened Risk

  /** Clock readings and whether the engine's queue had room come with the request. */
  datatype Request =
    | New(order: Incoming, since: nat, now: nat, room: bool)
    | Cancel(id: nat, client: ClientId, room: bool)
    | Price(symbol: Symbol, price: nat)

  function Apply(l: Ledger, cfg: Config, r: Request): Ledger {
    match r
    case New(o, since, now, room) => Decide(l, cfg, o, since, now, room)
    case Cancel(id, client, room) => Withdrawn(l, cfg, id, client, room)
    case Price(symbol, price) => l.(prices := l.prices[symbol := price])
  }

  function Books(cfg: Config, run: seq<Request>): Ledger {
    if run == [] then Ledger(map[], map[], map[], [])
    else Apply(Books(cfg, run[..|run| - 1]), cfg, run[|run| - 1])
  }

  predicate IsApproved(l: Ledger, cfg: Config, r: Request) {
    r.New? && Judge(l, cfg, r.order, r.since, r.now, r.room).Approved?
  }

  // ---------- Exposure

  function ExposureOf(l: Ledger, client: ClientId): nat {
    if client in l.clients then l.clients[client].exposure else 0
  }

  /** What a client's approved orders come to, in exact arithmetic. */
  function Spent(cfg: Config, run: seq<Request>, client: ClientId): nat {
    if run == [] then 0
    else
      var n := |run| - 1;
      var r := run[n];
      Spent(cfg, run[..n], client) +
      if IsApproved(Books(cfg, run[..n]), cfg, r) && r.order.client == client then r.order.price * r.order.quantity else 0
  }

  lemma {:induction false} AddWords(a: nat, b: nat)
    ensures (a % TWO_64 + b % TWO_64) % TWO_64 == (a + b) % TWO_64
  {
  }

  lemma {:induction false} DecideExposure(l: Ledger, cfg: Config, o: Incoming, since: nat, now: nat, room: bool, client: ClientId)
    requires ExposureOf(l, client) <= cfg.maxNotional
    ensures var l' := Decide(l, cfg, o, since, now, room);
            && ExposureOf(l', client) <= cfg.maxNotional
            && ExposureOf(l', client) ==
                 if Judge(l, cfg, o, since, now, room).Approved? && o.client == client
                 then (ExposureOf(l, client) + Notional(o.price, o.quantity)) % TWO_64
                 else ExposureOf(l, client)
  {
  }

  /** A client's exposure is the 64-bit sum of the notionals of all its approved orders, cancelled or not,
      and stays within the limit. */
  lemma {:induction false} ExposureIsSum(cfg: Config, run: seq<Request>, client: ClientId)
    ensures ExposureOf(Books(cfg, run), client) == Spent(cfg, run, client) % TWO_64
    ensures ExposureOf(Books(cfg, run), client) <= cfg.maxNotional
  {
    if run != [] {
      var n := |run| - 1;
      ExposureIsSum(cfg, run[..n], client);
      if run[n].New? {
        var o := run[n].order;
        DecideExposure(Books(cfg, run[..n]), cfg, o, run[n].since, run[n].now, run[n].room, client);
        AddWords(Spent(cfg, run[..n], client), o.price * o.quantity);
      } else {
        assert ExposureOf(Books(cfg, run), client) == ExposureOf(Books(cfg, run[..n]), client);
      }
    }
  }

  /** So the limit bounds what was really spent exactly as long as that stays below 2^64. */
  lemma {:induction false} ExposureExactly(cfg: Config, run: seq<Request>, client: ClientId)
    ensures ExposureOf(Books(cfg, run), client) == Spent(cfg, run, client) <==> Spent(cfg, run, client) < TWO_64
  {
    ExposureIsSum(cfg, run, client);
  }

  lemma {:induction false} Reduced(e: nat, n: nat)
    ensures (e + n % TWO_64) % TWO_64 == e + n <==> e + n < TWO_64
  {
    if e + n < TWO_64 {
      assert n % TWO_64 == n;
    }
  }

  /** One approval keeps the exposure the true sum exactly when the addition fits a 64-bit word. */
  lemma {:induction false} ApprovalExactly(l: Ledger, cfg: Config, o: Incoming, since: nat, now: nat, room: bool)
    requires Judge(l, cfg, o, since, now, room).Approved?
    ensures ExposureOf(Decide(l, cfg, o, since, now, room), o.client) == ExposureOf(l, o.client) + o.price * o.quantity <==>
              ExposureOf(l, o.client) + o.price * o.quantity < TWO_64
  {
    Reduced(ExposureOf(l, o.client), o.price * o.quantity);
  }

  /** No order is priced above `top`. */
  ghost predicate PricedWithin(run: seq<Request>, top: nat) {
    forall r :: r in run && r.New? ==> r.order.price <= top
  }

  /** With prices up to `top`, no run wraps when the limit leaves room for one largest order. */
  lemma {:induction false} ExposureFits(cfg: Config, run: seq<Request>, client: ClientId, top: nat)
    requires PricedWithin(run, top) && cfg.maxNotional + top * cfg.maxOrderSize < TWO_64
    ensures ExposureOf(Books(cfg, run), client) == Spent(cfg, run, client) <= cfg.maxNotional
  {
    ExposureIsSum(cfg, run, client);
    if run != [] {
      var n := |run| - 1;
      var l, r := Books(cfg, run[..n]), run[n];
      ExposureFits(cfg, run[..n], client, top);
      if IsApproved(l, cfg, r) && r.order.client == client {
        assert r in run;
        LargestOrder(r.order.price, r.order.quantity, top, cfg.maxOrderSize);
        ApprovalExactly(l, cfg, r.order, r.since, r.now, r.room);
      }
    }
  }

  lemma {:induction false} LargestOrder(price: nat, quantity: nat, top: nat, size: nat)
    requires price <= top && quantity <= size
    ensures price * quantity <= top * size
  {
    assert price * quantity <= top * quantity && top * quantity <= top * size;
  }

  /** A single order can wrap: 2 units at price 2^63 count as nothing. */
  lemma {:induction false} ExposureCanWrap() returns (cfg: Config, run: seq<Request>)
    ensures Spent(cfg, run, "c") == TWO_64 && ExposureOf(Books(cfg, run), "c") == 0
  {
    cfg := Config(10, 10, false, 1000, map["S" := 10.0], {"S"});
    run := [New(Incoming(1, "c", "S", TWO_63, 2), 0, 0, true)];
    assert run[..0] == [];
    assert Books(cfg, run[..0]) == Ledger(map[], map[], map[], []);
    assert IsApproved(Books(cfg, run[..0]), cfg, run[0]);
    assert Spent(cfg, run[..0], "c") == 0;
    ExposureIsSum(cfg, run, "c");
  }

  // ---------- Routing

  datatype Option<T> = None | Some(value: T)

  /** The engine that got the client's latest order of an id. */
  function LastSubmit(sent: seq<Dispatch>, client: ClientId, id: nat): Option<Symbol> {
    if sent == [] then None
    else
      var d := sent[|sent| - 1];
      if d.Submit? && d.id == id && d.client == client then Some(d.symbol) else LastSubmit(sent[..|sent| - 1], client, id)
  }

  lemma {:induction false} LastSubmitSnoc(sent: seq<Dispatch>, d: Dispatch, client: ClientId, id: nat)
    ensures LastSubmit(sent + [d], client, id) ==
              if d.Submit? && d.id == id && d.client == client then Some(d.symbol) else LastSubmit(sent, client, id)
  {
  }

  /** The index names the engine that got this client's order. */
  predicate RoutedTo(l: Ledger, client: ClientId, id: nat) {
    id in l.index && LastSubmit(l.sent, client, id) == Some(l.index[id])
  }

  ghost predicate AllRouted(l: Ledger) {
    forall c, id :: Owns(l, c, id) ==> RoutedTo(l, c, id)
  }

  /** The order's id is another client's too, and its entry in the index is erased or redirected. */
  ghost predicate Misroutes(l: Ledger, o: Incoming, v: Verdict) {
    && OwnedElsewhere(l, o.client, o.id)
    && (RolledBack(v) || (v.Approved? && !(o.id in l.index && l.index[o.id] == o.symbol)))
  }

  lemma {:induction false} DecideOwns(l: Ledger, cfg: Config, o: Incoming, since: nat, now: nat, room: bool, c: ClientId, id: nat)
    ensures Owns(Decide(l, cfg, o, since, now, room), c, id) <==>
              Owns(l, c, id) || (Judge(l, cfg, o, since, now, room).Approved? && c == o.client && id == o.id)
  {
  }

  /** What a new order does to one route. */
  lemma {:induction false} DecideRoute(l: Ledger, cfg: Config, o: Incoming, since: nat, now: nat, room: bool, c: ClientId, id: nat)
    requires Owns(l, c, id) && RoutedTo(l, c, id)
    ensures RoutedTo(Decide(l, cfg, o, since, now, room), c, id) <==>
              !(id == o.id && c != o.client && Misroutes(l, o, Judge(l, cfg, o, since, now, room)))
  {
    var v := Judge(l, cfg, o, since, now, room);
    LastSubmitSnoc(l.sent, Submit(o.symbol, o.id, o.client), c, id);
    if v.Approved? || RolledBack(v) {
      assert !Owns(l, o.client, o.id);
      if id == o.id {
        assert OwnedElsewhere(l, o.client, o.id);
      }
    }
  }

  /** A new order keeps every route unless it takes another client's active id, and either cannot be handed over or
      goes to another engine. */
  lemma {:induction false} DecideRouted(l: Ledger, cfg: Config, o: Incoming, since: nat, now: nat, room: bool)
    requires AllRouted(l)
    ensures AllRouted(Decide(l, cfg, o, since, now, room)) <==> !Misroutes(l, o, Judge(l, cfg, o, since, now, room))
  {
    var v, l' := Judge(l, cfg, o, since, now, room), Decide(l, cfg, o, since, now, room);
    if Misroutes(l, o, v) {
      var c :| c != o.client && Owns(l, c, o.id);
      DecideOwns(l, cfg, o, since, now, room, c, o.id);
      DecideRoute(l, cfg, o, since, now, room, c, o.id);
    } else {
      forall c, id | Owns(l', c, id) ensures RoutedTo(l', c, id) {
        DecideOwns(l, cfg, o, since, now, room, c, id);
        if Owns(l, c, id) {
          DecideRoute(l, cfg, o, since, now, room, c, id);
        } else {
          LastSubmitSnoc(l.sent, Submit(o.symbol, o.id, o.client), c, id);
        }
      }
    }
  }

  lemma {:induction false} WithdrawnRoute(l: Ledger, cfg: Config, id: nat, client: ClientId, room: bool, c: ClientId, i: nat)
    requires Owns(l, client, id)
    ensures var l' := Withdrawn(l, cfg, id, client, room);
            && (Owns(l', c, i) <==> Owns(l, c, i) && !(c == client && i == id))
            && (RoutedTo(l', c, i) <==> RoutedTo(l, c, i) && i != id)
  {
    if id in l.index {
      LastSubmitSnoc(l.sent, Withdraw(l.index[id], id, client), c, i);
    }
  }

  /** A cancel keeps the routes of the orders left exactly when no other client has an active order of that id. */
  lemma {:induction false} WithdrawnRouted(l: Ledger, cfg: Config, id: nat, client: ClientId, room: bool)
    requires AllRouted(l)
    ensures AllRouted(Withdrawn(l, cfg, id, client, room)) <==> !(Owns(l, client, id) && OwnedElsewhere(l, client, id))
  {
    var l' := Withdrawn(l, cfg, id, client, room);
    if Owns(l, client, id) {
      if OwnedElsewhere(l, client, id) {
        var c :| c != client && Owns(l, c, id);
        WithdrawnRoute(l, cfg, id, client, room, c, id);
      } else {
        forall c, i | Owns(l', c, i) ensures RoutedTo(l', c, i) {
          WithdrawnRoute(l, cfg, id, client, room, c, i);
        }
      }
    }
  }

  /** The request breaks a route, seen before it is processed. */
  ghost predicate Clashes(l: Ledger, cfg: Config, r: Request) {
    match r
    case New(o, since, now, room) => Misroutes(l, o, Judge(l, cfg, o, since, now, room))
    case Cancel(id, client, _) => Owns(l, client, id) && OwnedElsewhere(l, client, id)
    case Price(_, _) => false
  }

  ghost predicate ClashFree(cfg: Config, run: seq<Request>) {
    run == [] || (var n := |run| - 1; ClashFree(cfg, run[..n]) && !Clashes(Books(cfg, run[..n]), cfg, run[n]))
  }

  ghost predicate RoutedThroughout(cfg: Config, run: seq<Request>) {
    AllRouted(Books(cfg, run)) && (run == [] || RoutedThroughout(cfg, run[..|run| - 1]))
  }

  lemma {:induction false} ApplyRouted(l: Ledger, cfg: Config, r: Request)
    requires AllRouted(l)
    ensures AllRouted(Apply(l, cfg, r)) <==> !Clashes(l, cfg, r)
  {
    match r
    case New(o, since, now, room) => DecideRouted(l, cfg, o, since, now, room);
    case Cancel(id, client, room) => WithdrawnRouted(l, cfg, id, client, room);
    case Price(_, _) =>
      forall c, id | Owns(Apply(l, cfg, r), c, id) ensures RoutedTo(Apply(l, cfg, r), c, id) {
        assert Owns(l, c, id);
      }
  }

  /** Over every run: every active order is routed to its own engine all the time exactly when no request clashes. */
  lemma {:induction false} RunRouted(cfg: Config, run: seq<Request>)
    ensures RoutedThroughout(cfg, run) <==> ClashFree(cfg, run)
  {
    if run != [] {
      var n := |run| - 1;
      RunRouted(cfg, run[..n]);
      if ClashFree(cfg, run[..n]) {
        ApplyRouted(Books(cfg, run[..n]), cfg, run[n]);
      }
    }
  }

  /** No two clients use one id. */
  ghost predicate OwnIds(run: seq<Request>) {
    forall q, r :: q in run && r in run && q.New? && r.New? && q.order.id == r.order.id ==> q.order.client == r.order.client
  }

  lemma {:induction false} OwnedWasNew(cfg: Config, run: seq<Request>, client: ClientId, id: nat) returns (r: Request)
    requires Owns(Books(cfg, run), client, id)
    ensures r in run && r.New? && r.order.client == client && r.order.id == id
  {
    var n := |run| - 1;
    var l := Books(cfg, run[..n]);
    if Owns(l, client, id) {
      r := OwnedWasNew(cfg, run[..n], client, id);
    } else {
      r := run[n];
      if r.New? {
        DecideOwns(l, cfg, r.order, r.since, r.now, r.room, client, id);
      }
    }
  }

  lemma {:induction false} SoleOwner(cfg: Config, run: seq<Request>, n: nat, r: Request, c: ClientId)
    requires OwnIds(run) && n <= |run| && r in run && r.New? && Owns(Books(cfg, run[..n]), c, r.order.id)
    ensures c == r.order.client
  {
    var q := OwnedWasNew(cfg, run[..n], c, r.order.id);
    assert q in run;
  }

  /** Clients that keep to their own ids never clash. */
  lemma {:induction false} OwnIdsClashFree(cfg: Config, run: seq<Request>)
    requires OwnIds(run)
    ensures ClashFree(cfg, run)
  {
    if run != [] {
      var n := |run| - 1;
      var l, r := Books(cfg, run[..n]), run[n];
      OwnIdsClashFree(cfg, run[..n]);
      if r.Cancel? && Owns(l, r.client, r.id) {
        r := OwnedWasNew(cfg, run[..n], r.client, r.id);
        assert r in run;
      }
      if r.New? {
        forall c | Owns(l, c, r.order.id) ensures c == r.order.client {
          SoleOwner(cfg, run, n, r, c);
        }
      }
    }
  }

  lemma {:induction false} ApplyKeepsIndex(l: Ledger, cfg: Config, r: Request)
    requires IndexOk(l) && !Clashes(l, cfg, r)
    ensures IndexOk(Apply(l, cfg, r))
  {
    match r
    case New(o, since, now, room) => DecideKeepsIndex(l, cfg, o, since, now, room);
    case Cancel(id, client, room) => WithdrawnKeepsIndex(l, cfg, id, client, room);
    case Price(_, _) =>
      forall c, id ensures Owns(Apply(l, cfg, r), c, id) == Owns(l, c, id) {
      }
  }

  /** Without clashes the index also knows nothing but active orders. */
  lemma {:induction false} RunIndexed(cfg: Config, run: seq<Request>)
    requires ClashFree(cfg, run)
    ensures IndexOk(Books(cfg, run))
  {
    if run != [] {
      RunIndexed(cfg, run[..|run| - 1]);
      ApplyKeepsIndex(Books(cfg, run[..|run| - 1]), cfg, run[|run| - 1]);
    }
  }

  /** An active order was handed to an engine. */
  ghost predicate Submitted(l: Ledger, cfg: Config, client: ClientId, id: nat) {
    var s := LastSubmit(l.sent, client, id);
    s.Some? && s.value in cfg.engines
  }

  lemma {:induction false} ApplySubmitted(l: Ledger, cfg: Config, r: Request, c: ClientId, i: nat)
    requires (Owns(l, c, i) ==> Submitted(l, cfg, c, i)) && Owns(Apply(l, cfg, r), c, i)
    ensures Submitted(Apply(l, cfg, r), cfg, c, i)
  {
    match r
    case New(o, since, now, room) =>
      DecideOwns(l, cfg, o, since, now, room, c, i);
      LastSubmitSnoc(l.sent, Submit(o.symbol, o.id, o.client), c, i);
    case Cancel(id, client, room) =>
      if id in l.index {
        LastSubmitSnoc(l.sent, Withdraw(l.index[id], id, client), c, i);
      }
    case Price(_, _) =>
  }

  lemma {:induction false} RunSubmitted(cfg: Config, run: seq<Request>, client: ClientId, id: nat)
    requires Owns(Books(cfg, run), client, id)
    ensures Submitted(Books(cfg, run), cfg, client, id)
  {
    if run != [] {
      var n := |run| - 1;
      if Owns(Books(cfg, run[..n]), client, id) {
        RunSubmitted(cfg, run[..n], client, id);
      }
      ApplySubmitted(Books(cfg, run[..n]), cfg, run[n], client, id);
    }
  }

  /** Over every run, a client's cancel of an active order is accepted and the order forgotten. It arrives at the engine
      that has the order exactly when the index still names that engine and its queue has room. */
  lemma {:induction false} CancelReachesEngine(cfg: Config, run: seq<Request>, id: nat, client: ClientId, room: bool)
    requires Owns(Books(cfg, run), client, id)
    ensures var l, l' := Books(cfg, run), Books(cfg, run + [Cancel(id, client, room)]);
            && Submitted(l, cfg, client, id) && !Owns(l', client, id)
            && (l'.sent == l.sent + [Withdraw(LastSubmit(l.sent, client, id).value, id, client)] <==>
                  RoutedTo(l, client, id) && room)
            && (ClashFree(cfg, run) ==> RoutedTo(l, client, id))
  {
    var l := Books(cfg, run);
    RunSubmitted(cfg, run, client, id);
    RunRouted(cfg, run);
    CancelSent(l, cfg, id, client, room);
    assert (run + [Cancel(id, client, room)])[..|run|] == run;
  }

  lemma {:induction false} CancelSent(l: Ledger, cfg: Config, id: nat, client: ClientId, room: bool)
    requires Owns(l, client, id) && Submitted(l, cfg, client, id)
    ensures var l' := Withdrawn(l, cfg, id, client, room);
            && !Owns(l', client, id)
            && (l'.sent == l.sent + [Withdraw(LastSubmit(l.sent, client, id).value, id, client)] <==>
                  RoutedTo(l, client, id) && room)
  {
    var l', own := Withdrawn(l, cfg, id, client, room), LastSubmit(l.sent, client, id).value;
    if id in l.index && l.index[id] in cfg.engines && room {
      assert l'.sent[|l.sent|] == Withdraw(l.index[id], id, client);
      assert (l.sent + [Withdraw(own, id, client)])[|l.sent|] == Withdraw(own, id, client);
    } else {
      assert |l'.sent| == |l.sent|;
    }
  }

  // ---------- Two clients with one id

  function Order(client: ClientId, symbol: Symbol): Request {
    New(Incoming(1, client, symbol, 5, 2), 0, 0, true)
  }

  const TWO_ENGINES := Config(10, 10, false, 1000, map["S" := 10.0, "T" := 10.0], {"S", "T"})

  /** Both orders are approved and handed over. */
  lemma {:induction false} SameId(symbol: Symbol)
    requires symbol == "S" || symbol == "T"
    ensures Books(TWO_ENGINES, [Order("c", "S"), Order("d", symbol)]) ==
              Ledger(map["c" := Client({1}, 10, Gate(1, 0)), "d" := Client({1}, 10, Gate(1, 0))],
                     map[1 := symbol], map[], [Submit("S", 1, "c"), Submit(symbol, 1, "d")])
  {
    var a, b := Order("c", "S"), Order("d", symbol);
    assert [a][..0] == [] && [a, b][..1] == [a];
    assert Books(TWO_ENGINES, [a]) == Apply(Books(TWO_ENGINES, []), TWO_ENGINES, a);
    assert Books(TWO_ENGINES, []) == Ledger(map[], map[], map[], []);
    assert {} + {1} == {1};
    assert Books(TWO_ENGINES, [a]) ==
             Ledger(map["c" := Client({1}, 10, Gate(1, 0))], map[1 := "S"], map[], [Submit("S", 1, "c")]);
    assert Books(TWO_ENGINES, [a, b]) == Apply(Books(TWO_ENGINES, [a]), TWO_ENGINES, b);
  }

  /** The index can lose an active order: two clients use one id, one of them cancels. */
  lemma {:induction false} IndexCanBreak() returns (cfg: Config, run: seq<Request>)
    ensures Owns(Books(cfg, run), "d", 1) && 1 !in Books(cfg, run).index
  {
    cfg, run := TWO_ENGINES, [Order("c", "S"), Order("d", "S"), Cancel(1, "c", true)];
    assert run[..2] == [Order("c", "S"), Order("d", "S")];
    SameId("S");
  }

  /** And a cancel can go to another client's order: the second order redirects the id. */
  lemma {:induction false} CancelCanGoAstray() returns (cfg: Config, run: seq<Request>)
    ensures Books(cfg, run).sent == [Submit("S", 1, "c"), Submit("T", 1, "d"), Withdraw("T", 1, "c")]
    ensures !ClashFree(cfg, run)
  {
    cfg, run := TWO_ENGINES, [Order("c", "S"), Order("d", "T"), Cancel(1, "c", true)];
    assert run[..2] == [Order("c", "S"), Order("d", "T")];
    SameId("T");
    var l := Books(cfg, run[..2]);
    assert Owns(l, "c", 1) && Owns(l, "d", 1);
  }

  // ---------- Rate

  function LastTime(run: seq<Request>): nat {
    if run == [] then 0
    else if run[|run| - 1].New? then run[|run| - 1].now
    else LastTime(run[..|run| - 1])
  }

  /** The clock never runs backwards, and has not reached 2^64. */
  predicate Clocked(run: seq<Request>) {
    run == [] || (
      var n := |run| - 1;
      Clocked(run[..n]) && (run[n].New? ==> LastTime(run[..n]) <= run[n].since <= run[n].now < TWO_64))
  }

  predicate PassesGate(l: Ledger, cfg: Config, r: Request, client: ClientId) {
    r.New? && r.order.client == client
    && var v := Judge(l, cfg, r.order, r.since, r.now, r.room); Counted(v) && !v.RejectedRate?
  }

  /** When a client's orders passed the rate limit. */
  function Admissions(cfg: Config, run: seq<Request>, client: ClientId): seq<nat> {
    if run == [] then []
    else
      var n := |run| - 1;
      Admissions(cfg, run[..n], client) + if PassesGate(Books(cfg, run[..n]), cfg, run[n], client) then [run[n].now] else []
  }

  lemma {:induction false} FreshGate(since: nat, max: nat)
    ensures GateOk(Gate(0, since), [], max) && Bounded([], max)
  {
  }

  ghost predicate Gated(l: Ledger, client: ClientId, times: seq<nat>, max: nat, last: nat) {
    && Bounded(times, max)
    && (client !in l.clients ==> times == [])
    && (client in l.clients ==> GateOk(l.clients[client].gate, times, max) && l.clients[client].gate.start <= last)
  }

  lemma {:induction false} DecideGated(l: Ledger, cfg: Config, r: Request, times: seq<nat>, last: nat)
    requires r.New? && Gated(l, r.order.client, times, cfg.maxOrdersPerSecond, last) && last <= r.since <= r.now < TWO_64
    ensures var times' := times + if PassesGate(l, cfg, r, r.order.client) then [r.now] else [];
            Gated(Apply(l, cfg, r), r.order.client, times', cfg.maxOrdersPerSecond, r.now)
  {
    assert times + [] == times;
    var gate := ClientOf(l, r.order.client, r.since).gate;
    FreshGate(r.since, cfg.maxOrdersPerSecond);
    AdmitKeeps(gate, times, r.now, cfg.maxOrdersPerSecond);
  }

  lemma {:induction false} OthersGated(l: Ledger, cfg: Config, r: Request, client: ClientId, times: seq<nat>, last: nat)
    requires Gated(l, client, times, cfg.maxOrdersPerSecond, last) && (r.New? ==> r.order.client != client && last <= r.now)
    ensures Gated(Apply(l, cfg, r), client, times, cfg.maxOrdersPerSecond, if r.New? then r.now else last)
  {
  }

  lemma {:induction false} RunGate(cfg: Config, run: seq<Request>, client: ClientId)
    requires Clocked(run)
    ensures Gated(Books(cfg, run), client, Admissions(cfg, run, client), cfg.maxOrdersPerSecond, LastTime(run))
  {
    if run == [] {
      FreshGate(0, cfg.maxOrdersPerSecond);
    } else {
      var n := |run| - 1;
      var l, times, last := Books(cfg, run[..n]), Admissions(cfg, run[..n], client), LastTime(run[..n]);
      RunGate(cfg, run[..n], client);
      if run[n].New? && run[n].order.client == client {
        DecideGated(l, cfg, run[n], times, last);
      } else {
        OthersGated(l, cfg, run[n], client, times, last);
        assert times + [] == times;
      }
    }
  }

  /** Over every run, no second holds more than twice the configured number of one client's admitted orders. */
  lemma {:induction false} RateBound(cfg: Config, run: seq<Request>, client: ClientId, t: int)
    requires Clocked(run)
    ensures InSecond(Admissions(cfg, run, client), t) <= 2 * cfg.maxOrdersPerSecond
  {
    RunGate(cfg, run, client);
  }
}
