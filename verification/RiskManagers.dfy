/** The risk manager itself: check, record, hand over, and undo when the hand-over fails. */
module RiskManagers {
  import opened Bits
  import opened RateLimit
  import opened Risk
  import opened RiskRuns

  const RISK_BATCH_SIZE := 128

  datatype Status = Pending | Accepted | Rejected

  class OrderSlot {
    const data: Incoming
    var status: Status

    constructor (data: Incoming)
      ensures this.data == data && status == Pending
    {
      this.data := data;
      status := Pending;
    }
  }

  /** A request as it comes off the input queue. */
  datatype Task = Enter(slot: OrderSlot, since: nat, now: nat, room: bool) | Revoke(id: nat, client: ClientId, room: bool)

  function AsRequest(t: Task): Request {
    match t
    case Enter(slot, since, now, room) => New(slot.data, since, now, room)
    case Revoke(id, client, room) => Cancel(id, client, room)
  }

  /** The books after processing tasks in order. */
  function AfterTasks(l: Ledger, cfg: Config, tasks: seq<Task>): Ledger {
    if tasks == [] then l
    else Apply(AfterTasks(l, cfg, tasks[..|tasks| - 1]), cfg, AsRequest(tasks[|tasks| - 1]))
  }

  /** What tasks ask for: one request each, in order. An entered slot asks for a new order with its data, a revocation for a
      cancel of its id by its client. */
  lemma {:induction false} TasksAsk(cfg: Config, run: seq<Request>, tasks: seq<Task>, requests: seq<Request>)
    requires |requests| == |tasks|
    requires forall i :: 0 <= i < |tasks| && tasks[i].Enter? ==>
               requests[i] == New(tasks[i].slot.data, tasks[i].since, tasks[i].now, tasks[i].room)
    requires forall i :: 0 <= i < |tasks| && tasks[i].Revoke? ==> requests[i] == Cancel(tasks[i].id, tasks[i].client, tasks[i].room)
    ensures AfterTasks(Books(cfg, run), cfg, tasks) == Books(cfg, run + requests)
    decreases |tasks|
  {
    if tasks == [] {
      assert run + requests == run;
    } else {
      var n := |tasks| - 1;
      TasksAsk(cfg, run, tasks[..n], requests[..n]);
      assert (run + requests)[..|run + requests| - 1] == run + requests[..n];
    }
  }

  /** What the last task does: a revocation leaves its client without an active order of that id, an approved order is
      active and handed to the engine of its symbol. */
  lemma {:induction false} LastTask(l: Ledger, cfg: Config, tasks: seq<Task>)
    requires tasks != []
    ensures var n := |tasks| - 1; var before, after := AfterTasks(l, cfg, tasks[..n]), AfterTasks(l, cfg, tasks);
            && (tasks[n].Revoke? ==> !Owns(after, tasks[n].client, tasks[n].id))
            && (tasks[n].Enter? ==>
                  var o := tasks[n].slot.data;
                  if Judge(before, cfg, o, tasks[n].since, tasks[n].now, tasks[n].room).Approved?
                  then Owns(after, o.client, o.id) && after.sent == before.sent + [Submit(o.symbol, o.id, o.client)]
                  else after.sent == before.sent)
  {
  }

  class RiskManager {
    const config: Config
    var clients: map<ClientId, Client>
    var index: map<nat, Symbol>
    var prices: map<Symbol, nat>
    /** Hand-overs to matching engines, in order. */
    var sent: seq<Dispatch>
    var approved: nat
    var rejected: nat
    var cancelsAccepted: nat
    var cancelsRejected: nat
    var processed: nat

    constructor (config: Config)
      ensures this.config == config && View() == Books(config, [])
      ensures approved == 0 && rejected == 0 && cancelsAccepted == 0 && cancelsRejected == 0 && processed == 0
    {
      this.config := config;
      clients, index, prices, sent := map[], map[], map[], [];
      approved, rejected, cancelsAccepted, cancelsRejected, processed := 0, 0, 0, 0, 0;
    }

    function View(): Ledger
      reads this
    {
      Ledger(clients, index, prices, sent)
    }

    /** Exposures are 64-bit words. */
    ghost predicate Words()
      reads this`clients
    {
      forall c :: c in clients ==> clients[c].exposure < TWO_64
    }

    method UpdateReferencePrice(symbol: Symbol, price: nat)
      modifies this`prices
      ensures View() == Apply(old(View()), config, Price(symbol, price))
    {
      prices := prices[symbol := price];
    }

    method GetOrCreateClient(id: ClientId, since: nat)
      modifies this`clients
      ensures clients == old(clients)[id := ClientOf(old(View()), id, since)]
    {
      if id !in clients {
        clients := clients[id := Client({}, 0, Gate(0, since))];
      }
    }

    method CheckRateLimit(id: ClientId, now: nat) returns (ok: bool)
      requires id in clients
      modifies this`clients
      ensures ok == Admits(old(clients)[id].gate, now, config.maxOrdersPerSecond)
      ensures clients == old(clients)[id := old(clients)[id].(gate := Admit(old(clients)[id].gate, now, config.maxOrdersPerSecond))]
    {
      var c := clients[id];
      if (now - c.gate.start) % TWO_64 >= WINDOW {
        c := c.(gate := Gate(0, now));
        clients := clients[id := c];
      }
      if c.gate.inWindow >= config.maxOrdersPerSecond {
        return false;
      }
      clients := clients[id := c.(gate := Gate(c.gate.inWindow + 1, c.gate.start))];
      return true;
    }

    method CheckPriceCollar(o: Incoming, configured: Percent) returns (ok: bool)
      ensures ok == (o.symbol in prices ==> CollarOk(o.price, prices[o.symbol], Truncate(configured)))
    {
      if o.symbol !in prices {
        return true;
      }
      var reference := prices[o.symbol];
      if reference == 0 {
        return true;
      }
      var pct := Truncate(configured);
      var scaled := o.price * 100;
      var lower := reference * ((100 - pct) % TWO_64);
      var upper := reference * ((100 + pct) % TWO_64);
      return scaled >= lower && scaled <= upper;
    }

    method RejectOrder(slot: OrderSlot)
      modifies slot`status, this`rejected
      ensures slot.status == Rejected && rejected == old(rejected) + 1
    {
      slot.status := Rejected;
      rejected := rejected + 1;
    }

    /** Take an order's effects on client and index back. */
    method Undo(o: Incoming, notional: nat)
      requires o.client in clients && notional < TWO_64
      modifies this`clients, this`index
      ensures var c := old(clients)[o.client];
              clients == old(clients)[o.client := c.(active := c.active - {o.id}, exposure := (c.exposure - notional) % TWO_64)]
      ensures index == old(index) - {o.id}
    {
      var c := clients[o.client];
      clients := clients[o.client := c.(active := c.active - {o.id}, exposure := (c.exposure - notional) % TWO_64)];
      index := index - {o.id};
    }

    /** The state update of an order that passed every check, undone when no engine takes it. */
    method Route(o: Incoming, notional: nat, room: bool) returns (ok: bool)
      requires o.client in clients && Words() && notional < TWO_64 && o.id !in clients[o.client].active
      modifies this`clients, this`index, this`sent
      ensures Words() && (ok <==> o.symbol in config.engines && room)
      ensures ok ==>
                && (var c := old(clients)[o.client];
                    clients == old(clients)[o.client := c.(active := c.active + {o.id}, exposure := (c.exposure + notional) % TWO_64)])
                && index == old(index)[o.id := o.symbol] && sent == old(sent) + [Submit(o.symbol, o.id, o.client)]
      ensures !ok ==> clients == old(clients) && index == old(index) - {o.id} && sent == old(sent)
    {
      ghost var before := clients[o.client];
      clients := clients[o.client := clients[o.client].(active := clients[o.client].active + {o.id},
                                                        exposure := (clients[o.client].exposure + notional) % TWO_64)];
      index := index[o.id := o.symbol];
      if o.symbol in config.engines {
        if !room {
          Undo(o, notional);
          assert before.active + {o.id} - {o.id} == before.active;
          return false;
        }
        sent := sent + [Submit(o.symbol, o.id, o.client)];
      } else {
        Undo(o, notional);
        assert before.active + {o.id} - {o.id} == before.active;
        return false;
      }
      return true;
    }

    /** Every check up to the credit limit, cheapest first; the rate limit counts the order from there on. */
    method PassesChecks(o: Incoming, since: nat, now: nat) returns (ok: bool)
      requires Words()
      modifies this`clients
      ensures Words()
      ensures !ok ==> forall room ::
                View() == Decide(old(View()), config, o, since, now, room) && !Judge(old(View()), config, o, since, now, room).Approved?
      ensures ok ==>
                && (forall room :: Judge(old(View()), config, o, since, now, room) ==
                      if o.symbol !in config.engines then RejectedNoEngine else if room then Approved else RejectedQueueFull)
                && (var c := ClientOf(old(View()), o.client, since);
                    clients == old(clients)[o.client := c.(gate := Admit(c.gate, now, config.maxOrdersPerSecond))]
                    && o.id !in c.active)
    {
      if o.symbol !in config.collarPct || o.quantity == 0 || o.quantity > config.maxOrderSize {
        return false;
      }
      GetOrCreateClient(o.client, since);
      var within := CheckRateLimit(o.client, now);
      assert clients == old(clients)[o.client := clients[o.client]];
      if !within || o.id in clients[o.client].active {
        return false;
      }
      if config.collarEnabled {
        var fair := CheckPriceCollar(o, config.collarPct[o.symbol]);
        if !fair {
          return false;
        }
      }
      return (clients[o.client].exposure + Notional(o.price, o.quantity)) % TWO_64 <= config.maxNotional;
    }

    method ProcessNewOrder(slot: OrderSlot?, since: nat, now: nat, room: bool)
      requires Words()
      modifies this`clients, this`index, this`sent, this`approved, this`rejected
      modifies (if slot == null then {} else {slot})`status
      ensures Words()
      ensures slot == null ==> View() == old(View()) && approved == old(approved) && rejected == old(rejected) + 1
      ensures slot != null ==>
                && View() == Apply(old(View()), config, New(slot.data, since, now, room))
                && (var v := Judge(old(View()), config, slot.data, since, now, room);
                    if v.Approved? then slot.status == Accepted && approved == old(approved) + 1 && rejected == old(rejected)
                    else slot.status == Rejected && approved == old(approved) && rejected == old(rejected) + 1)
    {
      if slot == null {
        rejected := rejected + 1;
        return;
      }
      var o := slot.data;
      var ok := PassesChecks(o, since, now);
      if ok {
        ok := Route(o, Notional(o.price, o.quantity), room);
      }
      if ok {
        slot.status := Accepted;
        approved := approved + 1;
      } else {
        RejectOrder(slot);
      }
    }

    /** A cancel the engine's queue refuses is lost, and accepted all the same. */
    method ProcessCancel(id: nat, client: ClientId, room: bool)
      requires Words()
      modifies this`clients, this`index, this`sent, this`cancelsAccepted, this`cancelsRejected
      ensures Words()
      ensures View() == Apply(old(View()), config, Cancel(id, client, room))
      ensures cancelsAccepted == old(cancelsAccepted) + (if Owns(old(View()), client, id) then 1 else 0)
      ensures cancelsRejected == old(cancelsRejected) + (if Owns(old(View()), client, id) then 0 else 1)
    {
      if client !in clients || id !in clients[client].active {
        cancelsRejected := cancelsRejected + 1;
        return;
      }
      if id in index {
        if index[id] in config.engines && room {
          sent := sent + [Withdraw(index[id], id, client)];
        }
        index := index - {id};
      }
      clients := clients[client := clients[client].(active := clients[client].active - {id})];
      cancelsAccepted := cancelsAccepted + 1;
      assert id !in old(index) ==> old(index) - {id} == old(index);
    }

    /** Requests taken so far, by what became of them. */
    function Counted(): nat
      reads this`approved, this`rejected, this`cancelsAccepted, this`cancelsRejected
    {
      approved + rejected + cancelsAccepted + cancelsRejected
    }

    /** Process one queued request. */
    method ProcessTask(task: Task)
      requires Words()
      modifies this`clients, this`index, this`sent, this`approved, this`rejected, this`cancelsAccepted, this`cancelsRejected
      modifies (if task.Enter? then {task.slot} else {})`status
      ensures Words() && View() == Apply(old(View()), config, AsRequest(task)) && Counted() == old(Counted()) + 1
    {
      match task {
        case Enter(slot, since, now, room) => ProcessNewOrder(slot, since, now, room);
        case Revoke(id, client, room) => ProcessCancel(id, client, room);
      }
    }

    /** Process up to a batch of queued requests. */
    method DrainBatch(queue: seq<Task>) returns (count: nat)
      requires Words()
      modifies this`clients, this`index, this`sent, this`approved, this`rejected, this`cancelsAccepted, this`cancelsRejected, this`processed
      modifies (set t | t in queue && t.Enter? :: t.slot)`status
      ensures Words()
      ensures count == if |queue| < RISK_BATCH_SIZE then |queue| else RISK_BATCH_SIZE
      ensures View() == AfterTasks(old(View()), config, queue[..count])
      ensures processed == old(processed) + count
      ensures Counted() == old(Counted()) + count
    {
      count := 0;
      while count < RISK_BATCH_SIZE && count < |queue|
        invariant Words() && count <= |queue| && count <= RISK_BATCH_SIZE
        invariant View() == AfterTasks(old(View()), config, queue[..count])
        invariant processed == old(processed) && Counted() == old(Counted()) + count
      {
        assert queue[..count + 1][..count] == queue[..count];
        assert queue[count] in queue;
        ProcessTask(queue[count]);
        count := count + 1;
      }
      processed := processed + count;
    }
  }
}
