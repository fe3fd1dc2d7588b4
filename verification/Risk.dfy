/** Pre-trade risk: the checks on a new order, what they do to the books of the risk manager, and
    what holds of those books over every run. */
module Risk {
  import opened Bits
  import opened RateLimit

  type Symbol = string
  type ClientId = string

  datatype Incoming = Incoming(id: nat, client: ClientId, symbol: Symbol, price: nat, quantity: nat)

  /** A configured percentage, of those that convert to a 64-bit word. */
  type Percent = p: real | -1.0 < p < TWO_64 as real witness 0.0

  datatype Config = Config(
    maxOrderSize: nat, maxOrdersPerSecond: nat, collarEnabled: bool, maxNotional: nat,
    collarPct: map<Symbol, Percent>, engines: set<Symbol>)

  datatype Client = Client(active: set<nat>, exposure: nat, gate: Gate)

  /** What reached the queue of a matching engine. */
  datatype Dispatch = Submit(symbol: Symbol, id: nat, client: ClientId) | Withdraw(symbol: Symbol, id: nat, client: ClientId)

  datatype Ledger = Ledger(clients: map<ClientId, Client>, index: map<nat, Symbol>, prices: map<Symbol, nat>, sent: seq<Dispatch>)

  datatype Verdict =
    | Approved
    | RejectedSymbol
    | RejectedSize
    | RejectedRate
    | RejectedDuplicate
    | RejectedPrice
    | RejectedCredit
    | RejectedQueueFull
    | RejectedNoEngine

  // ---------- Checks

  /** 64-bit product. */
  function Notional(price: nat, quantity: nat): nat {
    price * quantity % TWO_64
  }

  /** The conversion to an unsigned word drops the fraction. */
  function Truncate(p: Percent): nat {
    if p < 0.0 then 0 else p.Floor
  }

  /** The collar as the integer comparison computes it: the percentage difference wraps at 64 bits, the products do not. */
  predicate CollarOk(price: nat, reference: nat, pct: nat) {
    reference == 0 || reference * ((100 - pct) % TWO_64) <= price * 100 <= reference * ((100 + pct) % TWO_64)
  }

  predicate PriceOk(l: Ledger, cfg: Config, o: Incoming)
    requires o.symbol in cfg.collarPct
  {
    cfg.collarEnabled && o.symbol in l.prices ==> CollarOk(o.price, l.prices[o.symbol], Truncate(cfg.collarPct[o.symbol]))
  }

  /** A client unknown so far starts with a window beginning now. */
  function ClientOf(l: Ledger, client: ClientId, since: nat): Client {
    if client in l.clients then l.clients[client] else Client({}, 0, Gate(0, since))
  }

  function Judge(l: Ledger, cfg: Config, o: Incoming, since: nat, now: nat, room: bool): Verdict {
    var c := ClientOf(l, o.client, since);
    if o.symbol !in cfg.collarPct then RejectedSymbol
    else if o.quantity == 0 || o.quantity > cfg.maxOrderSize then RejectedSize
    else if !Admits(c.gate, now, cfg.maxOrdersPerSecond) then RejectedRate
    else if o.id in c.active then RejectedDuplicate
    else if !PriceOk(l, cfg, o) then RejectedPrice
    else if (c.exposure + Notional(o.price, o.quantity)) % TWO_64 > cfg.maxNotional then RejectedCredit
    else if o.symbol !in cfg.engines then RejectedNoEngine
    else if !room then RejectedQueueFull
    else Approved
  }

  predicate Counted(v: Verdict) {
    !v.RejectedSymbol? && !v.RejectedSize?
  }

  predicate RolledBack(v: Verdict) {
    v.RejectedQueueFull? || v.RejectedNoEngine?
  }

  /** The books after a new order. */
  function Decide(l: Ledger, cfg: Config, o: Incoming, since: nat, now: nat, room: bool): Ledger {
    var v := Judge(l, cfg, o, since, now, room);
    if !Counted(v) then l
    else
      var c := ClientOf(l, o.client, since);
      var c1 := c.(gate := Admit(c.gate, now, cfg.maxOrdersPerSecond));
      if v.Approved? then
        Ledger(l.clients[o.client := c1.(active := c.active + {o.id}, exposure := (c.exposure + Notional(o.price, o.quantity)) % TWO_64)],
               l.index[o.id := o.symbol], l.prices, l.sent + [Submit(o.symbol, o.id, o.client)])
      else
        l.(clients := l.clients[o.client := c1], index := if RolledBack(v) then l.index - {o.id} else l.index)
  }

  predicate Owns(l: Ledger, client: ClientId, id: nat) {
    client in l.clients && id in l.clients[client].active
  }

  /** The books after a cancel request; `room` says whether the engine's queue takes it. */
  function Withdrawn(l: Ledger, cfg: Config, id: nat, client: ClientId, room: bool): Ledger {
    if !Owns(l, client, id) then l
    else
      var c := l.clients[client];
      var l1 := l.(clients := l.clients[client := c.(active := c.active - {id})], index := l.index - {id});
      if id in l.index && l.index[id] in cfg.engines && room then l1.(sent := l.sent + [Withdraw(l.index[id], id, client)]) else l1
  }

  // ---------- The collar against its meaning

  /** Within `p` percent of the reference, in exact arithmetic. */
  predicate WithinBand(price: nat, reference: nat, p: real) {
    reference as real * (1.0 - p / 100.0) <= price as real <= reference as real * (1.0 + p / 100.0)
  }

  /** For whole percentages up to 100 the check is the percentage band. */
  lemma {:induction false} CollarIsBand(price: nat, reference: nat, pct: nat)
    requires reference > 0 && pct <= 100
    ensures CollarOk(price, reference, pct) <==> WithinBand(price, reference, pct as real)
  {
    Exact(pct);
    Bounds(price, reference, 100 - pct, 100 + pct, pct as real);
  }

  lemma {:induction false} Exact(pct: nat)
    requires pct <= 100
    ensures (100 - pct) % TWO_64 == 100 - pct && (100 + pct) % TWO_64 == 100 + pct
  {
  }

  lemma {:induction false} Bounds(price: nat, reference: nat, low: nat, high: nat, p: real)
    requires low as real == 100.0 - p && high as real == 100.0 + p
    ensures reference * low <= price * 100 <= reference * high <==> WithinBand(price, reference, p)
  {
    OneBound(price, reference, low, -p);
    OneBound(price, reference, high, p);
    assert 1.0 + -p / 100.0 == 1.0 - p / 100.0;
  }

  lemma {:induction false} OneBound(price: nat, reference: nat, hundredths: nat, q: real)
    requires hundredths as real == 100.0 + q
    ensures reference * hundredths <= price * 100 <==> reference as real * (1.0 + q / 100.0) <= price as real
    ensures reference * hundredths >= price * 100 <==> reference as real * (1.0 + q / 100.0) >= price as real
  {
    Product(reference, hundredths);
    Hundredths(reference as real, q);
  }

  lemma {:induction false} Product(a: nat, b: nat)
    ensures (a * b) as real == a as real * b as real
  {
  }

  lemma {:induction false} Hundredths(r: real, q: real)
    ensures 100.0 * (r * (1.0 + q / 100.0)) == r * (100.0 + q)
  {
  }

  /** A fraction narrows the band: half a percent admits the reference price only. */
  lemma {:induction false} FractionIgnored(price: nat)
    ensures CollarOk(price, 10000, Truncate(0.5)) <==> price == 10000
    ensures WithinBand(10020, 10000, 0.5)
  {
  }

  /** What the check admits is within the configured band, whenever that is a percentage below 101. */
  lemma {:induction false} CollarNeverWider(price: nat, reference: nat, p: Percent)
    requires reference > 0 && 0.0 <= p < 101.0 && CollarOk(price, reference, Truncate(p))
    ensures WithinBand(price, reference, p)
  {
    CollarIsBand(price, reference, Truncate(p));
    BandGrows(price, reference, Truncate(p) as real, p);
  }

  lemma {:induction false} BandGrows(price: nat, reference: nat, p: real, q: real)
    requires p <= q && WithinBand(price, reference, p)
    ensures WithinBand(price, reference, q)
  {
    Scaled(1.0 - p / 100.0, 1.0 - q / 100.0, reference as real);
    Scaled(1.0 + q / 100.0, 1.0 + p / 100.0, reference as real);
  }

  /** Above 100 percent the lower bound wraps around. No price passes, except where it wraps below the upper bound. */
  lemma {:induction false} CollarClosed(pct: nat)
    requires 100 < pct < TWO_64
    ensures (forall price: nat, reference: nat | reference > 0 :: !CollarOk(price, reference, pct)) <==>
              !(TWO_63 <= pct < TWO_64 - 100)
  {
    var low, high := (100 - pct) % TWO_64, (100 + pct) % TWO_64;
    if TWO_63 <= pct < TWO_64 - 100 {
      assert low == TWO_64 + 100 - pct && high == 100 + pct;
      assert CollarOk(low, 100, pct);
    } else {
      PercentWraps(pct);
      forall price: nat, reference: nat | reference > 0 ensures !CollarOk(price, reference, pct) {
        Times(reference, high, low);
      }
    }
  }

  lemma {:induction false} PercentWraps(pct: nat)
    requires 100 < pct < TWO_64 && !(TWO_63 <= pct < TWO_64 - 100)
    ensures (100 - pct) % TWO_64 > (100 + pct) % TWO_64
  {
    assert (100 - pct) % TWO_64 == TWO_64 + 100 - pct;
  }

  lemma {:induction false} Times(k: nat, a: nat, b: nat)
    requires k > 0 && a < b
    ensures k * a < k * b
  {
  }

  /** The check is the configured band, at every price and reference, exactly for whole percentages from 0 to 100. */
  lemma {:induction false} CollarExactly(p: Percent)
    ensures (forall price: nat, reference: nat | reference > 0 ::
               CollarOk(price, reference, Truncate(p)) <==> WithinBand(price, reference, p)) <==>
            p == Truncate(p) as real && p <= 100.0
  {
    var pct := Truncate(p);
    if p == pct as real && p <= 100.0 {
      forall price: nat, reference: nat | reference > 0
        ensures CollarOk(price, reference, pct) <==> WithinBand(price, reference, p)
      {
        CollarIsBand(price, reference, pct);
      }
    } else if p < 0.0 {
      assert CollarOk(1, 1, pct) && !WithinBand(1, 1, p);
    } else if pct > 100 {
      ZeroRefused(p);
    } else {
      var price, reference := FractionRefused(p);
    }
  }

  /** Above 100 percent price 0 is within the band and refused. */
  lemma {:induction false} ZeroRefused(p: Percent)
    requires Truncate(p) > 100
    ensures WithinBand(0, 1, p) && !CollarOk(0, 1, Truncate(p))
  {
    assert (100 - Truncate(p)) % TWO_64 == TWO_64 + 100 - Truncate(p);
  }

  /** A fraction, however small, shuts out a price within the band of a large enough reference. */
  lemma {:induction false} FractionRefused(p: Percent) returns (price: nat, reference: nat)
    requires 0.0 <= p && Truncate(p) as real < p && Truncate(p) <= 100
    ensures reference > 0 && WithinBand(price, reference, p) && !CollarOk(price, reference, Truncate(p))
  {
    var pct := Truncate(p);
    var fraction := p - pct as real;
    var k: nat := (1.0 / fraction).Floor + 1;
    assert k as real * fraction >= 1.0 by {
      Scaled(k as real, 1.0 / fraction, fraction);
    }
    reference, price := 100 * k, k * (100 + pct) + 1;
    Beyond(k, pct, p, price, reference);
  }

  lemma {:induction false} Scaled(a: real, b: real, c: real)
    requires a >= b && c >= 0.0
    ensures a * c >= b * c
  {
  }

  lemma {:induction false} Beyond(k: nat, pct: nat, p: real, price: nat, reference: nat)
    requires k > 0 && 0.0 <= p && pct <= 100 && k as real * (p - pct as real) >= 1.0
    requires reference == 100 * k && price == k * (100 + pct) + 1
    ensures WithinBand(price, reference, p) && !CollarOk(price, reference, pct)
  {
    var r, q := k as real, pct as real;
    Product(k, 100 + pct);
    assert r * (100.0 + q) == r * 100.0 + r * q && r * (p - q) == r * p - r * q;
    Hundredths(r, p);
    Hundredths(r, -p);
    assert r * (100.0 + p) == r * 100.0 + r * p && r * (100.0 + -p) == r * 100.0 - r * p;
    assert reference as real * (1.0 + p / 100.0) == 100.0 * (r * (1.0 + p / 100.0));
    assert reference as real * (1.0 + -p / 100.0) == 100.0 * (r * (1.0 + -p / 100.0));
    Scaled(p, 0.0, r);
    Scaled(q, 0.0, r);
    assert reference * (100 + pct) == 100 * (k * (100 + pct));
  }

  // ---------- One step

  /** Whatever the reason, a rejection leaves every client's orders and exposure, and what was sent, as they
      were; the index loses at most the rejected id. */
  lemma {:induction false} RejectionKeeps(l: Ledger, cfg: Config, o: Incoming, since: nat, now: nat, room: bool, client: ClientId)
    requires !Judge(l, cfg, o, since, now, room).Approved?
    ensures var l' := Decide(l, cfg, o, since, now, room);
            && ClientOf(l', client, since).active == ClientOf(l, client, since).active
            && ClientOf(l', client, since).exposure == ClientOf(l, client, since).exposure
            && l'.sent == l.sent && l'.prices == l.prices && l'.index - {o.id} == l.index - {o.id}
  {
  }

  /** Undoing a failed hand-over restores the index exactly when no one else's order had that id. */
  lemma {:induction false} RollbackExactly(l: Ledger, cfg: Config, o: Incoming, since: nat, now: nat, room: bool)
    requires RolledBack(Judge(l, cfg, o, since, now, room))
    ensures Decide(l, cfg, o, since, now, room).index == l.index <==> o.id !in l.index
  {
  }

  /** The index knows exactly the active orders. */
  ghost predicate IndexOk(l: Ledger) {
    forall id :: id in l.index <==> exists c :: Owns(l, c, id)
  }

  ghost predicate OwnedElsewhere(l: Ledger, client: ClientId, id: nat) {
    exists c :: c != client && Owns(l, c, id)
  }

  /** A new order keeps the index exact unless its hand-over fails while another client has an active order of that id. */
  lemma {:induction false} DecideKeepsIndex(l: Ledger, cfg: Config, o: Incoming, since: nat, now: nat, room: bool)
    requires IndexOk(l)
    ensures IndexOk(Decide(l, cfg, o, since, now, room)) <==>
              !(RolledBack(Judge(l, cfg, o, since, now, room)) && OwnedElsewhere(l, o.client, o.id))
  {
    var v, l' := Judge(l, cfg, o, since, now, room), Decide(l, cfg, o, since, now, room);
    forall c, id ensures Owns(l', c, id) <==> Owns(l, c, id) || (v.Approved? && c == o.client && id == o.id) {
    }
    if v.Approved? {
      assert Owns(l', o.client, o.id);
    }
    forall id | id != o.id ensures id in l'.index <==> exists c :: Owns(l', c, id) {
      assert id in l'.index <==> id in l.index;
    }
    assert RolledBack(v) ==> !Owns(l, o.client, o.id);
  }

  lemma {:induction false} WithdrawnKeepsIndex(l: Ledger, cfg: Config, id: nat, client: ClientId, room: bool)
    requires IndexOk(l)
    ensures IndexOk(Withdrawn(l, cfg, id, client, room)) <==> !(Owns(l, client, id) && OwnedElsewhere(l, client, id))
  {
    var l' := Withdrawn(l, cfg, id, client, room);
    if Owns(l, client, id) {
      forall c, i ensures Owns(l', c, i) <==> Owns(l, c, i) && !(c == client && i == id) {
      }
      forall i | i != id ensures i in l'.index <==> exists c :: Owns(l', c, i) {
        assert i in l'.index <==> i in l.index;
      }
    }
  }
}
