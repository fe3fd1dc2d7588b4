/** What one sweep of the opposite side guarantees: where it stops, what it
    prints, and that it neither creates nor destroys quantity. */
module Matching {
  import opened Orders
  import opened LevelBook

  function Volume(trades: seq<Trade>): nat {
    if trades == [] then 0 else trades[0].quantity + Volume(trades[1..])
  }

  /** What the order `id` bought or sold in one trade, and in a sequence of trades. */
  function Share(t: Trade, id: nat): nat {
    (if t.buyId == id then t.quantity else 0) + (if t.sellId == id then t.quantity else 0)
  }

  function Traded(trades: seq<Trade>, id: nat): nat {
    if trades == [] then 0 else Share(trades[0], id) + Traded(trades[1..], id)
  }

  lemma {:induction false} TradedConcat(a: seq<Trade>, b: seq<Trade>, id: nat)
    ensures Traded(a + b, id) == Traded(a, id) + Traded(b, id)
  {
    if a == [] {
      assert a + b == b;
    } else {
      TradedConcat(a[1..], b, id);
      assert (a + b)[1..] == a[1..] + b;
    }
  }

  /** The passive order of a trade is the one on the taker's opposite side. */
  function MakerId(taker: Ticket, t: Trade): nat {
    if taker.side.Buy? then t.sellId else t.buyId
  }

  function TakerId(taker: Ticket, t: Trade): nat {
    if taker.side.Buy? then t.buyId else t.sellId
  }

  // ---------- Unfolding one fill

  lemma {:induction false} AfterFillBest(side: Side, ls: seq<Level>, taker: Ticket)
    requires WellFormed(side, ls) && ls != [] && ls[0].orders != []
    ensures AfterFill(ls, taker) != [] ==> !Better(side, AfterFill(ls, taker)[0].price, ls[0].price)
  {
  }

  lemma {:induction false} AfterFillWeight(ls: seq<Level>, taker: Ticket, f: Measure)
    requires ls != [] && ls[0].orders != []
    ensures var maker, q := ls[0].orders[0], FillQuantity(ls, taker);
            Weight(AfterFill(ls, taker), f) + f.Of(maker)
            == Weight(ls, f) + if q == maker.quantity then 0 else f.Of(Reduce(maker, q))
  {
    if FillQuantity(ls, taker) == ls[0].orders[0].quantity {
      TakeHeadWeight(ls, f);
    } else {
      ReduceHeadWeight(ls, FillQuantity(ls, taker), f);
    }
  }

  // ---------- Whole sweeps

  /** A sweep keeps the side well formed and stops exactly when the taker is
      exhausted or nothing left crosses it; the best price only moves away. */
  lemma {:induction false} SweepStops(side: Side, ls: seq<Level>, taker: Ticket, tradeId: nat)
    requires WellFormed(side, ls)
    ensures var s := Sweep(side, ls, taker, tradeId);
            && WellFormed(side, s.levels)
            && !Matchable(s.levels, s.taker)
            && s.taker == taker.(quantity := s.taker.quantity)
            && s.taker.quantity <= taker.quantity
            && (s.levels != [] ==> ls != [] && !Better(side, s.levels[0].price, ls[0].price))
    decreases taker.quantity
  {
    if Matchable(ls, taker) {
      FillKeepsFit(side, ls, taker);
      AfterFillBest(side, ls, taker);
      SweepStops(side, AfterFill(ls, taker), Reduce(taker, FillQuantity(ls, taker)), tradeId + 1);
    }
  }

  /** Every trade has positive quantity, at a price the taker accepts, under consecutive ids. */
  lemma {:induction false} SweepPrints(side: Side, ls: seq<Level>, taker: Ticket, tradeId: nat, i: nat)
    requires WellFormed(side, ls)
    requires i < |Sweep(side, ls, taker, tradeId).trades|
    ensures var t := Sweep(side, ls, taker, tradeId).trades[i];
            && t.id == tradeId + i
            && t.quantity > 0
            && TakerId(taker, t) == taker.id
            && Crosses(taker, t.price)
    decreases taker.quantity
  {
    FillKeepsFit(side, ls, taker);
    if i > 0 {
      SweepPrints(side, AfterFill(ls, taker), Reduce(taker, FillQuantity(ls, taker)), tradeId + 1, i - 1);
    }
  }

  /** A sweep that can match makes one fill and goes on. */
  lemma {:induction false} SweepUnfold(side: Side, ls: seq<Level>, taker: Ticket, tradeId: nat)
    requires WellFormed(side, ls) && Matchable(ls, taker)
    ensures ls[0].orders != [] && 0 < FillQuantity(ls, taker) <= taker.quantity && WellFormed(side, AfterFill(ls, taker))
    ensures var rest := Sweep(side, AfterFill(ls, taker), Reduce(taker, FillQuantity(ls, taker)), tradeId + 1);
            Sweep(side, ls, taker, tradeId) == rest.(trades := [FillTrade(ls, taker, tradeId)] + rest.trades)
  {
    FillKeepsFit(side, ls, taker);
  }

  lemma {:induction false} SweepMatches(side: Side, ls: seq<Level>, taker: Ticket, tradeId: nat)
    requires WellFormed(side, ls) && Sweep(side, ls, taker, tradeId).trades != []
    ensures Matchable(ls, taker)
  {
  }

  /** No trade beats the best price the sweep started from. */
  lemma {:induction false} SweepWithinBest(side: Side, ls: seq<Level>, taker: Ticket, tradeId: nat, i: nat)
    requires WellFormed(side, ls)
    requires i < |Sweep(side, ls, taker, tradeId).trades|
    ensures ls != [] && !Better(side, Sweep(side, ls, taker, tradeId).trades[i].price, ls[0].price)
    decreases taker.quantity
  {
    SweepMatches(side, ls, taker, tradeId);
    SweepUnfold(side, ls, taker, tradeId);
    AfterFillBest(side, ls, taker);
    if i > 0 {
      SweepWithinBest(side, AfterFill(ls, taker), Reduce(taker, FillQuantity(ls, taker)), tradeId + 1, i - 1);
    }
  }

  ghost predicate NoneBetter(side: Side, trades: seq<Trade>, price: nat) {
    forall k :: 0 <= k < |trades| ==> !Better(side, trades[k].price, price)
  }

  ghost predicate Worsening(side: Side, trades: seq<Trade>) {
    forall i, j :: 0 <= i < j < |trades| ==> !Better(side, trades[j].price, trades[i].price)
  }

  lemma {:induction false} WorseningCons(side: Side, trades: seq<Trade>, first: Trade, rest: seq<Trade>)
    requires trades == [first] + rest && Worsening(side, rest) && NoneBetter(side, trades, first.price)
    ensures Worsening(side, trades)
  {
  }

  lemma {:induction false} SweepNoneBetter(side: Side, ls: seq<Level>, taker: Ticket, tradeId: nat, price: nat)
    requires WellFormed(side, ls) && ls != [] && price == ls[0].price
    ensures NoneBetter(side, Sweep(side, ls, taker, tradeId).trades, price)
  {
    var trades := Sweep(side, ls, taker, tradeId).trades;
    forall k | 0 <= k < |trades| ensures !Better(side, trades[k].price, price) {
      SweepWithinBest(side, ls, taker, tradeId, k);
    }
  }

  /** Trade prices never improve during a sweep. */
  lemma {:induction false} SweepPricesWorsen(side: Side, ls: seq<Level>, taker: Ticket, tradeId: nat)
    requires WellFormed(side, ls)
    ensures Worsening(side, Sweep(side, ls, taker, tradeId).trades)
    decreases taker.quantity
  {
    if Matchable(ls, taker) {
      SweepUnfold(side, ls, taker, tradeId);
      var ls', taker' := AfterFill(ls, taker), Reduce(taker, FillQuantity(ls, taker));
      SweepPricesWorsen(side, ls', taker', tradeId + 1);
      SweepNoneBetter(side, ls, taker, tradeId, ls[0].price);
      WorseningCons(side, Sweep(side, ls, taker, tradeId).trades, FillTrade(ls, taker, tradeId),
                    Sweep(side, ls', taker', tradeId + 1).trades);
    }
  }

  /** Limit protection: a limit buyer never pays more than the limit, a limit seller never gets less. */
  lemma {:induction false} SweepWithinLimit(side: Side, ls: seq<Level>, taker: Ticket, tradeId: nat, i: nat)
    requires WellFormed(side, ls) && taker.kind.Limit?
    requires i < |Sweep(side, ls, taker, tradeId).trades|
    ensures var price := Sweep(side, ls, taker, tradeId).trades[i].price;
            (taker.side.Buy? ==> price <= taker.price) && (taker.side.Sell? ==> price >= taker.price)
  {
    SweepPrints(side, ls, taker, tradeId, i);
  }

  /** The passive order of every trade stems from an order given, rested on the swept side and at the trade's price. */
  lemma {:induction false} SweepMaker(side: Side, ls: seq<Level>, taker: Ticket, tradeId: nat, i: nat, origins: set<Ticket>)
      returns (maker: Ticket)
    requires WellFormed(side, ls) && Weight(ls, Stray(origins)) == 0
    requires i < |Sweep(side, ls, taker, tradeId).trades|
    ensures var t := Sweep(side, ls, taker, tradeId).trades[i];
            maker in origins && maker.side == side && maker.id == MakerId(taker, t) && maker.price == t.price
    decreases taker.quantity
  {
    FillKeepsFit(side, ls, taker);
    AfterFillWeight(ls, taker, Stray(origins));
    if i > 0 {
      maker := SweepMaker(side, AfterFill(ls, taker), Reduce(taker, FillQuantity(ls, taker)), tradeId + 1, i - 1, origins);
    } else {
      maker := Stem(ls[0].orders[0]);
      WeightSplit(ls, 0, Stray(origins));
      WeighSplit(ls[0].orders, 0, Stray(origins));
      assert LevelFits(side, ls[0]);
      assert OrderFits(side, ls[0].price, ls[0].orders[0]);
    }
  }

  /** Every trade prints at the price of a passive order that rested on the swept side. */
  lemma {:induction false} SweepAtMakerPrice(side: Side, ls: seq<Level>, taker: Ticket, tradeId: nat, i: nat)
    requires WellFormed(side, ls)
    requires i < |Sweep(side, ls, taker, tradeId).trades|
    ensures var t := Sweep(side, ls, taker, tradeId).trades[i];
            Weight(ls, IdAtPrice(MakerId(taker, t), t.price)) > 0
    decreases taker.quantity
  {
    FillKeepsFit(side, ls, taker);
    var t := Sweep(side, ls, taker, tradeId).trades[i];
    var f := IdAtPrice(MakerId(taker, t), t.price);
    AfterFillWeight(ls, taker, f);
    assert LevelFits(side, ls[0]);
    assert OrderFits(side, ls[0].price, ls[0].orders[0]);
    if i > 0 {
      SweepAtMakerPrice(side, AfterFill(ls, taker), Reduce(taker, FillQuantity(ls, taker)), tradeId + 1, i - 1);
    }
  }

  /** Per order id: what the taker and the swept side held before is what they
      hold afterwards plus what the trades moved. */
  lemma {:induction false} SweepConserves(side: Side, ls: seq<Level>, taker: Ticket, tradeId: nat, id: nat)
    requires WellFormed(side, ls)
    ensures var s, f := Sweep(side, ls, taker, tradeId), IdQuantity(id);
            Weight(ls, f) + f.Of(taker) == Weight(s.levels, f) + f.Of(s.taker) + Traded(s.trades, id)
    decreases taker.quantity
  {
    if Matchable(ls, taker) {
      FillKeepsFit(side, ls, taker);
      AfterFillWeight(ls, taker, IdQuantity(id));
      var ls', taker' := AfterFill(ls, taker), Reduce(taker, FillQuantity(ls, taker));
      SweepConserves(side, ls', taker', tradeId + 1, id);
      assert Sweep(side, ls, taker, tradeId).trades[1..] == Sweep(side, ls', taker', tradeId + 1).trades;
    }
  }

  /** The swept side and the taker each lose exactly the traded volume. */
  lemma {:induction false} SweepVolume(side: Side, ls: seq<Level>, taker: Ticket, tradeId: nat)
    requires WellFormed(side, ls)
    ensures var s := Sweep(side, ls, taker, tradeId);
            && Weight(ls, AnyQuantity) == Weight(s.levels, AnyQuantity) + Volume(s.trades)
            && taker.quantity == s.taker.quantity + Volume(s.trades)
    decreases taker.quantity
  {
    if Matchable(ls, taker) {
      FillKeepsFit(side, ls, taker);
      AfterFillWeight(ls, taker, AnyQuantity);
      var ls', taker' := AfterFill(ls, taker), Reduce(taker, FillQuantity(ls, taker));
      SweepVolume(side, ls', taker', tradeId + 1);
      assert Sweep(side, ls, taker, tradeId).trades[1..] == Sweep(side, ls', taker', tradeId + 1).trades;
    }
  }

  /** A sweep puts no order id on the book. */
  lemma {:induction false} SweepAddsNoId(side: Side, ls: seq<Level>, taker: Ticket, tradeId: nat, id: nat)
    requires WellFormed(side, ls)
    ensures Weight(Sweep(side, ls, taker, tradeId).levels, IdCount(id)) <= Weight(ls, IdCount(id))
    decreases taker.quantity
  {
    if Matchable(ls, taker) {
      FillKeepsFit(side, ls, taker);
      AfterFillWeight(ls, taker, IdCount(id));
      SweepAddsNoId(side, AfterFill(ls, taker), Reduce(taker, FillQuantity(ls, taker)), tradeId + 1, id);
    }
  }

  /** Each fill but the last removes a resting order, so a sweep prints at most one trade more than it removes. */
  lemma {:induction false} SweepTerminates(side: Side, ls: seq<Level>, taker: Ticket, tradeId: nat)
    requires WellFormed(side, ls)
    ensures var s := Sweep(side, ls, taker, tradeId);
            Weight(s.levels, AnyCount) + |s.trades| <= Weight(ls, AnyCount) + (if s.taker.quantity == 0 then 1 else 0)
    decreases taker.quantity
  {
    if Matchable(ls, taker) {
      FillKeepsFit(side, ls, taker);
      AfterFillWeight(ls, taker, AnyCount);
      var ls', taker' := AfterFill(ls, taker), Reduce(taker, FillQuantity(ls, taker));
      SweepTerminates(side, ls', taker', tradeId + 1);
    }
  }
}
