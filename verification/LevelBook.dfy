/** The order book as two sequences of price levels, best price first, each
    level a first-in first-out queue: the specification of `FlatPriceBook` and
    of the sweeps of `OrderBook`. */
module LevelBook {
  import opened Orders

  datatype Level = Level(price: nat, orders: seq<Ticket>)

  // ---------- Well-formed sides

  predicate OrderFits(side: Side, price: nat, t: Ticket) {
    t.quantity > 0 && t.price == price && t.side == side
  }

  ghost predicate LevelFits(side: Side, l: Level) {
    && l.orders != []
    && forall j :: 0 <= j < |l.orders| ==> OrderFits(side, l.price, l.orders[j])
  }

  ghost predicate Ascending(side: Side, ls: seq<Level>) {
    forall i, j :: 0 <= i < j < |ls| ==> Better(side, ls[i].price, ls[j].price)
  }

  /** Strictly sorted by price, no empty level, every order live and at its own price. */
  ghost predicate WellFormed(side: Side, ls: seq<Level>) {
    && Ascending(side, ls)
    && forall i :: 0 <= i < |ls| ==> LevelFits(side, ls[i])
  }

  // ---------- Weights over a side

  function Weight(ls: seq<Level>, f: Measure): nat {
    if ls == [] then 0 else Weigh(ls[0].orders, f) + Weight(ls[1..], f)
  }

  lemma {:induction false} WeightConcat(a: seq<Level>, b: seq<Level>, f: Measure)
    ensures Weight(a + b, f) == Weight(a, f) + Weight(b, f)
  {
    if a == [] {
      assert a + b == b;
    } else {
      WeightConcat(a[1..], b, f);
      assert (a + b)[1..] == a[1..] + b;
    }
  }

  lemma {:induction false} WeightSplit(ls: seq<Level>, i: nat, f: Measure)
    requires i < |ls|
    ensures Weight(ls, f) == Weight(ls[..i], f) + Weigh(ls[i].orders, f) + Weight(ls[i + 1..], f)
  {
    assert ls == ls[..i] + ls[i..];
    WeightConcat(ls[..i], ls[i..], f);
    assert ls[i..][1..] == ls[i + 1..];
  }

  // ---------- The front of the queue

  function TakeHead(ls: seq<Level>): seq<Level>
    requires ls != [] && ls[0].orders != []
  {
    if |ls[0].orders| == 1 then ls[1..]
    else [Level(ls[0].price, ls[0].orders[1..])] + ls[1..]
  }

  function ReduceHead(ls: seq<Level>, quantity: nat): seq<Level>
    requires ls != [] && ls[0].orders != [] && quantity <= ls[0].orders[0].quantity
  {
    [Level(ls[0].price, [Reduce(ls[0].orders[0], quantity)] + ls[0].orders[1..])] + ls[1..]
  }

  lemma {:induction false} TakeHeadFits(side: Side, ls: seq<Level>)
    requires WellFormed(side, ls) && ls != []
    ensures WellFormed(side, TakeHead(ls))
  {
  }

  lemma {:induction false} ReduceHeadFits(side: Side, ls: seq<Level>, quantity: nat)
    requires WellFormed(side, ls) && ls != []
    requires quantity < ls[0].orders[0].quantity
    ensures WellFormed(side, ReduceHead(ls, quantity))
  {
  }

  lemma {:induction false} TakeHeadWeight(ls: seq<Level>, f: Measure)
    requires ls != [] && ls[0].orders != []
    ensures Weight(TakeHead(ls), f) + f.Of(ls[0].orders[0]) == Weight(ls, f)
  {
    if |ls[0].orders| > 1 {
      assert TakeHead(ls)[1..] == ls[1..];
    } else {
      assert ls[0].orders == [ls[0].orders[0]];
      WeighOne(ls[0].orders[0], f);
    }
  }

  lemma {:induction false} ReduceHeadWeight(ls: seq<Level>, quantity: nat, f: Measure)
    requires ls != [] && ls[0].orders != [] && quantity <= ls[0].orders[0].quantity
    ensures Weight(ReduceHead(ls, quantity), f) + f.Of(ls[0].orders[0])
         == Weight(ls, f) + f.Of(Reduce(ls[0].orders[0], quantity))
  {
  }

  // ---------- Matching

  datatype Swept = Swept(levels: seq<Level>, taker: Ticket, trades: seq<Trade>)

  predicate Matchable(ls: seq<Level>, taker: Ticket) {
    taker.quantity > 0 && ls != [] && Crosses(taker, ls[0].price)
  }

  /** One fill: the front order trades, leaving the book when exhausted. */
  function FillQuantity(ls: seq<Level>, taker: Ticket): nat
    requires ls != [] && ls[0].orders != []
  {
    Min(taker.quantity, ls[0].orders[0].quantity)
  }

  function AfterFill(ls: seq<Level>, taker: Ticket): seq<Level>
    requires ls != [] && ls[0].orders != []
  {
    var q := FillQuantity(ls, taker);
    if q == ls[0].orders[0].quantity then TakeHead(ls) else ReduceHead(ls, q)
  }

  function FillTrade(ls: seq<Level>, taker: Ticket, tradeId: nat): Trade
    requires ls != [] && ls[0].orders != []
  {
    MakeTrade(tradeId, taker, ls[0].orders[0], FillQuantity(ls, taker), ls[0].price)
  }

  lemma {:induction false} FillKeepsFit(side: Side, ls: seq<Level>, taker: Ticket)
    requires WellFormed(side, ls) && Matchable(ls, taker)
    ensures ls[0].orders != []
    ensures 0 < FillQuantity(ls, taker) <= taker.quantity
    ensures WellFormed(side, AfterFill(ls, taker))
  {
  }

  /** Fill against the front of the opposite side until the taker is exhausted or no longer crosses. */
  ghost function Sweep(side: Side, ls: seq<Level>, taker: Ticket, tradeId: nat): Swept
    requires WellFormed(side, ls)
    decreases taker.quantity
  {
    if !Matchable(ls, taker) then Swept(ls, taker, [])
    else
      FillKeepsFit(side, ls, taker);
      var rest := Sweep(side, AfterFill(ls, taker), Reduce(taker, FillQuantity(ls, taker)), tradeId + 1);
      rest.(trades := [FillTrade(ls, taker, tradeId)] + rest.trades)
  }

  // ---------- Resting and removing

  /** Append to the level at the order's price, creating it in sorted position. */
  function Insert(side: Side, ls: seq<Level>, t: Ticket): seq<Level> {
    if ls == [] || Better(side, t.price, ls[0].price) then [Level(t.price, [t])] + ls
    else if ls[0].price == t.price then [Level(t.price, ls[0].orders + [t])] + ls[1..]
    else [ls[0]] + Insert(side, ls[1..], t)
  }

  /** Remove the order with this id, together with its level if that empties. */
  function Remove(ls: seq<Level>, id: nat): seq<Level> {
    if ls == [] then []
    else if Position(ls[0].orders, id) < |ls[0].orders| then
      if |ls[0].orders| == 1 then ls[1..]
      else [Level(ls[0].price, Without(ls[0].orders, id))] + ls[1..]
    else [ls[0]] + Remove(ls[1..], id)
  }

  lemma {:induction false} TailFits(side: Side, ls: seq<Level>)
    requires WellFormed(side, ls) && ls != []
    ensures WellFormed(side, ls[1..])
  {
  }

  lemma {:induction false} BestFirst(side: Side, ls: seq<Level>, i: nat)
    requires WellFormed(side, ls) && i < |ls|
    ensures ls[i].price == ls[0].price || Better(side, ls[0].price, ls[i].price)
  {
  }

  /** A level put in front of a well-formed side that it is better than. */
  lemma {:induction false} ConsFits(side: Side, l: Level, ls: seq<Level>)
    requires WellFormed(side, ls) && LevelFits(side, l)
    requires ls != [] ==> Better(side, l.price, ls[0].price)
    ensures WellFormed(side, [l] + ls)
  {
  }

  lemma {:induction false} InsertFits(side: Side, ls: seq<Level>, t: Ticket)
    requires WellFormed(side, ls) && t.quantity > 0 && t.side == side
    ensures WellFormed(side, Insert(side, ls, t))
    ensures Insert(side, ls, t) != []
    ensures Insert(side, ls, t)[0].price == if ls == [] || Better(side, t.price, ls[0].price) then t.price else ls[0].price
  {
    if ls == [] || Better(side, t.price, ls[0].price) {
      ConsFits(side, Level(t.price, [t]), ls);
    } else {
      TailFits(side, ls);
      assert LevelFits(side, ls[0]);
      if ls[0].price == t.price {
        ConsFits(side, Level(t.price, ls[0].orders + [t]), ls[1..]);
      } else {
        InsertFits(side, ls[1..], t);
        ConsFits(side, ls[0], Insert(side, ls[1..], t));
      }
    }
  }

  lemma {:induction false} InsertWeight(side: Side, ls: seq<Level>, t: Ticket, f: Measure)
    ensures Weight(Insert(side, ls, t), f) == Weight(ls, f) + f.Of(t)
  {
    var ls' := Insert(side, ls, t);
    WeighOne(t, f);
    if ls == [] || Better(side, t.price, ls[0].price) {
      assert ls'[1..] == ls;
    } else if ls[0].price == t.price {
      WeighConcat(ls[0].orders, [t], f);
      assert ls'[1..] == ls[1..];
    } else {
      InsertWeight(side, ls[1..], t, f);
      assert ls'[1..] == Insert(side, ls[1..], t);
    }
  }

  lemma {:induction false} WithoutFits(side: Side, l: Level, id: nat)
    requires LevelFits(side, l) && |l.orders| > 1
    requires Position(l.orders, id) < |l.orders|
    ensures LevelFits(side, Level(l.price, Without(l.orders, id)))
  {
  }

  lemma {:induction false} RemoveFits(side: Side, ls: seq<Level>, id: nat)
    requires WellFormed(side, ls)
    ensures WellFormed(side, Remove(ls, id))
    ensures Remove(ls, id) != [] ==> ls != [] && !Better(side, Remove(ls, id)[0].price, ls[0].price)
  {
    if ls != [] {
      TailFits(side, ls);
      assert LevelFits(side, ls[0]);
      var k := Position(ls[0].orders, id);
      if k < |ls[0].orders| {
        if |ls[0].orders| > 1 {
          WithoutFits(side, ls[0], id);
          ConsFits(side, Level(ls[0].price, Without(ls[0].orders, id)), ls[1..]);
        }
      } else {
        RemoveFits(side, ls[1..], id);
        ConsFits(side, ls[0], Remove(ls[1..], id));
      }
    }
  }

  /** The resting order with this id; meaningful when the id rests on this side. */
  function Find(ls: seq<Level>, id: nat): Ticket
    requires Weight(ls, IdCount(id)) > 0
  {
    WeightIffPosition(ls[0].orders, id);
    var k := Position(ls[0].orders, id);
    if k < |ls[0].orders| then ls[0].orders[k] else Find(ls[1..], id)
  }

  lemma {:induction false} RemoveWeight(ls: seq<Level>, id: nat, f: Measure)
    requires Weight(ls, IdCount(id)) > 0
    ensures Find(ls, id).id == id
    ensures Weight(Remove(ls, id), f) + f.Of(Find(ls, id)) == Weight(ls, f)
  {
    WeightIffPosition(ls[0].orders, id);
    var k := Position(ls[0].orders, id);
    if k < |ls[0].orders| {
      DropAtWeight(ls[0].orders, k, f);
      if |ls[0].orders| > 1 {
        assert Remove(ls, id)[1..] == ls[1..];
      } else {
        assert DropAt(ls[0].orders, k) == [];
      }
    } else {
      RemoveWeight(ls[1..], id, f);
      assert Remove(ls, id)[1..] == Remove(ls[1..], id);
    }
  }
}
