/** How the flat vectors of order references represent the level book: lemmas
    about the representation that do not read the heap. */
module BookMirror {
  import opened Orders
  import opened LevelBook
  import opened FlatBook
  import opened BookRuns

  type Lookup = map<nat, Order>

  /** A stored level shows `v`: same price, cached total exact, live references found through the lookup. */
  ghost predicate LevelMirrors(l: FlatLevel, v: Level, lookup: Lookup) {
    && l.price == v.price
    && l.head + |v.orders| == |l.orders|
    && l.total == Weigh(v.orders, AnyQuantity)
    && forall j :: 0 <= j < |v.orders| ==> v.orders[j].id in lookup && l.orders[l.head + j] == lookup[v.orders[j].id]
  }

  ghost predicate Mirrors(levels: seq<FlatLevel>, ls: seq<Level>, lookup: Lookup) {
    && |levels| == |ls|
    && forall i {:trigger LevelMirrors(levels[i], ls[i], lookup)} :: 0 <= i < |ls| ==> LevelMirrors(levels[i], ls[i], lookup)
  }

  lemma {:induction false} MirrorsOrdered(side: Side, levels: seq<FlatLevel>, ls: seq<Level>, lookup: Lookup)
    requires Mirrors(levels, ls, lookup) && WellFormed(side, ls)
    ensures Ordered(side, levels)
    ensures forall i :: 0 <= i < |levels| ==> levels[i].Valid() && !levels[i].Empty()
  {
    forall i | 0 <= i < |levels| ensures levels[i].price == ls[i].price && levels[i].Valid() && !levels[i].Empty() {
      assert LevelMirrors(levels[i], ls[i], lookup) && LevelFits(side, ls[i]);
    }
  }

  // ---------- Where ids are, and are not

  lemma {:induction false} AbsentInLevel(orders: seq<Ticket>, id: nat)
    requires Weigh(orders, IdCount(id)) == 0
    ensures forall j :: 0 <= j < |orders| ==> orders[j].id != id
  {
    WeightIffPosition(orders, id);
  }

  lemma {:induction false} AbsentInBook(ls: seq<Level>, id: nat, i: nat)
    requires Weight(ls, IdCount(id)) == 0 && i < |ls|
    ensures Weigh(ls[i].orders, IdCount(id)) == 0
  {
    WeightSplit(ls, i, IdCount(id));
  }

  lemma {:induction false} AbsentElsewhere(ls: seq<Level>, id: nat, i: nat, k: nat)
    requires Weight(ls, IdCount(id)) <= 1 && i < |ls| && k < |ls| && i != k
    requires Weigh(ls[i].orders, IdCount(id)) > 0
    ensures Weigh(ls[k].orders, IdCount(id)) == 0
  {
    WeightSplit(ls, i, IdCount(id));
    if k < i {
      WeightSplit(ls[..i], k, IdCount(id));
    } else {
      WeightSplit(ls[i + 1..], k - i - 1, IdCount(id));
    }
  }

  // ---------- Changes of the lookup alone

  lemma {:induction false} LevelForgets(l: FlatLevel, v: Level, lookup: Lookup, id: nat)
    requires LevelMirrors(l, v, lookup) && Weigh(v.orders, IdCount(id)) == 0
    ensures LevelMirrors(l, v, lookup - {id})
  {
    AbsentInLevel(v.orders, id);
  }

  lemma {:induction false} MirrorsForgets(levels: seq<FlatLevel>, ls: seq<Level>, lookup: Lookup, id: nat)
    requires Mirrors(levels, ls, lookup) && Weight(ls, IdCount(id)) == 0
    ensures Mirrors(levels, ls, lookup - {id})
  {
    forall i | 0 <= i < |ls| ensures LevelMirrors(levels[i], ls[i], lookup - {id}) {
      AbsentInBook(ls, id, i);
      LevelForgets(levels[i], ls[i], lookup, id);
    }
  }

  lemma {:induction false} MirrorsLearns(levels: seq<FlatLevel>, ls: seq<Level>, lookup: Lookup, id: nat, o: Order)
    requires Mirrors(levels, ls, lookup) && id !in lookup
    ensures Mirrors(levels, ls, lookup[id := o])
  {
    forall i | 0 <= i < |ls| ensures LevelMirrors(levels[i], ls[i], lookup[id := o]) {
      assert LevelMirrors(levels[i], ls[i], lookup);
    }
  }

  // ---------- Fills at the front

  lemma {:induction false} PopMirrors(l: FlatLevel, v: Level, lookup: Lookup)
    requires LevelMirrors(l, v, lookup) && v.orders != []
    requires Weigh(v.orders, IdCount(v.orders[0].id)) <= 1
    ensures v.orders[0].quantity <= l.total
    ensures LevelMirrors(l.PopFront(v.orders[0].quantity), Level(v.price, v.orders[1..]), lookup - {v.orders[0].id})
  {
    AbsentInLevel(v.orders[1..], v.orders[0].id);
  }

  /** What the book's vector becomes when its front order is exhausted. */
  function Popped(levels: seq<FlatLevel>, filled: nat): seq<FlatLevel>
    requires levels != [] && filled <= levels[0].total
  {
    if levels[0].PopFront(filled).Empty() then levels[1..] else levels[0 := levels[0].PopFront(filled)]
  }

  lemma {:induction false} TakeMirrors(levels: seq<FlatLevel>, ls: seq<Level>, lookup: Lookup)
    requires Mirrors(levels, ls, lookup) && ls != [] && ls[0].orders != []
    requires Weight(ls, IdCount(ls[0].orders[0].id)) <= 1
    ensures ls[0].orders[0].quantity <= levels[0].total
    ensures Mirrors(Popped(levels, ls[0].orders[0].quantity), TakeHead(ls), lookup - {ls[0].orders[0].id})
  {
    var maker := ls[0].orders[0];
    assert LevelMirrors(levels[0], ls[0], lookup);
    PopMirrors(levels[0], ls[0], lookup);
    MirrorsForgets(levels[1..], ls[1..], lookup, maker.id);
    var levels', ls' := Popped(levels, maker.quantity), TakeHead(ls);
    if |ls[0].orders| > 1 {
      assert levels'[1..] == levels[1..] && ls'[1..] == ls[1..];
      assert forall i :: 1 <= i < |ls'| ==> levels'[i] == levels[1..][i - 1] && ls'[i] == ls[1..][i - 1];
    }
  }

  lemma {:induction false} ReduceMirrors(levels: seq<FlatLevel>, ls: seq<Level>, lookup: Lookup, q: nat)
    requires Mirrors(levels, ls, lookup) && ls != [] && ls[0].orders != [] && q < ls[0].orders[0].quantity
    ensures q <= levels[0].total
    ensures Mirrors(levels[0 := levels[0].ReduceQuantity(q)], ReduceHead(ls, q), lookup)
  {
    assert LevelMirrors(levels[0], ls[0], lookup);
    var levels', ls' := levels[0 := levels[0].ReduceQuantity(q)], ReduceHead(ls, q);
    assert ls'[0].orders[1..] == ls[0].orders[1..];
    assert LevelMirrors(levels'[0], ls'[0], lookup);
    assert forall i :: 1 <= i < |ls'| ==> levels'[i] == levels[i] && ls'[i] == ls[i];
  }

  // ---------- Resting an order

  /** `Insert` in terms of the lower bound of the order's price. */
  lemma {:induction false} InsertByIndex(side: Side, ls: seq<Level>, t: Ticket, k: nat)
    requires k <= |ls|
    requires forall i :: 0 <= i < k ==> Better(side, ls[i].price, t.price)
    requires forall i :: k <= i < |ls| ==> !Better(side, ls[i].price, t.price)
    ensures Insert(side, ls, t)
         == if k < |ls| && ls[k].price == t.price then ls[k := Level(t.price, ls[k].orders + [t])]
            else ls[..k] + [Level(t.price, [t])] + ls[k..]
  {
    if k > 0 {
      InsertByIndex(side, ls[1..], t, k - 1);
      FirstBefore(ls, k, Level(t.price, [t]));
      if k < |ls| {
        FirstAside(ls, k, Level(t.price, ls[k].orders + [t]));
      }
    }
  }

  lemma {:induction false} PushMirrors(l: FlatLevel, v: Level, lookup: Lookup, o: Order, t: Ticket)
    requires LevelMirrors(l, v, lookup) && t.id in lookup && lookup[t.id] == o
    ensures LevelMirrors(l.PushBack(o, t.quantity), Level(v.price, v.orders + [t]), lookup)
  {
    WeighConcat(v.orders, [t], AnyQuantity);
    WeighOne(t, AnyQuantity);
  }

  /** The vector after `find_or_insert` and `push_back` of one order. */
  function Pushed(levels: seq<FlatLevel>, k: nat, o: Order, t: Ticket): seq<FlatLevel>
    requires k <= |levels|
  {
    if Holds(levels, k, t.price) then levels[k := levels[k].PushBack(o, t.quantity)]
    else levels[..k] + [FlatLevel(t.price, 0, 0, []).PushBack(o, t.quantity)] + levels[k..]
  }

  lemma {:induction false} PushedIs(levels: seq<FlatLevel>, levels': seq<FlatLevel>, k: nat, o: Order, t: Ticket)
    requires k <= |levels|
    requires levels' == if Holds(levels, k, t.price) then levels else levels[..k] + [FlatLevel(t.price, 0, 0, [])] + levels[k..]
    ensures k < |levels'| && levels'[k := levels'[k].PushBack(o, t.quantity)] == Pushed(levels, k, o, t)
  {
  }

  lemma {:induction false} InsertMirrors(side: Side, levels: seq<FlatLevel>, ls: seq<Level>, lookup: Lookup, o: Order, t: Ticket, k: nat)
    requires Mirrors(levels, ls, lookup) && IsLowerBound(side, levels, t.price, k)
    requires t.id in lookup && lookup[t.id] == o
    ensures Mirrors(Pushed(levels, k, o, t), Insert(side, ls, t), lookup)
  {
    forall i | 0 <= i < |ls| ensures levels[i].price == ls[i].price {
      assert LevelMirrors(levels[i], ls[i], lookup);
    }
    InsertByIndex(side, ls, t, k);
    if Holds(levels, k, t.price) {
      assert LevelMirrors(levels[k], ls[k], lookup);
      PushMirrors(levels[k], ls[k], lookup, o, t);
      SetLevelMirrors(levels, ls, lookup, k, levels[k].PushBack(o, t.quantity), Level(t.price, ls[k].orders + [t]));
    } else {
      PushMirrors(FlatLevel(t.price, 0, 0, []), Level(t.price, []), lookup, o, t);
      assert [] + [t] == [t];
      AddLevelMirrors(levels, ls, lookup, k, FlatLevel(t.price, 0, 0, []).PushBack(o, t.quantity), Level(t.price, [t]));
    }
  }

  lemma {:induction false} AddLevelMirrors(levels: seq<FlatLevel>, ls: seq<Level>, lookup: Lookup, k: nat, l: FlatLevel, v: Level)
    requires Mirrors(levels, ls, lookup) && k <= |ls| && LevelMirrors(l, v, lookup)
    ensures Mirrors(levels[..k] + [l] + levels[k..], ls[..k] + [v] + ls[k..], lookup)
  {
  }

  // ---------- Taking an order out

  lemma {:induction false} RemoveByIndex(ls: seq<Level>, id: nat, i: nat, j: nat)
    requires Weight(ls, IdCount(id)) <= 1
    requires i < |ls| && j < |ls[i].orders| && ls[i].orders[j].id == id
    ensures Remove(ls, id)
         == if |ls[i].orders| == 1 then ls[..i] + ls[i + 1..]
            else ls[i := Level(ls[i].price, DropAt(ls[i].orders, j))]
  {
    if i == 0 {
      WeightSplit(ls, 0, IdCount(id));
      PositionIs(ls[0].orders, id, j);
      assert ls[0 := Level(ls[0].price, DropAt(ls[0].orders, j))][1..] == ls[1..];
    } else {
      WeighSplit(ls[i].orders, j, IdCount(id));
      AbsentElsewhere(ls, id, i, 0);
      WeightIffPosition(ls[0].orders, id);
      RemoveByIndex(ls[1..], id, i - 1, j);
      FirstAside(ls, i, Level(ls[i].price, DropAt(ls[i].orders, j)));
    }
  }

  lemma {:induction false} FirstBefore<A>(xs: seq<A>, k: nat, x: A)
    requires 0 < k <= |xs|
    ensures [xs[0]] + (xs[1..][..k - 1] + [x] + xs[1..][k - 1..]) == xs[..k] + [x] + xs[k..]
  {
    assert xs[1..][..k - 1] == xs[1..k] && xs[1..][k - 1..] == xs[k..];
    assert [xs[0]] + xs[1..k] == xs[..k];
  }

  /** Changing or dropping an element behind the first one leaves the first. */
  lemma {:induction false} FirstAside<A>(xs: seq<A>, i: nat, x: A)
    requires 0 < i < |xs|
    ensures [xs[0]] + (xs[1..][..i - 1] + xs[1..][i..]) == xs[..i] + xs[i + 1..]
    ensures [xs[0]] + xs[1..][i - 1 := x] == xs[i := x]
  {
    assert xs[1..][..i - 1] == xs[1..i] && xs[1..][i..] == xs[i + 1..];
    assert [xs[0]] + xs[1..i] == xs[..i];
  }

  lemma {:induction false} PositionIs(orders: seq<Ticket>, id: nat, j: nat)
    requires Weigh(orders, IdCount(id)) <= 1 && j < |orders| && orders[j].id == id
    ensures Position(orders, id) == j
  {
    var k := Position(orders, id);
    if k < j {
      UniquePosition(orders, id, k, j);
    }
  }

  lemma {:induction false} EraseMirrors(l: FlatLevel, v: Level, lookup: Lookup, j: nat)
    requires LevelMirrors(l, v, lookup) && j < |v.orders|
    requires Weigh(v.orders, IdCount(v.orders[j].id)) <= 1
    ensures v.orders[j].quantity <= l.total
    ensures LevelMirrors(l.Erase(l.head + j, v.orders[j].quantity), Level(v.price, DropAt(v.orders, j)), lookup - {v.orders[j].id})
  {
    var id := v.orders[j].id;
    DropAtWeight(v.orders, j, AnyQuantity);
    DropAtWeight(v.orders, j, IdCount(id));
    AbsentInLevel(DropAt(v.orders, j), id);
    var l', v' := l.Erase(l.head + j, v.orders[j].quantity), Level(v.price, DropAt(v.orders, j));
    forall n | 0 <= n < |v'.orders|
      ensures v'.orders[n].id in lookup - {id} && l'.orders[l'.head + n] == (lookup - {id})[v'.orders[n].id]
    {
      assert v'.orders[n] == v.orders[if n < j then n else n + 1];
    }
  }

  /** The vector after an order is erased from level `i`. */
  function Erased(levels: seq<FlatLevel>, i: nat, j: nat, quantity: nat): seq<FlatLevel>
    requires i < |levels| && j < |levels[i].orders| && quantity <= levels[i].total
  {
    if levels[i].Erase(j, quantity).Empty() then levels[..i] + levels[i + 1..]
    else levels[i := levels[i].Erase(j, quantity)]
  }

  lemma {:induction false} RemoveMirrors(levels: seq<FlatLevel>, ls: seq<Level>, lookup: Lookup, i: nat, j: nat)
    requires Mirrors(levels, ls, lookup) && i < |ls| && j < |ls[i].orders|
    requires Weight(ls, IdCount(ls[i].orders[j].id)) <= 1
    ensures levels[i].head + j < |levels[i].orders| && ls[i].orders[j].quantity <= levels[i].total
    ensures Mirrors(Erased(levels, i, levels[i].head + j, ls[i].orders[j].quantity),
                    Remove(ls, ls[i].orders[j].id), lookup - {ls[i].orders[j].id})
  {
    var t := ls[i].orders[j];
    assert LevelMirrors(levels[i], ls[i], lookup);
    WeightSplit(ls, i, IdCount(t.id));
    WeighSplit(ls[i].orders, j, IdCount(t.id));
    EraseMirrors(levels[i], ls[i], lookup, j);
    RemoveByIndex(ls, t.id, i, j);
    OthersForget(levels, ls, lookup, i, t.id);
    if |ls[i].orders| == 1 {
      DropLevelMirrors(levels, ls, lookup - {t.id}, i);
    } else {
      SetLevelMirrors(levels, ls, lookup - {t.id}, i, levels[i].Erase(levels[i].head + j, t.quantity),
                      Level(ls[i].price, DropAt(ls[i].orders, j)));
    }
  }

  lemma {:induction false} DropLevelMirrors(levels: seq<FlatLevel>, ls: seq<Level>, lookup: Lookup, i: nat)
    requires |levels| == |ls| && i < |ls|
    requires forall n :: 0 <= n < |ls| && n != i ==> LevelMirrors(levels[n], ls[n], lookup)
    ensures Mirrors(levels[..i] + levels[i + 1..], ls[..i] + ls[i + 1..], lookup)
  {
  }

  lemma {:induction false} SetLevelMirrors(levels: seq<FlatLevel>, ls: seq<Level>, lookup: Lookup, i: nat, l: FlatLevel, v: Level)
    requires |levels| == |ls| && i < |ls| && LevelMirrors(l, v, lookup)
    requires forall n :: 0 <= n < |ls| && n != i ==> LevelMirrors(levels[n], ls[n], lookup)
    ensures Mirrors(levels[i := l], ls[i := v], lookup)
  {
  }

  lemma {:induction false} OthersForget(levels: seq<FlatLevel>, ls: seq<Level>, lookup: Lookup, i: nat, id: nat)
    requires Mirrors(levels, ls, lookup) && i < |ls|
    requires Weight(ls, IdCount(id)) <= 1 && Weigh(ls[i].orders, IdCount(id)) > 0
    ensures forall n :: 0 <= n < |ls| && n != i ==> LevelMirrors(levels[n], ls[n], lookup - {id})
  {
    forall n | 0 <= n < |ls| && n != i ensures LevelMirrors(levels[n], ls[n], lookup - {id}) {
      AbsentElsewhere(ls, id, i, n);
      LevelForgets(levels[n], ls[n], lookup, id);
    }
  }

  // ---------- Compaction

  lemma {:induction false} CompactMirrors(levels: seq<FlatLevel>, levels': seq<FlatLevel>, ls: seq<Level>, lookup: Lookup)
    requires Mirrors(levels, ls, lookup) && |levels'| == |levels|
    requires forall i :: 0 <= i < |levels| ==> SameLive(levels'[i], levels[i])
    ensures Mirrors(levels', ls, lookup)
  {
    forall i | 0 <= i < |ls| ensures LevelMirrors(levels'[i], ls[i], lookup) {
      assert LevelMirrors(levels[i], ls[i], lookup) && SameLive(levels'[i], levels[i]);
      assert forall j :: 0 <= j < |ls[i].orders| ==>
        levels'[i].orders[levels'[i].head + j] == levels'[i].Live()[j] && levels[i].orders[levels[i].head + j] == levels[i].Live()[j];
    }
  }
}
