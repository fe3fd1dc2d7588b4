/** The representation of the book as one relation between values: level book,
    stored vectors, lookup, and the contents of the referenced slots; kept by
    fills, by resting and by cancelling. */
module BookCoherence {
  import opened Orders
  import opened LevelBook
  import opened Matching
  import opened FlatBook
  import opened BookRuns
  import opened BookMirror
  import opened Sequences

  // ---------- Which ticket an id stands for

  lemma {:induction false} WeighPair(orders: seq<Ticket>, t: Ticket, u: Ticket)
    requires t != u && t.id == u.id
    ensures Weigh(orders, Exactly(t)) + Weigh(orders, Exactly(u)) <= Weigh(orders, IdCount(t.id))
  {
    if orders != [] {
      WeighPair(orders[1..], t, u);
    }
  }

  lemma {:induction false} WeightPair(ls: seq<Level>, t: Ticket, u: Ticket)
    requires t != u && t.id == u.id
    ensures Weight(ls, Exactly(t)) + Weight(ls, Exactly(u)) <= Weight(ls, IdCount(t.id))
  {
    if ls != [] {
      WeighPair(ls[0].orders, t, u);
      WeightPair(ls[1..], t, u);
    }
  }

  /** With unique ids, two resting tickets under one id are the same ticket. */
  lemma {:induction false} SameTicket(b: Book, t: Ticket, u: Ticket)
    requires UniqueIds(b) && t.id == u.id
    requires Total(b, Exactly(t)) > 0 && Total(b, Exactly(u)) > 0
    ensures t == u
  {
    assert Occurrences(b, t.id) <= 1;
    if t != u {
      WeightPair(b.bids, t, u);
      WeightPair(b.asks, t, u);
    }
  }

  lemma {:induction false} OccursAt(ls: seq<Level>, i: nat, j: nat)
    requires i < |ls| && j < |ls[i].orders|
    ensures Weight(ls, Exactly(ls[i].orders[j])) > 0
    ensures Weight(ls, IdCount(ls[i].orders[j].id)) > 0
  {
    var t := ls[i].orders[j];
    WeightSplit(ls, i, Exactly(t));
    WeighSplit(ls[i].orders, j, Exactly(t));
    WeightSplit(ls, i, IdCount(t.id));
    WeighSplit(ls[i].orders, j, IdCount(t.id));
  }

  // ---------- The whole representation, as a relation between values

  ghost predicate Registered(b: Book, known: Lookup) {
    forall id {:trigger Occurrences(b, id)} :: id in known <==> Occurrences(b, id) > 0
  }

  /** What each slot contains is a ticket resting in the book under the slot's id. */
  ghost predicate Agrees(b: Book, contents: map<nat, Ticket>) {
    && (forall id :: id in contents ==> contents[id].id == id)
    && (forall id {:trigger Total(b, Exactly(contents[id]))} :: id in contents ==> Total(b, Exactly(contents[id])) > 0)
  }

  /** `levels` and `other` are the stored vectors of `side` and of its opposite. */
  ghost predicate Coherent(b: Book, side: Side, levels: seq<FlatLevel>, other: seq<FlatLevel>, known: Lookup, contents: map<nat, Ticket>) {
    && Fits(b) && UniqueIds(b)
    && Mirrors(levels, Levels(b, side), known) && Mirrors(other, Levels(b, Opposite(side)), known)
    && Registered(b, known)
    && contents.Keys == known.Keys && Agrees(b, contents)
  }

  /** The tickets the known slots contain at present. */
  ghost function Contents(known: Lookup): map<nat, Ticket>
    reads known.Values
  {
    map id | id in known :: known[id].AsTicket()
  }

  lemma {:induction false} ContentsAre(known: Lookup, contents: map<nat, Ticket>)
    requires known.Keys == contents.Keys && forall id :: id in known ==> known[id].AsTicket() == contents[id]
    ensures Contents(known) == contents
  {
  }

  lemma {:induction false} ContentsLearn(known: Lookup, o: Order)
    requires o.id in known && known[o.id] == o
    ensures known == (known - {o.id})[o.id := o] && Contents(known) == Contents(known - {o.id})[o.id := o.AsTicket()]
  {
  }

  /** A slot entering the lookup under a new id, and one leaving it. */
  lemma {:induction false} LookupLearns(known: Lookup, o: Order)
    requires o.id !in known
    ensures known[o.id := o] - {o.id} == known && known[o.id := o].Values == known.Values + {o}
    ensures Contents(known[o.id := o] - {o.id}) == Contents(known)
  {
    var known' := known[o.id := o];
    assert known'[o.id] == o;
    forall x | x in known.Values ensures x in known'.Values {
      var id :| id in known && known[id] == x;
      assert known'[id] == x;
    }
    assert known' - {o.id} == known;
  }

  lemma {:induction false} LookupForgets(known: Lookup, id: nat)
    requires id in known && known[id] !in (known - {id}).Values
    ensures (known - {id}).Values == known.Values - {known[id]}
    ensures known[id] in known.Values
  {
    forall x | x in known.Values && x != known[id] ensures x in (known - {id}).Values {
      var k :| k in known && known[k] == x;
      assert k in known - {id};
    }
  }

  /** Different ids name different slots. */
  ghost predicate Injective(known: Lookup) {
    forall x, y :: x in known && y in known && x != y ==> known[x] != known[y]
  }

  lemma {:induction false} InjectiveSize(known: Lookup)
    requires Injective(known)
    ensures |known.Keys| <= |known.Values|
    decreases |known|
  {
    if known.Keys != {} {
      var id :| id in known.Keys;
      LookupForgets(known, id);
      InjectiveSize(known - {id});
      assert (known - {id}).Keys == known.Keys - {id};
    }
  }

  lemma {:induction false} SubsetSize<T>(a: set<T>, b: set<T>)
    requires a <= b
    ensures |a| <= |b|
  {
    if a != {} {
      var x :| x in a;
      SubsetSize(a - {x}, b - {x});
    }
  }

  /** The best level as stored and as represented. */
  lemma {:induction false} BestMirrors(levels: seq<FlatLevel>, ls: seq<Level>, lookup: Lookup)
    requires Mirrors(levels, ls, lookup)
    ensures levels == [] <==> ls == []
    ensures ls != [] ==> levels[0].price == ls[0].price && levels[0].total == Weigh(ls[0].orders, AnyQuantity)
  {
    assert ls != [] ==> LevelMirrors(levels[0], ls[0], lookup);
  }

  lemma {:induction false} ForgetBoth(m: Lookup, a: nat, b: nat)
    ensures m - {a} - {b} == m - {b} - {a}
  {
  }

  // ---------- One fill, as a change of the whole book

  function FilledBook(b: Book, side: Side, taker: Ticket): Book
    requires Levels(b, side) != [] && Levels(b, side)[0].orders != []
  {
    WithLevels(b, side, AfterFill(Levels(b, side), taker)).(nextTradeId := b.nextTradeId + 1)
  }

  function Front(b: Book, side: Side): Ticket
    requires Levels(b, side) != [] && Levels(b, side)[0].orders != []
  {
    Levels(b, side)[0].orders[0]
  }

  lemma {:induction false} FilledBookFits(b: Book, side: Side, taker: Ticket)
    requires Fits(b) && UniqueIds(b) && Matchable(Levels(b, side), taker)
    ensures Levels(b, side)[0].orders != []
    ensures Fits(FilledBook(b, side, taker)) && UniqueIds(FilledBook(b, side, taker))
  {
    var ls := Levels(b, side);
    FillKeepsFit(side, ls, taker);
    forall id ensures Occurrences(FilledBook(b, side, taker), id) <= 1 {
      AfterFillWeight(ls, taker, IdCount(id));
      assert Occurrences(b, id) <= 1;
    }
  }

  /** A fill changes the share of the front order's id only. */
  lemma {:induction false} FillOthers(b: Book, side: Side, taker: Ticket, f: Measure)
    requires Levels(b, side) != [] && Levels(b, side)[0].orders != []
    requires f.Of(Front(b, side)) == 0
    requires f.Of(Reduce(Front(b, side), FillQuantity(Levels(b, side), taker))) == 0
    ensures Total(FilledBook(b, side, taker), f) == Total(b, f)
  {
    AfterFillWeight(Levels(b, side), taker, f);
  }

  lemma {:induction false} FillFrontId(b: Book, side: Side, taker: Ticket)
    requires Fits(b) && UniqueIds(b) && Matchable(Levels(b, side), taker)
    requires Levels(b, side)[0].orders != []
    ensures var maker, q, b' := Front(b, side), FillQuantity(Levels(b, side), taker), FilledBook(b, side, taker);
            && q <= maker.quantity
            && Occurrences(b, maker.id) == 1
            && Occurrences(b', maker.id) == (if q == maker.quantity then 0 else 1)
            && (q < maker.quantity ==> Total(b', Exactly(Reduce(maker, q))) > 0)
  {
  }

  lemma {:induction false} FillRegistered(b: Book, known: Lookup, side: Side, taker: Ticket)
    requires Fits(b) && UniqueIds(b) && Matchable(Levels(b, side), taker) && Registered(b, known)
    requires Levels(b, side)[0].orders != []
    ensures var maker, q := Front(b, side), FillQuantity(Levels(b, side), taker);
            && q <= maker.quantity
            && Registered(FilledBook(b, side, taker), if q == maker.quantity then known - {maker.id} else known)
  {
    var maker, q := Front(b, side), FillQuantity(Levels(b, side), taker);
    FillFrontId(b, side, taker);
    forall id | id != maker.id ensures Occurrences(FilledBook(b, side, taker), id) == Occurrences(b, id) {
      FillOthers(b, side, taker, IdCount(id));
    }
  }

  /** What one fill makes of the stored levels of the swept side. */
  function FilledLevels(levels: seq<FlatLevel>, maker: Ticket, q: nat): seq<FlatLevel>
    requires levels != [] && q <= levels[0].total
  {
    if q == maker.quantity then Popped(levels, q) else levels[0 := levels[0].ReduceQuantity(q)]
  }

  lemma {:induction false} FillMirrors(levels: seq<FlatLevel>, other: seq<FlatLevel>, b: Book, known: Lookup, side: Side, taker: Ticket)
    requires Fits(b) && UniqueIds(b) && Matchable(Levels(b, side), taker)
    requires Levels(b, side)[0].orders != []
    requires Mirrors(levels, Levels(b, side), known) && Mirrors(other, Levels(b, Opposite(side)), known)
    ensures var maker, q, b' := Front(b, side), FillQuantity(Levels(b, side), taker), FilledBook(b, side, taker);
            var known' := if q == maker.quantity then known - {maker.id} else known;
            && q <= levels[0].total
            && Mirrors(FilledLevels(levels, maker, q), Levels(b', side), known')
            && Mirrors(other, Levels(b', Opposite(side)), known')
  {
    var ls, maker, q := Levels(b, side), Front(b, side), FillQuantity(Levels(b, side), taker);
    FillFrontId(b, side, taker);
    OccursAt(ls, 0, 0);
    if q == maker.quantity {
      TakeMirrors(levels, ls, known);
      MirrorsForgets(other, Levels(b, Opposite(side)), known, maker.id);
    } else {
      ReduceMirrors(levels, ls, known, q);
    }
  }

  /** What the slots contain after a fill. */
  function FilledContents(contents: map<nat, Ticket>, maker: Ticket, q: nat): map<nat, Ticket>
    requires q <= maker.quantity
  {
    if q == maker.quantity then contents - {maker.id} else contents[maker.id := Reduce(maker, q)]
  }

  lemma {:induction false} FillAgrees(b: Book, contents: map<nat, Ticket>, side: Side, taker: Ticket)
    requires Fits(b) && UniqueIds(b) && Agrees(b, contents) && Matchable(Levels(b, side), taker)
    requires Levels(b, side)[0].orders != []
    ensures var maker, q := Front(b, side), FillQuantity(Levels(b, side), taker);
            && q <= maker.quantity
            && Agrees(FilledBook(b, side, taker), FilledContents(contents, maker, q))
  {
    var maker, q := Front(b, side), FillQuantity(Levels(b, side), taker);
    FillFrontId(b, side, taker);
    forall id | id in contents && id != maker.id ensures Total(FilledBook(b, side, taker), Exactly(contents[id])) > 0 {
      FillOthers(b, side, taker, Exactly(contents[id]));
    }
  }

  /** One fill keeps the representation. */
  lemma {:induction false} FillCoherent(b: Book, side: Side, levels: seq<FlatLevel>, other: seq<FlatLevel>, known: Lookup,
                                        contents: map<nat, Ticket>, taker: Ticket)
    requires Coherent(b, side, levels, other, known, contents) && Matchable(Levels(b, side), taker)
    requires Levels(b, side)[0].orders != []
    ensures var maker, q := Front(b, side), FillQuantity(Levels(b, side), taker);
            && q <= maker.quantity && levels != [] && q <= levels[0].total
            && Coherent(FilledBook(b, side, taker), side, FilledLevels(levels, maker, q), other,
                        if q == maker.quantity then known - {maker.id} else known,
                        FilledContents(contents, maker, q))
  {
    FilledBookFits(b, side, taker);
    FillMirrors(levels, other, b, known, side, taker);
    FillRegistered(b, known, side, taker);
    FillAgrees(b, contents, side, taker);
  }

  /** The same, in terms of the front ticket and the quantity it trades. */
  lemma {:induction false} FillCoherentFor(b: Book, side: Side, levels: seq<FlatLevel>, other: seq<FlatLevel>, known: Lookup,
                                           contents: map<nat, Ticket>, taker: Ticket, maker: Ticket, q: nat)
    requires Coherent(b, side, levels, other, known, contents) && Matchable(Levels(b, side), taker)
    requires Levels(b, side)[0].orders != [] && maker == Front(b, side) && q == Min(taker.quantity, maker.quantity)
    ensures q <= maker.quantity && levels != [] && q <= levels[0].total
    ensures q == FillQuantity(Levels(b, side), taker) && FilledBook(b, side, taker).nextTradeId == b.nextTradeId + 1
    ensures FillTrade(Levels(b, side), taker, b.nextTradeId) == MakeTrade(b.nextTradeId, taker, maker, q, Levels(b, side)[0].price)
    ensures Coherent(FilledBook(b, side, taker), side, FilledLevels(levels, maker, q), other,
                     if q == maker.quantity then known - {maker.id} else known, FilledContents(contents, maker, q))
  {
    FillCoherent(b, side, levels, other, known, contents, taker);
  }

  /** The front reference is the front ticket, and the stored level shows its price and covers its quantity. */
  lemma {:induction false} FrontMatches(b: Book, side: Side, levels: seq<FlatLevel>, other: seq<FlatLevel>, known: Lookup,
                                        contents: map<nat, Ticket>)
    requires Coherent(b, side, levels, other, known, contents) && Levels(b, side) != []
    ensures Levels(b, side)[0].orders != [] && levels != []
    ensures Front(b, side).id in known && contents[Front(b, side).id] == Front(b, side)
    ensures levels[0].price == Levels(b, side)[0].price && levels[0].head < |levels[0].orders|
    ensures levels[0].orders[levels[0].head] == known[Front(b, side).id]
    ensures Front(b, side).quantity <= levels[0].total
    ensures Ordered(side, levels)
  {
    assert LevelFits(side, Levels(b, side)[0]);
    var ls, t := Levels(b, side), Front(b, side);
    assert LevelMirrors(levels[0], ls[0], known);
    OccursAt(ls, 0, 0);
    SameTicket(b, t, contents[t.id]);
    WeighSplit(ls[0].orders, 0, AnyQuantity);
    MirrorsOrdered(side, levels, ls, known);
  }

  // ---------- Resting an order, as a change of the whole representation

  lemma {:induction false} RestAgrees(b: Book, contents: map<nat, Ticket>, t: Ticket)
    requires Agrees(b, contents) && t.quantity > 0 && t.id !in contents
    ensures Agrees(Rest(b, t), contents[t.id := t])
  {
    var b', contents' := Rest(b, t), contents[t.id := t];
    forall id | id in contents' ensures Total(b', Exactly(contents'[id])) > 0 {
      RestTotal(b, t, Exactly(contents'[id]));
      assert id != t.id ==> Total(b, Exactly(contents[id])) > 0;
    }
  }

  lemma {:induction false} RestRegistered(b: Book, known: Lookup, t: Ticket, o: Order)
    requires UniqueIds(b) && Registered(b, known) && t.quantity > 0 && t.id !in known
    ensures Registered(Rest(b, t), known[t.id := o]) && UniqueIds(Rest(b, t))
  {
    forall id ensures Occurrences(Rest(b, t), id) == Occurrences(b, id) + if id == t.id then 1 else 0 {
      RestTotal(b, t, IdCount(id));
    }
    assert Occurrences(b, t.id) == 0;
  }

  lemma {:induction false} RestCoherent(b: Book, levels: seq<FlatLevel>, other: seq<FlatLevel>, known: Lookup,
                                        contents: map<nat, Ticket>, t: Ticket, o: Order, k: nat)
    requires Coherent(b, t.side, levels, other, known, contents)
    requires t.quantity > 0 && t.id !in known && IsLowerBound(t.side, levels, t.price, k)
    ensures Coherent(Rest(b, t), t.side, Pushed(levels, k, o, t), other, known[t.id := o], contents[t.id := t])
  {
    InsertFits(t.side, Levels(b, t.side), t);
    MirrorsLearns(levels, Levels(b, t.side), known, t.id, o);
    MirrorsLearns(other, Levels(b, Opposite(t.side)), known, t.id, o);
    InsertMirrors(t.side, levels, Levels(b, t.side), known[t.id := o], o, t, k);
    RestRegistered(b, known, t, o);
    RestAgrees(b, contents, t);
  }

  // ---------- Cancelling an order, as a change of the whole representation

  lemma {:induction false} WeighLocate(orders: seq<Ticket>, t: Ticket) returns (j: nat)
    requires Weigh(orders, Exactly(t)) > 0
    ensures j < |orders| && orders[j] == t
  {
    if orders[0] == t {
      j := 0;
    } else {
      var n := WeighLocate(orders[1..], t);
      j := n + 1;
    }
  }

  lemma {:induction false} WeightLocate(ls: seq<Level>, t: Ticket) returns (i: nat, j: nat)
    requires Weight(ls, Exactly(t)) > 0
    ensures i < |ls| && j < |ls[i].orders| && ls[i].orders[j] == t
  {
    if Weigh(ls[0].orders, Exactly(t)) > 0 {
      i := 0;
      j := WeighLocate(ls[0].orders, t);
    } else {
      var n: nat;
      n, j := WeightLocate(ls[1..], t);
      i := n + 1;
    }
  }

  /** A resting ticket is on its own side, at the level of its own price. */
  lemma {:induction false} Locate(b: Book, t: Ticket) returns (i: nat, j: nat)
    requires Fits(b) && Total(b, Exactly(t)) > 0
    ensures i < |Levels(b, t.side)| && j < |Levels(b, t.side)[i].orders|
    ensures Levels(b, t.side)[i].orders[j] == t && Levels(b, t.side)[i].price == t.price
  {
    var side := if Weight(b.bids, Exactly(t)) > 0 then Buy else Sell;
    i, j := WeightLocate(Levels(b, side), t);
    assert LevelFits(side, Levels(b, side)[i]);
    assert OrderFits(side, Levels(b, side)[i].price, t);
  }

  lemma {:induction false} CancelRegistered(b: Book, known: Lookup, id: nat)
    requires UniqueIds(b) && Registered(b, known) && Occurrences(b, id) > 0
    ensures Registered(Cancel(b, id).book, known - {id}) && UniqueIds(Cancel(b, id).book)
  {
    CancelKeepsUnique(b, id);
    assert Occurrences(b, id) <= 1;
    forall x ensures Occurrences(Cancel(b, id).book, x) == Occurrences(b, x) - if x == id then 1 else 0 {
      CancelTotal(b, id, IdCount(x));
    }
  }

  lemma {:induction false} CancelAgrees(b: Book, contents: map<nat, Ticket>, id: nat)
    requires UniqueIds(b) && Agrees(b, contents) && Occurrences(b, id) > 0
    ensures Agrees(Cancel(b, id).book, contents - {id})
  {
    forall x | x in contents - {id} ensures Total(Cancel(b, id).book, Exactly(contents[x])) > 0 {
      CancelTotal(b, id, Exactly(contents[x]));
      assert Total(b, Exactly(contents[x])) > 0;
    }
  }

  lemma {:induction false} CancelCoherent(b: Book, side: Side, levels: seq<FlatLevel>, other: seq<FlatLevel>, known: Lookup,
                                          contents: map<nat, Ticket>, i: nat, j: nat)
    requires Coherent(b, side, levels, other, known, contents)
    requires i < |Levels(b, side)| && j < |Levels(b, side)[i].orders|
    ensures var t := Levels(b, side)[i].orders[j];
            && i < |levels| && levels[i].head + j < |levels[i].orders| && t.quantity <= levels[i].total
            && Ordered(side, levels)
            && Cancel(b, t.id).outcome == Outcome.Accepted
            && Coherent(Cancel(b, t.id).book, side, Erased(levels, i, levels[i].head + j, t.quantity), other, known - {t.id}, contents - {t.id})
  {
    var ls := Levels(b, side);
    var t := ls[i].orders[j];
    OccursAt(ls, i, j);
    assert Occurrences(b, t.id) <= 1;
    CancelFits(b, t.id);
    MirrorsOrdered(side, levels, ls, known);
    RemoveMirrors(levels, ls, known, i, j);
    MirrorsForgets(other, Levels(b, Opposite(side)), known, t.id);
    CancelRegistered(b, known, t.id);
    CancelAgrees(b, contents, t.id);
  }

  /** The same, for the reference at index `n` of the stored level. */
  lemma {:induction false} CancelCoherentAt(b: Book, side: Side, levels: seq<FlatLevel>, other: seq<FlatLevel>, known: Lookup,
                                            contents: map<nat, Ticket>, i: nat, n: nat, t: Ticket)
    requires Coherent(b, side, levels, other, known, contents)
    requires i < |Levels(b, side)| == |levels| && levels[i].head <= n < levels[i].head + |Levels(b, side)[i].orders|
    requires Levels(b, side)[i].orders[n - levels[i].head] == t
    ensures n < |levels[i].orders| && t.quantity <= levels[i].total && Ordered(side, levels)
    ensures Cancel(b, t.id).outcome == Outcome.Accepted && Cancel(b, t.id).book.nextTradeId == b.nextTradeId
    ensures Coherent(Cancel(b, t.id).book, side, Erased(levels, i, n, t.quantity), other, known - {t.id}, contents - {t.id})
  {
    var j := n - levels[i].head;
    assert levels[i].head + j == n;
    CancelCoherent(b, side, levels, other, known, contents, i, j);
  }

  lemma {:induction false} SamePrice(side: Side, levels: seq<FlatLevel>, i: nat, k: nat)
    requires Ordered(side, levels) && i < |levels| && k < |levels| && levels[i].price == levels[k].price
    ensures i == k
  {
    assert i < k ==> Better(side, levels[i].price, levels[k].price);
    assert k < i ==> Better(side, levels[k].price, levels[i].price);
  }

  /** The reference at a position of a level is the slot of the ticket at that position. */
  lemma {:induction false} SlotShowsTicket(b: Book, ls: seq<Level>, known: Lookup, contents: map<nat, Ticket>, i: nat, j: nat)
    requires UniqueIds(b) && Agrees(b, contents) && contents.Keys == known.Keys && (ls == b.bids || ls == b.asks)
    requires i < |ls| && j < |ls[i].orders| && ls[i].orders[j].id in known
    ensures contents[ls[i].orders[j].id] == ls[i].orders[j]
  {
    var t := ls[i].orders[j];
    OccursAt(ls, i, j);
    assert Total(b, Exactly(contents[t.id])) > 0;
    SameTicket(b, t, contents[t.id]);
  }

  /** Where the slot registered under `id` rests, given the side its ticket names. */
  lemma {:induction false} LocateSlot(b: Book, side: Side, levels: seq<FlatLevel>, other: seq<FlatLevel>, known: Lookup,
                                      contents: map<nat, Ticket>, id: nat) returns (i: nat, j: nat)
    requires Coherent(b, side, levels, other, known, contents) && id in known && contents[id].side == side
    ensures i < |Levels(b, side)| == |levels| && j < |Levels(b, side)[i].orders|
    ensures Levels(b, side)[i].orders[j] == contents[id] && levels[i].price == contents[id].price
    ensures levels[i].head + j < |levels[i].orders| && levels[i].orders[levels[i].head + j] == known[id]
  {
    assert Total(b, Exactly(contents[id])) > 0;
    i, j := Locate(b, contents[id]);
    assert LevelMirrors(levels[i], Levels(b, side)[i], known);
  }

  // ---------- A sweep in progress

  /** Finishing the sweep from the present state gives what sweeping from the start gives. */
  ghost predicate SweepGoesOn(b0: Book, taker0: Ticket, b: Book, taker: Ticket, trades: seq<Trade>) {
    && Fits(b0) && Fits(b)
    && taker == taker0.(quantity := taker.quantity)
    && var side := Opposite(taker0.side);
       var start, rest := Swipe(b0, taker0), Swipe(b, taker);
       && start == rest.(trades := trades + rest.trades)
       && b == WithLevels(b0, side, Levels(b, side)).(nextTradeId := b0.nextTradeId + |trades|)
  }

  lemma {:induction false} SweepStep(b0: Book, taker0: Ticket, b: Book, taker: Ticket, trades: seq<Trade>)
    requires SweepGoesOn(b0, taker0, b, taker, trades) && UniqueIds(b)
    requires Matchable(Levels(b, Opposite(taker0.side)), taker)
    ensures Levels(b, Opposite(taker0.side))[0].orders != []
    ensures var side := Opposite(taker0.side);
            && 0 < FillQuantity(Levels(b, side), taker) <= taker.quantity
            && SweepGoesOn(b0, taker0, FilledBook(b, side, taker), Reduce(taker, FillQuantity(Levels(b, side), taker)),
                           trades + [FillTrade(Levels(b, side), taker, b.nextTradeId)])
  {
    SwipeUnfold(b, taker);
    FilledBookFits(b, Opposite(taker0.side), taker);
    var side := Opposite(taker0.side);
    var t := FillTrade(Levels(b, side), taker, b.nextTradeId);
    var rest := Swipe(FilledBook(b, side, taker), Reduce(taker, FillQuantity(Levels(b, side), taker)));
    Associative(trades, [t], rest.trades);
  }

  lemma {:induction false} SwipeUnfold(b: Book, taker: Ticket)
    requires Fits(b) && UniqueIds(b) && Matchable(Levels(b, Opposite(taker.side)), taker)
    ensures Levels(b, Opposite(taker.side))[0].orders != []
    ensures var side := Opposite(taker.side);
            && 0 < FillQuantity(Levels(b, side), taker) <= taker.quantity
            && Fits(FilledBook(b, side, taker))
            && var rest := Swipe(FilledBook(b, side, taker), Reduce(taker, FillQuantity(Levels(b, side), taker)));
               Swipe(b, taker) == rest.(trades := [FillTrade(Levels(b, side), taker, b.nextTradeId)] + rest.trades)
  {
    var side := Opposite(taker.side);
    FilledBookFits(b, side, taker);
    SweepUnfold(side, Levels(b, side), taker, b.nextTradeId);
    assert Levels(FilledBook(b, side, taker), side) == AfterFill(Levels(b, side), taker);
  }

  // ---------- Slots

  /** The slots accepted and not returned are those resting plus those filled on arrival, all still outstanding. */
  ghost predicate SlotsHeld(lookup: Lookup, held: set<Order>, filled: set<Order>, outstanding: set<Order>) {
    held == lookup.Values + filled && lookup.Values !! filled && held <= outstanding
  }

  /** Where slots are: in the lookup, filled on arrival, accepted and not returned, handed out by the pool. */
  datatype SlotState = SlotState(known: set<Order>, filled: set<Order>, held: set<Order>, outstanding: set<Order>)

  /** An accepted order joins the lookup if quantity is open, the filled ones otherwise; the makers that
      left the lookup went back to the pool, and nothing else did. */
  ghost predicate Placed(o: Order, open: bool, before: SlotState, after: SlotState) {
    && after.filled == before.filled + (if open then {} else {o})
    && (o in after.known <==> open)
    && after.known <= before.known + {o} && after.held <= before.held + {o}
    && after.outstanding == before.outstanding - (before.known - after.known)
  }

  /** One slot of the lookup goes back to the pool. */
  ghost function Freed(o: Order, s: SlotState): SlotState {
    SlotState(s.known - {o}, s.filled, s.held - {o}, s.outstanding - {o})
  }

  /** Nothing was accepted, and only slots of the lookup went back. */
  ghost predicate Receded(before: SlotState, after: SlotState) {
    && after.known <= before.known && after.held <= before.held && after.filled == before.filled
    && before.outstanding - before.known <= after.outstanding <= before.outstanding
  }

  /** The slots given back to the pool are those that left the lookup. */
  ghost predicate Returned(before: Lookup, after: Lookup, outBefore: set<Order>, outAfter: set<Order>) {
    after.Values <= before.Values && outAfter == outBefore - (before.Values - after.Values)
  }

  lemma {:induction false} ReturnedOnwards(l0: Lookup, l1: Lookup, l2: Lookup, o0: set<Order>, o1: set<Order>, o2: set<Order>)
    requires Returned(l0, l1, o0, o1) && Returned(l1, l2, o1, o2)
    ensures Returned(l0, l2, o0, o2)
  {
  }

  /** An order that entered the lookup and is still in it is placed, and not among the returned ones. */
  lemma {:induction false} EntersPlaced(l0: Lookup, l1: Lookup, o: Order, filled: set<Order>, h0: set<Order>, h1: set<Order>,
                                        o0: set<Order>, o1: set<Order>)
    requires Returned(l0[o.id := o], l1, o0, o1) && l0[o.id := o].Values == l0.Values + {o}
    requires o !in l0.Values && o in l1.Values && SlotsHeld(l0, h0, filled, o0) && SlotsHeld(l1, h1, filled, o1)
    ensures Placed(o, true, SlotState(l0.Values, filled, h0, o0), SlotState(l1.Values, filled, h1, o1))
  {
  }

  /** An order with nothing left to fill moves from the lookup to the filled ones. */
  ghost function Left(o: Order, s: SlotState): SlotState {
    s.(known := s.known - {o}, filled := s.filled + {o})
  }

  lemma {:induction false} PlacedLeaves(o: Order, before: SlotState, after: SlotState)
    requires Placed(o, true, before, after) && o !in before.known
    ensures Placed(o, false, before, Left(o, after))
  {
  }

  lemma {:induction false} SlotReturned(lookup: Lookup, id: nat, held: set<Order>, filled: set<Order>, outstanding: set<Order>)
    requires SlotsHeld(lookup, held, filled, outstanding) && id in lookup
    requires forall x :: x in lookup && x != id ==> lookup[x] != lookup[id]
    ensures SlotsHeld(lookup - {id}, held - {lookup[id]}, filled, outstanding - {lookup[id]})
    ensures (lookup - {id}).Values == lookup.Values - {lookup[id]}
  {
    forall o | o in lookup.Values && o != lookup[id] ensures o in (lookup - {id}).Values {
      var x :| x in lookup && lookup[x] == o;
      assert x in lookup - {id};
    }
  }
}
