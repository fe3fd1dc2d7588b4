/** `FlatLevel` and `FlatPriceBook`: price levels in one sorted vector, each a
    first-in first-out queue with a dead prefix that is compacted later. */
module FlatBook {
  import opened Orders

  datatype OrderStatus = Pending | Accepted | Rejected | Filled | PartiallyFilled | Cancelled

  /** An order slot of the pool; the book holds references to it and fills it in place. */
  class Order {
    var id: nat
    var side: Side
    var kind: OrderType
    var price: nat
    var remaining: nat
    var status: OrderStatus

    constructor (id: nat, side: Side, kind: OrderType, price: nat, quantity: nat)
      ensures AsTicket() == Ticket(id, side, kind, price, quantity) && status == Pending
    {
      this.id, this.side, this.kind, this.price, this.remaining := id, side, kind, price, quantity;
      this.status := Pending;
    }

    function AsTicket(): Ticket
      reads this
    {
      Ticket(id, side, kind, price, remaining)
    }
  }

  // ---------- One level; levels are stored by value in the book's vector

  const COMPACT_THRESHOLD := 64

  /** `orders[head..]` are live, `total` caches their open quantity. */
  datatype FlatLevel = FlatLevel(price: nat, total: nat, head: nat, orders: seq<Order>) {
    predicate Valid() {
      head <= |orders|
    }

    function Live(): seq<Order>
      requires Valid()
    {
      orders[head..]
    }

    predicate Empty() {
      head >= |orders|
    }

    function PushBack(o: Order, quantity: nat): FlatLevel {
      this.(orders := orders + [o], total := total + quantity)
    }

    function PopFront(filled: nat): FlatLevel
      requires filled <= total
    {
      this.(total := total - filled, head := head + 1)
    }

    function ReduceQuantity(quantity: nat): FlatLevel
      requires quantity <= total
    {
      this.(total := total - quantity)
    }

    function Erase(i: nat, quantity: nat): FlatLevel
      requires i < |orders| && quantity <= total
    {
      this.(orders := orders[..i] + orders[i + 1..], total := total - quantity)
    }

    predicate NeedsCompaction() {
      head > COMPACT_THRESHOLD
    }

    function Compact(): FlatLevel
      requires Valid()
    {
      this.(orders := orders[head..], head := 0)
    }
  }

  /** Two levels that differ at most in their dead prefix. */
  predicate SameLive(a: FlatLevel, b: FlatLevel) {
    a.Valid() && b.Valid() && a.price == b.price && a.total == b.total && a.Live() == b.Live()
  }

  ghost predicate Ordered(side: Side, levels: seq<FlatLevel>) {
    forall i, j {:trigger Better(side, levels[i].price, levels[j].price)} ::
      0 <= i < j < |levels| ==> Better(side, levels[i].price, levels[j].price)
  }

  /** `k` splits the levels into those strictly ahead of `price` and the rest. */
  ghost predicate IsLowerBound(side: Side, levels: seq<FlatLevel>, price: nat, k: nat) {
    && k <= |levels|
    && (forall i :: 0 <= i < k ==> Better(side, levels[i].price, price))
    && (forall i :: k <= i < |levels| ==> !Better(side, levels[i].price, price))
  }

  predicate Holds(levels: seq<FlatLevel>, k: nat, price: nat) {
    k < |levels| && levels[k].price == price
  }

  function NonEmpty(levels: seq<FlatLevel>): seq<FlatLevel> {
    if levels == [] then []
    else if levels[|levels| - 1].Empty() then NonEmpty(levels[..|levels| - 1])
    else NonEmpty(levels[..|levels| - 1]) + [levels[|levels| - 1]]
  }

  lemma {:induction false} NonEmptyAll(levels: seq<FlatLevel>)
    requires forall i :: 0 <= i < |levels| ==> !levels[i].Empty()
    ensures NonEmpty(levels) == levels
  {
    if levels != [] {
      var n := |levels| - 1;
      NonEmptyAll(levels[..n]);
      assert levels == levels[..n] + [levels[n]];
    }
  }

  // ---------- One side of the book

  class FlatPriceBook {
    const side: Side
    var levels: seq<FlatLevel>

    constructor (side: Side)
      ensures this.side == side && levels == []
    {
      this.side := side;
      levels := [];
    }

    method BestPrice() returns (p: nat)
      ensures p == if levels == [] then 0 else levels[0].price
    {
      if |levels| == 0 {
        return 0;
      }
      return levels[0].price;
    }

    method BestQuantity() returns (q: nat)
      ensures q == if levels == [] then 0 else levels[0].total
    {
      if |levels| == 0 {
        return 0;
      }
      return levels[0].total;
    }

    /** Binary search for the first level not strictly ahead of `price`. */
    method LowerBound(price: nat) returns (k: nat)
      requires Ordered(side, levels)
      ensures IsLowerBound(side, levels, price, k)
    {
      var lo, hi := 0, |levels|;
      while lo < hi
        invariant 0 <= lo <= hi <= |levels|
        invariant forall i :: 0 <= i < lo ==> Better(side, levels[i].price, price)
        invariant forall i :: hi <= i < |levels| ==> !Better(side, levels[i].price, price)
      {
        var mid := lo + (hi - lo) / 2;
        assert forall i :: 0 <= i < mid ==> Better(side, levels[i].price, levels[mid].price);
        assert forall i :: mid < i < |levels| ==> Better(side, levels[mid].price, levels[i].price);
        if Better(side, levels[mid].price, price) {
          lo := mid + 1;
        } else {
          hi := mid;
        }
      }
      k := lo;
    }

    /** The index of the level at `price`, or the number of levels when there is none. */
    method Find(price: nat) returns (k: nat)
      requires Ordered(side, levels)
      ensures k <= |levels|
      ensures k < |levels| ==> levels[k].price == price
      ensures k == |levels| ==> forall i :: 0 <= i < |levels| ==> levels[i].price != price
    {
      k := LowerBound(price);
      if !(k < |levels| && levels[k].price == price) {
        assert forall i :: k < i < |levels| ==> Better(side, levels[k].price, levels[i].price);
        k := |levels|;
      }
    }

    method FindOrInsert(price: nat) returns (k: nat)
      requires Ordered(side, levels)
      modifies this`levels
      ensures IsLowerBound(side, old(levels), price, k)
      ensures levels == if Holds(old(levels), k, price) then old(levels)
                        else old(levels)[..k] + [FlatLevel(price, 0, 0, [])] + old(levels)[k..]
    {
      k := LowerBound(price);
      if !(k < |levels| && levels[k].price == price) {
        levels := levels[..k] + [FlatLevel(price, 0, 0, [])] + levels[k..];
      }
    }

    method Remove(price: nat)
      requires Ordered(side, levels)
      modifies this`levels
      ensures (forall i :: 0 <= i < |old(levels)| ==> old(levels)[i].price != price) ==> levels == old(levels)
      ensures forall k :: 0 <= k < |old(levels)| && old(levels)[k].price == price ==>
                            levels == old(levels)[..k] + old(levels)[k + 1..]
    {
      var k := LowerBound(price);
      if k < |levels| && levels[k].price == price {
        levels := levels[..k] + levels[k + 1..];
      } else {
        assert forall i :: k < i < |levels| ==> Better(side, levels[k].price, levels[i].price);
      }
    }

    method Clear()
      modifies this`levels
      ensures levels == []
    {
      levels := [];
    }

    /** Compaction drops dead prefixes and nothing else. */
    method CompactAll()
      requires forall i :: 0 <= i < |levels| ==> levels[i].Valid()
      modifies this`levels
      ensures |levels| == |old(levels)|
      ensures forall i :: 0 <= i < |levels| ==> SameLive(levels[i], old(levels)[i])
      ensures forall i :: 0 <= i < |levels| ==> !levels[i].NeedsCompaction()
    {
      for n := 0 to |levels|
        invariant |levels| == |old(levels)|
        invariant forall i :: 0 <= i < n ==> SameLive(levels[i], old(levels)[i])
        invariant forall i :: 0 <= i < n ==> !levels[i].NeedsCompaction()
        invariant forall i :: n <= i < |levels| ==> levels[i] == old(levels)[i]
      {
        if levels[n].NeedsCompaction() {
          levels := levels[n := levels[n].Compact()];
        }
      }
    }

    /** Pruning keeps the non-empty levels, in order. */
    method PruneEmpty()
      modifies this`levels
      ensures levels == NonEmpty(old(levels))
    {
      var kept: seq<FlatLevel> := [];
      for n := 0 to |levels|
        invariant levels == old(levels)
        invariant kept == NonEmpty(levels[..n])
      {
        assert levels[..n + 1][..n] == levels[..n];
        if !levels[n].Empty() {
          kept := kept + [levels[n]];
        }
      }
      assert levels[..|levels|] == levels;
      levels := kept;
    }
  }
}
