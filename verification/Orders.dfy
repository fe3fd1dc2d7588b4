/** Values shared by every part of the exchange model: orders as seen by the
    order book, the trades it prints, and sums over sequences of orders. */
module Orders {

  datatype Side = Buy | Sell

  datatype OrderType = Market | Limit

  /** The state of an order that matching depends on; `quantity` is what remains to be filled. */
  datatype Ticket = Ticket(id: nat, side: Side, kind: OrderType, price: nat, quantity: nat)

  datatype Trade = Trade(id: nat, buyId: nat, sellId: nat, quantity: nat, price: nat)

  /** The error codes the book reports. */
  datatype Outcome = Accepted | ShutDown | Invalid | Duplicate | NotFound

  function Opposite(side: Side): Side {
    if side.Buy? then Sell else Buy
  }

  function Min(a: nat, b: nat): nat {
    if a < b then a else b
  }

  /** Price `p` is strictly ahead of price `q` among orders resting on `side`. */
  predicate Better(side: Side, p: nat, q: nat) {
    if side.Buy? then p > q else p < q
  }

  /** An incoming order may trade against a resting order at price `p`. */
  predicate Crosses(taker: Ticket, p: nat) {
    taker.kind.Market? || !Better(taker.side, p, taker.price)
  }

  function MakeTrade(id: nat, taker: Ticket, maker: Ticket, quantity: nat, price: nat): Trade {
    if taker.side.Buy? then Trade(id, taker.id, maker.id, quantity, price)
    else Trade(id, maker.id, taker.id, quantity, price)
  }

  function Reduce(t: Ticket, quantity: nat): Ticket
    requires quantity <= t.quantity
  {
    t.(quantity := t.quantity - quantity)
  }

  /** An order without its quantity: what fills leave of it. */
  function Stem(t: Ticket): Ticket {
    t.(quantity := 0)
  }

  // ---------- Weights: sums of a measure over a sequence of orders

  const MAX_ORDER_SIZE := 10_000_000

  /** What can be summed over orders: how often an id occurs, what an id has open, everything
      open, the number of orders, orders of an id at a price, copies of one ticket, oversized orders, and
      orders that stem from none of the given ones. */
  datatype Measure =
    | IdCount(id: nat)
    | IdQuantity(id: nat)
    | AnyQuantity
    | AnyCount
    | IdAtPrice(id: nat, price: nat)
    | Exactly(ticket: Ticket)
    | Oversize
    | Stray(origins: set<Ticket>)
  {
    function Of(t: Ticket): nat {
      match this
      case IdCount(id) => if t.id == id then 1 else 0
      case IdQuantity(id) => if t.id == id then t.quantity else 0
      case AnyQuantity => t.quantity
      case AnyCount => 1
      case IdAtPrice(id, price) => if t.id == id && t.price == price then 1 else 0
      case Exactly(u) => if t == u then 1 else 0
      case Oversize => if t.quantity > MAX_ORDER_SIZE then 1 else 0
      case Stray(origins) => if Stem(t) in origins then 0 else 1
    }
  }

  function Weigh(orders: seq<Ticket>, f: Measure): nat {
    if orders == [] then 0 else f.Of(orders[0]) + Weigh(orders[1..], f)
  }

  lemma {:induction false} WeighConcat(a: seq<Ticket>, b: seq<Ticket>, f: Measure)
    ensures Weigh(a + b, f) == Weigh(a, f) + Weigh(b, f)
  {
    if a == [] {
      assert a + b == b;
    } else {
      WeighConcat(a[1..], b, f);
      assert (a + b)[1..] == a[1..] + b;
    }
  }

  lemma {:induction false} WeighOne(t: Ticket, f: Measure)
    ensures Weigh([t], f) == f.Of(t)
  {
  }

  lemma {:induction false} WeighSplit(orders: seq<Ticket>, k: nat, f: Measure)
    requires k < |orders|
    ensures Weigh(orders, f) == Weigh(orders[..k], f) + f.Of(orders[k]) + Weigh(orders[k + 1..], f)
  {
    assert orders == orders[..k] + orders[k..];
    WeighConcat(orders[..k], orders[k..], f);
    assert orders[k..][1..] == orders[k + 1..];
  }

  // ---------- Removal of an order by id

  /** The first position holding `id`, or the length when there is none. */
  function Position(orders: seq<Ticket>, id: nat): (k: nat)
    ensures k <= |orders|
    ensures k < |orders| ==> orders[k].id == id
    ensures forall i :: 0 <= i < k ==> orders[i].id != id
  {
    if orders == [] || orders[0].id == id then 0 else 1 + Position(orders[1..], id)
  }

  function DropAt(orders: seq<Ticket>, k: nat): seq<Ticket>
    requires k < |orders|
  {
    orders[..k] + orders[k + 1..]
  }

  function Without(orders: seq<Ticket>, id: nat): seq<Ticket> {
    var k := Position(orders, id);
    if k < |orders| then DropAt(orders, k) else orders
  }

  lemma {:induction false} DropAtWeight(orders: seq<Ticket>, k: nat, f: Measure)
    requires k < |orders|
    ensures Weigh(DropAt(orders, k), f) + f.Of(orders[k]) == Weigh(orders, f)
  {
    WeighSplit(orders, k, f);
    WeighConcat(orders[..k], orders[k + 1..], f);
  }

  lemma {:induction false} WeightIffPosition(orders: seq<Ticket>, id: nat)
    ensures Weigh(orders, IdCount(id)) > 0 <==> Position(orders, id) < |orders|
  {
    if orders != [] {
      WeightIffPosition(orders[1..], id);
    }
  }

  /** An id that occurs at most once occurs at one position only. */
  lemma {:induction false} UniquePosition(orders: seq<Ticket>, id: nat, i: nat, j: nat)
    requires Weigh(orders, IdCount(id)) <= 1
    requires i < j < |orders|
    ensures orders[i].id != id || orders[j].id != id
  {
    WeighSplit(orders, i, IdCount(id));
    WeighSplit(orders[i + 1..], j - i - 1, IdCount(id));
  }
}
