/** The single-producer single-consumer ring as a step machine: 64-bit wrapping indices, a cached
    copy of the other side's index on each side, one step per shared access, any interleaving. */
module Spsc {
  import opened Bits

  datatype Producer<T> = ProducerIdle | Reload(head: nat, item: T) | Write(head: nat, item: T) | Publish(head: nat, item: T)

  datatype Consumer<T> = ConsumerIdle | Refresh(tail: nat) | Read(tail: nat) | Release(tail: nat, item: T) | Look(tail: nat)

  /** What calls have returned, in the order they took effect. */
  datatype Outcome<T> = Pushed(item: T) | Full | Popped(item: T) | Empty | SeenEmpty(answer: bool)

  /** `pushed`, `popped`, `seenTail`, `seenHead` and `log` are history: all that was published and
      released, and the unwrapped values of the cached indices. */
  datatype State<T> = State(
    bits: nat, buffer: seq<T>, head: nat, tail: nat, cachedTail: nat, cachedHead: nat,
    producer: Producer<T>, consumer: Consumer<T>,
    pushed: seq<T>, popped: seq<T>, seenTail: nat, seenHead: nat, log: seq<Outcome<T>>)

  datatype Step<T> = BeginPush(item: T) | BeginPop | BeginLook | RunProducer | RunConsumer

  function Capacity<T>(s: State<T>): nat {
    Pow2(s.bits)
  }

  /** 64-bit subtraction. */
  function Minus(a: nat, b: nat): nat {
    (a - b) % TWO_64
  }

  /** The buffer slot an index selects. */
  function Slot<T>(s: State<T>, index: nat): nat {
    And(index, Capacity(s) - 1)
  }

  function ProducerStep<T>(s: State<T>): State<T>
    requires |s.buffer| == Capacity(s)
  {
    match s.producer
    case ProducerIdle => s
    case Reload(head, item) =>
      var s1 := s.(cachedTail := s.tail, seenTail := |s.popped|);
      if Minus(head, s.tail) >= Capacity(s) then s1.(producer := ProducerIdle, log := s.log + [Full])
      else s1.(producer := Write(head, item))
    case Write(head, item) =>
      s.(producer := Publish(head, item),
         buffer := if Slot(s, head) < |s.buffer| then s.buffer[Slot(s, head) := item] else s.buffer)
    case Publish(head, item) =>
      s.(producer := ProducerIdle, head := (head + 1) % TWO_64, pushed := s.pushed + [item], log := s.log + [Pushed(item)])
  }

  function ConsumerStep<T>(s: State<T>): State<T>
    requires |s.buffer| == Capacity(s)
  {
    match s.consumer
    case ConsumerIdle => s
    case Refresh(tail) =>
      var s1 := s.(cachedHead := s.head, seenHead := |s.pushed|);
      if tail == s.head then s1.(consumer := ConsumerIdle, log := s.log + [Empty])
      else s1.(consumer := Read(tail))
    case Read(tail) =>
      s.(consumer := Release(tail, s.buffer[if Slot(s, tail) < |s.buffer| then Slot(s, tail) else 0]))
    case Release(tail, item) =>
      s.(consumer := ConsumerIdle, tail := (tail + 1) % TWO_64, popped := s.popped + [item], log := s.log + [Popped(item)])
    case Look(tail) =>
      s.(consumer := ConsumerIdle, cachedHead := s.head, seenHead := |s.pushed|, log := s.log + [SeenEmpty(tail == s.head)])
  }

  function Do<T>(s: State<T>, step: Step<T>): (s': State<T>)
    requires |s.buffer| == Capacity(s)
    ensures |s'.buffer| == |s.buffer| && s'.bits == s.bits
  {
    match step
    case BeginPush(item) =>
      if !s.producer.ProducerIdle? then s
      else if Minus(s.head, s.cachedTail) >= Capacity(s) then s.(producer := Reload(s.head, item))
      else s.(producer := Write(s.head, item))
    case BeginPop =>
      if !s.consumer.ConsumerIdle? then s
      else if s.tail == s.cachedHead then s.(consumer := Refresh(s.tail))
      else s.(consumer := Read(s.tail))
    case BeginLook =>
      if !s.consumer.ConsumerIdle? then s
      else if s.tail != s.cachedHead then s.(log := s.log + [SeenEmpty(false)])
      else s.(consumer := Look(s.tail))
    case RunProducer => ProducerStep(s)
    case RunConsumer => ConsumerStep(s)
  }

  function After<T>(bits: nat, buffer: seq<T>, steps: seq<Step<T>>): (s: State<T>)
    requires |buffer| == Pow2(bits)
    ensures |s.buffer| == Capacity(s) && s.bits == bits
  {
    if steps == [] then State(bits, buffer, 0, 0, 0, 0, ProducerIdle, ConsumerIdle, [], [], 0, 0, [])
    else Do(After(bits, buffer, steps[..|steps| - 1]), steps[|steps| - 1])
  }

  // ---------- The bounded queue it refines

  datatype Option<T> = None | Some(value: T)

  /** Replay the outcomes on a plain bounded queue; `None` if one of them would be wrong there. */
  function Replay<T(==)>(log: seq<Outcome<T>>, cap: nat): Option<seq<T>> {
    if log == [] then Some([])
    else
      match Replay(log[..|log| - 1], cap)
      case None => None
      case Some(q) =>
        match log[|log| - 1]
        case Pushed(x) => if |q| < cap then Some(q + [x]) else None
        case Full => if |q| == cap then Some(q) else None
        case Popped(x) => if q != [] && q[0] == x then Some(q[1..]) else None
        case Empty => if q == [] then Some(q) else None
        case SeenEmpty(answer) => if answer == (q == []) then Some(q) else None
  }

  function Contents<T>(s: State<T>): seq<T>
    requires |s.popped| <= |s.pushed|
  {
    s.pushed[|s.popped|..]
  }

  // ---------- The invariant

  ghost predicate Indices<T>(s: State<T>) {
    && |s.buffer| == Capacity(s) && s.bits <= 63
    && s.head == |s.pushed| % TWO_64 && s.tail == |s.popped| % TWO_64
    && s.cachedTail == s.seenTail % TWO_64 && s.cachedHead == s.seenHead % TWO_64
    && s.seenTail <= |s.popped| <= s.seenHead <= |s.pushed| <= s.seenTail + Capacity(s)
  }

  ghost predicate Stored<T>(s: State<T>)
    requires Indices(s)
  {
    && s.popped == s.pushed[..|s.popped|]
    && forall p :: |s.popped| <= p < |s.pushed| ==> s.buffer[Wrap(p, Capacity(s))] == s.pushed[p]
  }

  ghost predicate ProducerOk<T>(s: State<T>)
    requires Indices(s)
  {
    match s.producer
    case ProducerIdle => true
    case Reload(head, _) => head == s.head
    case Write(head, _) => head == s.head && |s.pushed| < s.seenTail + Capacity(s)
    case Publish(head, item) =>
      head == s.head && |s.pushed| < s.seenTail + Capacity(s) && s.buffer[Wrap(|s.pushed|, Capacity(s))] == item
  }

  ghost predicate ConsumerOk<T>(s: State<T>)
    requires Indices(s)
  {
    match s.consumer
    case ConsumerIdle => true
    case Refresh(tail) => tail == s.tail
    case Look(tail) => tail == s.tail
    case Read(tail) => tail == s.tail && |s.popped| < s.seenHead
    case Release(tail, item) => tail == s.tail && |s.popped| < s.seenHead && s.pushed[|s.popped|] == item
  }

  ghost predicate Inv<T>(s: State<T>) {
    && Indices(s) && Stored(s) && ProducerOk(s) && ConsumerOk(s)
    && Replay(s.log, Capacity(s)) == Some(Contents(s))
  }

  lemma {:induction false} CapacityFits(bits: nat)
    requires bits <= 63
    ensures Pow2(bits) <= TWO_63
  {
    TopPower(bits);
  }

  /** A wrapped index selects the slot of the unwrapped position. */
  lemma {:induction false} SlotOfPosition<T>(s: State<T>, p: nat)
    requires s.bits <= 63
    ensures Slot(s, p % TWO_64) == Wrap(p, Capacity(s)) < Capacity(s)
  {
    Pow2Of64();
    WrapIsRemainder(p);
    WrapTwice(p, s.bits, 64);
    MaskWraps(p % TWO_64, s.bits);
  }

  // ---------- Word arithmetic

  lemma {:induction false} WordMinus(a: nat, b: nat)
    requires b <= a < b + TWO_64
    ensures Minus(a % TWO_64, b % TWO_64) == a - b
  {
  }

  lemma {:induction false} WordEqual(a: nat, b: nat)
    requires a <= b < a + TWO_64
    ensures a % TWO_64 == b % TWO_64 <==> a == b
  {
  }

  lemma {:induction false} WordNext(a: nat)
    ensures (a % TWO_64 + 1) % TWO_64 == (a + 1) % TWO_64
  {
  }

  lemma {:induction false} ReplayGrows<T>(log: seq<Outcome<T>>, e: Outcome<T>, cap: nat, q: seq<T>, q': seq<T>)
    requires Replay(log, cap) == Some(q)
    requires match e
             case Pushed(x) => |q| < cap && q' == q + [x]
             case Full => |q| == cap && q' == q
             case Popped(x) => q != [] && q[0] == x && q' == q[1..]
             case Empty => q == [] && q' == q
             case SeenEmpty(answer) => answer == (q == []) && q' == q
    ensures Replay(log + [e], cap) == Some(q')
  {
  }

  // ---------- The steps

  lemma {:induction false} ReloadKeeps<T>(s: State<T>)
    requires Inv(s) && s.producer.Reload?
    ensures Inv(ProducerStep(s))
  {
    CapacityFits(s.bits);
    WordMinus(|s.pushed|, |s.popped|);
    var s' := ProducerStep(s);
    if |s.pushed| - |s.popped| >= Capacity(s) {
      ReplayGrows(s.log, Full, Capacity(s), Contents(s), Contents(s));
    }
    assert Contents(s') == Contents(s);
  }

  lemma {:induction false} WriteKeeps<T>(s: State<T>)
    requires Inv(s) && s.producer.Write?
    ensures Inv(ProducerStep(s))
  {
    var s' := ProducerStep(s);
    var cap := Capacity(s);
    SlotOfPosition(s, |s.pushed|);
    assert s'.buffer == s.buffer[Wrap(|s.pushed|, cap) := s.producer.item];
    forall p | |s'.popped| <= p < |s'.pushed| ensures s'.buffer[Wrap(p, cap)] == s'.pushed[p] {
      if Wrap(p, cap) == Wrap(|s.pushed|, cap) {
        WrapApart(p, |s.pushed|, cap);
      }
    }
    assert Contents(s') == Contents(s);
  }

  lemma {:induction false} SnocSplits<A>(xs: seq<A>, n: nat, x: A)
    requires n <= |xs|
    ensures (xs + [x])[n..] == xs[n..] + [x] && (xs + [x])[..n] == xs[..n]
  {
  }

  lemma {:induction false} PublishIndices<T>(s: State<T>)
    requires Indices(s) && ProducerOk(s) && s.producer.Publish?
    ensures Indices(ProducerStep(s))
  {
    WordNext(|s.pushed|);
  }

  /** A ring holding the items from `n` on holds one more. */
  lemma {:induction false} RingGrows<T>(buffer: seq<T>, pushed: seq<T>, n: nat, item: T)
    requires |buffer| > 0 && n <= |pushed| && buffer[Wrap(|pushed|, |buffer|)] == item
    requires forall p :: n <= p < |pushed| ==> buffer[Wrap(p, |buffer|)] == pushed[p]
    ensures forall p :: n <= p < |pushed + [item]| ==> buffer[Wrap(p, |buffer|)] == (pushed + [item])[p]
  {
  }

  lemma {:induction false} PublishStores<T>(s: State<T>)
    requires Indices(s) && Stored(s) && ProducerOk(s) && s.producer.Publish?
    ensures Indices(ProducerStep(s)) && Stored(ProducerStep(s))
  {
    PublishIndices(s);
    SnocSplits(s.pushed, |s.popped|, s.producer.item);
    RingGrows(s.buffer, s.pushed, |s.popped|, s.producer.item);
  }

  lemma {:induction false} PublishKeeps<T>(s: State<T>)
    requires Inv(s) && s.producer.Publish?
    ensures Inv(ProducerStep(s))
  {
    var s' := ProducerStep(s);
    PublishStores(s);
    SnocSplits(s.pushed, |s.popped|, s.producer.item);
    ReplayGrows(s.log, Pushed(s.producer.item), Capacity(s), Contents(s), Contents(s'));
  }

  lemma {:induction false} RefreshKeeps<T>(s: State<T>)
    requires Inv(s) && s.consumer.Refresh?
    ensures Inv(ConsumerStep(s))
  {
    CapacityFits(s.bits);
    WordEqual(|s.popped|, |s.pushed|);
    var s' := ConsumerStep(s);
    if |s.popped| == |s.pushed| {
      ReplayGrows(s.log, Empty, Capacity(s), Contents(s), Contents(s));
    }
    assert Contents(s') == Contents(s);
  }

  lemma {:induction false} ReadKeeps<T>(s: State<T>)
    requires Inv(s) && s.consumer.Read?
    ensures Inv(ConsumerStep(s))
  {
    SlotOfPosition(s, |s.popped|);
    var s' := ConsumerStep(s);
    assert s'.consumer.item == s.pushed[|s.popped|];
    assert Contents(s') == Contents(s);
  }

  lemma {:induction false} ReleaseKeeps<T>(s: State<T>)
    requires Inv(s) && s.consumer.Release?
    ensures Inv(ConsumerStep(s))
  {
    var s' := ConsumerStep(s);
    var n := |s.popped|;
    WordNext(n);
    assert Contents(s') == Contents(s)[1..];
    ReplayGrows(s.log, Popped(s.consumer.item), Capacity(s), Contents(s), Contents(s'));
    assert s.pushed[..n + 1] == s.pushed[..n] + [s.pushed[n]];
  }

  lemma {:induction false} LookKeeps<T>(s: State<T>)
    requires Inv(s) && s.consumer.Look?
    ensures Inv(ConsumerStep(s))
  {
    CapacityFits(s.bits);
    WordEqual(|s.popped|, |s.pushed|);
    var s' := ConsumerStep(s);
    ReplayGrows(s.log, SeenEmpty(|s.popped| == |s.pushed|), Capacity(s), Contents(s), Contents(s));
    assert Contents(s') == Contents(s);
  }

  lemma {:induction false} BeginPushKeeps<T>(s: State<T>, item: T)
    requires Inv(s)
    ensures Inv(Do(s, BeginPush(item)))
  {
    CapacityFits(s.bits);
    WordMinus(|s.pushed|, s.seenTail);
  }

  lemma {:induction false} BeginPopKeeps<T>(s: State<T>)
    requires Inv(s)
    ensures Inv(Do(s, BeginPop))
  {
    CapacityFits(s.bits);
    WordEqual(|s.popped|, s.seenHead);
  }

  lemma {:induction false} BeginLookKeeps<T>(s: State<T>)
    requires Inv(s)
    ensures Inv(Do(s, BeginLook))
  {
    CapacityFits(s.bits);
    WordEqual(|s.popped|, s.seenHead);
    if |s.popped| < s.seenHead {
      ReplayGrows(s.log, SeenEmpty(false), Capacity(s), Contents(s), Contents(s));
    }
  }

  lemma {:induction false} DoKeeps<T>(s: State<T>, step: Step<T>)
    requires Inv(s)
    ensures Inv(Do(s, step))
  {
    match step
    case RunProducer =>
      match s.producer {
        case ProducerIdle =>
        case Reload(_, _) => ReloadKeeps(s);
        case Write(_, _) => WriteKeeps(s);
        case Publish(_, _) => PublishKeeps(s);
      }
    case RunConsumer =>
      match s.consumer {
        case ConsumerIdle =>
        case Refresh(_) => RefreshKeeps(s);
        case Read(_) => ReadKeeps(s);
        case Release(_, _) => ReleaseKeeps(s);
        case Look(_) => LookKeeps(s);
      }
    case BeginPush(item) => BeginPushKeeps(s, item);
    case BeginPop => BeginPopKeeps(s);
    case BeginLook => BeginLookKeeps(s);
  }

  lemma {:induction false} RunSafe<T>(bits: nat, buffer: seq<T>, steps: seq<Step<T>>)
    requires bits <= 63 && |buffer| == Pow2(bits)
    ensures Inv(After(bits, buffer, steps))
  {
    if steps != [] {
      RunSafe(bits, buffer, steps[..|steps| - 1]);
      DoKeeps(After(bits, buffer, steps[..|steps| - 1]), steps[|steps| - 1]);
    }
  }

  // ---------- What the ring promises

  /** Every requested capacity up to 2^63 gives a ring of a power of two of slots, at least as many as asked for. */
  lemma {:induction false} RequestedCapacity(minCapacity: nat) returns (bits: nat)
    requires minCapacity <= TWO_63
    ensures bits <= 63 && RoundUpPow2(minCapacity) == Pow2(bits) >= minCapacity
  {
    RoundsUp(minCapacity);
    Pow2Of64();
    bits :| RoundUpPow2(minCapacity) == Pow2(bits);
    if bits > 63 {
      Pow2Grows(63, bits);
    }
  }

  /** Over every run, however long and wherever the 64-bit indices wrap, the outcomes are those of a
      bounded queue of the ring's capacity; items leave in the order they came; and the cached
      indices lag behind the true ones without ever letting the ring overfill. */
  lemma {:induction false} RefinesQueue<T>(bits: nat, buffer: seq<T>, steps: seq<Step<T>>)
    requires bits <= 63 && |buffer| == Pow2(bits)
    ensures var s := After(bits, buffer, steps);
            && s.popped <= s.pushed
            && Replay(s.log, Pow2(bits)) == Some(s.pushed[|s.popped|..])
            && s.seenTail <= |s.popped| <= s.seenHead <= |s.pushed| <= s.seenTail + Pow2(bits)
            && s.head == |s.pushed| % TWO_64 && s.tail == |s.popped| % TWO_64
            && s.cachedTail == s.seenTail % TWO_64 && s.cachedHead == s.seenHead % TWO_64
  {
    RunSafe(bits, buffer, steps);
  }

  /** A write never hits a slot whose item has not been released. */
  lemma {:induction false} NoOverwrite<T>(bits: nat, buffer: seq<T>, steps: seq<Step<T>>, p: nat)
    requires bits <= 63 && |buffer| == Pow2(bits)
    requires var s := After(bits, buffer, steps); s.producer.Write? && |s.popped| <= p < |s.pushed|
    ensures var s := After(bits, buffer, steps); Slot(s, s.producer.head) != Slot(s, p % TWO_64)
  {
    RunSafe(bits, buffer, steps);
    var s := After(bits, buffer, steps);
    SlotOfPosition(s, |s.pushed|);
    SlotOfPosition(s, p);
    if Wrap(p, Capacity(s)) == Wrap(|s.pushed|, Capacity(s)) {
      WrapApart(p, |s.pushed|, Capacity(s));
    }
  }
}
