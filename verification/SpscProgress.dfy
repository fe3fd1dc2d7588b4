/** Calls on the single-producer single-consumer ring end: a push begun on a ring with room, and a pop begun on a ring with
    an item, succeed after at most three steps of their own, whatever the other side does in between. */
module SpscProgress {
  import Bits
  import opened Spsc

  function Play<T>(s: State<T>, steps: seq<Step<T>>): (s': State<T>)
    requires |s.buffer| == Capacity(s)
    ensures |s'.buffer| == Capacity(s') && s'.bits == s.bits
    decreases |steps|
  {
    if steps == [] then s else Play(Do(s, steps[0]), steps[1..])
  }

  // ---------- Push

  function ProducerSteps<T>(steps: seq<Step<T>>): nat {
    if steps == [] then 0 else ProducerSteps(steps[1..]) + if steps[0].RunProducer? then 1 else 0
  }

  /** How many steps of its own a push has ahead of it at most. */
  function PushAhead<T>(p: Producer<T>): nat {
    match p
    case ProducerIdle => 0
    case Publish(_, _) => 1
    case Write(_, _) => 2
    case Reload(_, _) => 3
  }

  /** The push of `item` onto `before` has been published, or is under way and has room. */
  ghost predicate Pushing<T>(s: State<T>, before: seq<T>, item: T) {
    if s.producer.ProducerIdle? then s.pushed == before + [item]
    else s.pushed == before && s.producer.item == item && |s.pushed| < |s.popped| + Capacity(s)
  }

  lemma {:induction false} ReloadGoesOn<T>(s: State<T>)
    requires Inv(s) && s.producer.Reload? && |s.pushed| < |s.popped| + Capacity(s)
    ensures ProducerStep(s).producer == Write(s.producer.head, s.producer.item)
  {
    CapacityFits(s.bits);
    WordMinus(|s.pushed|, |s.popped|);
  }

  lemma {:induction false} ConsumerAside<T>(s: State<T>, step: Step<T>)
    requires |s.buffer| == Capacity(s) && !step.BeginPush? && !step.RunProducer?
    ensures var s' := Do(s, step);
            s'.producer == s.producer && s'.pushed == s.pushed && |s.popped| <= |s'.popped| && Capacity(s') == Capacity(s)
  {
  }

  lemma {:induction false} PushMoves<T>(s: State<T>, before: seq<T>, item: T)
    requires Inv(s) && Pushing(s, before, item)
    ensures Pushing(ProducerStep(s), before, item)
    ensures PushAhead(ProducerStep(s).producer) <= PushAhead(s.producer) - 1 || s.producer.ProducerIdle?
    ensures s.producer.ProducerIdle? ==> ProducerStep(s) == s
  {
    if s.producer.Reload? {
      ReloadGoesOn(s);
    }
  }

  /** A step of either side other than the start of another push. */
  lemma {:induction false} PushGoesOn<T>(s: State<T>, step: Step<T>, before: seq<T>, item: T)
    requires Inv(s) && Pushing(s, before, item) && !step.BeginPush?
    ensures Pushing(Do(s, step), before, item)
    ensures var a, b := PushAhead(s.producer), PushAhead(Do(s, step).producer);
            if step.RunProducer? then b <= a - 1 || a == b == 0 else b == a
  {
    if step.RunProducer? {
      PushMoves(s, before, item);
    } else {
      ConsumerAside(s, step);
    }
  }

  lemma {:induction false} PushEnds<T>(s: State<T>, steps: seq<Step<T>>, before: seq<T>, item: T)
    requires Inv(s) && Pushing(s, before, item) && PushAhead(s.producer) <= ProducerSteps(steps)
    requires forall i :: 0 <= i < |steps| ==> !steps[i].BeginPush?
    ensures Play(s, steps).producer.ProducerIdle? && Play(s, steps).pushed == before + [item]
    decreases |steps|
  {
    if steps != [] {
      PushGoesOn(s, steps[0], before, item);
      DoKeeps(s, steps[0]);
      PushEnds(Do(s, steps[0]), steps[1..], before, item);
    }
  }

  lemma {:induction false} PushStarts<T>(s: State<T>, item: T)
    requires Inv(s) && s.producer.ProducerIdle? && |Contents(s)| < Capacity(s)
    ensures Inv(Do(s, BeginPush(item))) && Pushing(Do(s, BeginPush(item)), s.pushed, item)
    ensures PushAhead(Do(s, BeginPush(item)).producer) <= 3
  {
    DoKeeps(s, BeginPush(item));
  }

  /** A push begun after any run on a ring with room publishes its item within three of its own steps, however the
      consumer's steps fall in between. */
  lemma {:induction false} PushSucceeds<T>(bits: nat, buffer: seq<T>, run: seq<Step<T>>, item: T, steps: seq<Step<T>>)
    requires bits <= 63 && |buffer| == Bits.Pow2(bits)
    requires var s := After(bits, buffer, run); s.producer.ProducerIdle? && |s.pushed| < |s.popped| + Bits.Pow2(bits)
    requires ProducerSteps(steps) >= 3 && forall i :: 0 <= i < |steps| ==> !steps[i].BeginPush?
    ensures var s := After(bits, buffer, run); var s' := Play(Do(s, BeginPush(item)), steps);
            s'.producer.ProducerIdle? && s'.pushed == s.pushed + [item]
  {
    var s := After(bits, buffer, run);
    RunSafe(bits, buffer, run);
    PushStarts(s, item);
    PushEnds(Do(s, BeginPush(item)), steps, s.pushed, item);
  }

  /** On a full ring, with the consumer at rest, it reports so. */
  lemma {:induction false} PushReportsFull<T>(s: State<T>, item: T)
    requires Inv(s) && s.producer.ProducerIdle? && |Contents(s)| == Capacity(s)
    ensures var s' := Do(Do(s, BeginPush(item)), RunProducer);
            s'.producer.ProducerIdle? && s'.pushed == s.pushed && s'.log == s.log + [Full]
  {
    CapacityFits(s.bits);
    WordMinus(|s.pushed|, s.seenTail);
    WordMinus(|s.pushed|, |s.popped|);
  }

  // ---------- Pop

  function ConsumerSteps<T>(steps: seq<Step<T>>): nat {
    if steps == [] then 0 else ConsumerSteps(steps[1..]) + if steps[0].RunConsumer? then 1 else 0
  }

  function PopAhead<T>(c: Consumer<T>): nat {
    match c
    case Release(_, _) => 1
    case Read(_) => 2
    case Refresh(_) => 3
    case _ => 0
  }

  /** The pop of `item` behind `before` has been released, or is under way with the item in front. */
  ghost predicate Popping<T>(s: State<T>, before: seq<T>, item: T) {
    if s.consumer.ConsumerIdle? then s.popped == before + [item]
    else !s.consumer.Look? && s.popped == before && |s.popped| < |s.pushed| && s.pushed[|s.popped|] == item
  }

  lemma {:induction false} RefreshGoesOn<T>(s: State<T>)
    requires Inv(s) && s.consumer.Refresh? && |s.popped| < |s.pushed|
    ensures ConsumerStep(s).consumer == Read(s.consumer.tail)
  {
    CapacityFits(s.bits);
    WordEqual(|s.popped|, |s.pushed|);
  }

  lemma {:induction false} ProducerAside<T>(s: State<T>, step: Step<T>)
    requires |s.buffer| == Capacity(s) && !step.BeginPop? && !step.BeginLook? && !step.RunConsumer?
    ensures var s' := Do(s, step); s'.consumer == s.consumer && s'.popped == s.popped && s.pushed <= s'.pushed
  {
  }

  lemma {:induction false} PopMoves<T>(s: State<T>, before: seq<T>, item: T)
    requires Inv(s) && Popping(s, before, item)
    ensures Popping(ConsumerStep(s), before, item)
    ensures PopAhead(ConsumerStep(s).consumer) <= PopAhead(s.consumer) - 1 || s.consumer.ConsumerIdle?
    ensures s.consumer.ConsumerIdle? ==> ConsumerStep(s) == s
  {
    if s.consumer.Refresh? {
      RefreshGoesOn(s);
    }
  }

  lemma {:induction false} PopGoesOn<T>(s: State<T>, step: Step<T>, before: seq<T>, item: T)
    requires Inv(s) && Popping(s, before, item) && !step.BeginPop? && !step.BeginLook?
    ensures Popping(Do(s, step), before, item)
    ensures var a, b := PopAhead(s.consumer), PopAhead(Do(s, step).consumer);
            if step.RunConsumer? then b <= a - 1 || a == b == 0 else b == a
  {
    if step.RunConsumer? {
      PopMoves(s, before, item);
    } else {
      ProducerAside(s, step);
    }
  }

  lemma {:induction false} PopEnds<T>(s: State<T>, steps: seq<Step<T>>, before: seq<T>, item: T)
    requires Inv(s) && Popping(s, before, item) && PopAhead(s.consumer) <= ConsumerSteps(steps)
    requires forall i :: 0 <= i < |steps| ==> !steps[i].BeginPop? && !steps[i].BeginLook?
    ensures Play(s, steps).consumer.ConsumerIdle? && Play(s, steps).popped == before + [item]
    decreases |steps|
  {
    if steps != [] {
      PopGoesOn(s, steps[0], before, item);
      DoKeeps(s, steps[0]);
      PopEnds(Do(s, steps[0]), steps[1..], before, item);
    }
  }

  lemma {:induction false} PopStarts<T>(s: State<T>)
    requires Inv(s) && s.consumer.ConsumerIdle? && |s.popped| < |s.pushed|
    ensures Inv(Do(s, BeginPop)) && Popping(Do(s, BeginPop), s.popped, s.pushed[|s.popped|])
    ensures PopAhead(Do(s, BeginPop).consumer) <= 3
  {
    DoKeeps(s, BeginPop);
  }

  /** A pop begun after any run on a ring with an item releases the oldest one within three of its own steps, however the
      producer's steps fall in between. */
  lemma {:induction false} PopSucceeds<T>(bits: nat, buffer: seq<T>, run: seq<Step<T>>, steps: seq<Step<T>>)
    requires bits <= 63 && |buffer| == Bits.Pow2(bits)
    requires var s := After(bits, buffer, run); s.consumer.ConsumerIdle? && |s.popped| < |s.pushed|
    requires ConsumerSteps(steps) >= 3 && forall i :: 0 <= i < |steps| ==> !steps[i].BeginPop? && !steps[i].BeginLook?
    ensures var s := After(bits, buffer, run); var s' := Play(Do(s, BeginPop), steps);
            s'.consumer.ConsumerIdle? && s'.popped == s.popped + [s.pushed[|s.popped|]]
  {
    var s := After(bits, buffer, run);
    RunSafe(bits, buffer, run);
    PopStarts(s);
    PopEnds(Do(s, BeginPop), steps, s.popped, s.pushed[|s.popped|]);
  }

  /** On an empty ring, with the producer at rest, it reports so. */
  lemma {:induction false} PopReportsEmpty<T>(s: State<T>)
    requires Inv(s) && s.consumer.ConsumerIdle? && Contents(s) == []
    ensures var s' := Do(Do(s, BeginPop), RunConsumer);
            s'.consumer.ConsumerIdle? && s'.popped == s.popped && s'.log == s.log + [Empty]
  {
    CapacityFits(s.bits);
    WordEqual(|s.popped|, s.seenHead);
  }
}
