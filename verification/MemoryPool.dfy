/** The lock-free slot pool: a stack of free indices behind a generation-tagged head, as a step
    machine. One step per atomic access, any number of threads, any interleaving, compare-and-swap
    allowed to fail spuriously. */
module MemoryPool {
  const POOL_EMPTY := 0xFFFF_FFFF
  const GENERATIONS := 0x1_0000_0000
  const TWO_64 := 0x1_0000_0000_0000_0000

  // ---------- The tagged head word

  datatype Tagged = Tagged(index: nat, generation: nat)

  function Pack(index: bv32, generation: bv32): bv64 {
    ((generation as bv64) << 32) | (index as bv64)
  }

  function Unpack(word: bv64): (bv32, bv32) {
    ((word & 0xFFFF_FFFF) as bv32, (word >> 32) as bv32)
  }

  /** Comparing head words compares index and generation. */
  lemma {:induction false} PackRoundTrip(index: bv32, generation: bv32, word: bv64)
    ensures Unpack(Pack(index, generation)) == (index, generation)
    ensures Pack(Unpack(word).0, Unpack(word).1) == word
  {
  }

  // ---------- The machine

  /** Where a slot is: on the free list, with a caller, or with the thread moving it. */
  datatype Loc =
    | Free
    | Claimed(thread: nat)
    | Counted(thread: nat)
    | Held
    | Leaving(thread: nat)
    | Freeing(thread: nat)

  /** Where a thread stands; `at` is the number of head changes when it loaded the head. */
  datatype Pc =
    | Idle
    | AllocNext(index: nat, gen: nat, at: nat)
    | AllocCas(index: nat, gen: nat, next: nat, at: nat)
    | AllocCount(index: nat)
    | AllocPeak(index: nat, current: nat)
    | AllocRaise(index: nat, current: nat, seen: nat)
    | AllocOwn(index: nat)
    | FreeOwn(index: nat)
    | FreeLoad(index: nat)
    | FreeLink(index: nat, head: nat, gen: nat, at: nat)
    | FreeCas(index: nat, head: nat, gen: nat, at: nat)
    | FreeCount

  /** `changes`, `free`, `loc`, `clients`, `pending` and `peak` are history: the machine never reads them,
      except that callers free only slots they were given. */
  datatype State = State(
    head: Tagged, next: seq<nat>, owned: seq<bool>, inUse: nat, highWater: nat, threads: map<nat, Pc>,
    alarms: nat, changes: nat, free: seq<nat>, loc: seq<Loc>, clients: multiset<nat>, pending: set<nat>, peak: nat)

  datatype Step = BeginAllocate(thread: nat) | BeginFree(thread: nat, index: nat) | Run(thread: nat, spurious: bool)

  function Put<A>(xs: seq<A>, i: nat, x: A): seq<A> {
    if i < |xs| then xs[i := x] else xs
  }

  function PcOf(s: State, t: nat): Pc {
    if t in s.threads then s.threads[t] else Idle
  }

  function Goto(s: State, t: nat, pc: Pc): State {
    s.(threads := s.threads[t := pc])
  }

  /** After loading the head: give up on an empty list, else go on to read the successor. */
  function Loaded(s: State): Pc {
    if s.head.index == POOL_EMPTY then Idle else AllocNext(s.head.index, s.head.generation, s.changes)
  }

  function Swing(s: State, index: nat, gen: nat): State {
    s.(head := Tagged(index, (gen + 1) % GENERATIONS), changes := s.changes + 1)
  }

  function AllocateStep(s: State, t: nat, spurious: bool): (s': State)
    ensures |s'.loc| == |s.loc|
  {
    match PcOf(s, t)
    case AllocNext(index, gen, at) =>
      Goto(s, t, AllocCas(index, gen, if index < |s.next| then s.next[index] else POOL_EMPTY, at))
    case AllocCas(index, gen, next, at) =>
      if s.head == Tagged(index, gen) && !spurious then
        Goto(Swing(s, next, gen), t, AllocCount(index))
          .(free := if s.free == [] then [] else s.free[1..], loc := Put(s.loc, index, Claimed(t)))
      else Goto(s, t, Loaded(s))
    case AllocCount(index) =>
      Goto(s, t, AllocPeak(index, s.inUse + 1))
        .(inUse := s.inUse + 1, loc := Put(s.loc, index, Counted(t)),
          peak := if s.inUse + 1 > s.peak then s.inUse + 1 else s.peak)
    case AllocPeak(index, current) =>
      Goto(s, t, if current > s.highWater then AllocRaise(index, current, s.highWater) else AllocOwn(index))
    case AllocRaise(index, current, seen) =>
      if s.highWater == seen && !spurious then Goto(s, t, AllocOwn(index)).(highWater := current)
      else Goto(s, t, if current > s.highWater then AllocRaise(index, current, s.highWater) else AllocOwn(index))
    case AllocOwn(index) =>
      Goto(s, t, Idle).(
        owned := Put(s.owned, index, true), loc := Put(s.loc, index, Held), clients := s.clients + multiset{index},
        alarms := s.alarms + if index < |s.owned| && s.owned[index] then 1 else 0)
    case _ => s
  }

  function FreeStep(s: State, t: nat, spurious: bool): (s': State)
    ensures |s'.loc| == |s.loc|
  {
    match PcOf(s, t)
    case FreeOwn(index) =>
      Goto(s, t, FreeLoad(index)).(
        owned := Put(s.owned, index, false), loc := Put(s.loc, index, Freeing(t)),
        alarms := s.alarms + if index < |s.owned| && !s.owned[index] then 1 else 0)
    case FreeLoad(index) => Goto(s, t, FreeLink(index, s.head.index, s.head.generation, s.changes))
    case FreeLink(index, head, gen, at) => Goto(s, t, FreeCas(index, head, gen, at)).(next := Put(s.next, index, head))
    case FreeCas(index, head, gen, at) =>
      if s.head == Tagged(head, gen) && !spurious then
        Goto(Swing(s, index, gen), t, FreeCount)
          .(free := [index] + s.free, loc := Put(s.loc, index, Free), pending := s.pending + {t})
      else Goto(s, t, FreeLink(index, s.head.index, s.head.generation, s.changes))
    case FreeCount => Goto(s, t, Idle).(inUse := if s.inUse == 0 then TWO_64 - 1 else s.inUse - 1, pending := s.pending - {t})
    case _ => s
  }

  /** Any thread may take its next step. A call starts only on an idle thread, and only slots a
      caller was given and has not freed since are freed. */
  function Do(s: State, step: Step): (s': State)
    ensures |s'.loc| == |s.loc|
  {
    var t := step.thread;
    match step
    case BeginAllocate(_) => if PcOf(s, t).Idle? then Goto(s, t, Loaded(s)) else s
    case BeginFree(_, index) =>
      if PcOf(s, t).Idle? && index in s.clients then
        Goto(s, t, FreeOwn(index)).(clients := s.clients - multiset{index}, loc := Put(s.loc, index, Leaving(t)))
      else s
    case Run(_, spurious) =>
      var pc := PcOf(s, t);
      if pc.FreeOwn? || pc.FreeLoad? || pc.FreeLink? || pc.FreeCas? || pc.FreeCount? then FreeStep(s, t, spurious)
      else AllocateStep(s, t, spurious)
  }

  /** The constructor chains all slots in index order. */
  function Fresh(capacity: nat): State {
    State(Tagged(0, 0), seq(capacity, i => if i + 1 < capacity then i + 1 else POOL_EMPTY), seq(capacity, i => false), 0, 0, map[],
          0, 0, seq(capacity, i => i), seq(capacity, i => Free), multiset{}, {}, 0)
  }

  function After(capacity: nat, steps: seq<Step>): (s: State)
    ensures |s.loc| == capacity
  {
    if steps == [] then Fresh(capacity)
    else Do(After(capacity, steps[..|steps| - 1]), steps[|steps| - 1])
  }

  /** A step keeps the sizes and moves no other thread. */
  ghost predicate Local(s: State, t: nat, s': State) {
    && |s'.next| == |s.next| && |s'.loc| == |s.loc| && |s'.owned| == |s.owned|
    && (forall u :: u != t ==> PcOf(s', u) == PcOf(s, u))
  }

  lemma {:induction false} AllocateLocal(s: State, t: nat, spurious: bool)
    ensures Local(s, t, AllocateStep(s, t, spurious))
  {
  }

  lemma {:induction false} FreeLocal(s: State, t: nat, spurious: bool)
    ensures Local(s, t, FreeStep(s, t, spurious))
  {
  }

  lemma {:induction false} StepLocal(s: State, step: Step)
    ensures Local(s, step.thread, Do(s, step))
  {
    if step.Run? {
      AllocateLocal(s, step.thread, step.spurious);
      FreeLocal(s, step.thread, step.spurious);
    }
  }

  // ---------- The invariant

  /** The free list hangs off the head, visits no slot twice, and holds exactly the free slots. */
  ghost predicate FreeOk(s: State) {
    && s.head.index == (if s.free == [] then POOL_EMPTY else s.free[0])
    && (forall i :: 0 <= i < |s.free| ==> LinkOk(s, i))
    && (forall i, j :: 0 <= i < j < |s.free| ==> s.free[i] != s.free[j])
    && (forall k :: 0 <= k < |s.loc| ==> (s.loc[k].Free? <==> k in s.free))
  }

  /** The head's tag counts its changes, modulo the width of the tag. */
  ghost predicate TagOk(s: State) {
    s.head.generation == s.changes % GENERATIONS
  }

  ghost predicate LinkOk(s: State, i: nat)
    requires i < |s.free|
  {
    s.free[i] < |s.next| && s.next[s.free[i]] == if i + 1 < |s.free| then s.free[i + 1] else POOL_EMPTY
  }

  /** The ownership flags, and what callers hold, follow the slots. */
  ghost predicate FlagsOk(s: State)
    requires |s.owned| == |s.loc|
  {
    && (forall k :: 0 <= k < |s.loc| ==> FlagOk(s, k))
    && (forall k :: k in s.clients ==> k < |s.loc|)
    && s.alarms == 0
  }

  ghost predicate FlagOk(s: State, k: nat)
    requires k < |s.loc| == |s.owned|
  {
    && (s.owned[k] <==> s.loc[k].Held? || s.loc[k].Leaving?)
    && s.clients[k] == if s.loc[k].Held? then 1 else 0
  }

  /** What a loaded head still says while no one has changed it. */
  ghost predicate Snapshot(s: State, index: nat, gen: nat, at: nat) {
    at <= s.changes && gen == at % GENERATIONS && (at == s.changes ==> s.head.index == index)
  }

  ghost predicate At(s: State, index: nat, l: Loc) {
    index < |s.loc| && s.loc[index] == l
  }

  ghost predicate ThreadOk(s: State, t: nat, pc: Pc) {
    match pc
    case Idle => true
    case AllocNext(index, gen, at) => index < |s.loc| && Snapshot(s, index, gen, at)
    case AllocCas(index, gen, next, at) =>
      index < |s.loc| && index < |s.next| && Snapshot(s, index, gen, at) && (at == s.changes ==> s.next[index] == next)
    case AllocCount(index) => At(s, index, Claimed(t))
    case AllocPeak(index, current) => At(s, index, Counted(t)) && current <= s.peak
    case AllocRaise(index, current, seen) => At(s, index, Counted(t)) && seen < current <= s.peak
    case AllocOwn(index) => At(s, index, Counted(t))
    case FreeOwn(index) => At(s, index, Leaving(t))
    case FreeLoad(index) => At(s, index, Freeing(t))
    case FreeLink(index, head, gen, at) => At(s, index, Freeing(t)) && Snapshot(s, head, gen, at)
    case FreeCas(index, head, gen, at) =>
      At(s, index, Freeing(t)) && Snapshot(s, head, gen, at) && index < |s.next| && s.next[index] == head
    case FreeCount => true
  }

  ghost predicate ThreadsOk(s: State) {
    forall t :: t in s.threads ==> ThreadOk(s, t, s.threads[t])
  }

  /** A slot in transit has its thread at work on it. */
  predicate Attends(pc: Pc, l: Loc, k: nat) {
    match l
    case Claimed(_) => pc.AllocCount? && pc.index == k
    case Counted(_) => (pc.AllocPeak? || pc.AllocRaise? || pc.AllocOwn?) && pc.index == k
    case Leaving(_) => pc.FreeOwn? && pc.index == k
    case Freeing(_) => (pc.FreeLoad? || pc.FreeLink? || pc.FreeCas?) && pc.index == k
    case _ => true
  }

  predicate InTransit(l: Loc) {
    l.Claimed? || l.Counted? || l.Leaving? || l.Freeing?
  }

  ghost predicate Attended(s: State) {
    forall k :: 0 <= k < |s.loc| && InTransit(s.loc[k]) ==> Attends(PcOf(s, s.loc[k].thread), s.loc[k], k)
  }

  /** Slots the statistics count: everything off the free list, once its allocation has been counted. */
  function Busy(loc: seq<Loc>): nat {
    if loc == [] then 0
    else Busy(loc[..|loc| - 1]) + if loc[|loc| - 1].Free? || loc[|loc| - 1].Claimed? then 0 else 1
  }

  ghost predicate CountOk(s: State) {
    && s.inUse == Busy(s.loc) + |s.pending|
    && (forall t :: t in s.pending <==> PcOf(s, t).FreeCount?)
  }

  /** A thread that has counted but not yet raised the high-water mark. */
  predicate Raising(pc: Pc, current: nat) {
    (pc.AllocPeak? || pc.AllocRaise?) && pc.current == current
  }

  ghost predicate PeakOk(s: State) {
    && s.inUse <= s.peak && s.highWater <= s.peak
    && (s.highWater < s.peak ==> exists t :: t in s.threads && Raising(s.threads[t], s.peak))
  }

  ghost predicate Inv(s: State) {
    && |s.next| == |s.owned| == |s.loc| < POOL_EMPTY
    && FreeOk(s) && TagOk(s) && FlagsOk(s) && ThreadsOk(s) && Attended(s) && CountOk(s) && PeakOk(s)
  }

  /** No allocating thread sleeps through 2^32 changes of the head between loading it and swapping it. */
  ghost predicate Prompt(s: State) {
    forall t :: t in s.threads && s.threads[t].AllocCas? ==> s.changes < s.threads[t].at + GENERATIONS
  }

  ghost predicate PromptRun(capacity: nat, steps: seq<Step>) {
    Prompt(After(capacity, steps)) && (steps != [] ==> PromptRun(capacity, steps[..|steps| - 1]))
  }

  /** The runs the pool is proved safe for: all of them with a single slot, else those of prompt threads. */
  ghost predicate Trusted(capacity: nat, steps: seq<Step>) {
    capacity == 1 || PromptRun(capacity, steps)
  }

  // ---------- What a step leaves to the other threads

  /** Nothing thread `u` relies on is undone. */
  ghost predicate Evolves(s: State, s': State, u: nat) {
    && |s'.loc| == |s.loc| == |s'.next| == |s.next| && s.changes <= s'.changes && s.peak <= s'.peak
    && (s'.changes == s.changes ==>
          s'.head == s.head && (s.head.index < |s.next| ==> s'.next[s.head.index] == s.next[s.head.index]))
    && (forall k :: 0 <= k < |s.loc| && InTransit(s.loc[k]) && s.loc[k].thread == u ==>
          s'.loc[k] == s.loc[k] && s'.next[k] == s.next[k])
  }

  lemma {:induction false} OtherKeeps(s: State, s': State, u: nat, pc: Pc)
    requires Evolves(s, s', u) && ThreadOk(s, u, pc)
    ensures ThreadOk(s', u, pc)
  {
  }

  lemma {:induction false} ThreadsKeep(s: State, s': State, t: nat, pc: Pc)
    requires ThreadsOk(s) && s'.threads == s.threads[t := pc] && ThreadOk(s', t, pc)
    requires forall u :: u != t ==> Evolves(s, s', u)
    ensures ThreadsOk(s')
  {
    forall u | u in s'.threads && u != t ensures ThreadOk(s', u, s'.threads[u]) {
      OtherKeeps(s, s', u, s.threads[u]);
    }
  }

  /** Slots change hands only through the thread that moves. */
  lemma {:induction false} AttendedKeeps(s: State, s': State, t: nat, pc: Pc)
    requires Attended(s) && s'.threads == s.threads[t := pc] && |s'.loc| == |s.loc|
    requires forall k :: 0 <= k < |s.loc| && s'.loc[k] != s.loc[k] && InTransit(s'.loc[k]) ==>
               s'.loc[k].thread == t && Attends(pc, s'.loc[k], k)
    requires forall k :: 0 <= k < |s.loc| && s'.loc[k] == s.loc[k] && InTransit(s.loc[k]) && s.loc[k].thread == t ==>
               Attends(pc, s.loc[k], k)
    ensures Attended(s')
  {
  }

  lemma {:induction false} CountKeeps(s: State, s': State, t: nat, pc: Pc)
    requires CountOk(s) && s'.threads == s.threads[t := pc] && !pc.FreeCount? && !PcOf(s, t).FreeCount?
    requires s'.pending == s.pending && s'.inUse - Busy(s'.loc) == s.inUse - Busy(s.loc)
    ensures CountOk(s')
  {
  }

  /** The peak stays witnessed unless the thread that moves was its witness. */
  lemma {:induction false} PeakKeeps(s: State, s': State, t: nat, pc: Pc)
    requires PeakOk(s) && s'.threads == s.threads[t := pc]
    requires s'.inUse <= s.inUse && s'.peak == s.peak && s'.highWater == s.highWater
    requires Raising(PcOf(s, t), s.peak) ==> Raising(pc, s.peak) || s.highWater == s.peak
    ensures PeakOk(s')
  {
    if s.highWater < s.peak {
      var u :| u in s.threads && Raising(s.threads[u], s.peak);
      if u == t {
        assert Raising(s'.threads[t], s'.peak);
      } else {
        assert s'.threads[u] == s.threads[u];
      }
    }
  }

  lemma {:induction false} BusyUpdate(loc: seq<Loc>, k: nat, l: Loc)
    requires k < |loc|
    ensures Busy(loc[k := l]) + Busy([loc[k]]) == Busy(loc) + Busy([l])
  {
    var n := |loc| - 1;
    if k < n {
      BusyUpdate(loc[..n], k, l);
      assert loc[k := l][..n] == loc[..n][k := l];
    } else {
      assert loc[k := l][..n] == loc[..n];
      assert [l][..0] == [] && [loc[k]][..0] == [];
    }
  }

  // ---------- The steps

  /** A step that only moves one thread on. */
  lemma {:induction false} GotoKeeps(s: State, t: nat, pc: Pc)
    requires Inv(s) && ThreadOk(s, t, pc) && !pc.FreeCount? && !PcOf(s, t).FreeCount?
    requires forall k, l :: InTransit(l) && Attends(PcOf(s, t), l, k) ==> Attends(pc, l, k)
    requires Raising(PcOf(s, t), s.peak) ==> Raising(pc, s.peak) || s.highWater == s.peak
    ensures Inv(Goto(s, t, pc))
  {
    var s' := Goto(s, t, pc);
    ThreadsKeep(s, s', t, pc);
    AttendedKeeps(s, s', t, pc);
    CountKeeps(s, s', t, pc);
    PeakKeeps(s, s', t, pc);
    FreeSame(s, s');
    FlagsSame(s, s');
  }

  lemma {:induction false} FreeSame(s: State, s': State)
    requires FreeOk(s) && s'.head == s.head && s'.changes == s.changes && s'.free == s.free && |s'.loc| == |s.loc|
    requires |s'.next| == |s.next| && forall k :: k in s.free && k < |s.next| ==> s'.next[k] == s.next[k]
    requires forall k :: 0 <= k < |s.loc| ==> (s'.loc[k].Free? <==> s.loc[k].Free?)
    ensures FreeOk(s')
  {
    forall i | 0 <= i < |s'.free| ensures LinkOk(s', i) {
      assert LinkOk(s, i);
    }
  }

  lemma {:induction false} FlagsSame(s: State, s': State)
    requires |s.owned| == |s.loc| && FlagsOk(s)
    requires s'.owned == s.owned && s'.clients == s.clients && s'.alarms == s.alarms && |s'.loc| == |s.loc|
    requires forall k :: 0 <= k < |s.loc| ==> s'.loc[k] == s.loc[k] || !(s.loc[k].Held? || s.loc[k].Leaving? || s'.loc[k].Held? || s'.loc[k].Leaving?)
    ensures FlagsOk(s')
  {
    forall k | 0 <= k < |s'.loc| ensures FlagOk(s', k) {
      assert FlagOk(s, k);
    }
  }

  lemma {:induction false} LinkKeeps(s: State, t: nat)
    requires Inv(s) && PcOf(s, t).FreeLink?
    ensures Inv(FreeStep(s, t, false))
  {
    var pc := PcOf(s, t);
    var pc' := FreeCas(pc.index, pc.head, pc.gen, pc.at);
    var s' := FreeStep(s, t, false);
    NotFree(s, pc.index);
    ThreadsKeep(s, s', t, pc');
    AttendedKeeps(s, s', t, pc');
    CountKeeps(s, s', t, pc');
    PeakKeeps(s, s', t, pc');
    FreeSame(s, s');
    FlagsSame(s, s');
  }

  lemma {:induction false} NotFree(s: State, k: nat)
    requires FreeOk(s) && k < |s.loc| && !s.loc[k].Free?
    ensures k !in s.free && (k < POOL_EMPTY ==> s.head.index != k)
  {
  }

  lemma {:induction false} BeginFreeKeeps(s: State, t: nat, index: nat)
    requires Inv(s) && PcOf(s, t).Idle? && index in s.clients
    ensures Inv(Do(s, BeginFree(t, index)))
  {
    var s' := Do(s, BeginFree(t, index));
    assert FlagOk(s, index);
    BusyUpdate(s.loc, index, Leaving(t));
    ThreadsKeep(s, s', t, FreeOwn(index));
    AttendedKeeps(s, s', t, FreeOwn(index));
    CountKeeps(s, s', t, FreeOwn(index));
    PeakKeeps(s, s', t, FreeOwn(index));
    FreeSame(s, s');
    forall k | 0 <= k < |s'.loc| ensures FlagOk(s', k) {
      assert FlagOk(s, k);
    }
  }

  lemma {:induction false} FreeOwnKeeps(s: State, t: nat)
    requires Inv(s) && PcOf(s, t).FreeOwn?
    ensures Inv(FreeStep(s, t, false))
  {
    var index := PcOf(s, t).index;
    var s' := FreeStep(s, t, false);
    assert FlagOk(s, index);
    BusyUpdate(s.loc, index, Freeing(t));
    ThreadsKeep(s, s', t, FreeLoad(index));
    AttendedKeeps(s, s', t, FreeLoad(index));
    CountKeeps(s, s', t, FreeLoad(index));
    PeakKeeps(s, s', t, FreeLoad(index));
    FreeSame(s, s');
    forall k | 0 <= k < |s'.loc| ensures FlagOk(s', k) {
      assert FlagOk(s, k);
    }
  }

  lemma {:induction false} AllocOwnKeeps(s: State, t: nat)
    requires Inv(s) && PcOf(s, t).AllocOwn?
    ensures Inv(AllocateStep(s, t, false))
  {
    var index := PcOf(s, t).index;
    var s' := AllocateStep(s, t, false);
    assert FlagOk(s, index);
    BusyUpdate(s.loc, index, Held);
    ThreadsKeep(s, s', t, Idle);
    AttendedKeeps(s, s', t, Idle);
    CountKeeps(s, s', t, Idle);
    PeakKeeps(s, s', t, Idle);
    FreeSame(s, s');
    forall k | 0 <= k < |s'.loc| ensures FlagOk(s', k) {
      assert FlagOk(s, k);
    }
  }

  /** The state after a claimed slot has been counted. */
  function Tallied(s: State, t: nat, index: nat): State
    requires index < |s.loc|
  {
    Goto(s, t, AllocPeak(index, s.inUse + 1))
      .(inUse := s.inUse + 1, loc := s.loc[index := Loc.Counted(t)], peak := if s.inUse + 1 > s.peak then s.inUse + 1 else s.peak)
  }

  lemma {:induction false} TalliedThreads(s: State, t: nat, index: nat)
    requires Inv(s) && PcOf(s, t) == AllocCount(index) && At(s, index, Claimed(t))
    ensures ThreadsOk(Tallied(s, t, index)) && Attended(Tallied(s, t, index))
  {
    var s', pc' := Tallied(s, t, index), AllocPeak(index, s.inUse + 1);
    ThreadsKeep(s, s', t, pc');
    AttendedKeeps(s, s', t, pc');
  }

  lemma {:induction false} TalliedCount(s: State, t: nat, index: nat)
    requires CountOk(s) && PeakOk(s) && PcOf(s, t) == AllocCount(index) && At(s, index, Claimed(t))
    ensures CountOk(Tallied(s, t, index)) && PeakOk(Tallied(s, t, index))
  {
    var s', pc' := Tallied(s, t, index), AllocPeak(index, s.inUse + 1);
    BusyUpdate(s.loc, index, Loc.Counted(t));
    CountKeeps(s, s', t, pc');
    PeakCounts(s, s', t, pc');
  }

  lemma {:induction false} AllocCountKeeps(s: State, t: nat)
    requires Inv(s) && PcOf(s, t).AllocCount?
    ensures Inv(AllocateStep(s, t, false))
  {
    var index := PcOf(s, t).index;
    assert ThreadOk(s, t, PcOf(s, t));
    var s' := Tallied(s, t, index);
    assert AllocateStep(s, t, false) == s';
    TalliedThreads(s, t, index);
    TalliedCount(s, t, index);
    FreeSame(s, s');
    FlagsSame(s, s');
  }

  /** A count above the peak so far is a new peak, witnessed by the thread that made it. */
  lemma {:induction false} PeakCounts(s: State, s': State, t: nat, pc: Pc)
    requires PeakOk(s) && s'.threads == s.threads[t := pc] && pc.AllocPeak? && pc.current == s'.inUse == s.inUse + 1
    requires s'.peak == (if s'.inUse > s.peak then s'.inUse else s.peak) && s'.highWater == s.highWater && PcOf(s, t).AllocCount?
    ensures PeakOk(s')
  {
    if s.inUse + 1 > s.peak {
      assert Raising(s'.threads[t], s'.peak);
    } else if s.highWater < s.peak {
      var u :| u in s.threads && Raising(s.threads[u], s.peak);
      assert s'.threads[u] == s.threads[u];
    }
  }

  lemma {:induction false} RaiseKeeps(s: State, t: nat)
    requires Inv(s) && PcOf(s, t).AllocRaise? && PcOf(s, t).seen == s.highWater
    ensures Inv(AllocateStep(s, t, false))
  {
    var pc := PcOf(s, t);
    var pc' := AllocOwn(pc.index);
    var s' := AllocateStep(s, t, false);
    ThreadsKeep(s, s', t, pc');
    AttendedKeeps(s, s', t, pc');
    CountKeeps(s, s', t, pc');
    FreeSame(s, s');
    FlagsSame(s, s');
    if s'.highWater < s'.peak {
      var u :| u in s.threads && Raising(s.threads[u], s.peak);
      assert s'.threads[u] == s.threads[u];
    }
  }

  lemma {:induction false} FreeCountKeeps(s: State, t: nat)
    requires Inv(s) && PcOf(s, t).FreeCount?
    ensures Inv(FreeStep(s, t, false))
  {
    var s' := FreeStep(s, t, false);
    assert t in s.pending;
    ThreadsKeep(s, s', t, Idle);
    AttendedKeeps(s, s', t, Idle);
    forall u ensures u in s'.pending <==> PcOf(s', u).FreeCount? {
      assert u in s.pending <==> PcOf(s, u).FreeCount?;
    }
    PeakKeeps(s, s', t, Idle);
    FreeSame(s, s');
    FlagsSame(s, s');
  }

  // ---------- The swaps of the head

  lemma {:induction false} SwingKeepsTag(s: State, s': State, index: nat)
    requires TagOk(s) && s'.head == Swing(s, index, s.head.generation).head && s'.changes == s.changes + 1
    ensures TagOk(s')
  {
  }

  /** The successor a thread is about to install, if the head word is still the one it loaded, is the true one. */
  ghost predicate Current(s: State, t: nat) {
    var pc := PcOf(s, t);
    pc.AllocCas? && s.head == Tagged(pc.index, pc.gen) ==> pc.index < |s.next| && s.next[pc.index] == pc.next
  }

  /** No ABA: a prompt thread's allocating swap succeeds only if the head has not changed since it was loaded. A freeing
      swap that succeeds is right in any case: it has linked its slot to the head it replaces. */
  lemma {:induction false} SwapMeansUnchanged(s: State, t: nat)
    requires Inv(s)
    ensures var pc := PcOf(s, t);
            && (Prompt(s) && pc.AllocCas? && s.head == Tagged(pc.index, pc.gen) ==>
                  pc.at == s.changes && s.free != [] && s.free[0] == pc.index && s.next[pc.index] == pc.next)
            && (pc.FreeCas? && s.head == Tagged(pc.head, pc.gen) ==> s.head.index == pc.head == s.next[pc.index])
  {
  }

  /** Exactly how far the tag reaches: a head word equal to the one loaded means an unchanged head if and only if
      fewer than 2^32 changes lie between. */
  lemma {:induction false} TagExactly(s: State, t: nat)
    requires Inv(s)
    ensures var pc := PcOf(s, t);
            && (pc.AllocCas? && s.head == Tagged(pc.index, pc.gen) ==> (pc.at == s.changes <==> s.changes < pc.at + GENERATIONS))
            && (pc.FreeCas? && s.head == Tagged(pc.head, pc.gen) ==> (pc.at == s.changes <==> s.changes < pc.at + GENERATIONS))
  {
    assert t in s.threads ==> ThreadOk(s, t, s.threads[t]);
  }

  lemma {:induction false} AllocCasKeeps(s: State, t: nat)
    requires Inv(s) && PcOf(s, t).AllocCas? && s.head == Tagged(PcOf(s, t).index, PcOf(s, t).gen) && Current(s, t)
    ensures Inv(AllocateStep(s, t, false))
  {
    var index := PcOf(s, t).index;
    var s' := AllocateStep(s, t, false);
    assert ThreadOk(s, t, PcOf(s, t));
    assert s.free[0] in s.free;
    BusyUpdate(s.loc, index, Claimed(t));
    ThreadsKeep(s, s', t, AllocCount(index));
    AttendedKeeps(s, s', t, AllocCount(index));
    CountKeeps(s, s', t, AllocCount(index));
    PeakKeeps(s, s', t, AllocCount(index));
    FlagsSame(s, s');
    PopFree(s, s', t);
    SwingKeepsTag(s, s', s'.head.index);
  }

  /** A successful swap keeps the pool in order exactly when the successor it installs is the true one. */
  lemma {:induction false} SwapExactly(s: State, t: nat)
    requires Inv(s) && PcOf(s, t).AllocCas? && s.head == Tagged(PcOf(s, t).index, PcOf(s, t).gen)
    ensures Inv(AllocateStep(s, t, false)) <==> Current(s, t)
  {
    if Current(s, t) {
      AllocCasKeeps(s, t);
    } else {
      assert ThreadOk(s, t, PcOf(s, t)) && LinkOk(s, 0);
      assert AllocateStep(s, t, false).free == s.free[1..];
    }
  }

  lemma {:induction false} PopFree(s: State, s': State, t: nat)
    requires FreeOk(s) && s.free != [] && s.free[0] < |s.loc| == |s.next| && s'.free == s.free[1..] && s'.next == s.next
    requires s'.loc == s.loc[s.free[0] := Claimed(t)]
    requires s'.head.index == s.next[s.free[0]]
    ensures FreeOk(s')
  {
    assert LinkOk(s, 0);
    forall i | 0 <= i < |s'.free| ensures LinkOk(s', i) {
      assert LinkOk(s, i + 1);
    }
    assert s.free == [s.free[0]] + s'.free;
  }

  lemma {:induction false} FreeCasKeeps(s: State, t: nat)
    requires Inv(s) && PcOf(s, t).FreeCas? && s.head == Tagged(PcOf(s, t).head, PcOf(s, t).gen)
    ensures Inv(FreeStep(s, t, false))
  {
    assert ThreadOk(s, t, PcOf(s, t));
    var index := PcOf(s, t).index;
    var s' := FreeStep(s, t, false);
    ThreadsKeep(s, s', t, FreeCount);
    AttendedKeeps(s, s', t, FreeCount);
    CountPends(s, s', t, index);
    PeakKeeps(s, s', t, FreeCount);
    FlagsSame(s, s');
    PushFree(s, s', index);
    SwingKeepsTag(s, s', index);
  }

  /** A slot put back is no longer busy, but its thread still owes the decrement. */
  lemma {:induction false} CountPends(s: State, s': State, t: nat, index: nat)
    requires CountOk(s) && s'.threads == s.threads[t := FreeCount] && !PcOf(s, t).FreeCount?
    requires At(s, index, Freeing(t)) && s'.loc == s.loc[index := Free]
    requires s'.pending == s.pending + {t} && s'.inUse == s.inUse
    ensures CountOk(s')
  {
    BusyUpdate(s.loc, index, Free);
    assert t !in s.pending;
    forall u ensures u in s'.pending <==> PcOf(s', u).FreeCount? {
      assert u in s.pending <==> PcOf(s, u).FreeCount?;
    }
  }

  lemma {:induction false} PushFree(s: State, s': State, index: nat)
    requires FreeOk(s) && index < |s.loc| && !s.loc[index].Free? && s'.free == [index] + s.free && s'.next == s.next
    requires index < |s.next| && s.next[index] == s.head.index
    requires s'.loc == s.loc[index := Free]
    requires s'.head.index == index
    ensures FreeOk(s')
  {
    NotFree(s, index);
    forall i | 0 <= i < |s'.free| ensures LinkOk(s', i) {
      if i > 0 {
        assert LinkOk(s, i - 1);
      }
    }
    forall i, j | 0 <= i < j < |s'.free| ensures s'.free[i] != s'.free[j] {
      if i == 0 {
        assert s'.free[j] in s.free;
      }
    }
  }

  // ---------- Every step

  lemma {:induction false} LoadedOk(s: State, t: nat)
    requires Inv(s)
    ensures ThreadOk(s, t, Loaded(s))
  {
    if s.free != [] {
      assert LinkOk(s, 0);
    }
  }

  lemma {:induction false} AllocateKeeps(s: State, t: nat, spurious: bool)
    requires Inv(s) && Current(s, t)
    ensures Inv(AllocateStep(s, t, spurious))
  {
    LoadedOk(s, t);
    match PcOf(s, t)
    case AllocNext(index, gen, at) => GotoKeeps(s, t, AllocCas(index, gen, s.next[index], at));
    case AllocCas(index, gen, _, _) =>
      if s.head == Tagged(index, gen) && !spurious {
        AllocCasKeeps(s, t);
      } else {
        GotoKeeps(s, t, Loaded(s));
      }
    case AllocCount(_) => AllocCountKeeps(s, t);
    case AllocPeak(index, current) =>
      GotoKeeps(s, t, if current > s.highWater then AllocRaise(index, current, s.highWater) else AllocOwn(index));
    case AllocRaise(index, current, seen) =>
      if s.highWater == seen && !spurious {
        RaiseKeeps(s, t);
      } else {
        GotoKeeps(s, t, if current > s.highWater then AllocRaise(index, current, s.highWater) else AllocOwn(index));
      }
    case AllocOwn(_) => AllocOwnKeeps(s, t);
    case _ =>
  }

  lemma {:induction false} FreeKeeps(s: State, t: nat, spurious: bool)
    requires Inv(s)
    ensures Inv(FreeStep(s, t, spurious))
  {
    match PcOf(s, t)
    case FreeOwn(_) => FreeOwnKeeps(s, t);
    case FreeLoad(index) => GotoKeeps(s, t, FreeLink(index, s.head.index, s.head.generation, s.changes));
    case FreeLink(_, _, _, _) => LinkKeeps(s, t);
    case FreeCas(index, head, gen, _) =>
      if s.head == Tagged(head, gen) && !spurious {
        FreeCasKeeps(s, t);
      } else {
        GotoKeeps(s, t, FreeLink(index, s.head.index, s.head.generation, s.changes));
      }
    case FreeCount => FreeCountKeeps(s, t);
    case _ =>
  }

  lemma {:induction false} DoKeeps(s: State, step: Step)
    requires Inv(s) && Current(s, step.thread)
    ensures Inv(Do(s, step))
  {
    match step
    case BeginAllocate(t) =>
      if PcOf(s, t).Idle? {
        LoadedOk(s, t);
        GotoKeeps(s, t, Loaded(s));
      }
    case BeginFree(t, index) =>
      if PcOf(s, t).Idle? && index in s.clients {
        BeginFreeKeeps(s, t, index);
      }
    case Run(t, spurious) =>
      AllocateKeeps(s, t, spurious);
      FreeKeeps(s, t, spurious);
  }

  lemma {:induction false} BusyFresh(capacity: nat)
    ensures Busy(seq(capacity, i => Free)) == 0
  {
    if capacity > 0 {
      BusyFresh(capacity - 1);
      assert seq(capacity, i => Free)[..capacity - 1] == seq(capacity - 1, i => Free);
    }
  }

  lemma {:induction false} FreshInv(capacity: nat)
    requires 0 < capacity < POOL_EMPTY
    ensures Inv(Fresh(capacity))
  {
    var s := Fresh(capacity);
    BusyFresh(capacity);
    assert s.loc == seq(capacity, i => Free);
    forall k | 0 <= k < |s.loc| ensures FlagOk(s, k) && k in s.free {
      assert s.free[k] == k;
    }
    forall i | 0 <= i < |s.free| ensures LinkOk(s, i) {
    }
  }

  // ---------- A single slot

  /** With one slot the only successor there is, anywhere, is none. */
  ghost predicate Solo(s: State) {
    && |s.loc| == 1 && s.next == [POOL_EMPTY]
    && forall t :: t in s.threads ==> SoloPc(s.threads[t])
  }

  predicate SoloPc(pc: Pc) {
    && (pc.AllocCas? ==> pc.next == POOL_EMPTY)
    && (pc.FreeLink? || pc.FreeCas? ==> pc.head == POOL_EMPTY)
  }

  lemma {:induction false} HeadIsFree(s: State)
    requires FreeOk(s) && s.free != []
    ensures s.head.index < |s.next| && (s.head.index < |s.loc| ==> s.loc[s.head.index].Free?)
  {
    assert LinkOk(s, 0);
    assert s.free[0] in s.free;
  }

  /** While the slot is being freed the list is empty. */
  lemma {:induction false} SoloHead(s: State, t: nat)
    requires Inv(s) && Solo(s) && (PcOf(s, t).FreeLoad? || PcOf(s, t).FreeCas?)
    ensures s.head.index == POOL_EMPTY
  {
    assert ThreadOk(s, t, PcOf(s, t));
    if s.free != [] {
      HeadIsFree(s);
    }
  }

  lemma {:induction false} SoloAllocate(s: State, t: nat, spurious: bool)
    requires Inv(s) && Solo(s)
    ensures var s' := AllocateStep(s, t, spurious); s'.next == s.next && SoloPc(PcOf(s', t))
  {
    assert ThreadOk(s, t, PcOf(s, t));
  }

  lemma {:induction false} SoloFree(s: State, t: nat, spurious: bool)
    requires Inv(s) && Solo(s)
    ensures var s' := FreeStep(s, t, spurious); s'.next == [POOL_EMPTY] && SoloPc(PcOf(s', t))
  {
    assert ThreadOk(s, t, PcOf(s, t));
    if PcOf(s, t).FreeLoad? || PcOf(s, t).FreeCas? {
      SoloHead(s, t);
    }
  }

  lemma {:induction false} SoloKeeps(s: State, step: Step)
    requires Inv(s) && Solo(s)
    ensures Solo(Do(s, step))
  {
    var t, s' := step.thread, Do(s, step);
    StepLocal(s, step);
    if step.Run? {
      SoloAllocate(s, t, step.spurious);
      SoloFree(s, t, step.spurious);
    }
    forall u | u in s'.threads ensures SoloPc(s'.threads[u]) {
      if u != t {
        assert PcOf(s', u) == PcOf(s, u);
      }
    }
  }

  lemma {:induction false} SoloSafe(steps: seq<Step>)
    ensures Inv(After(1, steps)) && Solo(After(1, steps))
  {
    if steps == [] {
      FreshInv(1);
    } else {
      var prefix := steps[..|steps| - 1];
      SoloSafe(prefix);
      var s, step := After(1, prefix), steps[|steps| - 1];
      assert ThreadOk(s, step.thread, PcOf(s, step.thread));
      DoKeeps(s, step);
      SoloKeeps(s, step);
    }
  }

  // ---------- Every run

  lemma {:induction false} PromptSafe(capacity: nat, steps: seq<Step>)
    requires 0 < capacity < POOL_EMPTY && (steps != [] ==> PromptRun(capacity, steps[..|steps| - 1]))
    ensures Inv(After(capacity, steps))
  {
    if steps == [] {
      FreshInv(capacity);
    } else {
      var prefix := steps[..|steps| - 1];
      PromptSafe(capacity, prefix);
      SwapMeansUnchanged(After(capacity, prefix), steps[|steps| - 1].thread);
      DoKeeps(After(capacity, prefix), steps[|steps| - 1]);
    }
  }

  lemma {:induction false} RunSafe(capacity: nat, steps: seq<Step>)
    requires 0 < capacity < POOL_EMPTY && Trusted(capacity, steps)
    ensures Inv(After(capacity, steps))
  {
    if capacity == 1 {
      SoloSafe(steps);
    } else {
      PromptSafe(capacity, steps);
    }
  }

  // ---------- What the pool promises

  /** Over every run no slot has two holders, and neither ownership assertion ever fires. */
  lemma {:induction false} OneHolder(capacity: nat, steps: seq<Step>, k: nat)
    requires 0 < capacity < POOL_EMPTY && Trusted(capacity, steps)
    ensures After(capacity, steps).clients[k] <= 1
    ensures After(capacity, steps).alarms == 0
  {
    RunSafe(capacity, steps);
    var s := After(capacity, steps);
    if k < capacity {
      assert FlagOk(s, k);
    } else {
      assert k !in s.clients;
    }
  }

  /** A slot a caller holds is neither on the free list nor in any thread's hands. */
  lemma {:induction false} HeldApart(capacity: nat, steps: seq<Step>, k: nat, t: nat)
    requires 0 < capacity < POOL_EMPTY && Trusted(capacity, steps) && k in After(capacity, steps).clients
    ensures var s := After(capacity, steps); var pc := PcOf(s, t);
            && k < capacity && k !in s.free
            && (pc.AllocCount? || pc.AllocPeak? || pc.AllocRaise? || pc.AllocOwn? || pc.FreeOwn? || pc.FreeLoad? || pc.FreeLink? || pc.FreeCas? ==>
                  pc.index != k)
  {
    RunSafe(capacity, steps);
    var s := After(capacity, steps);
    assert FlagOk(s, k);
    NotFree(s, k);
    assert ThreadOk(s, t, PcOf(s, t));
  }

  /** Following `next` from the head visits exactly the free list: no cycle, no stray slot. */
  function Walk(next: seq<nat>, index: nat, fuel: nat): seq<nat>
    decreases fuel
  {
    if fuel == 0 || index >= |next| then [] else [index] + Walk(next, next[index], fuel - 1)
  }

  lemma {:induction false} WalkIsFree(s: State, i: nat, fuel: nat)
    requires Inv(s) && i <= |s.free| && fuel >= |s.free| - i
    ensures Walk(s.next, if i < |s.free| then s.free[i] else POOL_EMPTY, fuel) == s.free[i..]
    decreases |s.free| - i
  {
    if i < |s.free| {
      assert LinkOk(s, i);
      WalkIsFree(s, i + 1, fuel - 1);
    }
  }

  /** However long one follows the links, the walk ends after the free slots, each met once. */
  lemma {:induction false} Acyclic(capacity: nat, steps: seq<Step>, fuel: nat)
    requires 0 < capacity < POOL_EMPTY && Trusted(capacity, steps) && fuel >= capacity
    ensures var s := After(capacity, steps); var walk := Walk(s.next, s.head.index, fuel);
            && (forall i, j :: 0 <= i < j < |walk| ==> walk[i] != walk[j])
            && (forall k :: k in walk ==> k < capacity && k !in s.clients)
            && |walk| <= capacity
  {
    RunSafe(capacity, steps);
    var s := After(capacity, steps);
    forall k | k in s.free ensures k < capacity && k !in s.clients {
      var i :| 0 <= i < |s.free| && s.free[i] == k;
      assert LinkOk(s, i) && FlagOk(s, k);
    }
    DistinctBound(s.free, capacity);
    WalkIsFree(s, 0, fuel);
    assert s.free[0..] == s.free;
  }

  lemma {:induction false} DistinctBound(xs: seq<nat>, n: nat)
    requires (forall i, j :: 0 <= i < j < |xs| ==> xs[i] != xs[j]) && forall x :: x in xs ==> x < n
    ensures |xs| <= n
  {
    assert xs == [] || xs[0] in xs;
    if n == 0 {
    } else if n - 1 in xs {
      var i :| 0 <= i < |xs| && xs[i] == n - 1;
      var rest := xs[..i] + xs[i + 1..];
      forall x | x in rest ensures x < n - 1 {
        var j :| 0 <= j < |rest| && rest[j] == x;
        assert x == xs[if j < i then j else j + 1] && x in xs;
      }
      DistinctBound(rest, n - 1);
    } else {
      DistinctBound(xs, n - 1);
    }
  }

  /** `allocate` gives up only when no slot is free at that moment. */
  lemma {:induction false} NullMeansExhausted(capacity: nat, steps: seq<Step>, k: nat)
    requires 0 < capacity < POOL_EMPTY && Trusted(capacity, steps) && k < capacity
    requires Loaded(After(capacity, steps)).Idle?
    ensures var l := After(capacity, steps).loc[k]; l.Held? || InTransit(l)
  {
    RunSafe(capacity, steps);
    HeadInRange(After(capacity, steps));
  }

  lemma {:induction false} HeadInRange(s: State)
    requires Inv(s)
    ensures s.free != [] ==> s.head.index < |s.next|
  {
    if s.free != [] {
      assert LinkOk(s, 0);
    }
  }

  /** Number of indices below `n` that callers hold. */
  ghost function HeldBelow(clients: multiset<nat>, n: nat): nat {
    if n == 0 then 0 else HeldBelow(clients, n - 1) + clients[n - 1]
  }

  /** With no call in flight the statistics are exact: `allocated` counts the slots callers hold, every
      other slot is free, and the high-water mark is the largest value `allocated` ever had. */
  lemma {:induction false} QuiescentStatistics(capacity: nat, steps: seq<Step>)
    requires 0 < capacity < POOL_EMPTY && Trusted(capacity, steps)
    requires forall t :: PcOf(After(capacity, steps), t).Idle?
    ensures var s := After(capacity, steps);
            && s.inUse == HeldBelow(s.clients, capacity) <= capacity
            && s.highWater == s.peak
            && (forall k :: 0 <= k < capacity ==> (k in s.free <==> k !in s.clients))
  {
    RunSafe(capacity, steps);
    var s := After(capacity, steps);
    assert s.pending == {} by {
      forall t ensures t !in s.pending {
        assert t in s.pending <==> PcOf(s, t).FreeCount?;
      }
    }
    forall k | 0 <= k < capacity ensures FlagOk(s, k) && !InTransit(s.loc[k]) {
    }
    BusyIsHeld(s, capacity);
    assert s.loc[..capacity] == s.loc;
    forall t | t in s.threads ensures !Raising(s.threads[t], s.peak) {
      assert PcOf(s, t).Idle?;
    }
  }

  lemma {:induction false} BusyIsHeld(s: State, n: nat)
    requires n <= |s.loc| == |s.owned| && forall k :: 0 <= k < n ==> FlagOk(s, k) && !InTransit(s.loc[k])
    ensures Busy(s.loc[..n]) == HeldBelow(s.clients, n) <= n
  {
    if n > 0 {
      BusyIsHeld(s, n - 1);
      assert s.loc[..n][..n - 1] == s.loc[..n - 1];
      assert FlagOk(s, n - 1);
    }
  }

  /** The running maximum of `allocated`, defined from the run itself. */
  function Highest(capacity: nat, steps: seq<Step>): nat {
    var now := After(capacity, steps).inUse;
    if steps == [] then now
    else
      var before := Highest(capacity, steps[..|steps| - 1]);
      if now > before then now else before
  }

  lemma {:induction false} PeakIsHighest(capacity: nat, steps: seq<Step>)
    requires 0 < capacity < POOL_EMPTY && Trusted(capacity, steps)
    ensures After(capacity, steps).peak == Highest(capacity, steps)
  {
    if steps != [] {
      var prefix := steps[..|steps| - 1];
      PeakIsHighest(capacity, prefix);
      RunSafe(capacity, prefix);
      PeakSteps(After(capacity, prefix), steps[|steps| - 1]);
    }
  }

  /** The peak follows the count. */
  ghost predicate PeakFollows(s: State, s': State) {
    s'.peak == if s'.inUse > s.peak then s'.inUse else s.peak
  }

  lemma {:induction false} PeakAllocates(s: State, t: nat, spurious: bool)
    requires PeakOk(s)
    ensures PeakFollows(s, AllocateStep(s, t, spurious))
  {
  }

  lemma {:induction false} PeakFrees(s: State, t: nat, spurious: bool)
    requires PeakOk(s) && CountOk(s)
    ensures PeakFollows(s, FreeStep(s, t, spurious))
  {
  }

  lemma {:induction false} PeakSteps(s: State, step: Step)
    requires Inv(s)
    ensures PeakFollows(s, Do(s, step))
  {
    if step.Run? {
      PeakAllocates(s, step.thread, step.spurious);
      PeakFrees(s, step.thread, step.spurious);
    }
  }
}
