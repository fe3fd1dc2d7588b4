/** Why a slot pool of more than one slot needs prompt threads: one that sleeps between loading the head and swapping it,
    while the head changes exactly 2^32 times, installs a stale successor, and a slot gets a second holder. */
module PoolWrap {
  import opened MemoryPool

  // ---------- Runs from any state

  ghost predicate Linked(trace: seq<State>, steps: seq<Step>, i: nat)
    requires i < |steps| < |trace|
  {
    trace[i + 1] == Do(trace[i], steps[i])
  }

  ghost predicate Trace(trace: seq<State>, steps: seq<Step>) {
    |trace| == |steps| + 1 && forall i :: 0 <= i < |steps| ==> Linked(trace, steps, i)
  }

  ghost predicate Leads(s: State, s': State) {
    exists trace, steps :: Trace(trace, steps) && trace[0] == s && trace[|steps|] == s'
  }

  lemma {:induction false} LeadsHere(s: State)
    ensures Leads(s, s)
  {
    assert Trace([s], []);
  }

  lemma {:induction false} LeadsOnce(s: State, step: Step)
    ensures Leads(s, Do(s, step))
  {
    var trace, steps := [s, Do(s, step)], [step];
    assert Linked(trace, steps, 0);
    assert Trace(trace, steps);
  }

  lemma {:induction false} LeadsThrough(a: State, b: State, c: State)
    requires Leads(a, b) && Leads(b, c)
    ensures Leads(a, c)
  {
    var trace, steps :| Trace(trace, steps) && trace[0] == a && trace[|steps|] == b;
    var trace', steps' :| Trace(trace', steps') && trace'[0] == b && trace'[|steps'|] == c;
    TraceConcat(trace, steps, trace', steps');
  }

  lemma {:induction false} LinkedLike(trace: seq<State>, steps: seq<Step>, i: nat,
                                      trace': seq<State>, steps': seq<Step>, k: nat)
    requires i < |steps| < |trace| && k < |steps'| < |trace'| && Linked(trace, steps, i)
    requires trace'[k] == trace[i] && trace'[k + 1] == trace[i + 1] && steps'[k] == steps[i]
    ensures Linked(trace', steps', k)
  {
  }

  lemma {:induction false} TraceConcat(trace: seq<State>, steps: seq<Step>, trace': seq<State>, steps': seq<Step>)
    requires Trace(trace, steps) && Trace(trace', steps') && trace[|steps|] == trace'[0]
    ensures Trace(trace + trace'[1..], steps + steps')
    ensures (trace + trace'[1..])[|steps + steps'|] == trace'[|steps'|]
  {
    forall i | 0 <= i < |steps + steps'| ensures Linked(trace + trace'[1..], steps + steps', i) {
      if i < |steps| {
        LinkedLike(trace, steps, i, trace + trace'[1..], steps + steps', i);
      } else {
        LinkedLike(trace', steps', i - |steps|, trace + trace'[1..], steps + steps', i);
      }
    }
  }

  lemma {:induction false} TraceAfter(capacity: nat, trace: seq<State>, steps: seq<Step>, n: nat)
    requires Trace(trace, steps) && trace[0] == Fresh(capacity) && n <= |steps|
    ensures After(capacity, steps[..n]) == trace[n]
    decreases n
  {
    if n > 0 {
      TraceAfter(capacity, trace, steps, n - 1);
      assert Linked(trace, steps, n - 1);
      assert steps[..n][..n - 1] == steps[..n - 1];
    }
  }

  lemma {:induction false} LeadsAfter(capacity: nat, s: State)
    requires Leads(Fresh(capacity), s)
    ensures exists steps :: After(capacity, steps) == s
  {
    var trace, steps :| Trace(trace, steps) && trace[0] == Fresh(capacity) && trace[|steps|] == s;
    TraceAfter(capacity, trace, steps, |steps|);
    assert steps[..|steps|] == steps;
  }

  // ---------- Calls that no one disturbs

  predicate Sized(s: State, n: nat) {
    |s.next| == |s.loc| == |s.owned| == n < POOL_EMPTY
  }

  /** Thread `t` ran alone from `s` to `s'` and now stands at `pc`. */
  ghost predicate Alone(s: State, t: nat, s': State, pc: Pc) {
    && Leads(s, s') && PcOf(s', t) == pc
    && Local(s, t, s') && Sized(s', |s.next|)
  }

  lemma {:induction false} AloneOn(s: State, t: nat, s1: State, pc: Pc, s2: State, pc': Pc)
    requires Alone(s, t, s1, pc) && Alone(s1, t, s2, pc')
    ensures Alone(s, t, s2, pc')
  {
    LeadsThrough(s, s1, s2);
  }

  lemma {:induction false} OneStep(s: State, t: nat, step: Step) returns (s': State)
    requires Sized(s, |s.next|) && step.thread == t
    ensures s' == Do(s, step) && Alone(s, t, s', PcOf(s', t))
  {
    s' := Do(s, step);
    LeadsOnce(s, step);
    StepLocal(s, step);
  }

  /** Popping the head. */
  lemma {:induction false} Take(s: State, t: nat) returns (s': State)
    requires Sized(s, |s.next|) && PcOf(s, t).Idle? && s.head.index < |s.next|
    ensures Alone(s, t, s', AllocCount(s.head.index))
    ensures s'.head == Tagged(s.next[s.head.index], (s.head.generation + 1) % GENERATIONS)
    ensures s'.next == s.next && s'.clients == s.clients
  {
    var s1 := OneStep(s, t, BeginAllocate(t));
    var s2 := OneStep(s1, t, Run(t, false));
    s' := OneStep(s2, t, Run(t, false));
    AloneOn(s, t, s1, PcOf(s1, t), s2, PcOf(s2, t));
    AloneOn(s, t, s2, PcOf(s2, t), s', PcOf(s', t));
  }

  /** From the popped slot to the return of the allocation. */
  lemma {:induction false} Deliver(s: State, t: nat) returns (s': State)
    requires Sized(s, |s.next|) && PcOf(s, t).AllocCount?
    ensures Alone(s, t, s', Idle)
    ensures s'.head == s.head && s'.next == s.next && s'.clients == s.clients + multiset{PcOf(s, t).index}
  {
    var s1 := OneStep(s, t, Run(t, false));
    var s2 := OneStep(s1, t, Run(t, false));
    AloneOn(s, t, s1, PcOf(s1, t), s2, PcOf(s2, t));
    var s3 := s2;
    if PcOf(s2, t).AllocRaise? {
      s3 := OneStep(s2, t, Run(t, false));
      AloneOn(s, t, s2, PcOf(s2, t), s3, PcOf(s3, t));
    }
    s' := OneStep(s3, t, Run(t, false));
    AloneOn(s, t, s3, PcOf(s3, t), s', PcOf(s', t));
  }

  lemma {:induction false} AllocateAlone(s: State, t: nat) returns (s': State)
    requires Sized(s, |s.next|) && PcOf(s, t).Idle? && s.head.index < |s.next|
    ensures Alone(s, t, s', Idle)
    ensures s'.head == Tagged(s.next[s.head.index], (s.head.generation + 1) % GENERATIONS)
    ensures s'.next == s.next && s'.clients == s.clients + multiset{s.head.index}
  {
    var s1 := Take(s, t);
    s' := Deliver(s1, t);
    AloneOn(s, t, s1, PcOf(s1, t), s', Idle);
  }

  /** A caller hands slot `i` back. */
  lemma {:induction false} HandBack(s: State, t: nat, i: nat) returns (s': State)
    requires Sized(s, |s.next|) && PcOf(s, t).Idle? && i in s.clients
    ensures Alone(s, t, s', FreeLoad(i))
    ensures s'.head == s.head && s'.next == s.next && s'.clients == s.clients - multiset{i}
  {
    var s1 := OneStep(s, t, BeginFree(t, i));
    s' := OneStep(s1, t, Run(t, false));
    AloneOn(s, t, s1, PcOf(s1, t), s', PcOf(s', t));
  }

  /** Pushing a slot, to the return of the call. */
  lemma {:induction false} Push(s: State, t: nat, i: nat) returns (s': State)
    requires Sized(s, |s.next|) && PcOf(s, t) == FreeLoad(i) && i < |s.next|
    ensures Alone(s, t, s', Idle)
    ensures s'.head == Tagged(i, (s.head.generation + 1) % GENERATIONS)
    ensures s'.next == s.next[i := s.head.index] && s'.clients == s.clients
  {
    var s1 := OneStep(s, t, Run(t, false));
    var s2 := OneStep(s1, t, Run(t, false));
    AloneOn(s, t, s1, PcOf(s1, t), s2, PcOf(s2, t));
    var s3 := OneStep(s2, t, Run(t, false));
    AloneOn(s, t, s2, PcOf(s2, t), s3, PcOf(s3, t));
    s' := OneStep(s3, t, Run(t, false));
    AloneOn(s, t, s3, PcOf(s3, t), s', PcOf(s', t));
  }

  lemma {:induction false} FreeAlone(s: State, t: nat, i: nat) returns (s': State)
    requires Sized(s, |s.next|) && PcOf(s, t).Idle? && i in s.clients && i < |s.next|
    ensures Alone(s, t, s', Idle)
    ensures s'.head == Tagged(i, (s.head.generation + 1) % GENERATIONS)
    ensures s'.next == s.next[i := s.head.index] && s'.clients == s.clients - multiset{i}
  {
    var s1 := HandBack(s, t, i);
    s' := Push(s1, t, i);
    AloneOn(s, t, s1, PcOf(s1, t), s', Idle);
  }

  // ---------- The long sleep

  /** The slots behind slot 1 in a fresh pool. */
  function Behind(capacity: nat): nat {
    if capacity > 2 then 2 else POOL_EMPTY
  }

  ghost predicate Setup(s: State, capacity: nat, head: Tagged, first: nat, second: nat, clients: multiset<nat>) {
    && Sized(s, capacity) && capacity >= 2 && PcOf(s, 1).Idle?
    && s.head == head && s.next[0] == first && s.next[1] == second && s.clients == clients
  }

  /** Thread 0 is about to swap slot 0 for its stale successor 1, with tag 3. Slot 1 is held, slot 0 is free, and the head
      has changed `n` times since thread 0 loaded it. */
  ghost predicate Asleep(s: State, capacity: nat, n: nat) {
    && Setup(s, capacity, Tagged(0, (3 + n) % GENERATIONS), Behind(capacity), Behind(capacity), multiset{1})
    && Dreams(PcOf(s, 0))
  }

  predicate Dreams(pc: Pc) {
    pc.AllocCas? && pc.index == 0 && pc.gen == 3 && pc.next == 1
  }

  lemma {:induction false} Cycle(s: State, capacity: nat, n: nat) returns (s': State)
    requires Asleep(s, capacity, n)
    ensures Leads(s, s') && Asleep(s', capacity, n + 2)
  {
    var s1 := AllocateAlone(s, 1);
    s' := FreeAlone(s1, 1, 0);
    LeadsThrough(s, s1, s');
    Twice(3 + n);
  }

  lemma {:induction false} Twice(n: nat)
    ensures ((n % GENERATIONS + 1) % GENERATIONS + 1) % GENERATIONS == (n + 2) % GENERATIONS
  {
  }

  lemma {:induction false} Cycles(s: State, capacity: nat, n: nat, rounds: nat) returns (s': State)
    requires Asleep(s, capacity, n)
    ensures Leads(s, s') && Asleep(s', capacity, n + 2 * rounds)
    decreases rounds, n
  {
    if rounds == 0 {
      s' := s;
      LeadsHere(s);
    } else {
      var s1 := Cycle(s, capacity, n);
      s' := Cycles(s1, capacity, n + 2, rounds - 1);
      LeadsThrough(s, s1, s');
    }
  }

  /** Thread 1 takes slots 0 and 1 and gives slot 0 back: slot 0 heads the list, without slot 1 behind it. */
  lemma {:induction false} WithoutOne(s: State, capacity: nat, n: nat) returns (s': State)
    requires n + 3 < GENERATIONS && Setup(s, capacity, Tagged(0, n), 1, Behind(capacity), multiset{})
    ensures Alone(s, 1, s', Idle)
    ensures Setup(s', capacity, Tagged(0, n + 3), Behind(capacity), Behind(capacity), multiset{1})
  {
    var s1 := AllocateAlone(s, 1);
    assert s1.clients == multiset{0} && s1.head == Tagged(1, n + 1);
    var s2 := AllocateAlone(s1, 1);
    assert s2.clients == multiset{0, 1} && s2.head == Tagged(Behind(capacity), n + 2);
    AloneOn(s, 1, s1, Idle, s2, Idle);
    s' := FreeAlone(s2, 1, 0);
    AloneOn(s, 1, s2, Idle, s', Idle);
  }

  /** And takes slot 0, gives back slot 1 and then slot 0: slot 1 is behind slot 0 again. */
  lemma {:induction false} WithOne(s: State, capacity: nat, n: nat) returns (s': State)
    requires n + 3 < GENERATIONS && Setup(s, capacity, Tagged(0, n), Behind(capacity), Behind(capacity), multiset{1})
    ensures Alone(s, 1, s', Idle)
    ensures Setup(s', capacity, Tagged(0, n + 3), 1, Behind(capacity), multiset{})
  {
    var s1 := AllocateAlone(s, 1);
    Holdings();
    assert Setup(s1, capacity, Tagged(Behind(capacity), n + 1), Behind(capacity), Behind(capacity), multiset{0, 1});
    var s2 := FreeAlone(s1, 1, 1);
    AloneOn(s, 1, s1, Idle, s2, Idle);
    assert Setup(s2, capacity, Tagged(1, n + 2), Behind(capacity), Behind(capacity), multiset{0});
    s' := FreeAlone(s2, 1, 0);
    AloneOn(s, 1, s2, Idle, s', Idle);
  }

  lemma {:induction false} Holdings()
    ensures multiset{1} + multiset{0} == multiset{0, 1} && multiset{0, 1} - multiset{1} == multiset{0}
    ensures multiset{0} - multiset{0} == multiset{}
  {
  }

  lemma {:induction false} FreshSetup(capacity: nat)
    requires 2 <= capacity < POOL_EMPTY
    ensures Setup(Fresh(capacity), capacity, Tagged(0, 0), 1, Behind(capacity), multiset{})
    ensures PcOf(Fresh(capacity), 0).Idle?
  {
  }

  /** A step of thread 0 that only reads. */
  lemma {:induction false} Reads(s: State, capacity: nat, step: Step, head: Tagged, first: nat, second: nat, clients: multiset<nat>)
      returns (s': State)
    requires Setup(s, capacity, head, first, second, clients)
    requires (step == BeginAllocate(0) && PcOf(s, 0).Idle?) || (step == Run(0, false) && PcOf(s, 0).AllocNext?)
    ensures s' == Do(s, step) && Leads(s, s') && Setup(s', capacity, head, first, second, clients)
  {
    s' := OneStep(s, 0, step);
  }

  /** Thread 0 loads the head while slot 1 is out, reads the successor while it is in, and sleeps when it is out again. */
  lemma {:induction false} FallAsleep(capacity: nat) returns (s': State)
    requires 2 <= capacity < POOL_EMPTY
    ensures Leads(Fresh(capacity), s') && Asleep(s', capacity, 6)
  {
    var s := Fresh(capacity);
    FreshSetup(capacity);
    var s1 := WithoutOne(s, capacity, 0);
    var s2 := LoadsHead(s1, capacity);
    LeadsThrough(s, s1, s2);
    var s3 := WithOne(s2, capacity, 3);
    LeadsThrough(s, s2, s3);
    var s4 := ReadsSuccessor(s3, capacity);
    LeadsThrough(s, s3, s4);
    s' := WithoutOne(s4, capacity, 6);
    LeadsThrough(s, s4, s');
  }

  lemma {:induction false} LoadsHead(s: State, capacity: nat) returns (s': State)
    requires Setup(s, capacity, Tagged(0, 3), Behind(capacity), Behind(capacity), multiset{1}) && PcOf(s, 0).Idle?
    ensures Leads(s, s') && Setup(s', capacity, Tagged(0, 3), Behind(capacity), Behind(capacity), multiset{1})
    ensures var pc := PcOf(s', 0); pc.AllocNext? && pc.index == 0 && pc.gen == 3
  {
    s' := Reads(s, capacity, BeginAllocate(0), Tagged(0, 3), Behind(capacity), Behind(capacity), multiset{1});
  }

  lemma {:induction false} ReadsSuccessor(s: State, capacity: nat) returns (s': State)
    requires Setup(s, capacity, Tagged(0, 6), 1, Behind(capacity), multiset{})
    requires var pc := PcOf(s, 0); pc.AllocNext? && pc.index == 0 && pc.gen == 3
    ensures Leads(s, s') && Setup(s', capacity, Tagged(0, 6), 1, Behind(capacity), multiset{}) && Dreams(PcOf(s', 0))
  {
    s' := Reads(s, capacity, Run(0, false), Tagged(0, 6), 1, Behind(capacity), multiset{});
  }

  /** Waking after a full turn of the tag: the stale swap succeeds, and slot 1 is handed out while it is held. */
  lemma {:induction false} WakeUp(s: State, capacity: nat) returns (s': State)
    requires Asleep(s, capacity, GENERATIONS)
    ensures Leads(s, s') && s'.clients[1] == 2
  {
    var s1 := OneStep(s, 0, Run(0, false));
    assert PcOf(s1, 0) == AllocCount(0) && s1.head.index == 1;
    var s2 := Deliver(s1, 0);
    s' := AllocateAlone(s2, 1);
    LeadsThrough(s, s1, s2);
    LeadsThrough(s, s2, s');
  }

  /** With two slots or more, some run from the start gives one slot two holders. */
  lemma {:induction false} SleeperBreaksPool(capacity: nat)
    requires 2 <= capacity < POOL_EMPTY
    ensures exists steps :: After(capacity, steps).clients[1] == 2
  {
    var s := Fresh(capacity);
    var s1 := FallAsleep(capacity);
    var s2 := Cycles(s1, capacity, 6, (GENERATIONS - 6) / 2);
    var s3 := WakeUp(s2, capacity);
    LeadsThrough(s, s1, s2);
    LeadsThrough(s, s2, s3);
    LeadsAfter(capacity, s3);
  }

  /** Whatever its threads do, a pool never gives a slot two holders exactly when it has a single slot. */
  lemma {:induction false} SafeExactly(capacity: nat)
    requires 0 < capacity < POOL_EMPTY
    ensures (forall steps: seq<Step>, k: nat :: After(capacity, steps).clients[k] <= 1) <==> capacity == 1
  {
    if capacity == 1 {
      forall steps: seq<Step>, k: nat ensures After(capacity, steps).clients[k] <= 1 {
        OneHolder(capacity, steps, k);
      }
    } else {
      SleeperBreaksPool(capacity);
    }
  }
}
