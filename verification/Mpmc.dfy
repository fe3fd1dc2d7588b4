/** The bounded multi-producer multi-consumer queue as a step machine: one step per atomic
    access, any number of threads, any interleaving, compare-and-swap allowed to fail spuriously. */
module Mpmc {
  import opened Bits

  datatype Cell<T> = Cell(sequence: nat, data: T)

  /** What is still to be done with one position. */
  datatype Stage = Claimed(producer: nat) | Published | Taken(consumer: nat) | Done

  /** History of one claimed position: the item its producer brought, and how far it got. */
  datatype Slot<T> = Slot(item: T, stage: Stage)

  /** Where a thread stands; `begun` is the length of the log when its call started. */
  datatype Pc<T> =
    | Idle
    | PushAt(pos: nat, item: T, begun: nat)
    | PushCas(pos: nat, item: T, begun: nat)
    | PushReload(item: T, begun: nat)
    | PushWrite(pos: nat, item: T, begun: nat)
    | PushPublish(pos: nat, item: T, begun: nat)
    | PopAt(pos: nat, begun: nat)
    | PopCas(pos: nat, begun: nat)
    | PopReload(begun: nat)
    | PopRead(pos: nat, begun: nat)
    | PopRelease(pos: nat, item: T, begun: nat)

  /** Returns from calls, in order. */
  datatype Event<T> =
    | PushOk(pos: nat, item: T, begun: nat)
    | PushFull(begun: nat)
    | PopOk(pos: nat, item: T, begun: nat)
    | PopEmpty(begun: nat)

  datatype State<T> = State(cap: nat, enq: nat, deq: nat, cells: seq<Cell<T>>, threads: map<nat, Pc<T>>,
                            slots: seq<Slot<T>>, log: seq<Event<T>>)

  datatype Step<T> = BeginPush(thread: nat, item: T) | BeginPop(thread: nat) | Run(thread: nat, spurious: bool)

  function PcOf<T>(s: State<T>, t: nat): Pc<T> {
    if t in s.threads then s.threads[t] else Idle
  }

  function Goto<T>(s: State<T>, t: nat, pc: Pc<T>): State<T> {
    s.(threads := s.threads[t := pc])
  }

  function Return<T>(s: State<T>, t: nat, e: Event<T>): State<T> {
    Goto(s, t, Idle).(log := s.log + [e])
  }

  function SetSequence<T>(s: State<T>, c: nat, sequence: nat): State<T>
    requires c < |s.cells|
  {
    s.(cells := s.cells[c := s.cells[c].(sequence := sequence)])
  }

  function SetStage<T>(s: State<T>, p: nat, stage: Stage): State<T> {
    if p < |s.slots| then s.(slots := s.slots[p := s.slots[p].(stage := stage)]) else s
  }

  predicate Sized<T>(s: State<T>) {
    s.cap >= 1 && |s.cells| == s.cap && |s.slots| == s.enq
  }

  /** One atomic access of a push. */
  function PushStep<T>(s: State<T>, t: nat, spurious: bool): State<T>
    requires Sized(s)
  {
    match PcOf(s, t)
    case PushAt(pos, item, begun) =>
      var sequence := s.cells[Wrap(pos, s.cap)].sequence;
      if sequence == pos then Goto(s, t, PushCas(pos, item, begun))
      else if sequence < pos then Return(s, t, PushFull(begun))
      else Goto(s, t, PushReload(item, begun))
    case PushCas(pos, item, begun) =>
      if s.enq == pos && !spurious then
        Goto(s, t, PushWrite(pos, item, begun)).(enq := pos + 1, slots := s.slots + [Slot(item, Claimed(t))])
      else Goto(s, t, PushAt(s.enq, item, begun))
    case PushReload(item, begun) => Goto(s, t, PushAt(s.enq, item, begun))
    case PushWrite(pos, item, begun) =>
      var c := Wrap(pos, s.cap);
      Goto(s, t, PushPublish(pos, item, begun)).(cells := s.cells[c := s.cells[c].(data := item)])
    case PushPublish(pos, item, begun) =>
      var s1 := SetSequence(s, Wrap(pos, s.cap), pos + 1);
      Return(SetStage(s1, pos, Published), t, PushOk(pos, item, begun))
    case _ => s
  }

  /** One atomic access of a pop. */
  function PopStep<T>(s: State<T>, t: nat, spurious: bool): State<T>
    requires Sized(s)
  {
    match PcOf(s, t)
    case PopAt(pos, begun) =>
      var sequence := s.cells[Wrap(pos, s.cap)].sequence;
      if sequence == pos + 1 then Goto(s, t, PopCas(pos, begun))
      else if sequence < pos + 1 then Return(s, t, PopEmpty(begun))
      else Goto(s, t, PopReload(begun))
    case PopCas(pos, begun) =>
      if s.deq == pos && !spurious then
        SetStage(Goto(s, t, PopRead(pos, begun)).(deq := pos + 1), pos, Taken(t))
      else Goto(s, t, PopAt(s.deq, begun))
    case PopReload(begun) => Goto(s, t, PopAt(s.deq, begun))
    case PopRead(pos, begun) => Goto(s, t, PopRelease(pos, s.cells[Wrap(pos, s.cap)].data, begun))
    case PopRelease(pos, item, begun) =>
      var s1 := SetSequence(s, Wrap(pos, s.cap), pos + s.cap);
      Return(SetStage(s1, pos, Done), t, PopOk(pos, item, begun))
    case _ => s
  }

  /** Any thread may take its next step; starting a call while one is running does nothing. */
  function Do<T>(s: State<T>, step: Step<T>): (s': State<T>)
    requires Sized(s)
    ensures Sized(s')
  {
    var t := step.thread;
    match step
    case BeginPush(_, item) => if PcOf(s, t).Idle? then Goto(s, t, PushAt(s.enq, item, |s.log|)) else s
    case BeginPop(_) => if PcOf(s, t).Idle? then Goto(s, t, PopAt(s.deq, |s.log|)) else s
    case Run(_, spurious) =>
      var pc := PcOf(s, t);
      if pc.PushAt? || pc.PushCas? || pc.PushReload? || pc.PushWrite? || pc.PushPublish? then PushStep(s, t, spurious)
      else PopStep(s, t, spurious)
  }

  /** Cells as the constructor leaves them; their data is not initialised. */
  predicate Numbered<T>(cells: seq<Cell<T>>) {
    |cells| >= 1 && forall c :: 0 <= c < |cells| ==> cells[c].sequence == c
  }

  /** The state after a run: any schedule of calls and steps. */
  function After<T>(cells: seq<Cell<T>>, steps: seq<Step<T>>): (s: State<T>)
    requires Numbered(cells)
    ensures Sized(s) && s.cap == |cells|
  {
    if steps == [] then State(|cells|, 0, 0, cells, map[], [], [])
    else Do(After(cells, steps[..|steps| - 1]), steps[|steps| - 1])
  }

  // ---------- The invariant

  /** Sequence number of the cell of `p` while `p` is the latest position claimed in it. */
  function SequenceAt(p: nat, stage: Stage, cap: nat): nat {
    match stage
    case Claimed(_) => p
    case Published => p + 1
    case Taken(_) => p + 1
    case Done => p + cap
  }

  /** A position is the latest of its cell, or its cell has been recycled and claimed again. */
  ghost predicate SlotOk<T>(s: State<T>, p: nat)
    requires Sized(s) && p < s.enq
  {
    var slot := s.slots[p];
    && (p < s.deq <==> slot.stage.Taken? || slot.stage.Done?)
    && (p + s.cap < s.enq ==> slot.stage.Done?)
    && (p + s.cap >= s.enq ==> s.cells[Wrap(p, s.cap)].sequence == SequenceAt(p, slot.stage, s.cap))
    && (slot.stage.Published? || slot.stage.Taken? ==> s.cells[Wrap(p, s.cap)].data == slot.item)
  }

  /** Every push that returned before the call began got an earlier position than `pos`. */
  ghost predicate PushesBefore<T>(log: seq<Event<T>>, begun: nat, pos: nat) {
    begun <= |log| && forall i :: 0 <= i < begun && log[i].PushOk? ==> log[i].pos < pos
  }

  ghost predicate PopsBefore<T>(log: seq<Event<T>>, begun: nat, pos: nat) {
    begun <= |log| && forall i :: 0 <= i < begun && log[i].PopOk? ==> log[i].pos < pos
  }

  ghost predicate ThreadOk<T>(s: State<T>, t: nat, pc: Pc<T>)
    requires Sized(s)
  {
    match pc
    case Idle => true
    case PushAt(pos, item, begun) => pos <= s.enq && PushesBefore(s.log, begun, pos)
    case PushCas(pos, item, begun) =>
      pos <= s.enq && PushesBefore(s.log, begun, pos) && (pos >= s.cap ==> s.slots[pos - s.cap].stage.Done?)
    case PushReload(item, begun) => begun <= |s.log|
    case PushWrite(pos, item, begun) =>
      PushesBefore(s.log, begun, pos) && pos < s.enq && s.slots[pos] == Slot(item, Claimed(t))
    case PushPublish(pos, item, begun) =>
      && PushesBefore(s.log, begun, pos) && pos < s.enq && s.slots[pos] == Slot(item, Claimed(t))
      && s.cells[Wrap(pos, s.cap)].data == item
    case PopAt(pos, begun) => pos <= s.deq && PopsBefore(s.log, begun, pos)
    case PopCas(pos, begun) =>
      pos <= s.deq && PopsBefore(s.log, begun, pos) && pos < s.enq && !s.slots[pos].stage.Claimed?
    case PopReload(begun) => begun <= |s.log|
    case PopRead(pos, begun) =>
      PopsBefore(s.log, begun, pos) && pos < s.enq && s.slots[pos].stage == Taken(t)
    case PopRelease(pos, item, begun) =>
      PopsBefore(s.log, begun, pos) && pos < s.enq && s.slots[pos] == Slot(item, Taken(t))
  }

  /** The position a thread has claimed as producer, or as consumer. */
  predicate Producing<T>(pc: Pc<T>, p: nat) {
    (pc.PushWrite? || pc.PushPublish?) && pc.pos == p
  }

  predicate Consuming<T>(pc: Pc<T>, p: nat) {
    (pc.PopRead? || pc.PopRelease?) && pc.pos == p
  }

  /** An unfinished position belongs to the thread at work on it. */
  ghost predicate Attended<T>(s: State<T>, p: nat)
    requires p < |s.slots|
  {
    match s.slots[p].stage
    case Claimed(t) => Producing(PcOf(s, t), p)
    case Taken(t) => Consuming(PcOf(s, t), p)
    case _ => true
  }

  /** The returns so far: positions are handed out once, and a pop returns what was pushed there before it. */
  ghost predicate EventOk<T>(s: State<T>, i: nat)
    requires i < |s.log| && Sized(s)
  {
    var e := s.log[i];
    match e
    case PushOk(pos, item, begun) =>
      && pos < s.enq && s.slots[pos].item == item && !s.slots[pos].stage.Claimed?
      && begun <= i && PushesBefore(s.log, begun, pos)
    case PopOk(pos, item, begun) =>
      && pos < s.enq && s.slots[pos] == Slot(item, Done)
      && begun <= i && PopsBefore(s.log, begun, pos)
    case _ => true
  }

  /** A published position has its push in the log; so every pop returned has one before it. */
  ghost predicate PushLogged<T>(log: seq<Event<T>>, n: nat, p: nat, item: T) {
    exists j :: 0 <= j < n && j < |log| && log[j].PushOk? && log[j].pos == p && log[j].item == item
  }

  ghost predicate PopLogged<T>(log: seq<Event<T>>, p: nat) {
    exists j :: 0 <= j < |log| && log[j].PopOk? && log[j].pos == p
  }

  ghost predicate Matched<T>(log: seq<Event<T>>) {
    forall i :: 0 <= i < |log| && log[i].PopOk? ==> PushLogged(log, i, log[i].pos, log[i].item)
  }

  ghost predicate Once<T>(log: seq<Event<T>>) {
    && (forall i, j :: 0 <= i < j < |log| && log[i].PushOk? && log[j].PushOk? ==> log[i].pos != log[j].pos)
    && (forall i, j :: 0 <= i < j < |log| && log[i].PopOk? && log[j].PopOk? ==> log[i].pos != log[j].pos)
  }

  ghost predicate Inv<T>(s: State<T>) {
    && Sized(s) && s.cap >= 2 && s.deq <= s.enq
    && (forall p :: 0 <= p < s.enq ==> SlotOk(s, p))
    && (forall c :: s.enq <= c < s.cap ==> s.cells[c].sequence == c)
    && (forall t :: t in s.threads ==> ThreadOk(s, t, s.threads[t]))
    && (forall p :: 0 <= p < s.enq ==> Attended(s, p))
    && LogOk(s)
  }

  ghost predicate LogOk<T>(s: State<T>)
    requires Sized(s)
  {
    && (forall i :: 0 <= i < |s.log| ==> EventOk(s, i))
    && (forall p :: 0 <= p < s.enq && !s.slots[p].stage.Claimed? ==> PushLogged(s.log, |s.log|, p, s.slots[p].item))
    && (forall p :: 0 <= p < s.enq && s.slots[p].stage.Done? ==> PopLogged(s.log, p))
    && Matched(s.log) && Once(s.log)
  }

  // ---------- What a step leaves to the other threads

  /** Nothing thread `u` relies on is undone. */
  ghost predicate Evolves<T>(s: State<T>, s': State<T>, u: nat)
    requires Sized(s) && Sized(s')
  {
    && s'.cap == s.cap && s.enq <= s'.enq && s.deq <= s'.deq && s.log <= s'.log
    && (forall p :: 0 <= p < s.enq ==> SlotEvolves(s, s', u, p))
  }

  ghost predicate SlotEvolves<T>(s: State<T>, s': State<T>, u: nat, p: nat)
    requires Sized(s) && Sized(s') && p < s.enq <= s'.enq && s'.cap == s.cap
  {
    var a, b := s.slots[p], s'.slots[p];
    && a.item == b.item
    && (a.stage.Done? ==> b.stage.Done?)
    && (!a.stage.Claimed? ==> !b.stage.Claimed?)
    && (a.stage == Claimed(u) ==> b == a && s'.cells[Wrap(p, s.cap)].data == s.cells[Wrap(p, s.cap)].data)
    && (a.stage == Taken(u) ==> b == a)
  }

  lemma {:induction false} OtherKeeps<T>(s: State<T>, s': State<T>, u: nat, pc: Pc<T>)
    requires Sized(s) && Sized(s') && Evolves(s, s', u) && ThreadOk(s, u, pc)
    ensures ThreadOk(s', u, pc)
  {
    match pc
    case PushCas(pos, _, _) =>
      if pos >= s.cap {
        assert SlotEvolves(s, s', u, pos - s.cap);
      }
    case PushWrite(pos, _, _) => assert SlotEvolves(s, s', u, pos);
    case PushPublish(pos, _, _) => assert SlotEvolves(s, s', u, pos);
    case PopCas(pos, _) => assert SlotEvolves(s, s', u, pos);
    case PopRead(pos, _) => assert SlotEvolves(s, s', u, pos);
    case PopRelease(pos, _, _) => assert SlotEvolves(s, s', u, pos);
    case _ =>
  }

  lemma {:induction false} ThreadsKeep<T>(s: State<T>, s': State<T>, t: nat, pc: Pc<T>)
    requires Inv(s) && Sized(s') && s'.threads == s.threads[t := pc] && ThreadOk(s', t, pc)
    requires forall u :: u != t ==> Evolves(s, s', u)
    ensures forall u :: u in s'.threads ==> ThreadOk(s', u, s'.threads[u])
  {
    forall u | u in s'.threads && u != t ensures ThreadOk(s', u, s'.threads[u]) {
      OtherKeeps(s, s', u, s.threads[u]);
    }
  }

  /** A step that only moves one thread on. */
  lemma {:induction false} GotoKeeps<T>(s: State<T>, t: nat, pc: Pc<T>)
    requires Inv(s) && ThreadOk(s, t, pc)
    requires forall p :: Producing(PcOf(s, t), p) ==> Producing(pc, p)
    requires forall p :: Consuming(PcOf(s, t), p) ==> Consuming(pc, p)
    ensures Inv(Goto(s, t, pc))
  {
    var s' := Goto(s, t, pc);
    ThreadsKeep(s, s', t, pc);
    forall p | 0 <= p < s'.enq ensures SlotOk(s', p) && Attended(s', p) {
      assert SlotOk(s, p) && Attended(s, p);
    }
    forall i | 0 <= i < |s'.log| ensures EventOk(s', i) {
      assert EventOk(s, i);
    }
  }

  // ---------- The log

  /** Positions only move forward. */
  ghost predicate Forward<T>(s: State<T>, s': State<T>) {
    && |s.slots| <= |s'.slots|
    && forall p :: 0 <= p < |s.slots| ==> Onward(s.slots[p], s'.slots[p])
  }

  ghost predicate Onward<T>(a: Slot<T>, b: Slot<T>) {
    a.item == b.item && (a.stage.Done? ==> b.stage.Done?) && (!a.stage.Claimed? ==> !b.stage.Claimed?)
  }

  lemma {:induction false} EventsKeep<T>(s: State<T>, s': State<T>)
    requires Sized(s) && LogOk(s) && Sized(s') && Forward(s, s') && s.log <= s'.log
    ensures forall i :: 0 <= i < |s.log| ==> EventOk(s', i)
  {
    forall i | 0 <= i < |s.log| ensures EventOk(s', i) {
      assert EventOk(s, i);
      if s.log[i].PushOk? || s.log[i].PopOk? {
        assert Onward(s.slots[s.log[i].pos], s'.slots[s.log[i].pos]);
      }
    }
  }

  lemma {:induction false} LogKeeps<T>(s: State<T>, s': State<T>)
    requires Sized(s) && LogOk(s) && Sized(s') && Forward(s, s') && s'.log == s.log
    requires forall p :: 0 <= p < s'.enq && !s'.slots[p].stage.Claimed? ==> p < s.enq && !s.slots[p].stage.Claimed?
    requires forall p :: 0 <= p < s'.enq && s'.slots[p].stage.Done? ==> p < s.enq && s.slots[p].stage.Done?
    ensures LogOk(s')
  {
    EventsKeep(s, s');
    forall p | 0 <= p < s'.enq && !s'.slots[p].stage.Claimed?
      ensures PushLogged(s'.log, |s'.log|, p, s'.slots[p].item)
    {
      assert Onward(s.slots[p], s'.slots[p]);
    }
  }

  /** One more return: a push to a position so far only claimed, a pop of one so far only taken, or a failure. */
  lemma {:induction false} LogGrows<T>(s: State<T>, s': State<T>, e: Event<T>)
    requires Sized(s) && LogOk(s) && Sized(s') && Forward(s, s') && s'.log == s.log + [e]
    requires EventOk(s', |s.log|)
    requires e.PushOk? ==> e.pos < s.enq && s.slots[e.pos].stage.Claimed?
    requires e.PopOk? ==> e.pos < s.enq && s.slots[e.pos].stage.Taken?
    requires forall p :: 0 <= p < s'.enq && !s'.slots[p].stage.Claimed? ==>
               p < s.enq && (!s.slots[p].stage.Claimed? || (e.PushOk? && e.pos == p))
    requires forall p :: 0 <= p < s'.enq && s'.slots[p].stage.Done? ==>
               p < s.enq && (s.slots[p].stage.Done? || (e.PopOk? && e.pos == p))
    ensures LogOk(s')
  {
    EventsKeep(s, s');
    var n := |s.log|;
    forall p | 0 <= p < s'.enq && !s'.slots[p].stage.Claimed?
      ensures PushLogged(s'.log, n + 1, p, s'.slots[p].item)
    {
      assert Onward(s.slots[p], s'.slots[p]);
      if s.slots[p].stage.Claimed? {
        assert s'.log[n] == e;
      } else {
        PushLoggedGrows(s.log, n, e, p, s.slots[p].item);
      }
    }
    forall p | 0 <= p < s'.enq && s'.slots[p].stage.Done? ensures PopLogged(s'.log, p) {
      if s.slots[p].stage.Done? {
        var j :| 0 <= j < n && s.log[j].PopOk? && s.log[j].pos == p;
        assert s'.log[j] == s.log[j];
      } else {
        assert s'.log[n] == e;
      }
    }
    forall i | 0 <= i < n + 1 && s'.log[i].PopOk? ensures PushLogged(s'.log, i, s'.log[i].pos, s'.log[i].item) {
      if i < n {
        PushLoggedGrows(s.log, i, e, s.log[i].pos, s.log[i].item);
      } else {
        assert Onward(s.slots[e.pos], s'.slots[e.pos]);
        PushLoggedGrows(s.log, n, e, e.pos, e.item);
      }
    }
    OnceGrows(s, e);
  }

  lemma {:induction false} PushLoggedGrows<T>(log: seq<Event<T>>, n: nat, e: Event<T>, p: nat, item: T)
    requires PushLogged(log, n, p, item)
    ensures PushLogged(log + [e], n, p, item)
  {
    var j :| 0 <= j < n && j < |log| && log[j].PushOk? && log[j].pos == p && log[j].item == item;
    assert (log + [e])[j] == log[j];
  }

  lemma {:induction false} OnceGrows<T>(s: State<T>, e: Event<T>)
    requires Sized(s) && LogOk(s)
    requires e.PushOk? ==> e.pos < s.enq && s.slots[e.pos].stage.Claimed?
    requires e.PopOk? ==> e.pos < s.enq && s.slots[e.pos].stage.Taken?
    ensures Once(s.log + [e])
  {
    forall i | 0 <= i < |s.log|
      ensures s.log[i].PushOk? && e.PushOk? ==> s.log[i].pos != e.pos
      ensures s.log[i].PopOk? && e.PopOk? ==> s.log[i].pos != e.pos
    {
      assert EventOk(s, i);
    }
  }

  // ---------- The steps that change more than a thread

  /** A call that gives up leaves everything but the log. */
  lemma {:induction false} FailKeeps<T>(s: State<T>, t: nat, e: Event<T>)
    requires Inv(s) && (e.PushFull? || e.PopEmpty?)
    requires PcOf(s, t).PushAt? || PcOf(s, t).PopAt?
    ensures Inv(Return(s, t, e))
  {
    var s' := Return(s, t, e);
    ThreadsKeep(s, s', t, Idle);
    forall p | 0 <= p < s'.enq ensures SlotOk(s', p) && Attended(s', p) {
      assert SlotOk(s, p) && Attended(s, p);
    }
    LogGrows(s, s', e);
  }

  lemma {:induction false} ClaimSlot<T>(s: State<T>, t: nat, p: nat)
    requires Inv(s) && PcOf(s, t).PushCas? && PcOf(s, t).pos == s.enq && p <= s.enq
    ensures SlotOk(PushStep(s, t, false), p) && Attended(PushStep(s, t, false), p)
  {
    if p < s.enq {
      assert SlotOk(s, p) && Attended(s, p);
    } else {
      assert ThreadOk(s, t, PcOf(s, t));
      if p >= s.cap {
        assert SlotOk(s, p - s.cap) && Wrap(p, s.cap) == Wrap(p - s.cap, s.cap);
      }
    }
  }

  lemma {:induction false} ClaimThreads<T>(s: State<T>, t: nat)
    requires Inv(s) && PcOf(s, t).PushCas? && PcOf(s, t).pos == s.enq
    ensures var s' := PushStep(s, t, false); forall u :: u in s'.threads ==> ThreadOk(s', u, s'.threads[u])
  {
    var pc := PcOf(s, t);
    assert ThreadOk(s, t, pc);
    ThreadsKeep(s, PushStep(s, t, false), t, PushWrite(pc.pos, pc.item, pc.begun));
  }

  /** Winning the compare-and-swap on the enqueue position. */
  lemma {:induction false} ClaimKeeps<T>(s: State<T>, t: nat)
    requires Inv(s) && PcOf(s, t).PushCas? && PcOf(s, t).pos == s.enq
    ensures Inv(PushStep(s, t, false))
  {
    var s' := PushStep(s, t, false);
    forall p | 0 <= p < s'.enq ensures SlotOk(s', p) && Attended(s', p) {
      ClaimSlot(s, t, p);
    }
    ClaimThreads(s, t);
    LogKeeps(s, s');
  }

  /** Only the latest position of a cell can be unfinished. */
  lemma {:induction false} UnfinishedAlone<T>(s: State<T>, p: nat, q: nat)
    requires Inv(s) && p < s.enq && q < s.enq && p != q && Wrap(p, s.cap) == Wrap(q, s.cap)
    requires !s.slots[p].stage.Done?
    ensures q < p && s.slots[q].stage.Done? && q + s.cap < s.enq
  {
    assert SlotOk(s, p) && SlotOk(s, q);
    if q < p {
      WrapApart(q, p, s.cap);
    } else {
      WrapApart(p, q, s.cap);
    }
  }

  lemma {:induction false} WriteKeeps<T>(s: State<T>, t: nat)
    requires Inv(s) && PcOf(s, t).PushWrite?
    ensures Inv(PushStep(s, t, false))
  {
    var pc := PcOf(s, t);
    var s' := PushStep(s, t, false);
    forall p | 0 <= p < s'.enq ensures SlotOk(s', p) && Attended(s', p) {
      assert SlotOk(s, p) && Attended(s, p);
      if p != pc.pos && Wrap(p, s.cap) == Wrap(pc.pos, s.cap) {
        UnfinishedAlone(s, pc.pos, p);
      }
    }
    forall u | u != t ensures Evolves(s, s', u) {
      forall p | 0 <= p < s.enq ensures SlotEvolves(s, s', u, p) {
        if p != pc.pos && Wrap(p, s.cap) == Wrap(pc.pos, s.cap) {
          UnfinishedAlone(s, pc.pos, p);
        }
      }
    }
    ThreadsKeep(s, s', t, PushPublish(pc.pos, pc.item, pc.begun));
    LogKeeps(s, s');
  }

  lemma {:induction false} PublishKeeps<T>(s: State<T>, t: nat)
    requires Inv(s) && PcOf(s, t).PushPublish?
    ensures Inv(PushStep(s, t, false))
  {
    var pc := PcOf(s, t);
    var s' := PushStep(s, t, false);
    SequenceMoves(s, s', t, pc.pos);
    ThreadsKeep(s, s', t, Idle);
    LogGrows(s, s', PushOk(pc.pos, pc.item, pc.begun));
  }

  /** Writing the sequence of the cell of an unfinished position concerns that position alone. */
  lemma {:induction false} SequenceMoves<T>(s: State<T>, s': State<T>, t: nat, p: nat)
    requires Inv(s) && Sized(s') && p < s.enq && s'.cap == s.cap && s'.enq == s.enq && s'.deq == s.deq
    requires (s.slots[p].stage == Claimed(t) && s'.slots[p].stage == Published) || (s.slots[p].stage == Taken(t) && s'.slots[p].stage == Done)
    requires s'.slots == s.slots[p := s.slots[p].(stage := s'.slots[p].stage)]
    requires s.slots[p].stage.Claimed? ==> s.cells[Wrap(p, s.cap)].data == s.slots[p].item
    requires s'.cells == s.cells[Wrap(p, s.cap) := s.cells[Wrap(p, s.cap)].(sequence := SequenceAt(p, s'.slots[p].stage, s.cap))]
    requires s'.threads == s.threads[t := Idle]
    ensures forall q :: 0 <= q < s'.enq ==> SlotOk(s', q) && Attended(s', q)
    ensures forall c :: s'.enq <= c < s'.cap ==> s'.cells[c].sequence == c
  {
    forall q | 0 <= q < s'.enq ensures SlotOk(s', q) && Attended(s', q) {
      assert SlotOk(s, q) && Attended(s, q) && Attended(s, p);
      if q != p && Wrap(q, s.cap) == Wrap(p, s.cap) {
        UnfinishedAlone(s, p, q);
      }
    }
    forall c | s'.enq <= c < s'.cap ensures s'.cells[c].sequence == c {
      if c == Wrap(p, s.cap) {
        WrapApart(p, c, s.cap);
      }
    }
  }

  /** Winning the compare-and-swap on the dequeue position. */
  lemma {:induction false} TakeKeeps<T>(s: State<T>, t: nat)
    requires Inv(s) && PcOf(s, t).PopCas? && PcOf(s, t).pos == s.deq
    ensures Inv(PopStep(s, t, false))
  {
    var pc := PcOf(s, t);
    var s' := PopStep(s, t, false);
    assert SlotOk(s, pc.pos);
    forall p | 0 <= p < s'.enq ensures SlotOk(s', p) && Attended(s', p) {
      assert SlotOk(s, p) && Attended(s, p);
    }
    ThreadsKeep(s, s', t, PopRead(pc.pos, pc.begun));
    LogKeeps(s, s');
  }

  lemma {:induction false} ReleaseKeeps<T>(s: State<T>, t: nat)
    requires Inv(s) && PcOf(s, t).PopRelease?
    ensures Inv(PopStep(s, t, false))
  {
    var pc := PcOf(s, t);
    var s' := PopStep(s, t, false);
    SequenceMoves(s, s', t, pc.pos);
    ThreadsKeep(s, s', t, Idle);
    LogGrows(s, s', PopOk(pc.pos, pc.item, pc.begun));
  }

  // ---------- Every step, every run

  lemma {:induction false} PushLoadKeeps<T>(s: State<T>, t: nat)
    requires Inv(s) && PcOf(s, t).PushAt?
    ensures Inv(PushStep(s, t, false))
  {
    var pc := PcOf(s, t);
    var sequence := s.cells[Wrap(pc.pos, s.cap)].sequence;
    if sequence == pc.pos {
      if pc.pos >= s.cap {
        assert SlotOk(s, pc.pos - s.cap);
      }
      GotoKeeps(s, t, PushCas(pc.pos, pc.item, pc.begun));
    } else if sequence < pc.pos {
      FailKeeps(s, t, PushFull(pc.begun));
    } else {
      GotoKeeps(s, t, PushReload(pc.item, pc.begun));
    }
  }

  lemma {:induction false} PopLoadKeeps<T>(s: State<T>, t: nat)
    requires Inv(s) && PcOf(s, t).PopAt?
    ensures Inv(PopStep(s, t, false))
  {
    var pc := PcOf(s, t);
    var sequence := s.cells[Wrap(pc.pos, s.cap)].sequence;
    if s.deq >= s.cap {
      assert SlotOk(s, s.deq - s.cap);
    }
    if pc.pos < s.enq {
      assert SlotOk(s, pc.pos);
    }
    if sequence == pc.pos + 1 {
      GotoKeeps(s, t, PopCas(pc.pos, pc.begun));
    } else if sequence < pc.pos + 1 {
      FailKeeps(s, t, PopEmpty(pc.begun));
    } else {
      GotoKeeps(s, t, PopReload(pc.begun));
    }
  }

  /** A fresh position is beyond every push, or pop, that has returned. */
  lemma {:induction false} FreshPosition<T>(s: State<T>, begun: nat)
    requires Inv(s) && begun <= |s.log|
    ensures PushesBefore(s.log, begun, s.enq) && PopsBefore(s.log, begun, s.deq)
  {
    forall i | 0 <= i < begun
      ensures s.log[i].PushOk? ==> s.log[i].pos < s.enq
      ensures s.log[i].PopOk? ==> s.log[i].pos < s.deq
    {
      assert EventOk(s, i);
      if s.log[i].PopOk? {
        assert SlotOk(s, s.log[i].pos);
      }
    }
  }

  lemma {:induction false} PushStepKeeps<T>(s: State<T>, t: nat, spurious: bool)
    requires Inv(s)
    ensures Inv(PushStep(s, t, spurious))
  {
    match PcOf(s, t)
    case PushAt(_, _, _) => PushLoadKeeps(s, t);
    case PushCas(pos, item, begun) =>
      if s.enq == pos && !spurious {
        ClaimKeeps(s, t);
      } else {
        FreshPosition(s, begun);
        GotoKeeps(s, t, PushAt(s.enq, item, begun));
      }
    case PushReload(item, begun) =>
      FreshPosition(s, begun);
      GotoKeeps(s, t, PushAt(s.enq, item, begun));
    case PushWrite(_, _, _) => WriteKeeps(s, t);
    case PushPublish(_, _, _) => PublishKeeps(s, t);
    case _ =>
  }

  lemma {:induction false} PopStepKeeps<T>(s: State<T>, t: nat, spurious: bool)
    requires Inv(s)
    ensures Inv(PopStep(s, t, spurious))
  {
    match PcOf(s, t)
    case PopAt(_, _) => PopLoadKeeps(s, t);
    case PopCas(pos, begun) =>
      if s.deq == pos && !spurious {
        TakeKeeps(s, t);
      } else {
        FreshPosition(s, begun);
        GotoKeeps(s, t, PopAt(s.deq, begun));
      }
    case PopReload(begun) =>
      FreshPosition(s, begun);
      GotoKeeps(s, t, PopAt(s.deq, begun));
    case PopRead(pos, begun) =>
      assert SlotOk(s, pos);
      GotoKeeps(s, t, PopRelease(pos, s.cells[Wrap(pos, s.cap)].data, begun));
    case PopRelease(_, _, _) => ReleaseKeeps(s, t);
    case _ =>
  }

  lemma {:induction false} DoKeeps<T>(s: State<T>, step: Step<T>)
    requires Inv(s)
    ensures Inv(Do(s, step))
  {
    var t := step.thread;
    FreshPosition(s, |s.log|);
    match step
    case BeginPush(_, item) =>
      if PcOf(s, t).Idle? {
        GotoKeeps(s, t, PushAt(s.enq, item, |s.log|));
      }
    case BeginPop(_) =>
      if PcOf(s, t).Idle? {
        GotoKeeps(s, t, PopAt(s.deq, |s.log|));
      }
    case Run(_, spurious) =>
      PushStepKeeps(s, t, spurious);
      PopStepKeeps(s, t, spurious);
  }

  lemma {:induction false} RunSafe<T>(cells: seq<Cell<T>>, steps: seq<Step<T>>)
    requires Numbered(cells) && |cells| >= 2
    ensures Inv(After(cells, steps))
  {
    if steps != [] {
      RunSafe(cells, steps[..|steps| - 1]);
      DoKeeps(After(cells, steps[..|steps| - 1]), steps[|steps| - 1]);
    }
  }

  // ---------- What the queue promises

  /** Over every run: no position is returned by two pushes or two pops; a pop returns the very item
      pushed at its position, by a push that had returned; and calls that do not overlap get
      positions in the order they were made. */
  lemma {:induction false} Fifo<T>(cells: seq<Cell<T>>, steps: seq<Step<T>>)
    requires Numbered(cells) && |cells| >= 2
    ensures var log := After(cells, steps).log;
            && Once(log) && Matched(log)
            && (forall i, j :: 0 <= j < |log| && log[j].PushOk? && 0 <= i < log[j].begun && i < |log| && log[i].PushOk? ==> log[i].pos < log[j].pos)
            && (forall i, j :: 0 <= j < |log| && log[j].PopOk? && 0 <= i < log[j].begun && i < |log| && log[i].PopOk? ==> log[i].pos < log[j].pos)
  {
    RunSafe(cells, steps);
    var s := After(cells, steps);
    forall j | 0 <= j < |s.log|
      ensures s.log[j].PushOk? ==> PushesBefore(s.log, s.log[j].begun, s.log[j].pos)
      ensures s.log[j].PopOk? ==> PopsBefore(s.log, s.log[j].begun, s.log[j].pos)
    {
      assert EventOk(s, j);
    }
  }

  /** A producer writes only a cell whose earlier items have all been read and released. */
  lemma {:induction false} NoOverwrite<T>(cells: seq<Cell<T>>, steps: seq<Step<T>>, t: nat, q: nat)
    requires Numbered(cells) && |cells| >= 2
    requires var s := After(cells, steps);
             PcOf(s, t).PushWrite? && q < s.enq && q != PcOf(s, t).pos && Wrap(q, s.cap) == Wrap(PcOf(s, t).pos, s.cap)
    ensures var s := After(cells, steps); q < PcOf(s, t).pos && PopLogged(s.log, q)
  {
    RunSafe(cells, steps);
    UnfinishedAlone(After(cells, steps), PcOf(After(cells, steps), t).pos, q);
  }

  /** Two threads never work on the same position. */
  lemma {:induction false} OneOwner<T>(cells: seq<Cell<T>>, steps: seq<Step<T>>, t: nat, u: nat, p: nat)
    requires Numbered(cells) && |cells| >= 2
    requires var s := After(cells, steps);
             && (Producing(PcOf(s, t), p) || Consuming(PcOf(s, t), p))
             && (Producing(PcOf(s, u), p) || Consuming(PcOf(s, u), p))
    ensures t == u
  {
    RunSafe(cells, steps);
    var s := After(cells, steps);
    assert ThreadOk(s, t, PcOf(s, t)) && ThreadOk(s, u, PcOf(s, u));
  }

  /** All cells are occupied, or the pop of the position a full lap behind is still in flight. */
  ghost predicate FullOrReleasing<T>(s: State<T>) {
    s.enq >= s.cap && (s.enq == s.deq + s.cap || exists u :: Consuming(PcOf(s, u), s.enq - s.cap))
  }

  /** A push gives up only when the item a full lap behind has not been released: all cells are
      occupied, or a pop of that very position is still in flight. */
  lemma {:induction false} PushFailsWhenFull<T>(cells: seq<Cell<T>>, steps: seq<Step<T>>, t: nat, spurious: bool)
    requires Numbered(cells) && |cells| >= 2
    ensures var s := After(cells, steps); var pc := PcOf(s, t);
            pc.PushAt? && Do(s, Run(t, spurious)).log != s.log ==> pc.pos == s.enq && FullOrReleasing(s)
  {
    RunSafe(cells, steps);
    var s := After(cells, steps);
    if PcOf(s, t).PushAt? && Do(s, Run(t, spurious)).log != s.log {
      FullWhenRefused(s, t, spurious);
    }
  }

  lemma {:induction false} FullWhenRefused<T>(s: State<T>, t: nat, spurious: bool)
    requires Inv(s) && PcOf(s, t).PushAt? && Do(s, Run(t, spurious)).log != s.log
    ensures PcOf(s, t).pos == s.enq && FullOrReleasing(s)
  {
    var pos := PcOf(s, t).pos;
    assert ThreadOk(s, t, PcOf(s, t)) && s.cells[Wrap(pos, s.cap)].sequence < pos;
    if pos < s.enq {
      SequenceGrows(s, pos);
    }
    LapBehind(s);
  }

  lemma {:induction false} LapBehind<T>(s: State<T>)
    requires Inv(s) && s.cells[Wrap(s.enq, s.cap)].sequence < s.enq
    ensures FullOrReleasing(s)
  {
    Bounded(s);
    if s.enq >= s.cap {
      assert SlotOk(s, s.enq - s.cap) && Attended(s, s.enq - s.cap);
    }
  }

  /** The sequence of a claimed position's cell never falls behind the position. */
  lemma {:induction false} SequenceGrows<T>(s: State<T>, p: nat)
    requires Inv(s) && p < s.enq
    ensures s.cells[Wrap(p, s.cap)].sequence >= SequenceAt(p, s.slots[p].stage, s.cap)
    decreases s.enq - p
  {
    assert SlotOk(s, p);
    if p + s.cap < s.enq {
      assert Wrap(p + s.cap, s.cap) == Wrap(p, s.cap);
      SequenceGrows(s, p + s.cap);
    }
  }

  /** A pop gives up only when nothing is published at the next position: the queue is empty, or the
      push of that very position is still in flight. */
  lemma {:induction false} PopFailsWhenEmpty<T>(cells: seq<Cell<T>>, steps: seq<Step<T>>, t: nat, spurious: bool)
    requires Numbered(cells) && |cells| >= 2
    ensures var s := After(cells, steps); var pc := PcOf(s, t);
            pc.PopAt? && Do(s, Run(t, spurious)).log != s.log ==>
              && pc.pos == s.deq
              && (s.enq == s.deq || exists u :: Producing(PcOf(s, u), s.deq))
  {
    RunSafe(cells, steps);
    var s := After(cells, steps);
    var pc := PcOf(s, t);
    if pc.PopAt? && Do(s, Run(t, spurious)).log != s.log && pc.pos < s.enq {
      assert SlotOk(s, pc.pos) && Attended(s, pc.pos);
      SequenceGrows(s, pc.pos);
    }
  }

  /** With no call in flight nothing is lost or invented: the pushes returned are exactly positions
      0..enq, the pops exactly 0..deq, and the cells hold the rest in order. */
  lemma {:induction false} Quiescent<T>(cells: seq<Cell<T>>, steps: seq<Step<T>>, p: nat)
    requires Numbered(cells) && |cells| >= 2
    requires forall t :: PcOf(After(cells, steps), t).Idle?
    ensures var s := After(cells, steps);
            && s.deq <= s.enq <= s.deq + s.cap
            && (p < s.enq <==> exists i :: 0 <= i < |s.log| && s.log[i].PushOk? && s.log[i].pos == p)
            && (p < s.deq <==> exists i :: 0 <= i < |s.log| && s.log[i].PopOk? && s.log[i].pos == p)
            && (s.deq <= p < s.enq ==> PushLogged(s.log, |s.log|, p, s.cells[Wrap(p, s.cap)].data))
  {
    RunSafe(cells, steps);
    var s := After(cells, steps);
    Bounded(s);
    if p < s.enq {
      assert SlotOk(s, p) && Attended(s, p);
    }
    forall i | 0 <= i < |s.log|
      ensures s.log[i].PushOk? ==> s.log[i].pos < s.enq
      ensures s.log[i].PopOk? ==> s.log[i].pos < s.deq
    {
      FreshPosition(s, |s.log|);
    }
  }

  lemma {:induction false} Bounded<T>(s: State<T>)
    requires Inv(s)
    ensures s.deq <= s.enq <= s.deq + s.cap
  {
    if s.enq > s.cap {
      assert SlotOk(s, s.enq - s.cap - 1);
    }
  }

  // ---------- Capacity

  /** At most `cap` items are ever outstanding. */
  ghost predicate NeverOverfull<T(!new)>(cells: seq<Cell<T>>)
    requires Numbered(cells)
  {
    forall steps: seq<Step<T>> :: After(cells, steps).enq <= After(cells, steps).deq + |cells|
  }

  lemma {:induction false} Extend<T>(cells: seq<Cell<T>>, steps: seq<Step<T>>, step: Step<T>) returns (more: seq<Step<T>>)
    requires Numbered(cells)
    ensures more == steps + [step]
    ensures After(cells, more) == Do(After(cells, steps), step)
  {
    more := steps + [step];
    assert more[..|more| - 1] == steps;
  }

  /** What a thread running alone leaves to the others, and to the log. */
  ghost predicate Aside<T>(s: State<T>, s': State<T>, other: nat) {
    PcOf(s', other) == PcOf(s, other) && s'.log == s.log
  }

  lemma {:induction false} ClaimAlone<T>(s: State<T>, x: T)
    requires Sized(s) && s.cap == 1 && PcOf(s, 0).Idle? && s.cells[0].sequence == s.enq
    ensures var s' := Do(Do(Do(s, BeginPush(0, x)), Run(0, false)), Run(0, false));
            && Aside(s, s', 1) && PcOf(s', 0) == PushWrite(s.enq, x, |s.log|)
            && s'.enq == s.enq + 1 && s'.deq == s.deq && s'.cells == s.cells
  {
    var s1 := Do(s, BeginPush(0, x));
    assert PcOf(s1, 0) == PushAt(s.enq, x, |s.log|);
    var s2 := Do(s1, Run(0, false));
    assert PcOf(s2, 0) == PushCas(s.enq, x, |s.log|);
  }

  lemma {:induction false} TakeAlone<T>(s: State<T>)
    requires Sized(s) && s.cap == 1 && PcOf(s, 1).PopCas? && PcOf(s, 1).pos == s.deq
    ensures var s' := Do(Do(Do(s, Run(1, false)), Run(1, false)), Run(1, false));
            s'.log == s.log + [PopOk(s.deq, s.cells[0].data, PcOf(s, 1).begun)]
  {
    var s1 := Do(s, Run(1, false));
    assert PcOf(s1, 1) == PopRead(s.deq, PcOf(s, 1).begun) && s1.cells == s.cells;
    var s2 := Do(s1, Run(1, false));
    assert PcOf(s2, 1) == PopRelease(s.deq, s.cells[0].data, PcOf(s, 1).begun);
  }

  lemma {:induction false} PushClaims<T>(cells: seq<Cell<T>>, steps: seq<Step<T>>, x: T) returns (more: seq<Step<T>>)
    requires Numbered(cells) && |cells| == 1
    requires var s := After(cells, steps); PcOf(s, 0).Idle? && s.cells[0].sequence == s.enq
    ensures var s, s' := After(cells, steps), After(cells, more);
            && Aside(s, s', 1) && PcOf(s', 0) == PushWrite(s.enq, x, |s.log|)
            && s'.enq == s.enq + 1 && s'.deq == s.deq && s'.cells == s.cells
  {
    ClaimAlone(After(cells, steps), x);
    more := Extend(cells, steps, BeginPush(0, x));
    more := Extend(cells, more, Run(0, false));
    more := Extend(cells, more, Run(0, false));
  }

  lemma {:induction false} PushFinishes<T>(cells: seq<Cell<T>>, steps: seq<Step<T>>) returns (more: seq<Step<T>>)
    requires Numbered(cells) && |cells| == 1 && PcOf(After(cells, steps), 0).PushWrite?
    ensures var s, s' := After(cells, steps), After(cells, more); var pc := PcOf(s, 0);
            && PcOf(s', 0).Idle? && PcOf(s', 1) == PcOf(s, 1) && s'.log == s.log + [PushOk(pc.pos, pc.item, pc.begun)]
            && s'.enq == s.enq && s'.deq == s.deq && s'.cells == [Cell(pc.pos + 1, pc.item)]
  {
    more := Extend(cells, steps, Run(0, false));
    more := Extend(cells, more, Run(0, false));
  }

  /** A push that runs alone on a single cell succeeds whenever the cell's sequence is the next position. */
  lemma {:induction false} PushThrough<T>(cells: seq<Cell<T>>, steps: seq<Step<T>>, x: T) returns (more: seq<Step<T>>)
    requires Numbered(cells) && |cells| == 1
    requires var s := After(cells, steps); PcOf(s, 0).Idle? && s.cells[0].sequence == s.enq
    ensures var s, s' := After(cells, steps), After(cells, more);
            && s'.enq == s.enq + 1 && s'.deq == s.deq && s'.cells == [Cell(s.enq + 1, x)]
            && PcOf(s', 0).Idle? && PcOf(s', 1) == PcOf(s, 1) && s'.log == s.log + [PushOk(s.enq, x, |s.log|)]
  {
    more := PushClaims(cells, steps, x);
    more := PushFinishes(cells, more);
  }

  lemma {:induction false} PopSees<T>(cells: seq<Cell<T>>, steps: seq<Step<T>>) returns (more: seq<Step<T>>)
    requires Numbered(cells) && |cells| == 1
    requires var s := After(cells, steps); PcOf(s, 1).Idle? && s.cells[0].sequence == s.deq + 1
    ensures var s, s' := After(cells, steps), After(cells, more);
            && Aside(s, s', 0) && PcOf(s', 1) == PopCas(s.deq, |s.log|)
            && s'.enq == s.enq && s'.deq == s.deq && s'.cells == s.cells
  {
    more := Extend(cells, steps, BeginPop(1));
    more := Extend(cells, more, Run(1, false));
  }

  lemma {:induction false} PopFinishes<T>(cells: seq<Cell<T>>, steps: seq<Step<T>>) returns (more: seq<Step<T>>)
    requires Numbered(cells) && |cells| == 1
    requires var s := After(cells, steps); PcOf(s, 1).PopCas? && PcOf(s, 1).pos == s.deq
    ensures var s, s' := After(cells, steps), After(cells, more);
            s'.log == s.log + [PopOk(s.deq, s.cells[0].data, PcOf(s, 1).begun)]
  {
    TakeAlone(After(cells, steps));
    more := Extend(cells, steps, Run(1, false));
    more := Extend(cells, more, Run(1, false));
    more := Extend(cells, more, Run(1, false));
  }

  /** With a single cell "readable" and "recycled" coincide: a second push overwrites the first item, and a pop already
      on its way returns the wrong one. */
  lemma {:induction false} OneCellOverwrites<T>(cells: seq<Cell<T>>, x: T, y: T) returns (steps: seq<Step<T>>)
    requires Numbered(cells) && |cells| == 1
    ensures After(cells, steps).log == [PushOk(0, x, 0), PushOk(1, y, 1), PopOk(0, y, 1)]
  {
    steps := PushThrough(cells, [], x);
    assert After(cells, steps).log == [PushOk(0, x, 0)];
    steps := PopSees(cells, steps);
    steps := PushThrough(cells, steps, y);
    steps := PopFinishes(cells, steps);
  }

  lemma {:induction false} WrongItem<T(!new)>(x: T, y: T)
    requires x != y
    ensures !Matched([PushOk(0, x, 0), PushOk(1, y, 1), PopOk(0, y, 1)])
  {
    var log := [PushOk(0, x, 0), PushOk(1, y, 1), PopOk(0, y, 1)];
    assert log[2] == PopOk(0, y, 1);
  }

  /** The queue keeps to its capacity exactly when it has at least two cells. */
  lemma {:induction false} CapacityHolds<T(!new)>(cells: seq<Cell<T>>)
    requires Numbered(cells)
    ensures NeverOverfull(cells) <==> |cells| >= 2
  {
    if |cells| >= 2 {
      forall steps: seq<Step<T>> ensures After(cells, steps).enq <= After(cells, steps).deq + |cells| {
        RunSafe(cells, steps);
        Bounded(After(cells, steps));
      }
    } else {
      var x := cells[0].data;
      var once := PushThrough(cells, [], x);
      var twice := PushThrough(cells, once, x);
      assert After(cells, twice).enq > After(cells, twice).deq + |cells|;
    }
  }

  /** It hands out the items pushed, each at its own position, exactly when it has at least two cells. */
  lemma {:induction false} FifoExactly<T(!new)>(cells: seq<Cell<T>>, x: T, y: T)
    requires Numbered(cells) && x != y
    ensures (forall steps: seq<Step<T>> :: Once(After(cells, steps).log) && Matched(After(cells, steps).log)) <==> |cells| >= 2
  {
    if |cells| >= 2 {
      forall steps: seq<Step<T>> ensures Once(After(cells, steps).log) && Matched(After(cells, steps).log) {
        Fifo(cells, steps);
      }
    } else {
      var steps := OneCellOverwrites(cells, x, y);
      WrongItem(x, y);
    }
  }

  /** The requested capacity is safe from 2 on: rounding maps 0 and 1 to a single cell. */
  lemma {:induction false} RequestedCapacity(minCapacity: nat)
    requires minCapacity <= TWO_63
    ensures RoundUpPow2(minCapacity) >= 2 <==> minCapacity >= 2
  {
    RoundsUp(minCapacity);
    if minCapacity < 2 {
      RoundsUpOne(minCapacity);
    }
  }
}
