/** Calls on the multi-producer multi-consumer queue end when left undisturbed: from wherever a call stands, with a stale
    position or on its way to reload it, it returns within seven steps of its own, with success exactly when there is room,
    or an item. */
module MpmcProgress {
  import opened Bits
  import opened Mpmc

  /** Thread `t` takes `n` steps, alone. */
  function Alone<T>(s: State<T>, t: nat, n: nat): (s': State<T>)
    requires Sized(s)
    ensures Sized(s')
    decreases n
  {
    if n == 0 then s else Alone(Do(s, Run(t, false)), t, n - 1)
  }

  lemma {:induction false} AloneOn<T>(s: State<T>, t: nat, n: nat)
    requires Sized(s) && n > 0
    ensures Alone(s, t, n) == Alone(Do(s, Run(t, false)), t, n - 1)
  {
  }

  lemma {:induction false} AloneIdle<T>(s: State<T>, t: nat, n: nat)
    requires Sized(s) && PcOf(s, t).Idle?
    ensures Alone(s, t, n) == s
    decreases n
  {
    if n > 0 {
      AloneIdle(s, t, n - 1);
    }
  }

  /** The call of `t` has returned with `e`, and nothing else was logged. */
  ghost predicate Returns<T>(s: State<T>, s': State<T>, t: nat, e: Event<T>) {
    PcOf(s', t).Idle? && s'.log == s.log + [e]
  }

  // ---------- Push

  /** A push past its compare-and-swap. */
  lemma {:induction false} PushWritten<T>(s: State<T>, t: nat)
    requires Sized(s) && PcOf(s, t).PushPublish?
    ensures Returns(s, Do(s, Run(t, false)), t, PushOk(PcOf(s, t).pos, PcOf(s, t).item, PcOf(s, t).begun))
  {
  }

  lemma {:induction false} PushClaimed<T>(s: State<T>, t: nat)
    requires Sized(s) && PcOf(s, t).PushWrite?
    ensures var s', pc := Do(s, Run(t, false)), PcOf(s, t);
            PcOf(s', t) == PushPublish(pc.pos, pc.item, pc.begun) && s'.log == s.log
  {
  }

  lemma {:induction false} PushWins<T>(s: State<T>, t: nat)
    requires Sized(s) && PcOf(s, t).PushCas? && PcOf(s, t).pos == s.enq
    ensures var s', pc := Do(s, Run(t, false)), PcOf(s, t);
            PcOf(s', t) == PushWrite(pc.pos, pc.item, pc.begun) && s'.log == s.log
  {
  }

  /** From the compare-and-swap at the present position it is three steps. */
  lemma {:induction false} PushThree<T>(s: State<T>, t: nat, n: nat)
    requires Sized(s) && PcOf(s, t).PushCas? && PcOf(s, t).pos == s.enq && n >= 3
    ensures Returns(s, Alone(s, t, n), t, PushOk(s.enq, PcOf(s, t).item, PcOf(s, t).begun))
  {
    var s1 := Do(s, Run(t, false));
    var s2 := Do(s1, Run(t, false));
    var s3 := Do(s2, Run(t, false));
    PushWins(s, t);
    PushClaimed(s1, t);
    PushWritten(s2, t);
    AloneOn(s, t, n);
    AloneOn(s1, t, n - 1);
    AloneOn(s2, t, n - 2);
    AloneIdle(s3, t, n - 3);
  }

  /** The cell at the enqueue position is ready exactly when the queue is not full and no pop is releasing it. */
  lemma {:induction false} ReadyOrFull<T>(s: State<T>)
    requires Inv(s)
    ensures var sequence := s.cells[Wrap(s.enq, s.cap)].sequence;
            if FullOrReleasing(s) then sequence < s.enq else sequence == s.enq
  {
    if s.enq < s.cap {
      assert Wrap(s.enq, s.cap) == s.enq;
    } else {
      LapStage(s, s.enq - s.cap);
      if s.slots[s.enq - s.cap].stage.Done? {
        NotReleasing(s);
      } else {
        LapBehind(s);
      }
    }
  }

  lemma {:induction false} LapStage<T>(s: State<T>, p: nat)
    requires Inv(s) && p + s.cap == s.enq
    ensures s.cells[Wrap(s.enq, s.cap)].sequence == SequenceAt(p, s.slots[p].stage, s.cap)
  {
    assert SlotOk(s, p) && Wrap(s.enq, s.cap) == Wrap(p, s.cap);
  }

  lemma {:induction false} NotReleasing<T>(s: State<T>)
    requires Inv(s) && s.enq >= s.cap && s.slots[s.enq - s.cap].stage.Done?
    ensures !FullOrReleasing(s)
  {
    assert SlotOk(s, s.enq - s.cap);
    forall u ensures !Consuming(PcOf(s, u), s.enq - s.cap) {
      assert ThreadOk(s, u, PcOf(s, u));
    }
  }

  /** From the present position. */
  lemma {:induction false} PushHere<T>(s: State<T>, t: nat, n: nat)
    requires Inv(s) && PcOf(s, t).PushAt? && PcOf(s, t).pos == s.enq && n >= 4
    ensures var pc := PcOf(s, t);
            Returns(s, Alone(s, t, n), t, if FullOrReleasing(s) then PushFull(pc.begun) else PushOk(s.enq, pc.item, pc.begun))
  {
    var s1 := Do(s, Run(t, false));
    ReadyOrFull(s);
    AloneOn(s, t, n);
    if FullOrReleasing(s) {
      AloneIdle(s1, t, n - 1);
    } else {
      PushThree(s1, t, n - 1);
    }
  }

  /** Nothing but the thread moved. */
  ghost predicate Moved<T>(s: State<T>, s': State<T>, t: nat, pc: Pc<T>) {
    s' == Goto(s, t, pc)
  }

  lemma {:induction false} MovedKeeps<T>(s: State<T>, s': State<T>, t: nat, pc: Pc<T>)
    requires Inv(s) && Inv(s') && Moved(s, s', t, pc)
    requires !PcOf(s, t).PopRead? && !PcOf(s, t).PopRelease? && !pc.PopRead? && !pc.PopRelease?
    ensures s'.log == s.log && s'.enq == s.enq && (FullOrReleasing(s') <==> FullOrReleasing(s))
  {
    forall u, p ensures Consuming(PcOf(s', u), p) <==> Consuming(PcOf(s, u), p) {
    }
  }

  /** A call with a stale position is back at the present one after a step. */
  lemma {:induction false} PushReloads<T>(s: State<T>, t: nat, n: nat)
    requires Inv(s) && (PcOf(s, t).PushReload? || (PcOf(s, t).PushCas? && PcOf(s, t).pos < s.enq)) && n >= 5
    ensures var pc := PcOf(s, t);
            Returns(s, Alone(s, t, n), t, if FullOrReleasing(s) then PushFull(pc.begun) else PushOk(s.enq, pc.item, pc.begun))
  {
    var pc, s1 := PcOf(s, t), Do(s, Run(t, false));
    DoKeeps(s, Run(t, false));
    AloneOn(s, t, n);
    MovedKeeps(s, s1, t, PushAt(s.enq, pc.item, pc.begun));
    PushHere(s1, t, n - 1);
  }

  /** A stale position leads to a compare-and-swap that fails, or to a reload. */
  lemma {:induction false} PushStale<T>(s: State<T>, t: nat, n: nat)
    requires Inv(s) && PcOf(s, t).PushAt? && PcOf(s, t).pos < s.enq && n >= 6
    ensures var pc := PcOf(s, t);
            Returns(s, Alone(s, t, n), t, if FullOrReleasing(s) then PushFull(pc.begun) else PushOk(s.enq, pc.item, pc.begun))
  {
    var pc, s1 := PcOf(s, t), Do(s, Run(t, false));
    DoKeeps(s, Run(t, false));
    SequenceGrows(s, pc.pos);
    AloneOn(s, t, n);
    MovedKeeps(s, s1, t, PcOf(s1, t));
    PushReloads(s1, t, n - 1);
  }

  /** From wherever a push stands before its compare-and-swap. */
  lemma {:induction false} PushReturns<T>(s: State<T>, t: nat)
    requires Inv(s) && (PcOf(s, t).PushAt? || PcOf(s, t).PushCas? || PcOf(s, t).PushReload?)
    ensures var pc := PcOf(s, t);
            Returns(s, Alone(s, t, 6), t, if FullOrReleasing(s) then PushFull(pc.begun) else PushOk(s.enq, pc.item, pc.begun))
  {
    assert ThreadOk(s, t, PcOf(s, t));
    if PcOf(s, t).PushAt? && PcOf(s, t).pos == s.enq {
      PushHere(s, t, 6);
    } else if PcOf(s, t).PushAt? {
      PushStale(s, t, 6);
    } else if PcOf(s, t).PushCas? && PcOf(s, t).pos == s.enq {
      CasMeansRoom(s, t);
      PushThree(s, t, 6);
    } else {
      PushReloads(s, t, 6);
    }
  }

  lemma {:induction false} CasMeansRoom<T>(s: State<T>, t: nat)
    requires Inv(s) && PcOf(s, t).PushCas? && PcOf(s, t).pos == s.enq
    ensures !FullOrReleasing(s)
  {
    assert ThreadOk(s, t, PcOf(s, t));
    if s.enq >= s.cap {
      NotReleasing(s);
    }
  }

  /** After any run, a push left undisturbed returns within seven steps: with its item at the next position if there is
      room, with the report that the queue is full exactly if all cells are occupied or one is being released. */
  lemma {:induction false} PushCompletes<T>(cells: seq<Cell<T>>, run: seq<Step<T>>, t: nat, item: T)
    requires Numbered(cells) && |cells| >= 2 && PcOf(After(cells, run), t).Idle?
    ensures var s := After(cells, run); var begun := |s.log|;
            Returns(s, Alone(Do(s, BeginPush(t, item)), t, 6), t,
                    if FullOrReleasing(s) then PushFull(begun) else PushOk(s.enq, item, begun))
  {
    var s := After(cells, run);
    var s1 := Do(s, BeginPush(t, item));
    RunSafe(cells, run);
    DoKeeps(s, BeginPush(t, item));
    MovedKeeps(s, s1, t, PushAt(s.enq, item, |s.log|));
    PushReturns(s1, t);
  }

  // ---------- Pop

  /** Nothing is published at the dequeue position: the queue is empty, or that push is still in flight. */
  ghost predicate EmptyOrPublishing<T>(s: State<T>) {
    s.enq == s.deq || exists u :: Producing(PcOf(s, u), s.deq)
  }

  lemma {:induction false} PopHolds<T>(s: State<T>, t: nat)
    requires Sized(s) && PcOf(s, t).PopRelease?
    ensures Returns(s, Do(s, Run(t, false)), t, PopOk(PcOf(s, t).pos, PcOf(s, t).item, PcOf(s, t).begun))
  {
  }

  lemma {:induction false} PopTaken<T>(s: State<T>, t: nat)
    requires Sized(s) && PcOf(s, t).PopRead?
    ensures var s', pc := Do(s, Run(t, false)), PcOf(s, t);
            PcOf(s', t) == PopRelease(pc.pos, s.cells[Wrap(pc.pos, s.cap)].data, pc.begun) && s'.log == s.log
  {
  }

  lemma {:induction false} PopWins<T>(s: State<T>, t: nat)
    requires Sized(s) && PcOf(s, t).PopCas? && PcOf(s, t).pos == s.deq
    ensures var s', pc := Do(s, Run(t, false)), PcOf(s, t);
            PcOf(s', t) == PopRead(pc.pos, pc.begun) && s'.log == s.log && s'.cells == s.cells && s'.cap == s.cap
  {
  }

  lemma {:induction false} PopThree<T>(s: State<T>, t: nat, n: nat)
    requires Sized(s) && PcOf(s, t).PopCas? && PcOf(s, t).pos == s.deq && n >= 3
    ensures Returns(s, Alone(s, t, n), t, PopOk(s.deq, s.cells[Wrap(s.deq, s.cap)].data, PcOf(s, t).begun))
  {
    var s1 := Do(s, Run(t, false));
    var s2 := Do(s1, Run(t, false));
    var s3 := Do(s2, Run(t, false));
    PopWins(s, t);
    PopTaken(s1, t);
    PopHolds(s2, t);
    AloneOn(s, t, n);
    AloneOn(s1, t, n - 1);
    AloneOn(s2, t, n - 2);
    AloneIdle(s3, t, n - 3);
  }

  /** The cell at the dequeue position holds the item pushed there, or has not been published. */
  lemma {:induction false} PublishedOrEmpty<T>(s: State<T>)
    requires Inv(s)
    ensures var cell := s.cells[Wrap(s.deq, s.cap)];
            if EmptyOrPublishing(s) then cell.sequence < s.deq + 1
            else cell.sequence == s.deq + 1 && s.deq < s.enq && cell.data == s.slots[s.deq].item
  {
    Bounded(s);
    if s.deq == s.enq {
      ReadyOrFull(s);
    } else {
      assert SlotOk(s, s.deq) && Attended(s, s.deq);
      if !s.slots[s.deq].stage.Claimed? {
        NotPublishing(s);
      }
    }
  }

  lemma {:induction false} NotPublishing<T>(s: State<T>)
    requires Inv(s) && s.deq < s.enq && !s.slots[s.deq].stage.Claimed?
    ensures !EmptyOrPublishing(s)
  {
    forall u ensures !Producing(PcOf(s, u), s.deq) {
      assert ThreadOk(s, u, PcOf(s, u));
    }
  }

  /** What a pop returns: the item pushed at the dequeue position, or that there is none. */
  ghost function PopAnswer<T>(s: State<T>, begun: nat): Event<T>
    requires Inv(s)
  {
    if EmptyOrPublishing(s) then PopEmpty(begun)
    else
      PublishedOrEmpty(s);
      PopOk(s.deq, s.slots[s.deq].item, begun)
  }

  lemma {:induction false} PopHere<T>(s: State<T>, t: nat, n: nat)
    requires Inv(s) && PcOf(s, t).PopAt? && PcOf(s, t).pos == s.deq && n >= 4
    ensures Returns(s, Alone(s, t, n), t, PopAnswer(s, PcOf(s, t).begun))
  {
    var s1 := Do(s, Run(t, false));
    PublishedOrEmpty(s);
    AloneOn(s, t, n);
    if EmptyOrPublishing(s) {
      AloneIdle(s1, t, n - 1);
    } else {
      PopThree(s1, t, n - 1);
    }
  }

  lemma {:induction false} PopMovedKeeps<T>(s: State<T>, s': State<T>, t: nat, pc: Pc<T>, begun: nat)
    requires Inv(s) && Inv(s') && Moved(s, s', t, pc)
    requires !PcOf(s, t).PushWrite? && !PcOf(s, t).PushPublish? && !pc.PushWrite? && !pc.PushPublish?
    ensures s'.log == s.log && s'.deq == s.deq && PopAnswer(s', begun) == PopAnswer(s, begun)
  {
    forall u, p ensures Producing(PcOf(s', u), p) <==> Producing(PcOf(s, u), p) {
    }
  }

  lemma {:induction false} PopReloads<T>(s: State<T>, t: nat, n: nat)
    requires Inv(s) && (PcOf(s, t).PopReload? || (PcOf(s, t).PopCas? && PcOf(s, t).pos < s.deq)) && n >= 5
    ensures Returns(s, Alone(s, t, n), t, PopAnswer(s, PcOf(s, t).begun))
  {
    var pc, s1 := PcOf(s, t), Do(s, Run(t, false));
    DoKeeps(s, Run(t, false));
    AloneOn(s, t, n);
    PopMovedKeeps(s, s1, t, PopAt(s.deq, pc.begun), pc.begun);
    PopHere(s1, t, n - 1);
  }

  lemma {:induction false} PopStale<T>(s: State<T>, t: nat, n: nat)
    requires Inv(s) && PcOf(s, t).PopAt? && PcOf(s, t).pos < s.deq && n >= 6
    ensures Returns(s, Alone(s, t, n), t, PopAnswer(s, PcOf(s, t).begun))
  {
    var pc, s1 := PcOf(s, t), Do(s, Run(t, false));
    DoKeeps(s, Run(t, false));
    assert SlotOk(s, pc.pos);
    SequenceGrows(s, pc.pos);
    AloneOn(s, t, n);
    PopMovedKeeps(s, s1, t, PcOf(s1, t), pc.begun);
    PopReloads(s1, t, n - 1);
  }

  /** From wherever a pop stands before its compare-and-swap. */
  lemma {:induction false} PopReturns<T>(s: State<T>, t: nat)
    requires Inv(s) && (PcOf(s, t).PopAt? || PcOf(s, t).PopCas? || PcOf(s, t).PopReload?)
    ensures Returns(s, Alone(s, t, 6), t, PopAnswer(s, PcOf(s, t).begun))
  {
    assert ThreadOk(s, t, PcOf(s, t));
    if PcOf(s, t).PopAt? && PcOf(s, t).pos == s.deq {
      PopHere(s, t, 6);
    } else if PcOf(s, t).PopAt? {
      PopStale(s, t, 6);
    } else if PcOf(s, t).PopCas? && PcOf(s, t).pos == s.deq {
      NotPublishing(s);
      PublishedOrEmpty(s);
      PopThree(s, t, 6);
    } else {
      PopReloads(s, t, 6);
    }
  }

  /** After any run, a pop left undisturbed returns within seven steps: with the item pushed at the next position if that is
      published, with the report that there is none exactly if the queue is empty or that push is in flight. */
  lemma {:induction false} PopCompletes<T>(cells: seq<Cell<T>>, run: seq<Step<T>>, t: nat)
    requires Numbered(cells) && |cells| >= 2 && PcOf(After(cells, run), t).Idle?
    ensures Inv(After(cells, run))
    ensures var s := After(cells, run); Returns(s, Alone(Do(s, BeginPop(t)), t, 6), t, PopAnswer(s, |s.log|))
  {
    var s := After(cells, run);
    var s1 := Do(s, BeginPop(t));
    RunSafe(cells, run);
    DoKeeps(s, BeginPop(t));
    PopMovedKeeps(s, s1, t, PopAt(s.deq, |s.log|), |s.log|);
    PopReturns(s1, t);
  }
}
