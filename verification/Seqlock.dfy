/** The best bid and offer snapshot read without locks: a single writer bumps the sequence, writes
    four fields one by one and bumps it again; any number of readers copy the fields in any order
    between two reads of the sequence. One step per memory access, any interleaving. */
module Seqlock {
  const FIELDS := 4

  /** Values of bid price, bid quantity, ask price and ask quantity. */
  type Fields = s: seq<nat> | |s| == FIELDS witness [0, 0, 0, 0]

  /** The writer is idle, or has written the first `done` fields of `target`. */
  datatype Writer = Idle | Writing(target: Fields, done: nat)

  datatype Reader =
    | Resting
    | Copying(seq1: nat, copied: map<nat, nat>)
    | Answered(ok: bool, seq1: nat, copied: map<nat, nat>)

  /** `versions` is history: the initial snapshot and every completed update. */
  datatype State = State(sequence: nat, fields: Fields, writer: Writer, readers: map<nat, Reader>, versions: seq<Fields>)

  datatype Step =
    | BeginUpdate(target: Fields)
    | Write
    | BeginRead(reader: nat)
    | Copy(reader: nat, field: nat)
    | Finish(reader: nat)

  function WriterStep(s: State): State {
    match s.writer
    case Idle => s
    case Writing(target, done) =>
      if done < FIELDS then s.(fields := s.fields[done := target[done]], writer := Writing(target, done + 1))
      else s.(sequence := s.sequence + 1, writer := Idle, versions := s.versions + [target])
  }

  function ReaderOf(s: State, r: nat): Reader {
    if r in s.readers then s.readers[r] else Resting
  }

  /** Readers may copy a field more than once and finish only after copying all four. */
  function Do(s: State, step: Step): State {
    match step
    case BeginUpdate(target) =>
      if s.writer.Idle? then s.(sequence := s.sequence + 1, writer := Writing(target, 0)) else s
    case Write => WriterStep(s)
    case BeginRead(r) =>
      if ReaderOf(s, r).Copying? then s
      else if s.sequence % 2 == 1 then s.(readers := s.readers[r := Answered(false, s.sequence, map[])])
      else s.(readers := s.readers[r := Copying(s.sequence, map[])])
    case Copy(r, field) =>
      var p := ReaderOf(s, r);
      if p.Copying? && field < FIELDS then s.(readers := s.readers[r := Copying(p.seq1, p.copied[field := s.fields[field]])]) else s
    case Finish(r) =>
      var p := ReaderOf(s, r);
      if p.Copying? && forall f | 0 <= f < FIELDS :: f in p.copied then
        s.(readers := s.readers[r := Answered(p.seq1 == s.sequence, p.seq1, p.copied)])
      else s
  }

  function After(start: Fields, steps: seq<Step>): State {
    if steps == [] then State(0, start, Idle, map[], [start])
    else Do(After(start, steps[..|steps| - 1]), steps[|steps| - 1])
  }

  // ---------- The invariant

  /** What was copied is version `seq1 / 2`. */
  ghost predicate FromVersion(s: State, seq1: nat, copied: map<nat, nat>) {
    && seq1 / 2 < |s.versions|
    && forall f :: f in copied ==> f < FIELDS && copied[f] == s.versions[seq1 / 2][f]
  }

  /** The sequence counts two per completed update, plus one while an update is under way. */
  ghost predicate WriterOk(s: State) {
    match s.writer
    case Idle =>
      s.sequence == 2 * (|s.versions| - 1) && s.versions != [] && s.fields == s.versions[|s.versions| - 1]
    case Writing(target, done) =>
      && s.sequence == 2 * (|s.versions| - 1) + 1 && s.versions != [] && done <= FIELDS
      && forall f :: 0 <= f < FIELDS ==> s.fields[f] == if f < done then target[f] else s.versions[|s.versions| - 1][f]
  }

  /** As long as the sequence has not moved, a reader has copied from the current version only. */
  ghost predicate ReaderOk(s: State, p: Reader) {
    match p
    case Resting => true
    case Copying(seq1, copied) => seq1 % 2 == 0 && seq1 <= s.sequence && (seq1 == s.sequence ==> FromVersion(s, seq1, copied))
    case Answered(ok, seq1, copied) => ok ==> FromVersion(s, seq1, copied) && seq1 % 2 == 0 && forall f | 0 <= f < FIELDS :: f in copied
  }

  ghost predicate Inv(s: State) {
    WriterOk(s) && forall r :: r in s.readers ==> ReaderOk(s, s.readers[r])
  }

  lemma {:induction false} WriterKeeps(s: State)
    requires Inv(s)
    ensures Inv(WriterStep(s))
  {
    var s' := WriterStep(s);
    forall r | r in s'.readers ensures ReaderOk(s', s'.readers[r]) {
      assert ReaderOk(s, s.readers[r]);
    }
  }

  lemma {:induction false} BeginKeeps(s: State, target: Fields)
    requires Inv(s) && s.writer.Idle?
    ensures Inv(Do(s, BeginUpdate(target)))
  {
    var s' := Do(s, BeginUpdate(target));
    forall r | r in s'.readers ensures ReaderOk(s', s'.readers[r]) {
      assert ReaderOk(s, s.readers[r]);
    }
  }

  lemma {:induction false} DoKeeps(s: State, step: Step)
    requires Inv(s)
    ensures Inv(Do(s, step))
  {
    match step
    case BeginUpdate(target) =>
      if s.writer.Idle? {
        BeginKeeps(s, target);
      }
    case Write => WriterKeeps(s);
    case BeginRead(_) =>
    case Copy(r, _) => assert ReaderOk(s, ReaderOf(s, r));
    case Finish(r) => assert ReaderOk(s, ReaderOf(s, r));
  }

  lemma {:induction false} RunSafe(start: Fields, steps: seq<Step>)
    ensures Inv(After(start, steps))
  {
    if steps != [] {
      RunSafe(start, steps[..|steps| - 1]);
      DoKeeps(After(start, steps[..|steps| - 1]), steps[|steps| - 1]);
    }
  }

  /** Over every run: a read that reports success returned all four fields of one completed update,
      or of the initial snapshot, and it is the one its sequence number names. */
  lemma {:induction false} ReadsAreWhole(start: Fields, steps: seq<Step>, r: nat)
    ensures var s := After(start, steps); var p := ReaderOf(s, r);
            p.Answered? && p.ok ==>
              && p.seq1 / 2 < |s.versions|
              && forall f :: 0 <= f < FIELDS ==> f in p.copied && p.copied[f] == s.versions[p.seq1 / 2][f]
  {
    RunSafe(start, steps);
    assert ReaderOk(After(start, steps), ReaderOf(After(start, steps), r));
  }

  /** Versions are exactly the targets of the updates begun, in order, except one still under way. */
  function Begun(start: Fields, steps: seq<Step>): seq<Fields> {
    if steps == [] then [start]
    else
      var n := |steps| - 1;
      Begun(start, steps[..n]) +
      if steps[n].BeginUpdate? && After(start, steps[..n]).writer.Idle? then [steps[n].target] else []
  }

  lemma {:induction false} VersionsAreUpdates(start: Fields, steps: seq<Step>)
    ensures var s := After(start, steps);
            Begun(start, steps) == s.versions + if s.writer.Idle? then [] else [s.writer.target]
  {
    if steps != [] {
      VersionsAreUpdates(start, steps[..|steps| - 1]);
    }
  }

  /** A read during which no update begins or ends succeeds when it finds an even sequence. */
  lemma {:induction false} QuietReadSucceeds(s: State, r: nat)
    requires Inv(s) && s.writer.Idle? && !ReaderOf(s, r).Copying?
    ensures var s1 := Do(s, BeginRead(r)); var s5 := Do(Do(Do(Do(s1, Copy(r, 0)), Copy(r, 1)), Copy(r, 2)), Copy(r, 3));
            ReaderOf(Do(s5, Finish(r)), r) == Answered(true, s.sequence, map[0 := s.fields[0], 1 := s.fields[1], 2 := s.fields[2], 3 := s.fields[3]])
  {
    var s1 := Do(s, BeginRead(r));
    var s2 := Do(s1, Copy(r, 0));
    var s3 := Do(s2, Copy(r, 1));
    var s4 := Do(s3, Copy(r, 2));
    var s5 := Do(s4, Copy(r, 3));
    assert ReaderOf(s5, r) == Copying(s.sequence, map[0 := s.fields[0], 1 := s.fields[1], 2 := s.fields[2], 3 := s.fields[3]]);
  }
}
