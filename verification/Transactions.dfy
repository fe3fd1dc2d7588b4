/** All-or-nothing execution of a list of actions on a shared world. */
module Transactions {
  /** Errors are codes; zero is success. */
  datatype Outcome<W> = Outcome(world: W, error: nat)

  /** An action and its reversal, as they act on the world. */
  datatype Action<!W> = Action(execute: W -> Outcome<W>, rollback: W -> Outcome<W>)

  const CORRUPTED_STATE := 1

  datatype Phase = Active | Committed | RolledBack

  // ---------- What executing and undoing come to

  /** Execute in order up to the first failure; `done` counts the successes. */
  datatype Progress<W> = Progress(world: W, done: nat, error: nat)

  function Play<W>(w: W, actions: seq<Action<W>>): (p: Progress<W>)
    ensures p.done <= |actions| && (p.error == 0 ==> p.done == |actions|)
    decreases |actions|
  {
    if actions == [] then Progress(w, 0, 0)
    else
      var first := Play(w, actions[..|actions| - 1]);
      if first.error != 0 then first
      else
        var r := actions[|actions| - 1].execute(first.world);
        if r.error != 0 then Progress(r.world, first.done, r.error) else Progress(r.world, |actions|, 0)
  }

  /** Undo in reverse order, going on after failures; the error kept is the last one met. */
  function Undo<W>(w: W, done: seq<Action<W>>): Outcome<W>
    decreases |done|
  {
    if done == [] then Outcome(w, 0)
    else
      var r := done[|done| - 1].rollback(w);
      var rest := Undo(r.world, done[..|done| - 1]);
      Outcome(rest.world, if rest.error != 0 then rest.error else r.error)
  }

  /** A successful rollback inverts a successful execution; a failed execution changes nothing. */
  ghost predicate Lawful<W(!new)>(a: Action<W>) {
    forall w :: LawfulAt(a, w)
  }

  ghost predicate LawfulAt<W>(a: Action<W>, w: W) {
    var e := a.execute(w);
    if e.error != 0 then e.world == w
    else
      var r := a.rollback(e.world);
      r.error == 0 ==> r.world == w
  }

  /** Undoing exactly what was executed restores the world whenever every rollback succeeds. */
  lemma {:induction false} UndoInverts<W(!new)>(w: W, actions: seq<Action<W>>)
    requires forall a :: a in actions ==> Lawful(a)
    ensures var p := Play(w, actions); var u := Undo(p.world, actions[..p.done]); u.error == 0 ==> u.world == w
    decreases |actions|
  {
    if actions != [] {
      var n := |actions| - 1;
      var first := Play(w, actions[..n]);
      UndoInverts(w, actions[..n]);
      assert actions[..n][..first.done] == actions[..first.done];
      if first.error == 0 {
        assert actions[n] in actions && LawfulAt(actions[n], first.world);
        if actions[n].execute(first.world).error == 0 {
          assert actions[..n + 1] == actions && actions[..n][..n] == actions[..n];
        }
      }
    }
  }

  /** What executing comes to, action by action: the first failure is reported, nothing behind it is executed, and without
      one all are executed. */
  lemma {:induction false} PlayExactly<W>(w: W, actions: seq<Action<W>>, i: nat)
    requires i < |actions|
    ensures var p := Play(w, actions); var before := Play(w, actions[..i]); var r := actions[i].execute(before.world);
            && (i < p.done ==> before.error == 0 && r.error == 0)
            && (i == p.done ==> before.error == 0 && p.error == r.error != 0 && p.world == r.world)
            && (p.done == |actions| <==> p.error == 0)
    decreases |actions|
  {
    var n := |actions| - 1;
    if i < n {
      PlayExactly(w, actions[..n], i);
      assert actions[..n][..i] == actions[..i];
    }
    PlayDone(w, actions);
    PlayDone(w, actions[..n]);
  }

  lemma {:induction false} PlayDone<W>(w: W, actions: seq<Action<W>>)
    ensures Play(w, actions).done == |actions| <==> Play(w, actions).error == 0
    decreases |actions|
  {
    if actions != [] {
      PlayDone(w, actions[..|actions| - 1]);
    }
  }

  /** The result of rolling back action `i` of `done`, when its turn comes. */
  function UndoneAt<W>(w: W, done: seq<Action<W>>, i: nat): Outcome<W>
    requires i < |done|
  {
    done[i].rollback(Undo(w, done[i + 1..]).world)
  }

  lemma {:induction false} UndoFirst<W>(w: W, done: seq<Action<W>>)
    requires done != []
    ensures var rest := Undo(w, done[1..]); var r := done[0].rollback(rest.world);
            Undo(w, done) == Outcome(r.world, if r.error != 0 then r.error else rest.error)
    decreases |done|
  {
    var n := |done| - 1;
    if n == 0 {
      assert done[1..] == [] && done[..0] == [];
    } else {
      var last := done[n].rollback(w);
      UndoFirst(last.world, done[..n]);
      assert done[..n][1..] == done[1..][..n - 1] && done[1..][n - 1] == done[n];
    }
  }

  /** What undoing reports: the failure of the earliest action whose rollback failed, and success if none did. */
  lemma {:induction false} UndoReports<W>(w: W, done: seq<Action<W>>, i: nat)
    requires i <= |done| && forall k :: 0 <= k < i ==> UndoneAt(w, done, k).error == 0
    ensures i == |done| ==> Undo(w, done).error == 0
    ensures i < |done| && UndoneAt(w, done, i).error != 0 ==> Undo(w, done).error == UndoneAt(w, done, i).error
    decreases |done|
  {
    if done != [] {
      UndoFirst(w, done);
      if i > 0 {
        assert UndoneAt(w, done, 0).error == 0;
        forall k | 0 <= k < i - 1 ensures UndoneAt(w, done[1..], k).error == 0 {
          assert done[1..][k + 1..] == done[k + 2..] && UndoneAt(w, done, k + 1).error == 0;
        }
        UndoReports(w, done[1..], i - 1);
        assert i < |done| ==> done[1..][i..] == done[i + 1..];
      }
    }
  }

  lemma {:induction false} PlayPrefix<W>(w: W, actions: seq<Action<W>>, n: nat)
    requires n < |actions| && Play(w, actions[..n]).error == 0
    ensures var first := Play(w, actions[..n]); var r := actions[n].execute(first.world);
            Play(w, actions[..n + 1]) == if r.error != 0 then Progress(r.world, n, r.error) else Progress(r.world, n + 1, 0)
  {
    assert actions[..n + 1][..n] == actions[..n] && actions[..n + 1][n] == actions[n];
  }

  lemma {:induction false} PlayStops<W>(w: W, actions: seq<Action<W>>, n: nat)
    requires n <= |actions| && Play(w, actions[..n]).error != 0
    ensures Play(w, actions) == Play(w, actions[..n])
    decreases |actions|
  {
    if n < |actions| {
      var m := |actions| - 1;
      assert actions[..m][..n] == actions[..n];
      PlayStops(w, actions[..m], n);
    } else {
      assert actions[..n] == actions;
    }
  }

  // ---------- The transaction

  class World<W> {
    var now: W

    constructor (w: W)
      ensures now == w
    {
      now := w;
    }
  }

  class Transaction<W(!new)> {
    const world: World<W>
    var actions: seq<Action<W>>
    var executed: seq<Action<W>>
    var phase: Phase

    /** Nothing has been executed before commit, and nothing is left to execute or undo after rollback. */
    ghost predicate Valid()
      reads this
    {
      && (phase.Active? ==> executed == [])
      && (phase.Committed? ==> actions == [])
      && (phase.RolledBack? ==> actions == [] && executed == [])
    }

    constructor (world: World<W>)
      ensures Valid() && this.world == world && phase == Active && actions == [] && executed == []
    {
      this.world := world;
      actions, executed, phase := [], [], Active;
    }

    /** Actions can be added only before commit or rollback. */
    method AddAction(action: Action<W>)
      requires Valid()
      modifies this
      ensures Valid() && phase == old(phase) && executed == old(executed)
      ensures actions == if old(phase).Active? then old(actions) + [action] else old(actions)
    {
      if phase != Active {
        return;
      }
      actions := actions + [action];
    }

    /** Roll back what has been executed, latest first; a second time does nothing. */
    method Rollback() returns (error: nat)
      requires phase.RolledBack? ==> Valid()
      modifies this, world
      ensures Valid() && phase == RolledBack
      ensures old(phase) == RolledBack ==> error == 0 && world.now == old(world.now) && actions == old(actions) && executed == old(executed)
      ensures old(phase) != RolledBack ==>
                Outcome(world.now, error) == Undo(old(world.now), old(executed)) && actions == [] && executed == []
    {
      if phase == RolledBack {
        return 0;
      }
      error := 0;
      var i := |executed|;
      assert executed[..i] == executed;
      while i > 0
        invariant 0 <= i <= |executed| && executed == old(executed) && phase == old(phase)
        invariant Undo(old(world.now), executed) ==
                    (var rest := Undo(world.now, executed[..i]); Outcome(rest.world, if rest.error != 0 then rest.error else error))
      {
        i := i - 1;
        assert executed[..i + 1][..i] == executed[..i];
        var r := executed[i].rollback(world.now);
        world.now := r.world;
        if r.error != 0 {
          error := r.error;
        }
      }
      executed, actions, phase := [], [], RolledBack;
    }

    /** Execute everything, or report the failed execution's error after rolling back what succeeded. */
    method Commit() returns (error: nat)
      requires Valid()
      modifies this, world
      ensures Valid()
      ensures !old(phase).Active? ==>
                error == CORRUPTED_STATE && world.now == old(world.now) && phase == old(phase) && executed == old(executed)
      ensures old(phase).Active? ==>
                var p := Play(old(world.now), old(actions));
                && error == p.error
                && (p.error == 0 ==> phase == Committed && world.now == p.world && executed == old(actions))
                && (p.error != 0 ==> phase == RolledBack && world.now == Undo(p.world, old(actions)[..p.done]).world)
    {
      if phase != Active {
        return CORRUPTED_STATE;
      }
      ghost var start := world.now;
      for i := 0 to |actions|
        invariant phase == Active && actions == old(actions) && executed == actions[..i]
        invariant Play(start, actions[..i]) == Progress(world.now, i, 0)
      {
        PlayPrefix(start, actions, i);
        var result := actions[i].execute(world.now);
        world.now := result.world;
        if result.error != 0 {
          PlayStops(start, actions, i + 1);
          var _ := Rollback();
          return result.error;
        }
        executed := executed + [actions[i]];
      }
      assert actions[..|actions|] == actions;
      actions, phase, error := [], Committed, 0;
    }
  }

  class TransactionScope<W(!new)> {
    const transaction: Transaction<W>
    var committed: bool

    ghost predicate Valid()
      reads this, transaction
    {
      transaction.Valid() && (committed <==> transaction.phase.Committed?)
    }

    constructor (world: World<W>)
      ensures Valid() && !committed && fresh(transaction) && transaction.world == world
      ensures transaction.phase == Active && transaction.actions == []
    {
      transaction := new Transaction(world);
      committed := false;
    }

    method Commit() returns (error: nat)
      requires Valid()
      modifies this, transaction, transaction.world
      ensures Valid()
      ensures old(transaction.phase).Active? ==>
                var p := Play(old(transaction.world.now), old(transaction.actions));
                && error == p.error && (committed <==> p.error == 0)
                && transaction.world.now ==
                     if p.error == 0 then p.world else Undo(p.world, old(transaction.actions)[..p.done]).world
    {
      error := transaction.Commit();
      if error == 0 {
        committed := true;
      }
    }

    /** Leaving the scope: whatever is not committed is rolled back, and that is nothing. */
    method End()
      requires Valid()
      modifies this, transaction, transaction.world
      ensures transaction.world.now == old(transaction.world.now)
    {
      if !committed {
        var _ := transaction.Rollback();
      }
    }
  }

  // ---------- What transactions promise

  /** A failed execution changes nothing, and the rollback takes a successful one back. */
  ghost predicate Undoes<W(!new)>(a: Action<W>) {
    forall w :: UndoesAt(a, w)
  }

  ghost predicate UndoesAt<W>(a: Action<W>, w: W) {
    var e := a.execute(w);
    if e.error != 0 then e.world == w else a.rollback(e.world).world == w
  }

  /** Where commit leaves the world when it fails. */
  function LeftBehind<W>(w: W, actions: seq<Action<W>>): W {
    var p := Play(w, actions);
    Undo(p.world, actions[..p.done]).world
  }

  ghost predicate Restores<W>(w: W, actions: seq<Action<W>>) {
    Play(w, actions).error != 0 ==> LeftBehind(w, actions) == w
  }

  ghost predicate From<W>(menu: iset<Action<W>>, actions: seq<Action<W>>) {
    forall a :: a in actions ==> a in menu
  }

  /** Undoing what was executed restores the world, whatever the rollbacks report. */
  lemma {:induction false} UndoRestores<W(!new)>(w: W, actions: seq<Action<W>>)
    requires forall a :: a in actions ==> Undoes(a)
    ensures LeftBehind(w, actions) == w
    decreases |actions|
  {
    if actions != [] {
      var n := |actions| - 1;
      var first := Play(w, actions[..n]);
      UndoRestores(w, actions[..n]);
      assert actions[..n][..first.done] == actions[..first.done];
      if first.error == 0 {
        assert actions[n] in actions && UndoesAt(actions[n], first.world);
        if actions[n].execute(first.world).error == 0 {
          assert actions[..n + 1] == actions && actions[..n][..n] == actions[..n];
        }
      }
    }
  }

  lemma {:induction false} LeftBehindOne<W>(w: W, a: Action<W>)
    requires a.execute(w).error != 0
    ensures Play(w, [a]).error != 0 && LeftBehind(w, [a]) == a.execute(w).world
  {
    assert [a][..0] == [];
    assert Play(w, [a][..0]) == Progress(w, 0, 0);
  }

  lemma {:induction false} LeftBehindTwo<W>(w: W, a: Action<W>, b: Action<W>)
    requires a.execute(w).error == 0 && b.execute(a.execute(w).world).error != 0
    ensures Play(w, [a, b]).error != 0
    ensures LeftBehind(w, [a, b]) == a.rollback(b.execute(a.execute(w).world).world).world
  {
    assert [a][..0] == [] && [a, b][..1] == [a] && [a, b][1] == b;
    assert Play(w, [a]) == Progress(a.execute(w).world, 1, 0);
    var e := b.execute(a.execute(w).world);
    assert Play(w, [a, b]) == Progress(e.world, 1, e.error);
    assert Undo(a.rollback(e.world).world, []).world == a.rollback(e.world).world;
  }

  /** Whether failed commits restore the world is a matter of the single actions: they do for every list drawn from a
      menu, whose `fail` makes any list fail, exactly when each action of the menu undoes itself. */
  lemma {:induction false} FailedCommitRestores<W(!new)>(menu: iset<Action<W>>, fail: Action<W>)
    requires fail in menu && forall w :: fail.execute(w).error != 0
    ensures (forall w, actions :: From(menu, actions) ==> Restores(w, actions)) <==> (forall a :: a in menu ==> Undoes(a))
  {
    if forall a :: a in menu ==> Undoes(a) {
      forall w, actions | From(menu, actions) ensures Restores(w, actions) {
        UndoRestores(w, actions);
      }
    }
    if forall w, actions :: From(menu, actions) ==> Restores(w, actions) {
      forall a, w | a in menu ensures UndoesAt(a, w) {
        RestoringUndoes(menu, fail, a, w);
      }
    }
  }

  lemma {:induction false} RestoringUndoes<W(!new)>(menu: iset<Action<W>>, fail: Action<W>, a: Action<W>, w: W)
    requires fail in menu && a in menu && forall w :: fail.execute(w).error != 0
    requires forall w, actions :: From(menu, actions) ==> Restores(w, actions)
    ensures UndoesAt(a, w)
  {
    var e := a.execute(w);
    if e.error != 0 {
      assert From(menu, [a]) && Restores(w, [a]);
      LeftBehindOne(w, a);
    } else {
      assert From(menu, [fail]) && Restores(e.world, [fail]);
      LeftBehindOne(e.world, fail);
      assert From(menu, [a, fail]) && Restores(w, [a, fail]);
      LeftBehindTwo(w, a, fail);
    }
  }

  /** A commit and then a rollback is the identity, for lawful actions when both report success, and for actions that
      undo themselves whatever is reported. */
  method CommitThenRollback<W(!new)>(tx: Transaction<W>) returns (committed: nat, undone: nat)
    requires tx.Valid() && tx.phase == Active
    modifies tx, tx.world
    ensures (forall a :: a in old(tx.actions) ==> Lawful(a)) && committed == 0 && undone == 0 ==> tx.world.now == old(tx.world.now)
    ensures (forall a :: a in old(tx.actions) ==> Undoes(a)) ==> tx.world.now == old(tx.world.now)
  {
    if forall a :: a in tx.actions ==> Lawful(a) {
      UndoInverts(tx.world.now, tx.actions);
    }
    if forall a :: a in tx.actions ==> Undoes(a) {
      UndoRestores(tx.world.now, tx.actions);
    }
    ghost var all := tx.actions;
    assert all[..|all|] == all;
    committed := tx.Commit();
    undone := tx.Rollback();
  }

  /** Rolling back twice is rolling back once. */
  method RollbackTwice<W(!new)>(tx: Transaction<W>) returns (first: nat, second: nat)
    requires tx.Valid()
    modifies tx, tx.world
    ensures second == 0
    ensures old(tx.phase) != RolledBack ==> Outcome(tx.world.now, first) == Undo(old(tx.world.now), old(tx.executed))
  {
    first := tx.Rollback();
    second := tx.Rollback();
  }

  /** A scope that is never committed leaves no effect; one whose commit fails leaves none either when its actions undo
      themselves. */
  method RunScope<W(!new)>(world: World<W>, actions: seq<Action<W>>, commit: bool) returns (error: nat)
    modifies world
    ensures !commit ==> world.now == old(world.now)
    ensures commit ==> error == Play(old(world.now), actions).error
    ensures commit ==> world.now == if error == 0 then Play(old(world.now), actions).world else LeftBehind(old(world.now), actions)
    ensures error != 0 && (forall a :: a in actions ==> Undoes(a)) ==> world.now == old(world.now)
  {
    var scope := new TransactionScope(world);
    for i := 0 to |actions|
      invariant scope.Valid() && !scope.committed && scope.transaction.phase == Active && world.now == old(world.now)
      invariant scope.transaction.actions == actions[..i] && fresh(scope.transaction) && scope.transaction.world == world
    {
      scope.transaction.AddAction(actions[i]);
    }
    assert actions[..|actions|] == actions;
    if forall a :: a in actions ==> Undoes(a) {
      UndoRestores(world.now, actions);
    }
    error := 0;
    if commit {
      error := scope.Commit();
    }
    scope.End();
  }

  /** A rollback that fails is not reported by commit: here the world stays changed. */
  lemma {:induction false} FailedRollbackShows() returns (actions: seq<Action<int>>)
    ensures forall a :: a in actions ==> Lawful(a)
    ensures var p := Play(0, actions); p.error == 7 && Undo(p.world, actions[..p.done]) == Outcome(1, 9)
  {
    var a := Action((w: int) => Outcome(w + 1, 0), (w: int) => Outcome(w, 9));
    var b := Action((w: int) => Outcome(w, 7), (w: int) => Outcome(w, 0));
    actions := [a, b];
    assert actions[..1] == [a] && [a][..0] == [] && actions[1] == b;
    assert Play(0, [a]) == Progress(1, 1, 0);
    assert Play(0, actions) == Progress(1, 1, 7);
    assert [a][|[a]| - 1] == a;
  }
}
