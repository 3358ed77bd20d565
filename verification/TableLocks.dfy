/** Transactions over several tables and the checkpoint, interleaved at their lock steps. */
module TableLocks {
  import opened Octets
  import opened TableUndo

  type Tab = nat       // a table, by its place in address order
  type TxnId = nat

  datatype Owner = Free | Held(txn: TxnId) | Checkpointer

  datatype Phase = Locking(held: nat) | Running | Unlocking(released: nat)

  /** A thread context between its first lock and its release; the names are sorted when it locks. */
  datatype Txn = Txn(names: seq<Tab>, phase: Phase, cancel: bool)

  datatype Checkpoint = Idle | Gathering(held: nat) | Snapping(taken: nat) | Saving(dropped: nat)

  /** A transaction that has ended: what it did to each of its tables, and whether that is to be undone. */
  datatype Ended = Ended(txn: TxnId, cancel: bool, ops: map<Tab, seq<Op>>)

  datatype Env = Env(
    tables: seq<Undo>,
    owner: seq<Owner>,
    txns: seq<Txn>,
    ckpt: Checkpoint,
    snaps: seq<Table>,
    initial: seq<Table>,   // history: the tables at the start
    ran: seq<seq<Op>>,     // history: what the transaction that owns a table did to it
    log: seq<Ended>,       // history: the transactions that have ended, in that order
    cut: nat)              // history: how many had ended when the checkpoint held every lock

  datatype Step =
    | Begin(names: seq<Tab>)
    | Acquire(txn: TxnId)
    | Operate(txn: TxnId, tab: Tab, op: Op)
    | Abort(txn: TxnId)
    | End(txn: TxnId)
    | Release(txn: TxnId)
    | CkptStart
    | CkptLock
    | CkptSnap
    | CkptDrop

  // ----- the steps -----

  ghost predicate Sorted(names: seq<Tab>, n: nat)
  {
    && (forall i | 0 <= i < |names| :: names[i] < n)
    && (forall i, j | 0 <= i < j < |names| :: names[i] <= names[j])
  }

  ghost predicate NamedOnce(names: seq<Tab>)
  {
    forall i, j | 0 <= i < j < |names| :: names[i] != names[j]
  }

  /** What a table becomes when its transaction ends. */
  function Left(u: Undo, cancel: bool): Table
  {
    if cancel then Rebuilt(u) else u.db
  }

  ghost predicate Enabled(s: Env, step: Step)
    requires |s.owner| == |s.tables| == |s.ran|
  {
    match step
    case Begin(names) => Sorted(names, |s.tables|)
    case Acquire(t) =>
      && t < |s.txns| && s.txns[t].phase.Locking?
      && (var h := s.txns[t].phase.held;
          h < |s.txns[t].names| && s.txns[t].names[h] < |s.owner| && s.owner[s.txns[t].names[h]] in {Free, Held(t)})
    case Operate(t, x, _) => t < |s.txns| && s.txns[t].phase.Running? && x in s.txns[t].names && x < |s.tables|
    case Abort(t) => t < |s.txns| && s.txns[t].phase.Running?
    case End(t) => t < |s.txns| && s.txns[t].phase.Running? && (forall x :: x in s.txns[t].names ==> x < |s.tables|)
    case Release(t) =>
      && t < |s.txns| && s.txns[t].phase.Unlocking?
      && (var d := s.txns[t].phase.released; d < |s.txns[t].names| && s.txns[t].names[d] < |s.tables|)
    case CkptStart => s.ckpt.Idle?
    case CkptLock => s.ckpt.Gathering? && s.ckpt.held < |s.owner| && s.owner[s.ckpt.held].Free?
    case CkptSnap => s.ckpt.Snapping? && s.ckpt.taken < |s.tables|
    case CkptDrop => s.ckpt.Saving? && (s.ckpt.dropped < |s.owner| ==> s.owner[s.ckpt.dropped].Free?)
  }

  /** ThreadContext::lock goes on to run once the last name is locked. */
  function AfterLock(names: seq<Tab>, held: nat): Phase
  {
    if held == |names| then Running else Locking(held)
  }

  ghost function Apply(s: Env, step: Step): Env
    requires |s.owner| == |s.tables| == |s.ran| && Enabled(s, step)
  {
    match step
    case Begin(names) => s.(txns := s.txns + [Txn(names, AfterLock(names, 0), false)])
    case Acquire(t) =>
      var names, h := s.txns[t].names, s.txns[t].phase.held;
      s.(owner := s.owner[names[h] := Held(t)],
         ran := s.ran[names[h] := []],
         txns := s.txns[t := Txn(names, AfterLock(names, h + 1), false)])
    case Operate(t, x, op) =>
      s.(tables := s.tables[x := Next(s.tables[x], op)],
         ran := s.ran[x := s.ran[x] + [op]],
         txns := s.txns[t := s.txns[t].(cancel := s.txns[t].cancel || Verdict(s.tables[x].db, op) != Done)])
    case Abort(t) => s.(txns := s.txns[t := s.txns[t].(cancel := true)])
    case End(t) =>
      s.(txns := s.txns[t := s.txns[t].(phase := Unlocking(0))],
         log := s.log + [Ended(t, s.txns[t].cancel, map x | x in s.txns[t].names :: s.ran[x])])
    case Release(t) =>
      var d := s.txns[t].phase.released;
      var x := s.txns[t].names[d];
      s.(tables := s.tables[x := Quiet(Left(s.tables[x], s.txns[t].cancel))],
         owner := if s.owner[x] == Held(t) then s.owner[x := Free] else s.owner,
         txns := s.txns[t := s.txns[t].(phase := Unlocking(d + 1))])
    case CkptStart => Gathered(s.(ckpt := Gathering(0), snaps := []))
    case CkptLock =>
      var h := s.ckpt.held;
      Gathered(s.(owner := s.owner[h := Checkpointer], ckpt := Gathering(h + 1)))
    case CkptSnap =>
      var k := s.ckpt.taken;
      s.(snaps := s.snaps + [s.tables[k].db],
         owner := s.owner[k := Free],
         ckpt := if k + 1 == |s.tables| then Saving(0) else Snapping(k + 1))
    case CkptDrop =>
      var k := s.ckpt.dropped;
      s.(ckpt := if k + 1 < |s.tables| then Saving(k + 1) else Idle)
  }

  /** Once the checkpoint holds every lock it takes the snapshots. */
  function Gathered(s: Env): Env
  {
    if s.ckpt.Gathering? && s.ckpt.held == |s.tables| then
      s.(ckpt := if |s.tables| == 0 then Saving(0) else Snapping(0), cut := |s.log|)
    else s
  }

  // ----- the serial order -----

  /** What a transaction makes of a table. */
  function After(was: Table, ops: seq<Op>, cancel: bool): Table
  {
    if cancel then was - Recreated(was, ops) else Final(was, ops)
  }

  /** Table x after the transactions of the log, each one whole, one after the other. */
  function Serial(initial: seq<Table>, log: seq<Ended>, x: Tab): Table
    requires x < |initial|
  {
    if log == [] then initial[x] else
      var was := Serial(initial, log[..|log| - 1], x);
      var last := log[|log| - 1];
      if x in last.ops then After(was, last.ops[x], last.cancel) else was
  }

  // ----- the invariant -----

  function Low(txn: Txn): nat
  {
    if txn.phase.Unlocking? then txn.phase.released else 0
  }

  function High(txn: Txn): nat
  {
    if txn.phase.Locking? then txn.phase.held else |txn.names|
  }

  ghost predicate Listed(s: Env, t: TxnId)
    requires t < |s.txns|
  {
    var txn := s.txns[t];
    && Sorted(txn.names, |s.owner|)
    && NamedOnce(txn.names)
    && Low(txn) <= High(txn) <= |txn.names|
    && (txn.phase.Locking? ==> txn.phase.held < |txn.names|)
  }

  /** A transaction owns just the names it has locked and not yet released. */
  ghost predicate Owns(s: Env, t: TxnId)
    requires t < |s.txns| && Listed(s, t)
  {
    var txn := s.txns[t];
    && (forall i | Low(txn) <= i < High(txn) :: s.owner[txn.names[i]] == Held(t))
    && (forall x | 0 <= x < |s.owner| && s.owner[x] == Held(t) :: x in txn.names[Low(txn)..High(txn)])
  }

  predicate CkptHolds(c: Checkpoint, x: Tab)
  {
    (c.Gathering? && x < c.held) || (c.Snapping? && x >= c.taken)
  }

  /** A table nobody is working on is as the log says; under a running transaction, as that and its work. */
  ghost predicate Settled(s: Env, x: Tab)
    requires x < |s.owner| == |s.tables| == |s.initial| == |s.ran|
  {
    var was := Serial(s.initial, s.log, x);
    match s.owner[x]
    case Free => s.tables[x] == Quiet(was)
    case Checkpointer => s.tables[x] == Quiet(was)
    case Held(t) =>
      && t < |s.txns|
      && (s.txns[t].phase.Locking? ==> s.tables[x] == Quiet(was) && s.ran[x] == [])
      && (s.txns[t].phase.Running? ==> s.tables[x] == Ran(Quiet(was), s.ran[x]))
      && (s.txns[t].phase.Unlocking? ==> Left(s.tables[x], s.txns[t].cancel) == was)
  }

  /** The snapshots taken, and the tables still to be taken, are as when the checkpoint held every lock. */
  ghost predicate Consistent(s: Env)
    requires |s.tables| == |s.initial|
  {
    && s.cut <= |s.log|
    && (s.ckpt.Gathering? ==> s.ckpt.held < |s.tables| && s.snaps == [])
    && (s.ckpt.Snapping? ==> |s.snaps| == s.ckpt.taken < |s.tables|)
    && (s.ckpt.Saving? ==> |s.snaps| == |s.tables|)
    && (s.ckpt.Snapping? || s.ckpt.Saving? ==>
      && (forall x | 0 <= x < |s.snaps| :: s.snaps[x] == Serial(s.initial, s.log[..s.cut], x))
      && (forall x | |s.snaps| <= x < |s.tables| ::
        Serial(s.initial, s.log, x) == Serial(s.initial, s.log[..s.cut], x)))
  }

  ghost predicate Sized(s: Env)
  {
    |s.owner| == |s.tables| == |s.initial| == |s.ran|
  }

  ghost predicate Inv(s: Env)
  {
    && Sized(s)
    && (forall t | 0 <= t < |s.txns| :: Listed(s, t) && Owns(s, t))
    && (forall x | 0 <= x < |s.owner| :: s.owner[x].Checkpointer? <==> CkptHolds(s.ckpt, x))
    && (forall x | 0 <= x < |s.owner| :: Settled(s, x))
    && Consistent(s)
  }

  // ----- every step keeps it -----

  /** Locks that only t touches leave the others' holdings alone. */
  lemma OwnsOther(s: Env, s': Env, t: TxnId, u: TxnId)
    requires u < |s.txns| && u < |s'.txns| && s.txns[u] == s'.txns[u] && |s.owner| == |s'.owner|
    requires Listed(s, u) && Owns(s, u)
    requires forall x | 0 <= x < |s.owner| :: s.owner[x] == Held(u) <==> s'.owner[x] == Held(u)
    ensures Listed(s', u) && Owns(s', u)
  {
  }

  /** The step of a transaction leaves what the others own. */
  lemma OthersOwn(s: Env, s': Env, t: TxnId)
    requires Inv(s) && t < |s.txns| == |s'.txns| && |s.owner| == |s'.owner|
    requires forall u | 0 <= u < |s.txns| && u != t :: s'.txns[u] == s.txns[u]
    requires forall x | 0 <= x < |s.owner| && s'.owner[x] != s.owner[x] ::
               s.owner[x] in {Free, Held(t)} && s'.owner[x] in {Free, Held(t)}
    ensures forall u | 0 <= u < |s'.txns| && u != t :: Listed(s', u) && Owns(s', u)
  {
    forall u | 0 <= u < |s'.txns| && u != t ensures Listed(s', u) && Owns(s', u) {
      assert Listed(s, u) && Owns(s, u);
      OwnsOther(s, s', t, u);
    }
  }

  lemma SettledSame(s: Env, s': Env, x: Tab)
    requires Sized(s) && Sized(s') && x < |s.owner| == |s'.owner| && Settled(s, x)
    requires s'.tables[x] == s.tables[x] && s'.owner[x] == s.owner[x] && s'.ran[x] == s.ran[x]
    requires Serial(s'.initial, s'.log, x) == Serial(s.initial, s.log, x)
    requires s.owner[x].Held? ==> s.owner[x].txn < |s'.txns| && s'.txns[s.owner[x].txn] == s.txns[s.owner[x].txn]
    ensures Settled(s', x)
  {
  }

  lemma BeginKeeps(s: Env, names: seq<Tab>)
    requires Inv(s) && Enabled(s, Begin(names)) && NamedOnce(names)
    ensures Inv(Apply(s, Begin(names)))
  {
    var s' := Apply(s, Begin(names));
    forall u | 0 <= u < |s'.txns| ensures Listed(s', u) && Owns(s', u) {
      if u < |s.txns| {
        OwnsOther(s, s', u, u);
      } else {
        forall x | 0 <= x < |s'.owner| ensures s'.owner[x] != Held(u) {
          assert Settled(s, x);
        }
      }
    }
    forall x | 0 <= x < |s'.owner| ensures Settled(s', x) {
      SettledSame(s, s', x);
    }
  }

  lemma AcquireKeeps(s: Env, t: TxnId)
    requires Inv(s) && Enabled(s, Acquire(t))
    ensures Inv(Apply(s, Acquire(t)))
  {
    var s' := Apply(s, Acquire(t));
    var names, h := s.txns[t].names, s.txns[t].phase.held;
    var x0 := names[h];
    assert s.owner[x0] == Free by {
      assert Listed(s, t) && Owns(s, t);
      assert x0 !in names[0..h];
    }
    assert Listed(s', t) && Owns(s', t) by {
      assert names[0..h + 1] == names[0..h] + [x0];
    }
    OthersOwn(s, s', t);
    hide Listed, Owns;
    forall x | 0 <= x < |s'.owner| ensures Settled(s', x) {
      assert Settled(s, x);
      if s.owner[x] == Held(t) || x == x0 {
        assert s'.tables[x] == Quiet(Serial(s.initial, s.log, x)) && s'.ran[x] == [];
      } else {
        SettledSame(s, s', x);
      }
    }
  }

  lemma OperateKeeps(s: Env, t: TxnId, x0: Tab, op: Op)
    requires Inv(s) && Enabled(s, Operate(t, x0, op))
    ensures Inv(Apply(s, Operate(t, x0, op)))
  {
    hide Next;
    var s' := Apply(s, Operate(t, x0, op));
    assert Listed(s, t) && Owns(s, t) && s.owner[x0] == Held(t) by {
      var i :| 0 <= i < |s.txns[t].names| && s.txns[t].names[i] == x0;
    }
    assert Listed(s', t) && Owns(s', t) by {
      assert Listed(s, t) && Owns(s, t);
    }
    OthersOwn(s, s', t);
    forall x | 0 <= x < |s'.owner| ensures Settled(s', x) {
      assert Settled(s, x);
      if x == x0 {
        assert s'.ran[x][..|s.ran[x]|] == s.ran[x];
      } else if s.owner[x] != Held(t) {
        SettledSame(s, s', x);
      }
    }
  }

  lemma AbortKeeps(s: Env, t: TxnId)
    requires Inv(s) && Enabled(s, Abort(t))
    ensures Inv(Apply(s, Abort(t)))
  {
    hide Ran;
    var s' := Apply(s, Abort(t));
    assert Listed(s', t) && Owns(s', t) by {
      assert Listed(s, t) && Owns(s, t);
    }
    OthersOwn(s, s', t);
    forall x | 0 <= x < |s'.owner| ensures Settled(s', x) {
      assert Settled(s, x);
      if s.owner[x] != Held(t) {
        SettledSame(s, s', x);
      }
    }
  }

  /** Undoing from the log, or keeping, is what the transaction's operations say. */
  lemma EndedTable(was: Table, ops: seq<Op>, cancel: bool)
    ensures Left(Ran(Quiet(was), ops), cancel) == After(was, ops, cancel)
  {
    RanIs(was, ops);
    CancelRestores(was, ops);
  }

  lemma EndKeeps(s: Env, t: TxnId)
    requires Inv(s) && Enabled(s, End(t))
    ensures Inv(Apply(s, End(t)))
  {
    hide Ran, Rebuilt;
    var s' := Apply(s, End(t));
    var done := s'.log[|s.log|].ops;
    assert s'.log[..|s.log|] == s.log && s'.log[..s.cut] == s.log[..s.cut];
    assert Listed(s, t) && Owns(s, t);
    assert s'.txns[t].names[0..|s.txns[t].names|] == s.txns[t].names;
    assert Listed(s', t) && Owns(s', t);
    forall x | 0 <= x < |s'.owner| ensures s.owner[x] == Held(t) <==> x in done {
      if x in done {
        var i :| 0 <= i < |s.txns[t].names| && s.txns[t].names[i] == x;
      }
    }
    hide Listed, Owns;
    OthersOwn(s, s', t);
    forall x | 0 <= x < |s'.owner| ensures Settled(s', x) {
      assert Settled(s, x);
      if x in done {
        EndedTable(Serial(s.initial, s.log, x), s.ran[x], s.txns[t].cancel);
      } else {
        SettledSame(s, s', x);
      }
    }
  }

  lemma ReleaseKeeps(s: Env, t: TxnId)
    requires Inv(s) && Enabled(s, Release(t))
    ensures Inv(Apply(s, Release(t)))
  {
    hide Ran, Rebuilt;
    var s' := Apply(s, Release(t));
    var names, d := s.txns[t].names, s.txns[t].phase.released;
    var x0 := names[d];
    assert Listed(s, t) && Owns(s, t) && s.owner[x0] == Held(t);
    assert Listed(s', t) && Owns(s', t) by {
      assert names[d..|names|] == [x0] + names[d + 1..|names|];
    }
    OthersOwn(s, s', t);
    hide Listed, Owns;
    forall x | 0 <= x < |s'.owner| ensures Settled(s', x) {
      assert Settled(s, x);
      if x != x0 && s.owner[x] != Held(t) {
        SettledSame(s, s', x);
      }
    }
  }

  /** The checkpoint's steps touch no transaction. */
  lemma CkptOwns(s: Env, s': Env)
    requires Inv(s) && s'.txns == s.txns && |s.owner| == |s'.owner|
    requires forall x | 0 <= x < |s.owner| && s.owner[x] != s'.owner[x] :: !s.owner[x].Held? && !s'.owner[x].Held?
    ensures forall t | 0 <= t < |s'.txns| :: Listed(s', t) && Owns(s', t)
  {
    forall u | 0 <= u < |s'.txns| ensures Listed(s', u) && Owns(s', u) {
      assert Listed(s, u) && Owns(s, u);
      OwnsOther(s, s', u, u);
    }
  }

  lemma CkptSettled(s: Env, s': Env)
    requires Inv(s) && s'.txns == s.txns && s'.log == s.log && s'.tables == s.tables && s'.ran == s.ran
      && s'.initial == s.initial
    requires |s.owner| == |s'.owner|
    requires forall x | 0 <= x < |s.owner| && s.owner[x] != s'.owner[x] :: !s.owner[x].Held? && !s'.owner[x].Held?
    ensures forall x | 0 <= x < |s'.owner| :: Settled(s', x)
  {
    hide Ran, Left;
    forall x | 0 <= x < |s'.owner| ensures Settled(s', x) {
      assert Settled(s, x);
      if s'.owner[x] == s.owner[x] {
        SettledSame(s, s', x);
      }
    }
  }

  lemma CkptLockKeeps(s: Env, step: Step)
    requires Inv(s) && Enabled(s, step) && step in {CkptStart, CkptLock}
    ensures Inv(Apply(s, step))
  {
    hide Ran, Left, Listed, Owns, Settled;
    var s' := Apply(s, step);
    CkptOwns(s, s');
    CkptSettled(s, s');
    assert s.log[..|s.log|] == s.log;
  }

  lemma CkptSnapKeeps(s: Env)
    requires Inv(s) && Enabled(s, CkptSnap)
    ensures Inv(Apply(s, CkptSnap))
  {
    hide Ran, Left, Listed, Owns;
    var s' := Apply(s, CkptSnap);
    assert Settled(s, s.ckpt.taken) && s.owner[s.ckpt.taken].Checkpointer?;
    hide Settled;
    CkptOwns(s, s');
    CkptSettled(s, s');
  }

  lemma CkptDropKeeps(s: Env)
    requires Inv(s) && Enabled(s, CkptDrop)
    ensures Inv(Apply(s, CkptDrop))
  {
    hide Ran, Left, Listed, Owns, Settled;
    var s' := Apply(s, CkptDrop);
    CkptOwns(s, s');
    CkptSettled(s, s');
  }

  lemma StepKeeps(s: Env, step: Step)
    requires Inv(s) && Enabled(s, step) && (step.Begin? ==> NamedOnce(step.names))
    ensures Inv(Apply(s, step))
  {
    match step
    case Begin(names) => BeginKeeps(s, names);
    case Acquire(t) => AcquireKeeps(s, t);
    case Operate(t, x, op) => OperateKeeps(s, t, x, op);
    case Abort(t) => AbortKeeps(s, t);
    case End(t) => EndKeeps(s, t);
    case Release(t) => ReleaseKeeps(s, t);
    case CkptStart => CkptLockKeeps(s, step);
    case CkptLock => CkptLockKeeps(s, step);
    case CkptSnap => CkptSnapKeeps(s);
    case CkptDrop => CkptDropKeeps(s);
  }

  // ----- runs -----

  function Start(tables: seq<Table>): Env
  {
    Env(seq(|tables|, i requires 0 <= i < |tables| => Quiet(tables[i])), seq(|tables|, _ => Free),
        [], Idle, [], tables, seq(|tables|, _ => []), [], 0)
  }

  /** The steps can be taken one after the other, and lead from s to end. */
  ghost predicate Run(s: Env, steps: seq<Step>, end: Env)
    decreases |steps|
  {
    if steps == [] then s == end
    else
      && |s.owner| == |s.tables| == |s.ran|
      && Enabled(s, steps[0])
      && Run(Apply(s, steps[0]), steps[1..], end)
  }

  /** Each transaction names a table at most once. */
  ghost predicate Proper(steps: seq<Step>)
  {
    forall i | 0 <= i < |steps| && steps[i].Begin? :: NamedOnce(steps[i].names)
  }

  lemma {:induction false} RunKeeps(s: Env, steps: seq<Step>, end: Env)
    requires Inv(s) && Run(s, steps, end) && Proper(steps)
    ensures Inv(end)
    decreases |steps|
  {
    if steps != [] {
      StepKeeps(s, steps[0]);
      RunKeeps(Apply(s, steps[0]), steps[1..], end);
    }
  }

  lemma StartInv(tables: seq<Table>)
    ensures Inv(Start(tables))
  {
  }

  /** In every interleaving, the snapshots of all tables together are the tables after some of the transactions,
      each of them whole: those that had ended when the checkpoint came to hold every lock. */
  lemma SnapshotsAreSerial(tables: seq<Table>, steps: seq<Step>, end: Env)
    requires Run(Start(tables), steps, end) && Proper(steps) && end.ckpt.Saving?
    ensures |end.snaps| == |tables| && end.cut <= |end.log|
    ensures forall x | 0 <= x < |tables| :: end.snaps[x] == Serial(tables, end.log[..end.cut], x)
  {
    StartInv(tables);
    RunKeeps(Start(tables), steps, end);
    RunInitial(Start(tables), steps, end);
  }

  lemma {:induction false} RunInitial(s: Env, steps: seq<Step>, end: Env)
    requires Run(s, steps, end)
    ensures end.initial == s.initial
    decreases |steps|
  {
    if steps != [] {
      RunInitial(Apply(s, steps[0]), steps[1..], end);
    }
  }
}
