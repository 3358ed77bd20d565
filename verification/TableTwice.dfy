/** A transaction that names a table twice lets go of it twice: the second time it may be another's. */
module TableTwice {
  import opened Octets
  import opened TableUndo
  import opened TableLocks

  // ----- building a run -----

  lemma {:induction false} RunThen(s: Env, steps: seq<Step>, mid: Env, step: Step)
    requires Run(s, steps, mid) && Sized(mid) && Enabled(mid, step)
    ensures Run(s, steps + [step], Apply(mid, step))
    decreases |steps|
  {
    hide Apply, Enabled;
    if steps == [] {
      assert Run(Apply(mid, step), [], Apply(mid, step));
      assert ([step])[1..] == [] && [] + [step] == [step];
    } else {
      RunThen(Apply(s, steps[0]), steps[1..], mid, step);
      assert (steps + [step])[1..] == steps[1..] + [step];
    }
  }

  function Empty(n: nat): seq<Table>
  {
    seq(n, _ => map[])
  }

  /** All tables empty and at rest, those of a set locked by transaction 0. */
  function Still(n: nat, held: set<Tab>, txns: seq<Txn>, log: seq<Ended>, ran: seq<seq<Op>>): Env
  {
    Env(seq(n, _ => Quiet(map[])), Owners(n, held),
        txns, Idle, [], Empty(n), ran, log, 0)
  }

  function NoWork(n: nat): seq<seq<Op>>
  {
    seq(n, _ => [])
  }

  function Names(names: seq<Tab>): set<Tab>
  {
    set y | y in names
  }

  /** Every transaction of the run names either these tables or a single one. */
  ghost predicate Uses(steps: seq<Step>, names: seq<Tab>)
  {
    forall i | 0 <= i < |steps| && steps[i].Begin? :: steps[i].names == names || |steps[i].names| == 1
  }

  function GivenUp(names: seq<Tab>): Ended
  {
    Ended(0, true, map y | y in names :: [])
  }

  lemma StillLock(n: nat, names: seq<Tab>, h: nat)
    requires Sorted(names, n) && h < |names|
    ensures
      var s := Still(n, Names(names[..h]), [Txn(names, AfterLock(names, h), false)], [], NoWork(n));
      && Sized(s) && Enabled(s, Acquire(0))
      && Apply(s, Acquire(0))
         == Still(n, Names(names[..h + 1]), [Txn(names, AfterLock(names, h + 1), false)], [], NoWork(n))
  {
    var s := Still(n, Names(names[..h]), [Txn(names, AfterLock(names, h), false)], [], NoWork(n));
    assert names[..h + 1] == names[..h] + [names[h]];
    var s' := Apply(s, Acquire(0));
    assert s'.owner == Still(n, Names(names[..h + 1]), [], [], []).owner;
    assert s'.ran == s.ran;
  }

  /** Transaction 0 locks all it names, and gives up. */
  lemma GivesUp(n: nat, names: seq<Tab>) returns (steps: seq<Step>, end: Env)
    requires Sorted(names, n)
    ensures Run(Start(Empty(n)), steps, end) && Uses(steps, names)
    ensures end == Still(n, Names(names), [Txn(names, Unlocking(0), true)], [GivenUp(names)], NoWork(n))
  {
    hide Run;
    var start := Start(Empty(n));
    steps, end := Locks(n, names);
    StillUnlocks(n, names);
    RunThen(start, steps, end, Abort(0));
    steps, end := steps + [Abort(0)], Apply(end, Abort(0));
    RunThen(start, steps, end, End(0));
    steps, end := steps + [End(0)], Apply(end, End(0));
  }

  lemma StillUnlocks(n: nat, names: seq<Tab>)
    requires Sorted(names, n)
    ensures
      var s := Still(n, Names(names), [Txn(names, AfterLock(names, |names|), false)], [], NoWork(n));
      && Sized(s) && Enabled(s, Abort(0)) && Sized(Apply(s, Abort(0))) && Enabled(Apply(s, Abort(0)), End(0))
      && Apply(Apply(s, Abort(0)), End(0)) ==
        Still(n, Names(names), [Txn(names, Unlocking(0), true)], [GivenUp(names)], NoWork(n))
  {
    var s := Still(n, Names(names), [Txn(names, AfterLock(names, |names|), false)], [], NoWork(n));
    var s' := Apply(Apply(s, Abort(0)), End(0));
    assert s'.log[0].ops == GivenUp(names).ops;
    assert s'.log == [GivenUp(names)];
  }

  lemma Locks(n: nat, names: seq<Tab>) returns (steps: seq<Step>, end: Env)
    requires Sorted(names, n)
    ensures Run(Start(Empty(n)), steps, end) && Uses(steps, names)
    ensures end == Still(n, Names(names), [Txn(names, AfterLock(names, |names|), false)], [], NoWork(n))
  {
    var start := Start(Empty(n));
    assert Run(start, [], start);
    RunThen(start, [], start, Begin(names));
    steps, end := [] + [Begin(names)], Apply(start, Begin(names));
    assert end == Still(n, {}, [Txn(names, AfterLock(names, 0), false)], [], NoWork(n));
    hide Run;
    for h := 0 to |names|
      invariant Run(start, steps, end) && Uses(steps, names)
      invariant end == Still(n, Names(names[..h]), [Txn(names, AfterLock(names, h), false)], [], NoWork(n))
    {
      StillLock(n, names, h);
      RunThen(start, steps, end, Acquire(0));
      steps, end := steps + [Acquire(0)], Apply(end, Acquire(0));
    }
    assert names[..|names|] == names;
  }

  /** What transaction 0 still owns after d releases. */
  function Rest(names: seq<Tab>, d: nat): set<Tab>
    requires d <= |names|
  {
    set y | y in names && y !in names[..d]
  }

  lemma NothingLeft()
    ensures Quiet(Left(Quiet(map[]), true)) == Quiet(map[])
  {
  }

  function Owners(n: nat, held: set<Tab>): (o: seq<Owner>)
    ensures |o| == n
  {
    seq(n, y requires 0 <= y < n => if y in held then Held(0) else Free)
  }

  lemma RestOwner(n: nat, names: seq<Tab>, d: nat)
    requires Sorted(names, n) && d < |names|
    ensures names[d] < n
    ensures var o := Owners(n, Rest(names, d));
      Owners(n, Rest(names, d + 1)) == if o[names[d]] == Held(0) then o[names[d] := Free] else o
  {
    assert names[..d + 1] == names[..d] + [names[d]];
  }

  lemma StillRelease(n: nat, names: seq<Tab>, d: nat, others: seq<Txn>, log: seq<Ended>, ran: seq<seq<Op>>)
    requires Sorted(names, n) && d < |names| && |ran| == n
    ensures
      var s := Still(n, Rest(names, d), [Txn(names, Unlocking(d), true)] + others, log, ran);
      && Sized(s) && Enabled(s, Release(0))
      && Apply(s, Release(0)) == Still(n, Rest(names, d + 1), [Txn(names, Unlocking(d + 1), true)] + others, log, ran)
  {
    hide Rest, Owners;
    var txn := Txn(names, Unlocking(d), true);
    var s := Still(n, Rest(names, d), [txn] + others, log, ran);
    assert s.txns[0] == txn;
    NothingLeft();
    RestOwner(n, names, d);
    assert s.tables[names[d] := Quiet(map[])] == s.tables;
    assert ([txn] + others)[0 := Txn(names, Unlocking(d + 1), true)] == [Txn(names, Unlocking(d + 1), true)] + others;
  }

  /** From the d-th release to the e-th. */
  lemma Releases(start: Env, before: seq<Step>, n: nat, names: seq<Tab>, d: nat, e: nat,
                 others: seq<Txn>, log: seq<Ended>, ran: seq<seq<Op>>) returns (steps: seq<Step>, end: Env)
    requires Sorted(names, n) && d <= e <= |names| && |ran| == n && Uses(before, names)
    requires Run(start, before, Still(n, Rest(names, d), [Txn(names, Unlocking(d), true)] + others, log, ran))
    ensures Run(start, steps, end) && Uses(steps, names)
    ensures end == Still(n, Rest(names, e), [Txn(names, Unlocking(e), true)] + others, log, ran)
  {
    hide Run, Still, Apply, Enabled;
    steps, end := before, Still(n, Rest(names, d), [Txn(names, Unlocking(d), true)] + others, log, ran);
    for c := d to e
      invariant Run(start, steps, end) && Uses(steps, names)
      invariant end == Still(n, Rest(names, c), [Txn(names, Unlocking(c), true)] + others, log, ran)
    {
      StillRelease(n, names, c, others, log, ran);
      RunThen(start, steps, end, Release(0));
      steps, end := steps + [Release(0)], Apply(end, Release(0));
    }
  }

  function Work(x: Tab, k: Octets, v: Octets): Ended
  {
    Ended(1, false, map[x := [Insert(k, v, false)]])
  }

  /** Another transaction locks a free table, inserts a key, and ends. */
  lemma Inserts(start: Env, before: seq<Step>, s: Env, x: Tab, k: Octets, v: Octets, names: seq<Tab>)
    returns (steps: seq<Step>, end: Env)
    requires Run(start, before, s) && Uses(before, names) && Sized(s) && |s.txns| == 1 && x < |s.tables| && k != []
    requires s.owner[x].Free? && s.tables[x] == Quiet(map[])
    ensures Run(start, steps, end) && Uses(steps, names)
    ensures end == s.(txns := s.txns + [Txn([x], Unlocking(0), false)], owner := s.owner[x := Held(1)],
                      tables := s.tables[x := Undo(map[k := v], map[], {k})],
                      ran := s.ran[x := [Insert(k, v, false)]], log := s.log + [Work(x, k, v)])
  {
    hide Run, Serial, Rebuilt;
    var op := Insert(k, v, false);
    RunThen(start, before, s, Begin([x]));
    steps, end := before + [Begin([x])], Apply(s, Begin([x]));
    RunThen(start, steps, end, Acquire(1));
    steps, end := steps + [Acquire(1)], Apply(end, Acquire(1));
    assert end.txns == s.txns + [Txn([x], Running, false)];
    RunThen(start, steps, end, Operate(1, x, op));
    steps, end := steps + [Operate(1, x, op)], Apply(end, Operate(1, x, op));
    assert end.txns == s.txns + [Txn([x], Running, false)];
    assert end.tables[x] == Undo(map[k := v], map[], {k}) && end.ran[x] == [op];
    RunThen(start, steps, end, End(1));
    steps, end := steps + [End(1)], Apply(end, End(1));
    assert end.txns == s.txns + [Txn([x], Unlocking(0), false)];
    assert end.log[|s.log|].ops == Work(x, k, v).ops && end.log == s.log + [Work(x, k, v)];
    assert end.ran == s.ran[x := [op]];
    assert end.tables == s.tables[x := Undo(map[k := v], map[], {k})];
  }

  /** Transaction 0 lets go of the table a second time, and takes the insert back. */
  lemma Undoes(start: Env, before: seq<Step>, s: Env, d: nat, k: Octets, v: Octets, names: seq<Tab>)
    returns (steps: seq<Step>, end: Env)
    requires Run(start, before, s) && Uses(before, names) && Sized(s)
    requires d < |names| && names[d] < |s.tables| && s.owner[names[d]] == Held(1)
    requires s.txns == [Txn(names, Unlocking(d), true), Txn([names[d]], Unlocking(0), false)]
    requires s.tables[names[d]] == Undo(map[k := v], map[], {k})
    ensures Run(start, steps, end) && Uses(steps, names)
    ensures end == s.(txns := [Txn(names, Unlocking(d + 1), true), Txn([names[d]], Unlocking(1), false)],
                      owner := s.owner[names[d] := Free], tables := s.tables[names[d] := Quiet(map[])])
  {
    hide Run, Serial;
    assert Rebuilt(s.tables[names[d]]) == map[];
    RunThen(start, before, s, Release(0));
    steps, end := before + [Release(0)], Apply(s, Release(0));
    RunThen(start, steps, end, Release(1));
    steps, end := steps + [Release(1)], Apply(end, Release(1));
  }

  /** Transaction 1 inserts a key into the table that transaction 0 has let go of and lets go of again. */
  lemma Steals(start: Env, before: seq<Step>, n: nat, names: seq<Tab>, i: nat, k: Octets, v: Octets)
    returns (steps: seq<Step>, end: Env)
    requires Sorted(names, n) && i + 1 < |names| && names[i] == names[i + 1] && k != [] && Uses(before, names)
    requires Run(start, before,
               Still(n, Rest(names, i + 1), [Txn(names, Unlocking(i + 1), true)] + [], [GivenUp(names)], NoWork(n)))
    ensures Run(start, steps, end) && Uses(steps, names)
    ensures end == Still(n, Rest(names, i + 2),
                         [Txn(names, Unlocking(i + 2), true)] + [Txn([names[i]], Unlocking(1), false)],
                         [GivenUp(names), Work(names[i], k, v)], NoWork(n)[names[i] := [Insert(k, v, false)]])
  {
    hide Run;
    var x := names[i];
    assert x !in Rest(names, i + 1);
    assert Rest(names, i + 2) == Rest(names, i + 1) by {
      assert names[..i + 2] == names[..i + 1] + [x];
    }
    var s := Still(n, Rest(names, i + 1), [Txn(names, Unlocking(i + 1), true)] + [], [GivenUp(names)], NoWork(n));
    steps, end := Inserts(start, before, s, x, k, v, names);
    steps, end := Undoes(start, steps, end, i + 1, k, v, names);
    assert end.tables == s.tables && end.owner == s.owner;
  }

  // ----- the checkpoint of tables that nobody uses -----

  /** The checkpoint takes every lock. */
  lemma Gathers(start: Env, before: seq<Step>, s: Env, names: seq<Tab>) returns (steps: seq<Step>, end: Env)
    requires Run(start, before, s) && Uses(before, names) && Sized(s) && s.ckpt.Idle? && |s.tables| > 0
    requires forall x | 0 <= x < |s.owner| :: s.owner[x] == Free
    ensures Run(start, steps, end) && Uses(steps, names)
    ensures end == s.(ckpt := Snapping(0), snaps := [], cut := |s.log|, owner := seq(|s.tables|, _ => Checkpointer))
  {
    hide Run;
    var n := |s.tables|;
    RunThen(start, before, s, CkptStart);
    steps, end := before + [CkptStart], Apply(s, CkptStart);
    for h := 0 to n
      invariant Run(start, steps, end) && Uses(steps, names)
      invariant |end.owner| == n
      invariant forall x | 0 <= x < n :: end.owner[x] == if x < h then Checkpointer else Free
      invariant end == s.(ckpt := if h < n then Gathering(h) else Snapping(0), snaps := [],
                          cut := if h < n then s.cut else |s.log|, owner := end.owner)
    {
      RunThen(start, steps, end, CkptLock);
      steps, end := steps + [CkptLock], Apply(end, CkptLock);
    }
  }

  /** It takes every snapshot. */
  lemma Snaps(start: Env, before: seq<Step>, s: Env, names: seq<Tab>) returns (steps: seq<Step>, end: Env)
    requires Run(start, before, s) && Uses(before, names) && Sized(s) && s.ckpt == Snapping(0) && s.snaps == []
    requires |s.tables| > 0
    ensures Run(start, steps, end) && Uses(steps, names)
    ensures end == s.(ckpt := Saving(0), snaps := end.snaps, owner := end.owner)
    ensures |end.snaps| == |s.tables| && forall x | 0 <= x < |s.tables| :: end.snaps[x] == s.tables[x].db
  {
    hide Run;
    var n := |s.tables|;
    steps, end := before, s;
    for k := 0 to n
      invariant Run(start, steps, end) && Uses(steps, names)
      invariant |end.snaps| == k && |end.owner| == n
      invariant forall x | 0 <= x < k :: end.snaps[x] == s.tables[x].db
      invariant end == s.(ckpt := if k < n then Snapping(k) else Saving(0), snaps := end.snaps, owner := end.owner)
    {
      RunThen(start, steps, end, CkptSnap);
      steps, end := steps + [CkptSnap], Apply(end, CkptSnap);
    }
  }

  // ----- when the snapshots are serial -----

  /** The snapshots are the tables after whole transactions. */
  ghost predicate SnapsSerial(end: Env)
  {
    && |end.snaps| == |end.initial| && end.cut <= |end.log|
    && forall x | 0 <= x < |end.initial| :: end.snaps[x] == Serial(end.initial, end.log[..end.cut], x)
  }

  /** For any list that names a table twice: some interleaving makes the checkpoint save a table
      without the insert of a transaction that ended, uncancelled, before. */
  lemma TwiceBreaks(n: nat, names: seq<Tab>, i: nat, k: Octets, v: Octets) returns (steps: seq<Step>, end: Env)
    requires Sorted(names, n) && i + 1 < |names| && names[i] == names[i + 1] && k != []
    ensures Run(Start(Empty(n)), steps, end) && Uses(steps, names) && end.ckpt.Saving? && end.initial == Empty(n)
    ensures |end.snaps| == n && end.cut <= |end.log|
    ensures end.log[..end.cut] == [GivenUp(names), Work(names[i], k, v)]
    ensures Serial(end.initial, end.log[..end.cut], names[i]) == map[k := v] && end.snaps[names[i]] == map[]
  {
    hide Run, GivenUp, Work, Uses;
    var start, x := Start(Empty(n)), names[i];
    steps, end := GivesUp(n, names);
    assert Rest(names, 0) == Names(names) && [Txn(names, Unlocking(0), true)] + [] == [Txn(names, Unlocking(0), true)];
    steps, end := Releases(start, steps, n, names, 0, i + 1, [], [GivenUp(names)], NoWork(n));
    steps, end := Steals(start, steps, n, names, i, k, v);
    var log, ran := [GivenUp(names), Work(x, k, v)], NoWork(n)[x := [Insert(k, v, false)]];
    steps, end := Releases(start, steps, n, names, i + 2, |names|, [Txn([x], Unlocking(1), false)], log, ran);
    assert Rest(names, |names|) == {} by { assert names[..|names|] == names; }
    steps, end := Gathers(start, steps, end, names);
    steps, end := Snaps(start, steps, end, names);
    SerialWork(n, names, x, k, v);
  }

  lemma SerialWork(n: nat, names: seq<Tab>, x: Tab, k: Octets, v: Octets)
    requires x < n && x in names && k != []
    ensures Serial(Empty(n), [GivenUp(names), Work(x, k, v)], x) == map[k := v]
  {
    var log := [GivenUp(names), Work(x, k, v)];
    assert log[..1] == [GivenUp(names)] && log[..1][..0] == [];
    assert Serial(Empty(n), log[..1], x) == map[];
    var ops := [Insert(k, v, false)];
    assert ops[..0] == [];
    assert Final(map[], ops) == map[k := v];
  }

  /** Exactly the lists that name each table once keep the snapshots serial in every interleaving. */
  lemma SerialExactlyWhenNamedOnce(n: nat, names: seq<Tab>)
    requires Sorted(names, n)
    ensures NamedOnce(names) <==>
              forall steps, end ::
                Run(Start(Empty(n)), steps, end) && Uses(steps, names) && end.ckpt.Saving? ==> SnapsSerial(end)
  {
    if NamedOnce(names) {
      forall steps, end | Run(Start(Empty(n)), steps, end) && Uses(steps, names) && end.ckpt.Saving?
        ensures SnapsSerial(end)
      {
        SnapshotsAreSerial(Empty(n), steps, end);
        RunInitial(Start(Empty(n)), steps, end);
      }
    } else {
      var i, j :| 0 <= i < j < |names| && names[i] == names[j];
      assert names[i] <= names[i + 1] && names[i + 1] <= names[j];
      var steps, end := TwiceBreaks(n, names, i, [0], []);
      assert [0] in Serial(end.initial, end.log[..end.cut], names[i]) && [0] !in end.snaps[names[i]];
      assert !SnapsSerial(end);
    }
  }
}
