/** What the log of an interleaved run says, told from the steps of the run alone. */
module TableSteps {
  import opened Octets
  import opened TableUndo
  import opened TableLocks
  import opened TableRuns

  // ----- reading the steps -----

  /** The state that the steps lead to. */
  ghost function Reached(s: Env, steps: seq<Step>): Env
  {
    if steps == [] then s else
    var n := |steps| - 1;
    var mid := Reached(s, steps[..n]);
    if |mid.owner| == |mid.tables| == |mid.ran| && Enabled(mid, steps[n]) then Apply(mid, steps[n]) else mid
  }

  /** The names of the transactions, in the order in which they began. */
  function Begins(steps: seq<Step>): seq<seq<Tab>>
  {
    if steps == [] then [] else
    var n := |steps| - 1;
    Begins(steps[..n]) + (if steps[n].Begin? then [steps[n].names] else [])
  }

  /** The transactions that have ended, in that order. */
  function Ends(steps: seq<Step>): seq<TxnId>
  {
    if steps == [] then [] else
    var n := |steps| - 1;
    Ends(steps[..n]) + (if steps[n].End? then [steps[n].txn] else [])
  }

  /** What transaction t does to table x. */
  function Works(steps: seq<Step>, t: TxnId, x: Tab): seq<Op>
  {
    if steps == [] then [] else
    var n := |steps| - 1;
    Works(steps[..n], t, x)
      + (if steps[n].Operate? && steps[n].txn == t && steps[n].tab == x then [steps[n].op] else [])
  }

  /** An insert without a key, or of a key that is there, if it is not to be overwritten. */
  predicate Refused(m: Table, op: Op)
  {
    op.Insert? && (op.key == [] || (op.noOverwrite && op.key in m))
  }

  /** The step makes transaction t give up: it is told to, or an operation of it is refused. */
  ghost predicate GivesUp(s: Env, step: Step, t: TxnId)
  {
    || step == Abort(t)
    || (step.Operate? && step.txn == t && step.tab < |s.tables| && Refused(s.tables[step.tab].db, step.op))
  }

  ghost predicate GaveUp(s: Env, steps: seq<Step>, t: TxnId)
  {
    exists i :: 0 <= i < |steps| && GivesUp(Reached(s, steps[..i]), steps[i], t)
  }

  /** What is to be known of transaction t when it has ended. */
  ghost function EndOf(s: Env, steps: seq<Step>, t: TxnId): Ended
  {
    var names := if t < |Begins(steps)| then Begins(steps)[t] else [];
    Ended(t, GaveUp(s, steps, t), map x | x in names :: Works(steps, t, x))
  }

  ghost function LogOf(s: Env, steps: seq<Step>): (log: seq<Ended>)
    ensures |log| == |Ends(steps)|
  {
    seq(|Ends(steps)|, j requires 0 <= j < |Ends(steps)| => EndOf(s, steps, Ends(steps)[j]))
  }

  /** How many steps there were when the checkpoint took its last lock. */
  function LastLock(steps: seq<Step>): (n: nat)
    ensures n <= |steps|
  {
    if steps == [] then 0 else
    var n := |steps| - 1;
    if steps[n].CkptLock? || steps[n].CkptStart? then n else LastLock(steps[..n])
  }

  // ----- runs and reached states -----

  lemma {:induction false} RunReaches(s: Env, steps: seq<Step>, end: Env)
    requires Run(s, steps, end)
    ensures end == Reached(s, steps)
    ensures forall i | 0 <= i <= |steps| :: Run(s, steps[..i], Reached(s, steps[..i]))
    decreases |steps|
  {
    hide Apply, Enabled;
    if steps == [] {
      assert steps[..0] == [];
    } else {
      var n := |steps| - 1;
      var mid := RunLast(s, steps, end);
      RunReaches(s, steps[..n], mid);
      forall i | 0 <= i <= |steps| ensures Run(s, steps[..i], Reached(s, steps[..i])) {
        if i <= n { assert steps[..n][..i] == steps[..i]; } else { assert steps[..i] == steps; }
      }
    }
  }

  lemma {:induction false} RunLast(s: Env, steps: seq<Step>, end: Env) returns (mid: Env)
    requires Run(s, steps, end) && steps != []
    ensures Run(s, steps[..|steps| - 1], mid) && |mid.owner| == |mid.tables| == |mid.ran|
    ensures Enabled(mid, steps[|steps| - 1]) && end == Apply(mid, steps[|steps| - 1])
    decreases |steps|
  {
    hide Apply, Enabled;
    if |steps| == 1 {
      mid := s;
      assert Run(Apply(s, steps[0]), [], end);
    } else {
      mid := RunLast(Apply(s, steps[0]), steps[1..], end);
      assert steps[1..][..|steps| - 2] == steps[..|steps| - 1][1..];
    }
  }

  // ----- the transactions are what the steps say -----

  /** It has the names it began with, owns the tables it has locked, and has given up if its mark says so. */
  ghost predicate Told(s0: Env, steps: seq<Step>, s: Env, t: TxnId)
    requires t < |s.txns| && |s.owner| == |s.ran|
  {
    var txn := s.txns[t];
    && t < |Begins(steps)| && txn.names == Begins(steps)[t]
    && (txn.cancel <==> GaveUp(s0, steps, t))
    && (txn.phase.Locking? ==> !txn.cancel && txn.phase.held < |txn.names|)
    && (txn.phase.Locking? ==> forall x :: Works(steps, t, x) == [])
    && (txn.phase.Locking? ==> forall i | 0 <= i < txn.phase.held ::
          txn.names[i] < |s.owner| && s.owner[txn.names[i]] == Held(t) && s.ran[txn.names[i]] == [])
    && (txn.phase.Running? ==> forall x | x in txn.names ::
          x < |s.owner| && s.owner[x] == Held(t) && s.ran[x] == Works(steps, t, x))
  }

  ghost predicate CkptTold(s: Env)
  {
    forall x | 0 <= x < |s.owner| && CkptHolds(s.ckpt, x) :: s.owner[x].Checkpointer?
  }

  lemma CkptToldMore(s: Env, step: Step)
    requires |s.owner| == |s.tables| == |s.ran| && CkptTold(s) && Enabled(s, step)
    ensures CkptTold(Apply(s, step))
  {
    hide Next, Quiet, Left, Verdict, Sorted;
  }

  ghost predicate AllTold(s0: Env, steps: seq<Step>, s: Env)
  {
    && |s.owner| == |s.tables| == |s.ran| && |s.txns| == |Begins(steps)| && CkptTold(s)
    && (forall t | 0 <= t < |s.txns| :: Told(s0, steps, s, t))
    && (forall t | t >= |s.txns| :: !GaveUp(s0, steps, t) && forall x :: Works(steps, t, x) == [])
  }

  ghost predicate LogTold(s0: Env, steps: seq<Step>, s: Env)
  {
    && s.log == LogOf(s0, steps)
    && forall j | 0 <= j < |s.log| :: s.log[j].txn < |s.txns| && s.txns[s.log[j].txn].phase.Unlocking?
  }

  lemma GaveUpMore(s: Env, steps: seq<Step>, step: Step, t: TxnId)
    ensures GaveUp(s, steps + [step], t) <==> GaveUp(s, steps, t) || GivesUp(Reached(s, steps), step, t)
  {
    hide Reached, GivesUp;
    var more := steps + [step];
    assert more[..|steps|] == steps && more[|steps|] == step;
    forall i | 0 <= i < |steps| ensures more[..i] == steps[..i] && more[i] == steps[i] {}
    if GaveUp(s, steps, t) {
      var i :| 0 <= i < |steps| && GivesUp(Reached(s, steps[..i]), steps[i], t);
      assert GivesUp(Reached(s, more[..i]), more[i], t);
    } else if GivesUp(Reached(s, steps), step, t) {
      assert GivesUp(Reached(s, more[..|steps|]), more[|steps|], t);
    }
  }

  lemma StepReads(steps: seq<Step>, step: Step)
    ensures Begins(steps + [step]) == Begins(steps) + (if step.Begin? then [step.names] else [])
    ensures Ends(steps + [step]) == Ends(steps) + (if step.End? then [step.txn] else [])
  {
    assert (steps + [step])[..|steps|] == steps;
  }

  lemma WorksMore(steps: seq<Step>, step: Step, t: TxnId, x: Tab)
    ensures Works(steps + [step], t, x)
      == Works(steps, t, x) + (if step.Operate? && step.txn == t && step.tab == x then [step.op] else [])
  {
    assert (steps + [step])[..|steps|] == steps;
  }

  lemma VerdictRefuses(m: Table, op: Op)
    ensures Verdict(m, op) != Done <==> Refused(m, op)
  {
  }

  /** The step of another transaction, or of the checkpoint, leaves transaction u its tables. */
  lemma OthersKept(s: Env, step: Step, u: TxnId)
    requires |s.owner| == |s.tables| == |s.ran| && CkptTold(s) && Enabled(s, step) && u < |s.txns|
    requires step.Acquire? || step.Operate? || step.Abort? || step.End? || step.Release? ==> step.txn != u
    requires step.Operate? ==> s.owner[step.tab] == Held(step.txn)
    ensures var s' := Apply(s, step);
      && u < |s'.txns| && s'.txns[u] == s.txns[u] && |s'.owner| == |s.owner| == |s'.ran|
      && forall x | 0 <= x < |s.owner| && s.owner[x] == Held(u) :: s'.owner[x] == Held(u) && s'.ran[x] == s.ran[x]
  {
    hide Next, Quiet, Left, Verdict, Sorted;
    if step.CkptSnap? { assert CkptHolds(s.ckpt, s.ckpt.taken); }
  }

  /** And so what is told of it. */
  lemma ToldOther(s0: Env, steps: seq<Step>, s: Env, step: Step, u: TxnId)
    requires AllTold(s0, steps, s) && Enabled(s, step) && s == Reached(s0, steps) && u < |s.txns|
    requires step.Acquire? || step.Operate? || step.Abort? || step.End? || step.Release? ==> step.txn != u
    ensures Told(s0, steps + [step], Apply(s, step), u)
  {
    hide Apply, Reached, GaveUp, Works, Begins, Verdict, Sorted, GivesUp, CkptTold;
    assert Told(s0, steps, s, u);
    if step.Operate? { assert Told(s0, steps, s, step.txn); }
    OthersKept(s, step, u);
    StepReads(steps, step);
    GaveUpMore(s0, steps, step, u);
    NotGivesUp(s, step, u);
    forall x ensures Works(steps + [step], u, x) == Works(steps, u, x) { WorksMore(steps, step, u, x); }
  }

  lemma NotGivesUp(s: Env, step: Step, u: TxnId)
    requires step.Operate? || step.Abort? ==> step.txn != u
    ensures !GivesUp(s, step, u)
  {
  }

  lemma ToldOwn(s0: Env, steps: seq<Step>, s: Env, step: Step)
    requires AllTold(s0, steps, s) && Enabled(s, step) && s == Reached(s0, steps)
    requires step.Acquire? || step.Operate? || step.Abort? || step.End? || step.Release?
    ensures Told(s0, steps + [step], Apply(s, step), step.txn)
  {
    hide Next, Rebuilt, Reached, GaveUp, Works, Begins, Quiet, Left, Verdict, Sorted, Refused;
    var t := step.txn;
    assert Told(s0, steps, s, t);
    StepReads(steps, step);
    GaveUpMore(s0, steps, step, t);
    forall x { WorksMore(steps, step, t, x); }
    if step.Operate? { VerdictRefuses(s.tables[step.tab].db, step.op); }
  }

  lemma ToldNew(s0: Env, steps: seq<Step>, s: Env, names: seq<Tab>)
    requires AllTold(s0, steps, s) && Enabled(s, Begin(names)) && s == Reached(s0, steps)
    ensures Told(s0, steps + [Begin(names)], Apply(s, Begin(names)), |s.txns|)
  {
    hide Reached, GaveUp, Works, Begins, Sorted;
    StepReads(steps, Begin(names));
    GaveUpMore(s0, steps, Begin(names), |s.txns|);
    forall x { WorksMore(steps, Begin(names), |s.txns|, x); }
  }

  lemma AllToldMore(s0: Env, steps: seq<Step>, s: Env, step: Step)
    requires AllTold(s0, steps, s) && Enabled(s, step) && s == Reached(s0, steps)
    ensures AllTold(s0, steps + [step], Apply(s, step))
  {
    hide Next, Rebuilt, Reached, GaveUp, Works, Begins, Quiet, Left, Verdict, Sorted, Told, Refused;
    var s' := Apply(s, step);
    StepReads(steps, step);
    CkptToldMore(s, step);
    forall t | 0 <= t < |s'.txns| ensures Told(s0, steps + [step], s', t) {
      if t == |s.txns| {
        ToldNew(s0, steps, s, step.names);
      } else if (step.Acquire? || step.Operate? || step.Abort? || step.End? || step.Release?) && step.txn == t {
        ToldOwn(s0, steps, s, step);
      } else {
        ToldOther(s0, steps, s, step, t);
      }
    }
    forall t | t >= |s'.txns| ensures !GaveUp(s0, steps + [step], t) {
      GaveUpMore(s0, steps, step, t);
      NotGivesUp(s, step, t);
    }
    forall t, x | t >= |s'.txns| ensures Works(steps + [step], t, x) == [] {
      assert !GaveUp(s0, steps, t);
      WorksMore(steps, step, t, x);
    }
  }

  // ----- the log -----

  lemma EndOfSame(s0: Env, steps: seq<Step>, s: Env, step: Step, t: TxnId)
    requires AllTold(s0, steps, s) && Enabled(s, step) && s == Reached(s0, steps)
    requires t < |s.txns| && s.txns[t].phase.Unlocking?
    ensures EndOf(s0, steps + [step], t) == EndOf(s0, steps, t)
  {
    hide Reached, GaveUp, Works, Begins, Told, Sorted;
    StepReads(steps, step);
    GaveUpMore(s0, steps, step, t);
    NotGivesUp(s, step, t);
    forall x ensures Works(steps + [step], t, x) == Works(steps, t, x) { WorksMore(steps, step, t, x); }
    var names := Begins(steps)[t];
    assert (map x | x in names :: Works(steps + [step], t, x)) == map x | x in names :: Works(steps, t, x);
  }

  lemma EndOfOwn(s0: Env, steps: seq<Step>, s: Env, t: TxnId)
    requires AllTold(s0, steps, s) && Enabled(s, End(t)) && s == Reached(s0, steps)
    ensures Apply(s, End(t)).log == s.log + [EndOf(s0, steps + [End(t)], t)]
  {
    hide Reached, GaveUp, Works, Begins, Sorted;
    assert Told(s0, steps, s, t);
    StepReads(steps, End(t));
    GaveUpMore(s0, steps, End(t), t);
    NotGivesUp(s, End(t), t);
    forall x ensures Works(steps + [End(t)], t, x) == Works(steps, t, x) { WorksMore(steps, End(t), t, x); }
    var names := Begins(steps)[t];
    assert (map x | x in names :: s.ran[x]) == map x | x in names :: Works(steps + [End(t)], t, x);
  }

  lemma LogToldMore(s0: Env, steps: seq<Step>, s: Env, step: Step)
    requires AllTold(s0, steps, s) && LogTold(s0, steps, s) && Enabled(s, step) && s == Reached(s0, steps)
    ensures LogTold(s0, steps + [step], Apply(s, step))
  {
    hide Reached, GaveUp, Works, Begins, Sorted, Told, EndOf, Ends, Next, Quiet, Left, Verdict;
    var s', more := Apply(s, step), steps + [step];
    StepReads(steps, step);
    forall j | 0 <= j < |s.log| ensures EndOf(s0, more, Ends(more)[j]) == s.log[j] {
      EndOfNames(s0, steps, Ends(steps)[j]);
      assert s.log[j] == EndOf(s0, steps, Ends(steps)[j]);
      EndOfSame(s0, steps, s, step, Ends(steps)[j]);
    }
    if step.End? {
      EndOfOwn(s0, steps, s, step.txn);
      EndOfNames(s0, more, step.txn);
    }
    assert s'.log == LogOf(s0, more);
  }

  lemma EndOfNames(s0: Env, steps: seq<Step>, t: TxnId)
    ensures EndOf(s0, steps, t).txn == t
  {
  }

  lemma {:induction false} RunTold(s0: Env, steps: seq<Step>, end: Env)
    requires Run(s0, steps, end) && AllTold(s0, [], s0) && LogTold(s0, [], s0)
    ensures AllTold(s0, steps, end) && LogTold(s0, steps, end)
    decreases |steps|
  {
    hide Apply, Enabled, AllTold, LogTold, Reached;
    RunReaches(s0, steps, end);
    if steps == [] {
      assert end == s0;
    } else {
      var n := |steps| - 1;
      var mid := RunLast(s0, steps, end);
      RunTold(s0, steps[..n], mid);
      RunReaches(s0, steps[..n], mid);
      AllToldMore(s0, steps[..n], mid, steps[n]);
      LogToldMore(s0, steps[..n], mid, steps[n]);
      assert steps[..n] + [steps[n]] == steps;
    }
  }

  lemma StartTold(tables: seq<Table>)
    ensures AllTold(Start(tables), [], Start(tables)) && LogTold(Start(tables), [], Start(tables))
  {
    assert Begins([]) == [] && Ends([]) == [];
    assert forall t :: !GaveUp(Start(tables), [], t);
    assert forall t, x :: Works([], t, x) == [];
    assert LogOf(Start(tables), []) == [];
  }

  /**
   * For every run, whatever the transactions name: the log has one entry for each End, in the order of these steps;
   * it holds for each table the transaction named just its Operate steps there, in order; and it says cancel if and
   * only if the transaction was told to abort, or an operation of it was refused.
   */
  lemma LogIs(tables: seq<Table>, steps: seq<Step>, end: Env)
    requires Run(Start(tables), steps, end)
    ensures end.log == LogOf(Start(tables), steps)
  {
    StartTold(tables);
    RunTold(Start(tables), steps, end);
  }

  // ----- the snapshots -----

  /** The checkpoint took its last lock after so many transactions had ended. */
  ghost predicate CutTold(steps: seq<Step>, s: Env)
  {
    s.ckpt.Snapping? || s.ckpt.Saving? ==> s.cut == |Ends(steps[..LastLock(steps)])|
  }

  lemma LogEnds(s0: Env, steps: seq<Step>, s: Env)
    requires LogTold(s0, steps, s)
    ensures |s.log| == |Ends(steps)|
  {
  }

  lemma CutToldMore(s0: Env, steps: seq<Step>, s: Env, step: Step)
    requires |s.owner| == |s.tables| == |s.ran| && CutTold(steps, s) && |s.log| == |Ends(steps)| && Enabled(s, step)
    ensures CutTold(steps + [step], Apply(s, step))
  {
    hide Next, Quiet, Left, Verdict, Sorted, Ends;
    var more := steps + [step];
    assert more[..|steps|] == steps;
    if !step.CkptLock? && !step.CkptStart? {
      assert LastLock(more) == LastLock(steps) && more[..LastLock(steps)] == steps[..LastLock(steps)];
    }
  }

  lemma {:induction false} RunCut(s0: Env, steps: seq<Step>, end: Env)
    requires Run(s0, steps, end) && AllTold(s0, [], s0) && LogTold(s0, [], s0) && CutTold([], s0)
    ensures CutTold(steps, end)
    decreases |steps|
  {
    hide Apply, Enabled, AllTold, LogTold, CutTold, Reached;
    if steps == [] {
      assert end == s0;
    } else {
      var n := |steps| - 1;
      var mid := RunLast(s0, steps, end);
      RunCut(s0, steps[..n], mid);
      RunTold(s0, steps[..n], mid);
      LogEnds(s0, steps[..n], mid);
      CutToldMore(s0, steps[..n], mid, steps[n]);
      assert steps[..n] + [steps[n]] == steps;
    }
  }

  lemma StartCut(tables: seq<Table>)
    ensures CutTold([], Start(tables))
  {
  }

  lemma LogUntil(tables: seq<Table>, steps: seq<Step>, end: Env, n: nat)
    requires Run(Start(tables), steps, end) && n <= |steps|
    ensures LogOf(Start(tables), steps[..n]) <= end.log && |LogOf(Start(tables), steps[..n])| == |Ends(steps[..n])|
  {
    assert steps[..n] + steps[n..] == steps;
    var mid := RunSplit(Start(tables), steps[..n], steps[n..], end);
    RunReaches(Start(tables), steps[..n], mid);
    LogIs(tables, steps[..n], mid);
    RunGrows(mid, steps[n..], end);
  }

  lemma {:induction false} RunSplit(s: Env, a: seq<Step>, b: seq<Step>, end: Env) returns (mid: Env)
    requires Run(s, a + b, end)
    ensures Run(s, a, mid) && Run(mid, b, end)
    decreases |a|
  {
    hide Apply, Enabled;
    if a == [] {
      assert a + b == b;
      mid := s;
    } else {
      assert (a + b)[0] == a[0] && (a + b)[1..] == a[1..] + b;
      mid := RunSplit(Apply(s, a[0]), a[1..], b, end);
    }
  }

  lemma {:induction false} RunGrows(s: Env, steps: seq<Step>, end: Env)
    requires Run(s, steps, end)
    ensures s.log <= end.log
    decreases |steps|
  {
    hide Next, Quiet, Left, Verdict, Sorted;
    if steps != [] { RunGrows(Apply(s, steps[0]), steps[1..], end); }
  }

  /**
   * In every interleaving of transactions that name each table once, the snapshots are what comes out if the
   * transactions that had ended before the checkpoint took its last lock are done one after the other, in the order in
   * which they ended, each with just the operations it made on each table, and undone if it was aborted or refused.
   */
  lemma SnapshotsFollowSteps(tables: seq<Table>, steps: seq<Step>, end: Env)
    requires Run(Start(tables), steps, end) && Proper(steps) && end.ckpt.Saving?
    ensures |end.snaps| == |tables|
    ensures forall x | 0 <= x < |tables| ::
      end.snaps[x] == Serial(tables, LogOf(Start(tables), steps[..LastLock(steps)]), x)
  {
    hide Run, Serial, LogOf, LastLock, Start, Ends, AllTold, LogTold;
    var n := LastLock(steps);
    StartTold(tables);
    StartCut(tables);
    RunCut(Start(tables), steps, end);
    LogUntil(tables, steps, end, n);
    assert end.log[..end.cut] == LogOf(Start(tables), steps[..n]);
    SnapshotsAreSerial(tables, steps, end);
  }
}
