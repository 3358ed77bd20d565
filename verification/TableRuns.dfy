/** Runs of the interleaved system: each transaction counts once, and none waits for ever. */
module TableRuns {
  import opened Octets
  import opened TableUndo
  import opened TableLocks

  // ----- every transaction counts once -----

  /** The log holds each ended transaction once, with work for all the tables it named. */
  ghost predicate LoggedOnce(s: Env)
  {
    && (forall i | 0 <= i < |s.log| :: s.log[i].txn < |s.txns| && s.txns[s.log[i].txn].phase.Unlocking?)
    && (forall i | 0 <= i < |s.log| :: forall x :: x in s.log[i].ops <==> x in s.txns[s.log[i].txn].names)
    && (forall i, j | 0 <= i < j < |s.log| :: s.log[i].txn != s.log[j].txn)
    && LoggedAll(s)
  }

  ghost predicate LoggedAll(s: Env)
  {
    forall t | 0 <= t < |s.txns| && s.txns[t].phase.Unlocking? :: exists i :: 0 <= i < |s.log| && s.log[i].txn == t
  }

  lemma StepLogsAll(s: Env, step: Step)
    requires Sized(s) && LoggedAll(s) && Enabled(s, step)
    ensures LoggedAll(Apply(s, step))
  {
    hide Ran, Next, Serial, Rebuilt;
    var s' := Apply(s, step);
    forall t | 0 <= t < |s'.txns| && s'.txns[t].phase.Unlocking?
      ensures exists i :: 0 <= i < |s'.log| && s'.log[i].txn == t
    {
      if t < |s.txns| && s.txns[t].phase.Unlocking? {
        var i :| 0 <= i < |s.log| && s.log[i].txn == t;
        assert s'.log[i].txn == t;
      } else {
        assert s'.log[|s.log|].txn == t;
      }
    }
  }

  lemma StepLogs(s: Env, step: Step)
    requires Sized(s) && LoggedOnce(s) && Enabled(s, step)
    ensures LoggedOnce(Apply(s, step)) && s.log <= Apply(s, step).log
  {
    hide Ran, Next, Serial, LoggedAll, Rebuilt;
    StepLogsAll(s, step);
  }

  lemma {:induction false} RunLogs(s: Env, steps: seq<Step>, end: Env)
    requires Sized(s) && LoggedOnce(s) && Run(s, steps, end)
    ensures LoggedOnce(end) && s.log <= end.log
    decreases |steps|
  {
    hide LoggedOnce;
    if steps != [] {
      StepLogs(s, steps[0]);
      RunLogs(Apply(s, steps[0]), steps[1..], end);
    }
  }

  // ----- no transaction and no checkpoint waits for ever -----

  function Remaining(txn: Txn): int
  {
    match txn.phase
    case Locking(h) => (|txn.names| - h) + |txn.names| + 1
    case Running => |txn.names| + 1
    case Unlocking(d) => |txn.names| - d
  }

  function AllRemaining(txns: seq<Txn>): int
  {
    if txns == [] then 0 else AllRemaining(txns[..|txns| - 1]) + Remaining(txns[|txns| - 1])
  }

  function CkptRemaining(c: Checkpoint, n: nat): int
  {
    match c
    case Idle => 0
    case Gathering(h) => (n - h) + n + n + 2
    case Snapping(k) => (n - k) + n + 1
    case Saving(d) => if d < n then n - d else 1
  }

  function Work(s: Env): int
  {
    AllRemaining(s.txns) + CkptRemaining(s.ckpt, |s.tables|)
  }

  lemma {:induction false} RemainingUpdate(txns: seq<Txn>, t: TxnId, txn: Txn)
    requires t < |txns|
    ensures AllRemaining(txns[t := txn]) == AllRemaining(txns) - Remaining(txns[t]) + Remaining(txn)
  {
    var k := |txns| - 1;
    if t == k {
      assert txns[t := txn][..k] == txns[..k];
    } else {
      assert txns[t := txn][..k] == txns[..k][t := txn];
      RemainingUpdate(txns[..k], t, txn);
    }
  }

  lemma {:induction false} RemainingNat(s: Env, k: nat)
    requires Inv(s) && k <= |s.txns|
    ensures AllRemaining(s.txns[..k]) >= 0
    ensures AllRemaining(s.txns[..k]) == 0 ==> forall t | 0 <= t < k :: Remaining(s.txns[t]) == 0
  {
    if k > 0 {
      assert s.txns[..k][..k - 1] == s.txns[..k - 1];
      assert Listed(s, k - 1);
      RemainingNat(s, k - 1);
    }
  }

  /** The steps by which what has begun comes to its end. */
  predicate Forward(step: Step)
  {
    step.Acquire? || step.End? || step.Release? || step.CkptLock? || step.CkptSnap? || step.CkptDrop?
  }

  lemma StepWorks(s: Env, step: Step)
    requires Inv(s) && Enabled(s, step) && Forward(step)
    ensures Work(Apply(s, step)) < Work(s)
  {
    hide Ran, Next, Serial, Settled, Owns;
    var s' := Apply(s, step);
    match step {
      case Acquire(t) => RemainingUpdate(s.txns, t, s'.txns[t]);
      case End(t) => RemainingUpdate(s.txns, t, s'.txns[t]);
      case Release(t) => RemainingUpdate(s.txns, t, s'.txns[t]);
      case CkptLock =>
      case CkptSnap =>
      case CkptDrop =>
    }
  }

  /** Whoever owns a table, somebody can go on: the owner waits, if at all, for a table further up. */
  lemma {:induction false} OwnerGoesOn(s: Env, x: Tab) returns (step: Step)
    requires Inv(s) && x < |s.owner| && !s.owner[x].Free?
    ensures Forward(step) && Enabled(s, step)
    decreases |s.owner| - x
  {
    hide Ran, Next, Serial, Rebuilt;
    assert Settled(s, x);
    if s.owner[x].Checkpointer? {
      assert CkptHolds(s.ckpt, x);
      if s.ckpt.Snapping? {
        step := CkptSnap;
      } else if s.owner[s.ckpt.held].Free? {
        step := CkptLock;
      } else {
        step := OwnerGoesOn(s, s.ckpt.held);
      }
    } else {
      var t := s.owner[x].txn;
      assert Listed(s, t) && Owns(s, t);
      var names := s.txns[t].names;
      if s.txns[t].phase.Running? {
        step := End(t);
      } else if s.txns[t].phase.Unlocking? {
        step := Release(t);
      } else {
        var y := names[s.txns[t].phase.held];
        assert x < y;
        if s.owner[y].Free? {
          step := Acquire(t);
        } else {
          step := OwnerGoesOn(s, y);
        }
      }
    }
  }

  lemma TxnGoesOn(s: Env, t: TxnId) returns (step: Step)
    requires Inv(s) && t < |s.txns| && Remaining(s.txns[t]) > 0
    ensures Forward(step) && Enabled(s, step)
  {
    hide Ran, Next, Serial, Rebuilt, Settled, Owns;
    assert Listed(s, t);
    if s.txns[t].phase.Running? {
      step := End(t);
    } else if s.txns[t].phase.Unlocking? {
      step := Release(t);
    } else {
      var y := s.txns[t].names[s.txns[t].phase.held];
      if s.owner[y].Free? {
        step := Acquire(t);
      } else {
        step := OwnerGoesOn(s, y);
      }
    }
  }

  lemma CkptGoesOn(s: Env) returns (step: Step)
    requires Inv(s) && !s.ckpt.Idle?
    ensures Forward(step) && Enabled(s, step)
  {
    hide Ran, Next, Serial, Rebuilt, Settled, Owns, Listed;
    if s.ckpt.Gathering? {
      if s.owner[s.ckpt.held].Free? {
        step := CkptLock;
      } else {
        step := OwnerGoesOn(s, s.ckpt.held);
      }
    } else if s.ckpt.Snapping? {
      step := CkptSnap;
    } else if s.ckpt.dropped < |s.owner| && !s.owner[s.ckpt.dropped].Free? {
      step := OwnerGoesOn(s, s.ckpt.dropped);
    } else {
      step := CkptDrop;
    }
  }

  /** Nothing left to do: all transactions have released all tables, the checkpoint is over. */
  ghost predicate AtRest(s: Env)
  {
    s.ckpt.Idle? && forall t | 0 <= t < |s.txns| :: Remaining(s.txns[t]) == 0
  }

  /** No deadlock: from every state that an interleaving can reach, all that has begun can be brought to its end. */
  lemma {:induction false} ComesToRest(s: Env) returns (steps: seq<Step>, end: Env)
    requires Inv(s)
    ensures Run(s, steps, end) && AtRest(end) && Inv(end)
    ensures forall i | 0 <= i < |steps| :: Forward(steps[i])
    decreases Work(s)
  {
    hide Inv, Apply, Enabled;
    if AtRest(s) {
      return [], s;
    }
    var step: Step;
    if !s.ckpt.Idle? {
      step := CkptGoesOn(s);
    } else {
      var t :| 0 <= t < |s.txns| && Remaining(s.txns[t]) != 0;
      RemainingIsNat(s, t);
      step := TxnGoesOn(s, t);
    }
    assert |s.owner| == |s.tables| == |s.ran| by { SizedOf(s); }
    var s' := Apply(s, step);
    StepWorks(s, step);
    StepKeeps(s, step);
    WorkNat(s');
    var rest;
    rest, end := ComesToRest(s');
    steps := [step] + rest;
    assert steps[1..] == rest;
  }

  lemma RemainingIsNat(s: Env, t: TxnId)
    requires Inv(s) && t < |s.txns|
    ensures Remaining(s.txns[t]) >= 0
  {
    assert Listed(s, t);
  }

  lemma SizedOf(s: Env)
    requires Inv(s)
    ensures |s.owner| == |s.tables| == |s.ran|
  {
  }

  lemma WorkNat(s: Env)
    requires Inv(s)
    ensures Work(s) >= 0
  {
    RemainingNat(s, |s.txns|);
    assert s.txns[..|s.txns|] == s.txns;
  }
}
