/** One table under a transaction: the undo log of StorageEnv::Storage. */
module TableUndo {
  import opened Octets

  type Table = map<Octets, Octets>

  /** The table with its undo log: old values of the keys it had, and the keys it did not have. */
  datatype Undo = Undo(db: Table, prepared: Table, newKey: set<Octets>)

  datatype Op = Insert(key: Octets, val: Octets, noOverwrite: bool) | Delete(key: Octets)

  datatype Outcome = Done | KeySizeZero | Overwrite

  // ----- what the operations mean, without any log -----

  function Verdict(m: Table, op: Op): Outcome
  {
    if op.Insert? && |op.key| == 0 then KeySizeZero
    else if op.Insert? && op.noOverwrite && op.key in m then Overwrite
    else Done
  }

  function Applied(m: Table, op: Op): Table
  {
    if Verdict(m, op) != Done then m else if op.Insert? then m[op.key := op.val] else m - {op.key}
  }

  function Final(m: Table, ops: seq<Op>): Table
  {
    if ops == [] then m else Applied(Final(m, ops[..|ops| - 1]), ops[|ops| - 1])
  }

  /** The operation re-creates, without overwriting, a key that base had and m has lost. */
  predicate Recreates(base: Table, m: Table, op: Op)
  {
    op.Insert? && op.noOverwrite && |op.key| > 0 && op.key in base && op.key !in m
  }

  /** The keys of base that a run deletes and then inserts again without overwriting. */
  function Recreated(base: Table, ops: seq<Op>): set<Octets>
  {
    if ops == [] then {} else
      var op := ops[|ops| - 1];
      Recreated(base, ops[..|ops| - 1]) + (if Recreates(base, Final(base, ops[..|ops| - 1]), op) then {op.key} else {})
  }

  // ----- what the log is for -----

  /** What a cancel leaves: the old values are put back, then the new keys are deleted. */
  function Rebuilt(u: Undo): Table
  {
    (u.db + u.prepared) - u.newKey
  }

  function Quiet(m: Table): Undo
  {
    Undo(m, map[], {})
  }

  /** The log still knows base: except for the clashing keys, each key is in the part that tells where base had it. */
  ghost predicate Tracks(base: Table, u: Undo)
  {
    && (forall k :: k in u.prepared ==> k in base && base[k] == u.prepared[k])
    && (forall k :: k in u.newKey && k !in u.prepared ==> k !in base && k in u.db)
    && (forall k :: k !in u.prepared && k !in u.newKey ==> (k in base <==> k in u.db))
    && (forall k :: k !in u.prepared && k !in u.newKey && k in base ==> base[k] == u.db[k])
  }

  function Clash(u: Undo): set<Octets>
  {
    set k | k in u.newKey && k in u.prepared
  }

  /** A cancel gives back the table of lock time, less the clashing keys. */
  lemma RebuiltIs(base: Table, u: Undo)
    requires Tracks(base, u)
    ensures Rebuilt(u) == base - Clash(u)
    ensures Clash(u) <= base.Keys
    ensures Rebuilt(u) == base <==> Clash(u) == {}
  {
    forall k ensures k in Rebuilt(u) <==> k in base - Clash(u) {
    }
    forall k | k in Rebuilt(u) ensures Rebuilt(u)[k] == base[k] {
    }
    assert Rebuilt(u) == base - Clash(u);
    if Clash(u) != {} {
      var k :| k in Clash(u);
      assert k in base && k !in Rebuilt(u);
    }
  }

  lemma QuietTracks(m: Table)
    ensures Tracks(m, Quiet(m)) && Clash(Quiet(m)) == {} && Rebuilt(Quiet(m)) == m
  {
  }

  // ----- the operations with the log -----

  /** Storage::insert and Storage::del */
  function Next(u: Undo, op: Op): Undo
  {
    if Verdict(u.db, op) != Done then u
    else if op.Insert? then
      if op.noOverwrite then Undo(u.db[op.key := op.val], u.prepared, u.newKey + {op.key})
      else if op.key !in u.prepared && op.key !in u.newKey then
        if op.key in u.db then Undo(u.db[op.key := op.val], u.prepared[op.key := u.db[op.key]], u.newKey)
        else Undo(u.db[op.key := op.val], u.prepared, u.newKey + {op.key})
      else u.(db := u.db[op.key := op.val])
    else if op.key in u.prepared then u.(db := u.db - {op.key})
    else if op.key in u.newKey then Undo(u.db - {op.key}, u.prepared, u.newKey - {op.key})
    else if op.key in u.db then Undo(u.db - {op.key}, u.prepared[op.key := u.db[op.key]], u.newKey)
    else u
  }

  lemma NextTracks(base: Table, u: Undo, op: Op)
    requires Tracks(base, u)
    ensures Tracks(base, Next(u, op))
    ensures Next(u, op).db == Applied(u.db, op)
  {
    assert op.key !in u.db ==> u.db - {op.key} == u.db;
  }

  /** A clash arises exactly when the operation re-creates a key of base, and never goes away. */
  lemma NextClash(base: Table, u: Undo, op: Op)
    requires Tracks(base, u)
    ensures Clash(Next(u, op)) == Clash(u) + (if Recreates(base, u.db, op) then {op.key} else {})
  {
    var c := Clash(u) + (if Recreates(base, u.db, op) then {op.key} else {});
    forall k ensures k in Clash(Next(u, op)) <==> k in c {
    }
  }

  function Ran(u: Undo, ops: seq<Op>): Undo
  {
    if ops == [] then u else Next(Ran(u, ops[..|ops| - 1]), ops[|ops| - 1])
  }

  /** Whatever the run: the table is as the operations say and the log knows how it was. */
  lemma {:induction false} RanIs(base: Table, ops: seq<Op>)
    ensures Tracks(base, Ran(Quiet(base), ops))
    ensures Ran(Quiet(base), ops).db == Final(base, ops)
    ensures Clash(Ran(Quiet(base), ops)) == Recreated(base, ops)
  {
    if ops == [] {
      QuietTracks(base);
    } else {
      var before, op := ops[..|ops| - 1], ops[|ops| - 1];
      RanIs(base, before);
      NextTracks(base, Ran(Quiet(base), before), op);
      NextClash(base, Ran(Quiet(base), before), op);
    }
  }

  /** Cancelling gives back the table exactly when the run re-created no key that it had deleted. */
  lemma CancelRestores(base: Table, ops: seq<Op>)
    ensures Rebuilt(Ran(Quiet(base), ops)) == base - Recreated(base, ops)
    ensures Rebuilt(Ran(Quiet(base), ops)) == base <==> Recreated(base, ops) == {}
  {
    RanIs(base, ops);
    RebuiltIs(base, Ran(Quiet(base), ops));
  }

  /** The smallest run that a cancel does not undo: delete a key, insert it again without overwriting. */
  lemma CancelLosesKey(k: Octets, v: Octets, w: Octets)
    requires k != []
    ensures
      var run := [Delete(k), Insert(k, w, true)];
      Rebuilt(Ran(Quiet(map[k := v]), run)) == map[]
  {
    var base, run := map[k := v], [Delete(k), Insert(k, w, true)];
    assert run[..1] == [Delete(k)] && run[..1][..0] == [];
    assert Ran(Quiet(base), run[..1]) == Next(Ran(Quiet(base), run[..1][..0]), Delete(k));
    var u := Ran(Quiet(base), run);
    assert u.newKey == {k} && u.prepared == base;
  }

  // ----- the table object -----

  class Storage {
    var db: Table
    var prepared: Table
    var newKey: set<Octets>

    function St(): Undo
      reads this
    {
      Undo(db, prepared, newKey)
    }

    constructor (table: Table)
      ensures St() == Quiet(table)
    {
      db, prepared, newKey := table, map[], {};
    }

    method Put(key: Octets, val: Octets, replace: bool) returns (stored: bool)
      modifies `db
      ensures stored == (replace || key !in old(db))
      ensures db == if stored then old(db)[key := val] else old(db)
    {
      stored := replace || key !in db;
      if stored {
        db := db[key := val];
      }
    }

    method PutGet(key: Octets, val: Octets) returns (found: bool, origin: Octets)
      modifies `db
      ensures found == (key in old(db)) && (found ==> origin == old(db)[key])
      ensures db == old(db)[key := val]
    {
      found := key in db;
      origin := if found then db[key] else [];
      db := db[key := val];
    }

    method Del(key: Octets) returns (found: bool, origin: Octets)
      modifies `db
      ensures found == (key in old(db)) && (found ==> origin == old(db)[key])
      ensures db == old(db) - {key}
    {
      found := key in db;
      origin := if found then db[key] else [];
      db := db - {key};
    }

    method Insert(key: Octets, val: Octets, noOverwrite: bool) returns (r: Outcome)
      modifies this
      ensures r == Verdict(old(db), Op.Insert(key, val, noOverwrite))
      ensures St() == Next(old(St()), Op.Insert(key, val, noOverwrite))
      ensures r == if key == [] then KeySizeZero else if noOverwrite && key in old(db) then Overwrite else Done
      ensures if r == Done then db == old(db)[key := val] else St() == old(St())
    {
      if |key| == 0 {
        return KeySizeZero;
      }
      r := Done;
      if noOverwrite {
        var stored := Put(key, val, false);
        if !stored {
          return Overwrite;
        }
        newKey := newKey + {key};
      } else if key !in prepared && key !in newKey {
        var found, origin := PutGet(key, val);
        if found {
          prepared := prepared[key := origin];
        } else {
          newKey := newKey + {key};
        }
      } else {
        var _ := Put(key, val, true);
      }
    }

    method Delete(key: Octets)
      modifies this
      ensures St() == Next(old(St()), Op.Delete(key)) && db == old(db) - {key}
    {
      if key !in prepared {
        if key in newKey {
          newKey := newKey - {key};
          var _, _ := Del(key);
        } else {
          var found, origin := Del(key);
          if found {
            prepared := prepared[key := origin];
          } else {
            assert db == old(db);
          }
        }
      } else {
        var _, _ := Del(key);
      }
    }

    /** checkpoint: undo or keep, and forget the log. */
    method Checkpoint(cancel: bool)
      modifies this
      ensures St() == Quiet(if cancel then Rebuilt(old(St())) else old(db))
    {
      if cancel {
        var ks := prepared.Keys;
        while ks != {}
          invariant ks <= prepared.Keys && prepared == old(prepared) && newKey == old(newKey)
          invariant db == old(db) + (prepared - ks)
        {
          var k :| k in ks;
          var _ := Put(k, prepared[k], true);
          ks := ks - {k};
        }
        assert prepared - {} == prepared;
        ks := newKey;
        while ks != {}
          invariant ks <= newKey && prepared == old(prepared) && newKey == old(newKey)
          invariant db == (old(db) + prepared) - (newKey - ks)
        {
          var k :| k in ks;
          var _, _ := Del(k);
          ks := ks - {k};
        }
        assert newKey - {} == newKey;
      }
      prepared, newKey := map[], {};
    }

    /** A whole transaction on the table: kept, it is the run; cancelled, only re-created keys are lost. */
    method Transact(ops: seq<Op>, cancel: bool)
      requires prepared == map[] && newKey == {}
      modifies this
      ensures prepared == map[] && newKey == {}
      ensures !cancel ==> db == Final(old(db), ops)
      ensures cancel ==> db == old(db) - Recreated(old(db), ops)
      ensures cancel && Recreated(old(db), ops) == {} ==> db == old(db)
    {
      ghost var base := db;
      for i := 0 to |ops|
        invariant St() == Ran(Quiet(base), ops[..i])
      {
        assert ops[..i + 1][..i] == ops[..i];
        match ops[i] {
          case Insert(key, val, noOverwrite) => var _ := Insert(key, val, noOverwrite);
          case Delete(key) => Delete(key);
        }
      }
      assert ops[..|ops|] == ops;
      RanIs(base, ops);
      CancelRestores(base, ops);
      Checkpoint(cancel);
    }
  }
}
