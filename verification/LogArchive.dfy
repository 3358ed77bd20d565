/** What the chained log files keep of the committed checkpoints, and which writes leave that alone. */
module LogArchive {
  import opened LogDisk

  type Logs = map<int, LogFile>

  /** A committed checkpoint as its record holds it. */
  datatype Rec = Rec(stamp: int, snaps: seq<Snap>)

  /** A committed record is complete and stamped; an aborted one has no stamp. */
  predicate Closed(f: LogFile, n: nat, r: nat)
    requires Readable(f, n)
  {
    var it := ItemAt(f[0], r);
    if it.outcome == Commit then Complete(f, n, r) && it.stamp > 0 else it.stamp == 0
  }

  predicate FileOk(f: LogFile, n: nat) {
    Readable(f, n) && forall r | 0 <= r < f[0].recCur :: Closed(f, n, r)
  }

  function SnapsAt(f: LogFile, n: nat, r: nat): (s: seq<Snap>)
    requires Readable(f, n) && Complete(f, n, r)
    ensures |s| == n
  {
    seq(n, t requires 0 <= t < n => SnapOf(f, n, r, t))
  }

  function RecAt(f: LogFile, n: nat, r: nat): seq<Rec>
    requires Readable(f, n) && Closed(f, n, r)
  {
    if ItemAt(f[0], r).outcome == Commit then [Rec(ItemAt(f[0], r).stamp, SnapsAt(f, n, r))] else []
  }

  /** The committed records of one log file from number `from` on. */
  function FileRecs(f: LogFile, n: nat, from: nat): seq<Rec>
    requires FileOk(f, n) && from <= f[0].recCur
    decreases f[0].recCur - from
  {
    if from == f[0].recCur then [] else RecAt(f, n, from) + FileRecs(f, n, from + 1)
  }

  /** No record is open in the log file. */
  predicate AtRest(k: LogPage) {
    k.KeyPage? && ItemAt(k, k.recCur) == NO_ITEM
  }

  /** From log id the chain leads through well-formed files to log top, and from there to no older one. */
  predicate ChainOk(logs: Logs, n: nat, id: int, top: int)
    decreases top - id
  {
    && 0 < id <= top && id in logs && FileOk(logs[id], n)
    && var next := logs[id][0].chain;
      if id == top then next == 0 || next > top else id < next && AtRest(logs[id][0]) && ChainOk(logs, n, next, top)
  }

  /** A log file newer than all tables was started, and perhaps prepared in, but nothing was committed there. */
  predicate TailOk(logs: Logs, top: int) {
    forall id | id in logs && id > top :: Unused(logs[id])
  }

  predicate Unused(f: LogFile) {
    0 in f && f[0].KeyPage? ==> f[0].recCur == 0 && f[0].chain == 0
  }

  function ChainRecs(logs: Logs, n: nat, id: int, top: int): seq<Rec>
    requires ChainOk(logs, n, id, top)
    decreases top - id
  {
    FileRecs(logs[id], n, 0) + if id == top then [] else ChainRecs(logs, n, logs[id][0].chain, top)
  }

  // ----- writes -----

  /** The record is the same in both files. */
  predicate SameRec(f: LogFile, f': LogFile, n: nat, r: nat)
    requires Readable(f, n) && Readable(f', n)
  {
    && ItemAt(f[0], r) == ItemAt(f'[0], r)
    && (forall i | 1 <= i <= n :: RangeAt(f[i], r) == RangeAt(f'[i], r))
    && f[0].pageLast <= f'[0].pageLast
    && forall q | n < q < f[0].pageLast && q in f :: q in f' && f'[q] == f[q]
  }

  lemma SameRecAt(f: LogFile, f': LogFile, n: nat, r: nat)
    requires Readable(f, n) && Readable(f', n) && SameRec(f, f', n, r) && Closed(f, n, r)
    ensures Closed(f', n, r) && RecAt(f', n, r) == RecAt(f, n, r)
  {
    if ItemAt(f[0], r).outcome == Commit {
      forall i | 1 <= i <= n
        ensures HoldsRange(f', n, RangeAt(f'[i], r)) && RangeAt(f'[i], r).last <= f'[0].pageLast
      {
        assert HoldsRange(f, n, RangeAt(f[i], r));
      }
      forall t | 0 <= t < n ensures SnapOf(f', n, r, t) == SnapOf(f, n, r, t) {
        assert HoldsRange(f, n, RangeAt(f[t + 1], r));
        assert RangeAt(f[t + 1], r) == RangeAt(f'[t + 1], r);
      }
      assert SnapsAt(f', n, r) == SnapsAt(f, n, r);
    }
  }

  /** The same records, and perhaps one more. */
  lemma {:induction false} FileRecsGrow(f: LogFile, f': LogFile, n: nat, from: nat, more: seq<Rec>)
    requires FileOk(f, n) && FileOk(f', n) && from <= f[0].recCur
    requires forall r | 0 <= r < f[0].recCur :: SameRec(f, f', n, r)
    requires if more == [] && f'[0].recCur == f[0].recCur then true
      else f'[0].recCur == f[0].recCur + 1 && more == RecAt(f', n, f[0].recCur)
    ensures FileRecs(f', n, from) == FileRecs(f, n, from) + more
    decreases f[0].recCur - from
  {
    hide SameRec, Closed, RecAt;
    if from < f[0].recCur {
      SameRecAt(f, f', n, from);
      FileRecsGrow(f, f', n, from + 1, more);
    } else if f'[0].recCur > from {
      assert FileRecs(f', n, from + 1) == [];
    }
  }

  /** Replacing the newest file by one with more records adds them at the end. */
  lemma {:induction false} ChainGrow(logs: Logs, logs': Logs, n: nat, id: int, top: int, more: seq<Rec>)
    requires ChainOk(logs, n, id, top) && top in logs && top in logs'
    requires forall i | i in logs && i < top :: i in logs' && logs'[i] == logs[i]
    requires FileOk(logs[top], n) && FileOk(logs'[top], n) && (logs'[top][0].chain == 0 || logs'[top][0].chain > top)
    requires FileRecs(logs'[top], n, 0) == FileRecs(logs[top], n, 0) + more
    ensures ChainOk(logs', n, id, top) && ChainRecs(logs', n, id, top) == ChainRecs(logs, n, id, top) + more
    ensures FileRecs(logs[id], n, 0) <= FileRecs(logs'[id], n, 0)
    decreases top - id
  {
    hide FileRecs;
    if id < top { ChainGrow(logs, logs', n, logs[id][0].chain, top, more); }
  }

  lemma {:induction false} ChainTop(logs: Logs, n: nat, id: int, top: int)
    requires ChainOk(logs, n, id, top)
    ensures top in logs && FileOk(logs[top], n) && (logs[top][0].chain == 0 || logs[top][0].chain > top)
    decreases top - id
  {
    if id < top { ChainTop(logs, n, logs[id][0].chain, top); }
  }

  /** A table moved on to the next log file of the chain. */
  lemma {:induction false} ChainRaise(logs: Logs, n: nat, id: int, top: int, next: int)
    requires ChainOk(logs, n, id, top) && top in logs && FileOk(logs[top], n) && logs[top][0].chain == next > top
      && AtRest(logs[top][0])
    requires next in logs && Readable(logs[next], n) && Unused(logs[next])
    ensures ChainOk(logs, n, id, next) && ChainRecs(logs, n, id, next) == ChainRecs(logs, n, id, top)
    decreases top - id
  {
    if id < top { ChainRaise(logs, n, logs[id][0].chain, top, next); }
  }

  // ----- whole disks -----

  /** The newest log file a table names is done with and leads to log id. */
  predicate Linked(d: Disk, id: int) {
    var top := MaxId(d.tables);
    top in d.logs && 0 in d.logs[top] && AtRest(d.logs[top][0]) && d.logs[top][0].chain == id
  }

  /** Where a backup belongs: its log file, and the committed records that file had at the time. */
  datatype Origin = Origin(id: int, held: seq<Rec>)

  /**
   * The log files from the origin up to the newest a table names hold the committed records `recs`, in order, and
   * the first of them still holds, unchanged, the records it had.
   */
  predicate Archive(d: Disk, o: Origin, recs: seq<Rec>) {
    var n, top := |d.tables|, MaxId(d.tables);
    && ChainOk(d.logs, n, o.id, top) && TailOk(d.logs, top) && ChainRecs(d.logs, n, o.id, top) == recs
    && o.held <= FileRecs(d.logs[o.id], n, 0)
  }

  /** A key page that may follow key page k: older records stay, and a record it closes is not committed. */
  predicate KeyGoesOn(k: LogPage, page: LogPage, top: int)
    requires k.KeyPage? && page.KeyPage?
  {
    && k.pageLast <= page.pageLast && (page.chain == 0 || page.chain > top)
    && (forall r | 0 <= r < k.recCur :: ItemAt(page, r) == ItemAt(k, r))
    && k.recCur <= page.recCur <= k.recCur + 1
    && (page.recCur == k.recCur + 1 ==> ItemAt(page, k.recCur).outcome != Commit && ItemAt(page, k.recCur).stamp == 0)
  }

  /** A log write that leaves every committed record alone. */
  predicate Quiet(d: Disk, id: int, i: nat, page: LogPage) {
    var n, top := |d.tables|, MaxId(d.tables);
    if id > top then i == 0 ==> page.KeyPage? && page.recCur == 0 && page.chain == 0
    else
      && id == top && id in d.logs && Readable(d.logs[id], n)
      && var f := d.logs[id];
        if i == 0 then KeyOk(page, n) && KeyGoesOn(f[0], page, top)
        else if i <= n then page.TablePage? && forall r | 0 <= r < f[0].recCur :: RangeAt(page, r) == RangeAt(f[i], r)
        else i >= f[0].pageLast
  }

  lemma FileQuiet(d: Disk, i: nat, page: LogPage)
    requires Quiet(d, MaxId(d.tables), i, page)
    requires FileOk(d.logs[MaxId(d.tables)], |d.tables|)
    ensures var n, f, f' := |d.tables|, d.logs[MaxId(d.tables)], d.logs[MaxId(d.tables)][i := page];
      FileOk(f', n) && FileRecs(f', n, 0) == FileRecs(f, n, 0)
  {
    var n, f := |d.tables|, d.logs[MaxId(d.tables)];
    var f' := f[i := page];
    forall r | 0 <= r < f[0].recCur ensures SameRec(f, f', n, r) && Closed(f', n, r) {
      assert Closed(f, n, r);
      assert SameRec(f, f', n, r);
      SameRecAt(f, f', n, r);
    }
    FileRecsGrow(f, f', n, 0, []);
  }

  lemma ArchiveQuiet(d: Disk, o: Origin, recs: seq<Rec>, id: int, i: nat, page: LogPage)
    requires Archive(d, o, recs) && Quiet(d, id, i, page)
    ensures Archive(PutLog(d, id, i, page), o, recs)
  {
    hide FileOk, FileRecs;
    var n, top, logs := |d.tables|, MaxId(d.tables), PutLog(d, id, i, page).logs;
    ChainTop(d.logs, n, o.id, top);
    if id == top {
      FileQuiet(d, i, page);
    }
    ChainGrow(d.logs, logs, n, o.id, top, []);
  }

  /** The snapshots of the current record of the newest log file a table names. */
  function CurrentSnaps(d: Disk): (s: seq<Snap>)
    requires MaxId(d.tables) in d.logs && Readable(d.logs[MaxId(d.tables)], |d.tables|)
    requires Complete(d.logs[MaxId(d.tables)], |d.tables|, d.logs[MaxId(d.tables)][0].recCur)
    ensures |s| == |d.tables|
  {
    var f := d.logs[MaxId(d.tables)];
    SnapsAt(f, |d.tables|, f[0].recCur)
  }

  /** The key page that commits the current record. */
  predicate Commits(f: LogFile, n: nat, page: LogPage)
    requires Readable(f, n)
  {
    && Complete(f, n, f[0].recCur) && KeyOk(page, n)
    && page.pageLast == f[0].pageLast && page.chain == f[0].chain && page.recCur == f[0].recCur + 1
    && (forall r | 0 <= r < f[0].recCur :: ItemAt(page, r) == ItemAt(f[0], r))
    && ItemAt(page, f[0].recCur).outcome == Commit && ItemAt(page, f[0].recCur).stamp > 0
  }

  /** Committing the current record appends it. */
  lemma ArchiveClose(d: Disk, o: Origin, recs: seq<Rec>, page: LogPage)
    requires Archive(d, o, recs) && MaxId(d.tables) in d.logs
    requires Readable(d.logs[MaxId(d.tables)], |d.tables|) && Commits(d.logs[MaxId(d.tables)], |d.tables|, page)
    ensures Archive(PutLog(d, MaxId(d.tables), 0, page), o,
      recs + [Rec(ItemAt(page, page.recCur - 1).stamp, CurrentSnaps(d))])
  {
    var n, top := |d.tables|, MaxId(d.tables);
    var f, f' := d.logs[top], d.logs[top][0 := page];
    var c := f[0].recCur;
    ChainTop(d.logs, n, o.id, top);
    forall r | 0 <= r < c ensures SameRec(f, f', n, r) && Closed(f', n, r) {
      assert Closed(f, n, r);
      assert SameRec(f, f', n, r);
      SameRecAt(f, f', n, r);
    }
    ClosedNow(f, f', n, c);
    FileRecsGrow(f, f', n, 0, RecAt(f', n, c));
    ChainGrow(d.logs, PutLog(d, top, 0, page).logs, n, o.id, top, RecAt(f', n, c));
  }

  lemma ClosedNow(f: LogFile, f': LogFile, n: nat, r: nat)
    requires Readable(f, n) && Readable(f', n) && Complete(f, n, r) && f'[0].pageLast == f[0].pageLast
      && f' == f[0 := f'[0]]
    requires ItemAt(f'[0], r).outcome == Commit && ItemAt(f'[0], r).stamp > 0
    ensures Closed(f', n, r) && RecAt(f', n, r) == [Rec(ItemAt(f'[0], r).stamp, SnapsAt(f, n, r))]
  {
    forall i | 1 <= i <= n ensures HoldsRange(f', n, RangeAt(f'[i], r)) && RangeAt(f'[i], r).last <= f'[0].pageLast {
      assert HoldsRange(f, n, RangeAt(f[i], r));
    }
    forall t | 0 <= t < n ensures SnapOf(f', n, r, t) == SnapOf(f, n, r, t) {
      assert HoldsRange(f, n, RangeAt(f[t + 1], r));
    }
    assert SnapsAt(f', n, r) == SnapsAt(f, n, r);
  }

  /** A table takes the number of the log file that follows. */
  lemma ArchiveRaise(d: Disk, d': Disk, o: Origin, recs: seq<Rec>, id: int)
    requires Archive(d, o, recs) && d'.logs == d.logs && |d'.tables| == |d.tables|
      && MaxId(d.tables) < MaxId(d'.tables) == id
    requires id in d.logs && Readable(d.logs[id], |d.tables|)
    requires Linked(d, id)
    ensures Archive(d', o, recs)
  {
    ChainTop(d.logs, |d.tables|, o.id, MaxId(d.tables));
    ChainRaise(d.logs, |d.tables|, o.id, MaxId(d.tables), id);
  }
}
