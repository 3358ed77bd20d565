/** The redo log of a multi-table checkpoint: prepare, commit, and recovery after a crash. */
module RedoLog {
  import opened Places
  import opened LogDisk
  import opened LogArchive

  // ----- what single writes do to recovery -----

  /** A prepared record that waits for its redo. */
  datatype Waiting = Nothing | Redo(snaps: seq<Snap>)

  /**
   * What a disk is worth: the images recovery makes of it, the committed records its logs from `origin` on hold,
   * and the record still to be redone; and a bound for the log file numbers in use.
   */
  datatype View = View(origin: Origin, imgs: seq<Image>, recs: seq<Rec>, open: Waiting, top: int)

  predicate Seen(d: Disk, v: View) {
    && Openable(d) && Recovered(d) == v.imgs && Archive(d, v.origin, v.recs) && MaxId(d.tables) <= v.top
    && v.open == if Pending(d) then Redo(CurrentSnaps(d)) else Nothing
  }

  /** integrity_verify would find no record open in the newest log file a table names. */
  predicate Rested(d: Disk) {
    MaxId(d.tables) in d.logs && 0 in d.logs[MaxId(d.tables)] && AtRest(d.logs[MaxId(d.tables)][0])
  }

  /** The same, without a redo to do. */
  predicate Calm(d: Disk, v: View) {
    && Openable(d) && !Pending(d) && Images(d) == v.imgs && Archive(d, v.origin, v.recs) && MaxId(d.tables) <= v.top
    && v.open == Nothing
  }

  lemma {:induction false} MaxIdBound(ts: seq<Table>)
    ensures forall t | 0 <= t < |ts| :: ts[t].magic.loggerId <= MaxId(ts)
    ensures |ts| > 0 && (forall t | 0 <= t < |ts| :: ts[t].magic.loggerId > 0) ==>
      exists t :: 0 <= t < |ts| && ts[t].magic.loggerId == MaxId(ts)
    ensures MaxId(ts) == 0 || exists t :: 0 <= t < |ts| && ts[t].magic.loggerId == MaxId(ts)
  {
    if |ts| > 0 {
      var r := ts[..|ts| - 1];
      MaxIdBound(r);
      if MaxId(ts) == ts[|ts| - 1].magic.loggerId {
        assert ts[|ts| - 1].magic.loggerId == MaxId(ts);
      } else if MaxId(r) != 0 {
        var t :| 0 <= t < |r| && r[t].magic.loggerId == MaxId(r);
        assert ts[t].magic.loggerId == MaxId(ts);
      }
    }
  }

  lemma MaxIdIs(ts: seq<Table>, id: int, t: int)
    requires 0 <= t < |ts| && ts[t].magic.loggerId == id > 0
    requires forall u | 0 <= u < |ts| :: ts[u].magic.loggerId <= id
    ensures MaxId(ts) == id
  {
    MaxIdBound(ts);
  }

  /** Writing to another log file, or behind the key page and off the table pages, is harmless. */
  lemma CalmLog(d: Disk, v: View, id: int, i: nat, page: LogPage)
    requires Calm(d, v) && Quiet(d, id, i, page)
    requires id == MaxId(d.tables) ==>
      if i == 0 then KeyOk(page, |d.tables|) && ItemAt(page, page.recCur).outcome != Prepared
      else if i <= |d.tables| then page.TablePage? else true
    ensures Calm(PutLog(d, id, i, page), v)
  {
    hide Archive, Quiet;
    ArchiveQuiet(d, v.origin, v.recs, id, i, page);
  }

  predicate SnapsOk(snaps: seq<Snap>) {
    forall t, i | 0 <= t < |snaps| && 0 <= i < |snaps[t]| - 1 :: snaps[t][i].0 != 0
  }

  /** How many pages are logged. */
  function Sum(snaps: seq<Snap>): nat {
    if snaps == [] then 0 else Sum(snaps[..|snaps| - 1]) + |snaps[|snaps| - 1]|
  }

  function Post(img: seq<Image>, snaps: seq<Snap>): (s: seq<Image>)
    requires |img| == |snaps|
    ensures |s| == |img|
  {
    seq(|img|, t requires 0 <= t < |img| => Overlay(img[t], snaps[t]))
  }

  /** After the write that makes one more checkpoint count. */
  function Ready(v: View, snaps: seq<Snap>): View
    requires |v.imgs| == |snaps|
  {
    v.(imgs := Post(v.imgs, snaps), open := Redo(snaps))
  }

  /** After its record was closed, with a stamp. */
  function Done(v: View, snaps: seq<Snap>, stamp: int): View
    requires |v.imgs| == |snaps|
  {
    v.(imgs := Post(v.imgs, snaps), recs := v.recs + [Rec(stamp, snaps)])
  }

  /** After the redo, if there was one to do. */
  function Redone(v: View, stamp: int): View {
    if v.open.Redo? then v.(recs := v.recs + [Rec(stamp, v.open.snaps)], open := Nothing) else v
  }

  // ----- the state between prepare and the end of commit -----

  /** Log file f holds record r, prepared, with the given snapshots. */
  predicate Holds(f: LogFile, n: nat, r: nat, snaps: seq<Snap>) {
    && |snaps| == n && Readable(f, n) && f[0].recCur == r && ItemAt(f[0], r).outcome == Prepared && Complete(f, n, r)
    && forall t | 0 <= t < n :: SnapOf(f, n, r, t) == snaps[t]
  }

  lemma HoldsReads(f: LogFile, n: nat, r: nat, snaps: seq<Snap>)
    requires Holds(f, n, r, snaps)
    ensures Readable(f, n)
  {
  }

  /** The record is prepared in log id; every table is as before, as after, or on the way. */
  predicate Committing(d: Disk, id: int, r: nat, snaps: seq<Snap>, v: View) {
    && |d.tables| == |snaps| == |v.imgs| && |v.imgs| > 0 && id in d.logs
    && Holds(d.logs[id], |snaps|, r, snaps)
    && (forall t | 0 <= t < |d.tables| :: 0 < d.tables[t].magic.loggerId <= id)
    && (forall t | 0 <= t < |d.tables| :: Overlay(ImageOf(d.tables[t]), snaps[t]) == Overlay(v.imgs[t], snaps[t]))
    && Archive(d, v.origin, v.recs) && v.open == Nothing && id <= v.top
    && (MaxId(d.tables) == id || (Calm(d, v) && Linked(d, id)))
  }

  /** Recovery then makes either all tables new or leaves all as they were. */
  lemma CommittingRecovers(d: Disk, id: int, r: nat, snaps: seq<Snap>, v: View)
    requires Committing(d, id, r, snaps, v)
    ensures Seen(d, if MaxId(d.tables) == id then Ready(v, snaps) else v)
  {
    hide Archive;
    if MaxId(d.tables) == id {
      assert CurrentSnaps(d) == snaps;
      assert Recovered(d) == Post(v.imgs, snaps);
    }
  }

  lemma ArchiveMoves(d: Disk, d': Disk, v: View, id: int)
    requires Archive(d, v.origin, v.recs) && d'.logs == d.logs && |d'.tables| == |d.tables| && MaxId(d'.tables) == id
    requires id in d.logs && Readable(d.logs[id], |d.tables|)
    requires MaxId(d.tables) == id || (MaxId(d.tables) < id && Calm(d, v) && Linked(d, id))
    ensures Archive(d', v.origin, v.recs)
  {
    if MaxId(d.tables) != id { ArchiveRaise(d, d', v.origin, v.recs, id); }
  }

  lemma CommitMagic(d: Disk, id: int, r: nat, snaps: seq<Snap>, v: View, t: nat, m: Magic)
    requires Committing(d, id, r, snaps, v) && t < |d.tables| && m.loggerId == id
    requires Overlay(Image(m.body, d.tables[t].pages), snaps[t]) == Overlay(v.imgs[t], snaps[t])
    ensures Committing(PutMagic(d, t, m), id, r, snaps, v) && MaxId(PutMagic(d, t, m).tables) == id
  {
    hide Holds, Calm, Archive, Linked;
    assert Readable(d.logs[id], |d.tables|) by { HoldsReads(d.logs[id], |snaps|, r, snaps); }
    var d' := PutMagic(d, t, m);
    MaxIdBound(d.tables);
    MaxIdIs(d'.tables, id, t);
    ArchiveMoves(d, d', v, id);
  }

  lemma CommitPage(d: Disk, id: int, r: nat, snaps: seq<Snap>, v: View, t: nat, i: PageIndex, b: Body)
    requires Committing(d, id, r, snaps, v) && t < |d.tables| && d.tables[t].magic.loggerId == id
    requires Overlay(Image(d.tables[t].magic.body, d.tables[t].pages[i := b]), snaps[t]) == Overlay(v.imgs[t], snaps[t])
    ensures Committing(PutPage(d, t, i, b), id, r, snaps, v) && MaxId(PutPage(d, t, i, b).tables) == id
  {
    hide Holds, Calm, Archive, Linked;
    assert Readable(d.logs[id], |d.tables|) by { HoldsReads(d.logs[id], |snaps|, r, snaps); }
    var d' := PutPage(d, t, i, b);
    MaxIdIs(d.tables, id, t);
    MaxIdIs(d'.tables, id, t);
    ArchiveMoves(d, d', v, id);
  }

  /** Half an overlay is forgotten by a whole one. */
  lemma OverlayPart(img: Image, s: Snap, n: nat, b: Body)
    requires n < |s|
    ensures Overlay(Image(b, Replaced(img.pages, s[..n])), s) == Overlay(img, s)
  {
    var q := s[..|s| - 1];
    assert q[..n] == s[..n];
    ReplacedTwice(img.pages, q, n);
  }

  lemma OverlayAgain(img: Image, s: Snap)
    ensures Overlay(Overlay(img, s), s) == Overlay(img, s)
  {
    if |s| > 0 {
      var q := s[..|s| - 1];
      assert q[..|q|] == q;
      ReplacedTwice(img.pages, q, |q|);
    }
  }

  /** Once every table carries its new image, closing the record ends the commit. */
  lemma CommitDone(d: Disk, id: int, r: nat, snaps: seq<Snap>, v: View, page: LogPage)
    requires Committing(d, id, r, snaps, v) && MaxId(d.tables) == id
    requires forall t | 0 <= t < |d.tables| :: ImageOf(d.tables[t]) == Overlay(v.imgs[t], snaps[t])
    requires Commits(d.logs[id], |snaps|, page) && ItemAt(page, page.recCur).outcome != Prepared
    ensures Calm(PutLog(d, id, 0, page), Done(v, snaps, ItemAt(page, page.recCur - 1).stamp))
  {
    hide Archive, Overlay, Linked;
    ArchiveClose(d, v.origin, v.recs, page);
    assert CurrentSnaps(d) == snaps;
    assert Images(PutLog(d, id, 0, page)) == Post(v.imgs, snaps);
  }

  // ----- the writes in order -----

  /** The disk; trace records every state it went through, any of which a crash may leave behind. */
  class Drive {
    var d: Disk
    var trace: seq<Disk>

    constructor (d0: Disk)
      ensures d == d0 && trace == [d0]
    {
      d, trace := d0, [d0];
    }

    /** Power fails: the disk is what it was after some earlier write. */
    method CrashAt(i: nat)
      requires i < |trace|
      modifies this
      ensures d == old(trace)[i] && trace == old(trace) + [d]
    {
      d := trace[i];
      trace := trace + [d];
    }

    method WriteLog(id: int, i: nat, page: LogPage)
      modifies this
      ensures d == PutLog(old(d), id, i, page) && trace == old(trace) + [d]
    {
      d := PutLog(d, id, i, page);
      trace := trace + [d];
    }

    method WriteMagic(t: nat, m: Magic)
      requires t < |d.tables|
      modifies this
      ensures d == PutMagic(old(d), t, m) && trace == old(trace) + [d]
    {
      d := PutMagic(d, t, m);
      trace := trace + [d];
    }

    method WritePage(t: nat, i: PageIndex, b: Body)
      requires t < |d.tables| && i != 0
      modifies this
      ensures d == PutPage(old(d), t, i, b) && trace == old(trace) + [d]
    {
      d := PutPage(d, t, i, b);
      trace := trace + [d];
    }
  }

  /** The first k states since position from recover to a, the others to b. */
  ghost predicate Flips(trace: seq<Disk>, from: int, k: int, a: View, b: View) {
    && 0 <= from <= k <= |trace|
    && forall i | from <= i < |trace| :: Seen(trace[i], if i < k then a else b)
  }

  lemma FlipsMore(trace: seq<Disk>, from: int, k: int, a: View, b: View, d: Disk)
    requires Flips(trace, from, k, a, b)
    ensures k == |trace| && Seen(d, a) ==> Flips(trace + [d], from, k + 1, a, b)
    ensures Seen(d, b) ==> Flips(trace + [d], from, k, a, b)
  {
  }

  /** All states since position from but the last flip at k from a to b; the last is worth c. */
  ghost predicate Turned(trace: seq<Disk>, from: int, k: int, a: View, b: View, c: View) {
    && |trace| > 0 && Flips(trace[..|trace| - 1], from, k, a, b) && Seen(trace[|trace| - 1], c)
  }

  /** Every table was last checkpointed at the given time. */
  predicate CheckedAt(d: Disk, stamp: int) {
    forall t | 0 <= t < |d.tables| :: d.tables[t].magic.lastCheck == stamp
  }

  lemma CalmRecovers(d: Disk, v: View)
    requires Calm(d, v)
    ensures Seen(d, v)
  {
  }

  /** As many record headers as fit in a page behind the longest table name. */
  type Headers = n: nat | n > 0 witness 1

  /** GlobalLogger: the open log file with its key page and table pages kept in memory. */
  class GlobalLogger {
    const drive: Drive
    const rotatePages: nat
    const recordsPerPage: Headers
    var logId: int            // the time stamp in the name of the open log file
    var key: LogPage
    var tabs: seq<LogPage>
    var timeStamp: int
    var needRotate: bool

    /** The pages in memory are those in the open log file. */
    ghost predicate Attached()
      reads this, drive
    {
      && (MaxId(drive.d.tables) < logId ==> Linked(drive.d, logId))
      && logId in drive.d.logs && MaxId(drive.d.tables) <= logId <= timeStamp
      && |tabs| == |drive.d.tables| && KeyOk(key, |tabs|)
      && Readable(drive.d.logs[logId], |tabs|) && drive.d.logs[logId][0] == key
      && (forall t | 0 <= t < |tabs| :: tabs[t].TablePage?)
      && forall i | 1 <= i <= |tabs| :: drive.d.logs[logId][i] == tabs[i - 1]
    }

    /** Between checkpoints: the tables hold v. */
    ghost predicate Valid(v: View)
      reads this, drive
    {
      && Attached() && Calm(drive.d, v) && logId == MaxId(drive.d.tables) && AtRest(key)
    }

    /** integrity_verify up to load_log_file: open the newest log file any table names. */
    constructor Open(dr: Drive, rotate: nat, perPage: Headers, rotateNow: bool)
      requires Openable(dr.d)
      ensures drive == dr && Attached() && logId == MaxId(dr.d.tables) == timeStamp
      ensures rotatePages == rotate && recordsPerPage == perPage && needRotate == rotateNow
    {
      drive, rotatePages, recordsPerPage, needRotate := dr, rotate, perPage, rotateNow;
      var id, n := MaxId(dr.d.tables), |dr.d.tables|;
      var f := dr.d.logs[id];
      logId, timeStamp := id, id;
      key := f[0];
      tabs := seq(n, t requires 0 <= t < n => f[t + 1]);
    }

    /** A write to the log file that does not make recovery redo anything. */
    method WriteCalm(i: nat, page: LogPage, ghost v: View, ghost from: int)
      requires Calm(drive.d, v) && Flips(drive.trace, from, |drive.trace|, v, v) && Quiet(drive.d, logId, i, page)
      requires logId == MaxId(drive.d.tables) ==>
        if i == 0 then KeyOk(page, |drive.d.tables|) && ItemAt(page, page.recCur).outcome != Prepared
        else if i <= |drive.d.tables| then page.TablePage? else true
      modifies drive
      ensures Calm(drive.d, v) && Flips(drive.trace, from, |drive.trace|, v, v)
      ensures drive.d == PutLog(old(drive.d), logId, i, page) && old(drive.trace) <= drive.trace
      ensures |drive.trace| == |old(drive.trace)| + 1
    {
      hide Calm, Quiet;
      CalmLog(drive.d, v, logId, i, page);
      CalmRecovers(PutLog(drive.d, logId, i, page), v);
      FlipsMore(drive.trace, from, |drive.trace|, v, v, PutLog(drive.d, logId, i, page));
      drive.WriteLog(logId, i, page);
    }

    /** The number of a new log file: the clock, or one more than the logger's time. */
    function NextId(now: int): int
      reads this
    {
      if timeStamp >= now then timeStamp + 1 else now
    }

    /** A rotation was asked for, or the log file is full, by its records or by its pages. */
    predicate Due()
      reads this
      requires key.KeyPage?
    {
      needRotate || key.recCur >= key.recMax || key.pageLast > rotatePages
    }

    /** init_log_file and logger_check_rotate: start a new log file when the old one is full. */
    method RotateIfDue(now: int, ghost v: View, ghost from: int)
      requires Valid(v) && Flips(drive.trace, from, |drive.trace|, v, v) && NextId(now) <= v.top
      modifies this`logId, this`key, this`tabs, this`timeStamp, drive
      ensures logId <= v.top && old(timeStamp) <= timeStamp <= old(NextId(now))
      ensures Attached() && Calm(drive.d, v) && drive.d.tables == old(drive.d.tables)
      ensures ItemAt(key, key.recCur).outcome != Prepared
      ensures old(drive.trace) <= drive.trace && Flips(drive.trace, from, |drive.trace|, v, v)
      ensures logId == (if old(Due()) then old(NextId(now)) else old(logId)) && key.recCur < key.recMax
      ensures key == if old(Due()) then KeyPage(|tabs| + 1, |tabs| + 1, recordsPerPage, 0, 0, map[]) else old(key)
      ensures |drive.trace| == |old(drive.trace)| + (if old(Due()) then |tabs| + 2 else 0)
    {
      hide Calm, Flips, Openable;
      CalmParts(drive.d, v);
      if needRotate || key.recCur >= key.recMax || key.pageLast > rotatePages {
        var id := NextId(now);
        key := key.(chain := id);
        WriteCalm(0, key, v, from);
        logId, timeStamp := id, id;
        InitLogFile(v, from);
      }
    }

    /** The rest of init_log_file: blank table pages, then the key page. */
    method InitLogFile(ghost v: View, ghost from: int)
      requires Calm(drive.d, v) && MaxId(drive.d.tables) < logId == timeStamp && |tabs| == |drive.d.tables|
      requires Flips(drive.trace, from, |drive.trace|, v, v) && Linked(drive.d, logId)
      modifies this`tabs, this`key, drive
      ensures Attached() && Calm(drive.d, v) && drive.d.tables == old(drive.d.tables)
      ensures ItemAt(key, key.recCur).outcome != Prepared && |tabs| == old(|tabs|)
      ensures key == KeyPage(|tabs| + 1, |tabs| + 1, recordsPerPage, 0, 0, map[])
      ensures old(drive.trace) <= drive.trace && Flips(drive.trace, from, |drive.trace|, v, v)
      ensures |drive.trace| == |old(drive.trace)| + |tabs| + 1
    {
      hide Calm, Flips, Openable;
      var n := |tabs|;
      tabs := seq(n, i => TablePage(map[]));
      for t := 0 to n
        invariant Calm(drive.d, v) && drive.d.tables == old(drive.d.tables)
        invariant |drive.trace| == |old(drive.trace)| + t && |tabs| == n
        invariant old(drive.trace) <= drive.trace && Flips(drive.trace, from, |drive.trace|, v, v)
        invariant (t > 0 ==> logId in drive.d.logs) && Linked(drive.d, logId)
        invariant forall i | 1 <= i <= t :: i in drive.d.logs[logId] && drive.d.logs[logId][i] == tabs[i - 1]
        modifies drive
      {
        WriteCalm(t + 1, tabs[t], v, from);
      }
      key := KeyPage(n + 1, n + 1, recordsPerPage, 0, 0, map[]);
      WriteCalm(0, key, v, from);
    }

    /** The table page of table t gets the range of the record that is being written. */
    method WriteRange(t: nat, first: nat, last: nat, ghost v: View, ghost from: int)
      requires t < |tabs| && Attached() && Calm(drive.d, v) && Flips(drive.trace, from, |drive.trace|, v, v)
      modifies this`tabs, drive
      ensures Attached() && Calm(drive.d, v) && Flips(drive.trace, from, |drive.trace|, v, v)
      ensures tabs == old(tabs)[t := TablePage(old(tabs[t]).ranges[key.recCur := Range(first, last)])]
      ensures drive.d == PutLog(old(drive.d), logId, t + 1, tabs[t]) && old(drive.trace) <= drive.trace
      ensures |drive.trace| == |old(drive.trace)| + 1
    {
      hide Calm, Flips, Openable;
      CalmParts(drive.d, v);
      tabs := tabs[t := TablePage(tabs[t].ranges[key.recCur := Range(first, last)])];
      WriteCalm(t + 1, tabs[t], v, from);
    }

    /** LogInfo::prepare for table t: the snapshot's pages, then the table page. */
    method PrepareTable(t: nat, snap: Snap, page0: nat, ghost v: View, ghost from: int) returns (page: nat)
      requires t < |tabs| && Attached() && Calm(drive.d, v) && page0 >= key.pageLast
      requires forall i | 0 <= i < |snap| - 1 :: snap[i].0 != 0
      requires Flips(drive.trace, from, |drive.trace|, v, v)
      modifies this`tabs, drive
      ensures Attached() && Calm(drive.d, v) && drive.d.tables == old(drive.d.tables)
      ensures old(drive.trace) <= drive.trace && Flips(drive.trace, from, |drive.trace|, v, v)
      ensures page == page0 + |snap|
      ensures LoggedAt(drive.d.logs[logId], |tabs|, tabs[t], key.recCur, snap, page)
      ensures forall i | 0 <= i < |tabs| && i != t :: tabs[i] == old(tabs[i])
      ensures forall i | |tabs| < i < page0 :: i in old(drive.d.logs[logId]) ==>
        i in drive.d.logs[logId] && drive.d.logs[logId][i] == old(drive.d.logs[logId][i])
      ensures |drive.trace| == |old(drive.trace)| + |snap| + 1
    {
      hide Calm, Flips, Openable, LoggedAt, Logged, HoldsRange, Readable, Saved;
      page := SavePages(snap, page0, v, from);
      ghost var f := drive.d.logs[logId];
      WriteRange(t, page0, page, v, from);
      SavedLogged(f, drive.d.logs[logId], |tabs|, tabs[t], key.recCur, snap, page0);
    }

    /** save_page: the snapshot's pages at consecutive places of the log. */
    method SavePages(snap: Snap, page0: nat, ghost v: View, ghost from: int) returns (page: nat)
      requires Attached() && Calm(drive.d, v) && page0 >= key.pageLast
      requires Flips(drive.trace, from, |drive.trace|, v, v)
      modifies drive
      ensures Attached() && Calm(drive.d, v) && drive.d.tables == old(drive.d.tables)
      ensures old(drive.trace) <= drive.trace && Flips(drive.trace, from, |drive.trace|, v, v)
      ensures page == page0 + |snap| && Saved(drive.d.logs[logId], snap, page0, |snap|)
      ensures forall i | |tabs| < i < page0 :: i in old(drive.d.logs[logId]) ==>
        i in drive.d.logs[logId] && drive.d.logs[logId][i] == old(drive.d.logs[logId][i])
      ensures |drive.trace| == |old(drive.trace)| + |snap|
    {
      hide Calm, Flips, Openable;
      CalmParts(drive.d, v);
      page := page0;
      for j := 0 to |snap|
        invariant page == page0 + j && Attached() && Calm(drive.d, v) && drive.d.tables == old(drive.d.tables)
        invariant |drive.trace| == |old(drive.trace)| + j
        invariant old(drive.trace) <= drive.trace && Flips(drive.trace, from, |drive.trace|, v, v)
        invariant Saved(drive.d.logs[logId], snap, page0, j)
        invariant forall i | |tabs| < i < page0 :: i in old(drive.d.logs[logId]) ==>
          i in drive.d.logs[logId] && drive.d.logs[logId][i] == old(drive.d.logs[logId][i])
        modifies drive
      {
        WriteCalm(page, DataPage(snap[j].0, snap[j].1), v, from);
        page := page + 1;
      }
    }

    /** The record begins behind the pages in use. */
    method StartRecord(ghost v: View, ghost from: int)
      requires Attached() && Calm(drive.d, v) && Flips(drive.trace, from, |drive.trace|, v, v)
      requires ItemAt(key, key.recCur).outcome != Prepared && key.recCur < key.recMax
      modifies this`key, drive
      ensures Attached() && Calm(drive.d, v) && drive.d.tables == old(drive.d.tables)
      ensures old(drive.trace) <= drive.trace && Flips(drive.trace, from, |drive.trace|, v, v)
      ensures key == old(key).(items := key.items) && ItemAt(key, key.recCur).outcome != Prepared
      ensures |drive.trace| == |old(drive.trace)| + 1
      ensures ItemAt(key, key.recCur) == old(ItemAt(key, key.recCur)).(first := key.pageLast)
    {
      hide Flips, Openable, Calm;
      CalmParts(drive.d, v);
      key := key.(items := key.items[key.recCur := ItemAt(key, key.recCur).(first := key.pageLast)]);
      WriteCalm(0, key, v, from);
    }

    /** Every table's pages go behind them, one table after the other. */
    method PrepareTables(snaps: seq<Snap>, ghost v: View, ghost from: int) returns (page: nat)
      requires Attached() && Calm(drive.d, v) && Flips(drive.trace, from, |drive.trace|, v, v)
      requires |snaps| == |tabs| && SnapsOk(snaps)
      modifies this`tabs, drive
      ensures Attached() && Calm(drive.d, v) && drive.d.tables == old(drive.d.tables) && key.pageLast <= page
      ensures old(drive.trace) <= drive.trace && Flips(drive.trace, from, |drive.trace|, v, v)
      ensures forall u | 0 <= u < |tabs| :: LoggedAt(drive.d.logs[logId], |tabs|, tabs[u], key.recCur, snaps[u], page)
      ensures |drive.trace| == |old(drive.trace)| + Sum(snaps) + |snaps| && page == key.pageLast + Sum(snaps)
    {
      hide Flips, Openable, Calm, LoggedAt, Readable;
      page := key.pageLast;
      for t := 0 to |tabs|
        invariant Attached() && Calm(drive.d, v) && drive.d.tables == old(drive.d.tables)
        invariant old(drive.trace) <= drive.trace && Flips(drive.trace, from, |drive.trace|, v, v)
        invariant key.pageLast <= page && |tabs| == |snaps|
        invariant |drive.trace| == |old(drive.trace)| + Sum(snaps[..t]) + t && page == key.pageLast + Sum(snaps[..t])
        invariant forall u | 0 <= u < t :: LoggedAt(drive.d.logs[logId], |tabs|, tabs[u], key.recCur, snaps[u], page)
      {
        ghost var page0, tabs0, f0 := page, tabs, drive.d.logs[logId];
        page := PrepareTable(t, snaps[t], page, v, from);
        assert snaps[..t + 1][..t] == snaps[..t];
        forall u | 0 <= u < t
          ensures LoggedAt(drive.d.logs[logId], |tabs|, tabs[u], key.recCur, snaps[u], page)
        {
          LoggedKept(f0, drive.d.logs[logId], |tabs|, tabs0[u], key.recCur, snaps[u], page0, page);
        }
      }
      assert snaps[..|snaps|] == snaps;
    }

    /** prepare: log every table's snapshot, then mark the record prepared. */
    method Prepare(snaps: seq<Snap>, now: int, ghost v: View, ghost from: int) returns (ghost k: int)
      requires Valid(v) && |snaps| == |v.imgs| && SnapsOk(snaps) && NextId(now) <= v.top
      requires Flips(drive.trace, from, |drive.trace|, v, Ready(v, snaps))
      modifies this`logId, this`key, this`tabs, this`timeStamp, drive
      ensures old(timeStamp) <= timeStamp <= old(NextId(now))
      ensures Attached() && Committing(drive.d, logId, key.recCur, snaps, v) && old(drive.trace) <= drive.trace
      ensures Flips(drive.trace, from, k, v, Ready(v, snaps))
      ensures k < |drive.trace| ==> MaxId(drive.d.tables) == logId
      ensures k == |drive.trace| ==> MaxId(drive.d.tables) < logId
      ensures logId == (if old(Due()) then old(NextId(now)) else old(logId))
      ensures key.KeyPage? && key.recCur == (if old(Due()) then 0 else old(key.recCur)) && key.recCur < key.recMax
      ensures key.recMax == if old(Due()) then recordsPerPage else old(key.recMax)
      ensures |drive.trace| == |old(drive.trace)| + (if old(Due()) then |snaps| + 2 else 0) + Sum(snaps) + |snaps| + 2
      ensures k == if old(Due()) then |drive.trace| else |drive.trace| - 1
      ensures key.pageLast == (if old(Due()) then |snaps| + 1 else old(key.pageLast)) + Sum(snaps)
    {
      hide Flips, Openable, Calm, Committing, LoggedAt;
      CalmParts(drive.d, v);
      FlipsNone(drive.trace, from, v, Ready(v, snaps));
      RotateIfDue(now, v, from);
      StartRecord(v, from);
      var page := PrepareTables(snaps, v, from);
      k := MarkPrepared(snaps, page, v, from);
    }

    /** The write that makes the record count. */
    method MarkPrepared(snaps: seq<Snap>, page: nat, ghost v: View, ghost from: int) returns (ghost k: int)
      requires Attached() && Calm(drive.d, v) && |snaps| == |tabs| == |v.imgs| && key.pageLast <= page && logId <= v.top
      requires key.recCur < key.recMax
      requires forall u | 0 <= u < |tabs| :: LoggedAt(drive.d.logs[logId], |tabs|, tabs[u], key.recCur, snaps[u], page)
      requires Flips(drive.trace, from, |drive.trace|, v, v)
      modifies this`key, drive
      ensures Attached() && Committing(drive.d, logId, key.recCur, snaps, v) && old(drive.trace) <= drive.trace
      ensures Flips(drive.trace, from, k, v, Ready(v, snaps))
      ensures k < |drive.trace| ==> MaxId(drive.d.tables) == logId
      ensures k == |drive.trace| ==> MaxId(drive.d.tables) < logId
      ensures key == Marked(old(key), page)
      ensures |drive.trace| == |old(drive.trace)| + 1
      ensures k == |old(drive.trace)| + if old(MaxId(drive.d.tables) == logId) then 0 else 1
    {
      hide Flips, Openable, Complete, Calm, Committing, Holds, LoggedAt, Quiet, Seen;
      CalmParts(drive.d, v);
      ghost var d := drive.d;
      var r := key.recCur;
      MarkedQuiet(d, v, logId, key, page);
      key := Marked(key, page);
      ghost var d' := PutLog(d, logId, 0, key);
      MarkedHolds(d, logId, key, tabs, snaps, page);
      assert key.KeyPage?;
      MarkedCommitting(d, logId, key, snaps, v);
      CommittingRecovers(d', logId, r, snaps, v);
      FlipsNone(drive.trace, from, v, Ready(v, snaps));
      FlipsMore(drive.trace, from, |drive.trace|, v, Ready(v, snaps), d');
      k := if MaxId(d.tables) == logId then |drive.trace| else |drive.trace| + 1;
      drive.WriteLog(logId, 0, key);
    }

    // ----- commit -----

    /** Between prepare and the end of commit. */
    ghost predicate InCommit(snaps: seq<Snap>, v: View, from: int, k: int)
      reads this, drive
    {
      && Attached() && Committing(drive.d, logId, key.recCur, snaps, v)
      && Flips(drive.trace, from, k, v, Ready(v, snaps))
      && (MaxId(drive.d.tables) < logId ==> k == |drive.trace|)
    }

    method WriteMagicSafe(t: nat, m: Magic, ghost snaps: seq<Snap>, ghost v: View, ghost from: int, ghost k: int)
      requires InCommit(snaps, v, from, k) && t < |drive.d.tables| && m.loggerId == logId
      requires Overlay(Image(m.body, drive.d.tables[t].pages), snaps[t]) == Overlay(v.imgs[t], snaps[t])
      modifies drive
      ensures InCommit(snaps, v, from, k) && drive.d == PutMagic(old(drive.d), t, m) && old(drive.trace) <= drive.trace
      ensures MaxId(drive.d.tables) == logId
      ensures |drive.trace| == |old(drive.trace)| + 1
    {
      hide Committing, Flips, Openable, Seen, Linked;
      CommitSizes(drive.d, logId, key.recCur, snaps, v);
      ghost var d' := PutMagic(drive.d, t, m);
      CommitMagic(drive.d, logId, key.recCur, snaps, v, t, m);
      CommittingRecovers(d', logId, key.recCur, snaps, v);
      FlipsMore(drive.trace, from, k, v, Ready(v, snaps), d');
      drive.WriteMagic(t, m);
    }

    method WritePageSafe(t: nat, i: PageIndex, b: Body, ghost snaps: seq<Snap>, ghost v: View, ghost from: int,
                         ghost k: int)
      requires InCommit(snaps, v, from, k) && t < |drive.d.tables| && drive.d.tables[t].magic.loggerId == logId
        && i != 0
      requires var m := drive.d.tables[t];
        Overlay(Image(m.magic.body, m.pages[i := b]), snaps[t]) == Overlay(v.imgs[t], snaps[t])
      modifies drive
      ensures InCommit(snaps, v, from, k) && drive.d == PutPage(old(drive.d), t, i, b)
        && old(drive.trace) <= drive.trace
      ensures MaxId(drive.d.tables) == logId
      ensures |drive.trace| == |old(drive.trace)| + 1
    {
      hide Committing, Flips, Openable, Seen, Linked;
      CommitSizes(drive.d, logId, key.recCur, snaps, v);
      ghost var d' := PutPage(drive.d, t, i, b);
      CommitPage(drive.d, logId, key.recCur, snaps, v, t, i, b);
      CommittingRecovers(d', logId, key.recCur, snaps, v);
      FlipsMore(drive.trace, from, k, v, Ready(v, snaps), d');
      drive.WritePage(t, i, b);
    }

    /** The range of table t in the log is what is to be copied to it. */
    lemma LoggedTable(t: nat, snaps: seq<Snap>, v: View, from: int, k: int)
      requires InCommit(snaps, v, from, k) && t < |tabs|
      ensures |tabs| == |drive.d.tables| == |snaps| == |v.imgs| && logId in drive.d.logs
      ensures key.KeyPage? && tabs[t].TablePage?
      ensures var g, f := RangeAt(tabs[t], key.recCur), drive.d.logs[logId];
        HoldsRange(f, |tabs|, g) && Logged(f, g.first, g.last) == snaps[t]
      ensures Overlay(ImageOf(drive.d.tables[t]), snaps[t]) == Overlay(v.imgs[t], snaps[t])
    {
      hide Committing, Flips, Openable, Linked, Seen;
      CommitSnap(drive.d, logId, key.recCur, snaps, v, tabs, t);
    }

    /** LogInfo::commit: copy table t's pages from the log to the table file, the magic page last. */
    method CommitTable(t: nat, stamp: int, ghost snaps: seq<Snap>, ghost v: View, ghost from: int, ghost k: int)
      requires InCommit(snaps, v, from, k) && t < |tabs|
      modifies drive
      ensures InCommit(snaps, v, from, k) && old(drive.trace) <= drive.trace && MaxId(drive.d.tables) == logId
      ensures ImageOf(drive.d.tables[t]) == Overlay(old(ImageOf(drive.d.tables[t])), snaps[t])
      ensures |drive.d.tables| == old(|drive.d.tables|) && drive.d.tables[t].magic.lastCheck == stamp
      ensures forall u | 0 <= u < |drive.d.tables| && u != t :: drive.d.tables[u] == old(drive.d.tables[u])
      ensures t < |snaps| && |drive.trace| == |old(drive.trace)| + |snaps[t]| + 1
    {
      hide InCommit, Attached;
      LoggedTable(t, snaps, v, from, k);
      var g, f := RangeAt(tabs[t], key.recCur), drive.d.logs[logId];
      ghost var img0 := ImageOf(drive.d.tables[t]);
      var m := drive.d.tables[t].magic.(loggerId := logId);
      if g.first <= g.last - 1 {
        WriteMagicSafe(t, m, snaps, v, from, k);
        RestorePages(t, g, snaps, v, from, k);
        m := Magic(f[g.last - 1].body, logId, m.lastCheck);
        OverlayAgain(img0, snaps[t]);
      }
      WriteMagicSafe(t, m.(lastCheck := stamp), snaps, v, from, k);
    }

    /** restore_page: all but the last page of the range, each to the place it came from. */
    method RestorePages(t: nat, g: Range, ghost snaps: seq<Snap>, ghost v: View, ghost from: int, ghost k: int)
      requires InCommit(snaps, v, from, k) && t < |tabs| == |drive.d.tables| == |snaps| == |v.imgs|
      requires drive.d.tables[t].magic.loggerId == logId == MaxId(drive.d.tables)
      requires HoldsRange(drive.d.logs[logId], |tabs|, g)
        && Logged(drive.d.logs[logId], g.first, g.last) == snaps[t] != []
      requires Overlay(ImageOf(drive.d.tables[t]), snaps[t]) == Overlay(v.imgs[t], snaps[t])
      modifies drive
      ensures InCommit(snaps, v, from, k) && old(drive.trace) <= drive.trace && MaxId(drive.d.tables) == logId
      ensures drive.d.logs == old(drive.d.logs) && |drive.d.tables| == old(|drive.d.tables|)
      ensures var m, s := old(drive.d.tables[t]), snaps[t];
        drive.d.tables[t] == Table(m.magic, Replaced(m.pages, s[..|s| - 1]))
      ensures forall u | 0 <= u < |drive.d.tables| && u != t :: drive.d.tables[u] == old(drive.d.tables[u])
      ensures |drive.trace| == |old(drive.trace)| + |snaps[t]| - 1
    {
      hide Committing, Flips, Openable, Linked, Seen;
      var f, m := drive.d.logs[logId], drive.d.tables[t].magic;
      ghost var img0, s := ImageOf(drive.d.tables[t]), snaps[t];
      assert s[..0] == [];
      for i := g.first to g.last - 1
        invariant InCommit(snaps, v, from, k) && old(drive.trace) <= drive.trace && MaxId(drive.d.tables) == logId
        invariant |drive.trace| == |old(drive.trace)| + i - g.first
        invariant drive.d.logs == old(drive.d.logs) && |drive.d.tables| == old(|drive.d.tables|)
        invariant drive.d.tables[t] == Table(m, Replaced(img0.pages, s[..i - g.first]))
        invariant forall u | 0 <= u < |drive.d.tables| && u != t :: drive.d.tables[u] == old(drive.d.tables[u])
        modifies drive
      {
        var n := i - g.first;
        assert s[n] == (f[i].index, f[i].body);
        assert s[..n + 1][..n] == s[..n];
        OverlayPart(img0, s, n + 1, m.body);
        WritePageSafe(t, f[i].index, f[i].body, snaps, v, from, k);
      }
    }

    lemma InCommitSizes(snaps: seq<Snap>, v: View, from: int, k: int)
      requires InCommit(snaps, v, from, k)
      ensures |drive.d.tables| == |tabs| == |snaps| == |v.imgs| > 0 && key.KeyPage?
      ensures Committing(drive.d, logId, key.recCur, snaps, v)
    {
      hide Committing, Flips, Linked;
      CommitSizes(drive.d, logId, key.recCur, snaps, v);
    }

    /** The time of the commit is taken. */
    method Tick(now: int, ghost snaps: seq<Snap>, ghost v: View, ghost from: int, ghost k: int)
      requires InCommit(snaps, v, from, k)
      modifies this`timeStamp
      ensures timeStamp == old(NextId(now)) && InCommit(snaps, v, from, k)
    {
      hide Committing, Flips, Linked;
      timeStamp := NextId(now);
    }

    /** commit, and redo: copy every table, then close the record. */
    method CommitAll(now: int, ghost snaps: seq<Snap>, ghost v: View, ghost from: int, ghost k: int)
      requires InCommit(snaps, v, from, k)
      modifies this`key, this`timeStamp, drive
      ensures timeStamp == old(NextId(now)) && Valid(Done(v, snaps, timeStamp)) && old(drive.trace) <= drive.trace
      ensures Turned(drive.trace, from, k, v, Ready(v, snaps), Done(v, snaps, timeStamp))
        && CheckedAt(drive.d, timeStamp)
      ensures key.KeyPage? && key == old(key).(items := key.items, recCur := old(key.recCur) + 1) && logId == old(logId)
      ensures |drive.trace| == |old(drive.trace)| + Sum(snaps) + |snaps| + 1
    {
      hide InCommit, Attached, Committing, Turned, Valid, Overlay, ImageOf;
      InCommitSizes(snaps, v, from, k);
      Tick(now, snaps, v, from, k);
      ghost var imgs := Images(drive.d);
      for t := 0 to |tabs|
        invariant InCommit(snaps, v, from, k) && old(drive.trace) <= drive.trace
        invariant |drive.trace| == |old(drive.trace)| + Sum(snaps[..t]) + t
        invariant t > 0 ==> MaxId(drive.d.tables) == logId
        invariant |drive.d.tables| == |tabs| == |imgs| == |snaps|
        invariant forall u | 0 <= u < t :: ImageOf(drive.d.tables[u]) == Overlay(imgs[u], snaps[u])
        invariant forall u | 0 <= u < t :: drive.d.tables[u].magic.lastCheck == timeStamp
        invariant forall u | t <= u < |tabs| :: ImageOf(drive.d.tables[u]) == imgs[u]
        modifies drive
      {
        CommitTable(t, timeStamp, snaps, v, from, k);
        assert snaps[..t + 1][..t] == snaps[..t];
      }
      InCommitSizes(snaps, v, from, k);
      assert snaps[..|snaps|] == snaps;
      CommitImages(drive.d, logId, key.recCur, snaps, v, imgs);
      CloseRecord(snaps, v, from, k);
    }

    /** The record is committed; the next one becomes current. */
    method CloseRecord(ghost snaps: seq<Snap>, ghost v: View, ghost from: int, ghost k: int)
      requires InCommit(snaps, v, from, k) && MaxId(drive.d.tables) == logId && |drive.d.tables| == |snaps| == |v.imgs|
      requires forall t | 0 <= t < |drive.d.tables| :: ImageOf(drive.d.tables[t]) == Overlay(v.imgs[t], snaps[t])
      modifies this`key, drive
      ensures Valid(Done(v, snaps, timeStamp)) && old(drive.trace) <= drive.trace
        && drive.d.tables == old(drive.d.tables)
      ensures Turned(drive.trace, from, k, v, Ready(v, snaps), Done(v, snaps, timeStamp))
      ensures key.KeyPage? && key == old(key).(items := key.items, recCur := old(key.recCur) + 1)
      ensures |drive.trace| == |old(drive.trace)| + 1
    {
      hide Flips, Openable, Committing, Calm, Seen;
      var r := key.recCur;
      FlipsRange(drive.trace, from, k, v, Ready(v, snaps));
      CommitSizes(drive.d, logId, r, snaps, v);
      key := key.(items := key.items[r := ItemAt(key, r).(outcome := Commit, stamp := timeStamp)], recCur := r + 1);
      ghost var d' := PutLog(drive.d, logId, 0, key);
      CommitDone(drive.d, logId, r, snaps, v, key);
      CalmRecovers(d', Done(v, snaps, timeStamp));
      assert (drive.trace + [d'])[..|drive.trace|] == drive.trace;
      drive.WriteLog(logId, 0, key);
    }

    /** checkpoint_prepare, then checkpoint_commit. */
    method Checkpoint(snaps: seq<Snap>, now: int, stamp: int, ghost v: View) returns (ghost k: int)
      requires Valid(v) && |snaps| == |v.imgs| && SnapsOk(snaps) && NextId(now) <= v.top
      modifies this`logId, this`key, this`tabs, this`timeStamp, drive
      ensures old(timeStamp) < timeStamp && stamp <= timeStamp
        && (timeStamp == stamp || timeStamp <= old(NextId(now)) + 1)
      ensures Valid(Done(v, snaps, timeStamp)) && old(drive.trace) <= drive.trace
      ensures Turned(drive.trace, |old(drive.trace)|, k, v, Ready(v, snaps), Done(v, snaps, timeStamp))
        && CheckedAt(drive.d, timeStamp)
      ensures logId == (if old(Due()) then old(NextId(now)) else old(logId))
      ensures key.KeyPage? && key.recCur == (if old(Due()) then 0 else old(key.recCur)) + 1 && key.recCur <= key.recMax
      ensures key.recMax == if old(Due()) then recordsPerPage else old(key.recMax)
      ensures var start, pages := |old(drive.trace)| + (if old(Due()) then |snaps| + 2 else 0), Sum(snaps) + |snaps|;
        k == start + pages + (if old(Due()) then 2 else 1) && |drive.trace| == start + 2 * pages + 3
      ensures key.pageLast == (if old(Due()) then |snaps| + 1 else old(key.pageLast)) + Sum(snaps)
    {
      hide Openable, Committing, Calm;
      ghost var from := |drive.trace|;
      k := Prepare(snaps, now, v, from);
      CommitAll(stamp, snaps, v, from, k);
    }

    /** The rest of integrity_verify, and redo if the current record is prepared. */
    method Recover(now: int, ghost v: View)
      requires Attached() && logId == MaxId(drive.d.tables) && Seen(drive.d, v)
      modifies this`key, this`timeStamp, drive
      ensures timeStamp == if v.open.Redo? then old(NextId(now)) else old(timeStamp)
      ensures Valid(Redone(v, timeStamp)) && old(drive.trace) <= drive.trace
      ensures forall i | |old(drive.trace)| <= i < |drive.trace| ::
        Seen(drive.trace[i], v) || Seen(drive.trace[i], Redone(v, timeStamp))
      ensures old(key.KeyPage?) && logId == old(logId)
      ensures |drive.trace| == |old(drive.trace)| + (
        if v.open.Redo? then Sum(v.open.snaps) + |v.open.snaps| + 1
        else if old(ItemAt(key, key.recCur)).first != 0 then 1 else 0)
      ensures var it, r := old(ItemAt(key, key.recCur)), old(key.recCur);
        !v.open.Redo? ==> key == if it.first != 0
          then old(key).(items := old(key).items[r := it.(outcome := Abort)], recCur := r + 1) else old(key)
    {
      hide Committing, Complete, Archive;
      ghost var from := |drive.trace|;
      var it := ItemAt(key, key.recCur);
      match it.outcome
      case Null =>
        if it.first != 0 {
          CalmParts(drive.d, v);
          key := key.(items := key.items[key.recCur := it.(outcome := Abort)], recCur := key.recCur + 1);
          WriteCalm(0, key, v, from);
        }
      case Prepared =>
        ghost var snaps := CurrentSnaps(drive.d);
        ghost var v0 := Before(drive.d, v);
        RedoReady(drive.d, v);
        CommitAll(now, snaps, v0, from, from);
        RedoneIs(v0, v, snaps, timeStamp);
        TurnedSeen(drive.trace, from, v0, v, Redone(v, timeStamp));
    }
  }

  /** What the disk will be worth, less the record that waits for its redo. */
  ghost function Before(d: Disk, v: View): View
    requires Seen(d, v) && Pending(d)
  {
    v.(imgs := Images(d), open := Nothing)
  }

  /** A redo is a commit that starts from whatever the tables hold. */
  lemma RedoReady(d: Disk, v: View)
    requires Seen(d, v) && Pending(d)
    ensures Committing(d, MaxId(d.tables), d.logs[MaxId(d.tables)][0].recCur, CurrentSnaps(d), Before(d, v))
    ensures |Before(d, v).imgs| == |CurrentSnaps(d)| && Ready(Before(d, v), CurrentSnaps(d)) == v
  {
    hide Archive, Calm, Linked, Recovered, Post, Holds;
    MaxIdBound(d.tables);
    PendingHolds(d);
    PendingImages(d);
  }

  lemma RedoneIs(v0: View, v: View, snaps: seq<Snap>, stamp: int)
    requires |v0.imgs| == |snaps| && v0.open == Nothing && Ready(v0, snaps) == v
    ensures Done(v0, snaps, stamp) == Redone(v, stamp)
  {
  }

  lemma TurnedSeen(trace: seq<Disk>, from: int, a: View, b: View, c: View)
    requires Turned(trace, from, from, a, b, c)
    ensures forall i | from <= i < |trace| :: Seen(trace[i], b) || Seen(trace[i], c)
  {
    var t := trace[..|trace| - 1];
    forall i | from <= i < |trace| ensures Seen(trace[i], b) || Seen(trace[i], c) {
      if i < |t| { assert t[i] == trace[i]; }
    }
  }

  lemma PendingImages(d: Disk)
    requires Openable(d) && Pending(d)
    ensures Post(Images(d), CurrentSnaps(d)) == Recovered(d)
  {
  }

  lemma PendingHolds(d: Disk)
    requires Openable(d) && Pending(d)
    ensures Holds(d.logs[MaxId(d.tables)], |d.tables|, d.logs[MaxId(d.tables)][0].recCur, CurrentSnaps(d))
  {
  }

  /** The log page range of table t holds its snapshot. */
  lemma CommitSnap(d: Disk, id: int, r: nat, snaps: seq<Snap>, v: View, tabs: seq<LogPage>, t: nat)
    requires Committing(d, id, r, snaps, v) && t < |tabs| == |d.tables|
    requires forall i | 1 <= i <= |tabs| :: i in d.logs[id] && d.logs[id][i] == tabs[i - 1]
    requires tabs[t].TablePage?
    ensures id in d.logs && |snaps| == |v.imgs| == |d.tables|
    ensures HoldsRange(d.logs[id], |tabs|, RangeAt(tabs[t], r))
    ensures var g := RangeAt(tabs[t], r); Logged(d.logs[id], g.first, g.last) == snaps[t]
    ensures Overlay(ImageOf(d.tables[t]), snaps[t]) == Overlay(v.imgs[t], snaps[t])
  {
    assert d.logs[id][t + 1] == tabs[t];
    assert SnapOf(d.logs[id], |snaps|, r, t) == snaps[t];
  }

  lemma MarkedHolds(d: Disk, id: int, key: LogPage, tabs: seq<LogPage>, snaps: seq<Snap>, page: nat)
    requires id in d.logs && |tabs| == |snaps| == |d.tables| && KeyOk(key, |tabs|) && Readable(d.logs[id], |tabs|)
    requires ItemAt(key, key.recCur).outcome == Prepared && page <= key.pageLast
    requires forall i | 1 <= i <= |tabs| :: d.logs[id][i] == tabs[i - 1]
    requires forall u | 0 <= u < |tabs| :: LoggedAt(d.logs[id], |tabs|, tabs[u], key.recCur, snaps[u], page)
    ensures Holds(PutLog(d, id, 0, key).logs[id], |snaps|, key.recCur, snaps)
  {
    var f, f', n, r := d.logs[id], PutLog(d, id, 0, key).logs[id], |tabs|, key.recCur;
    forall i | 1 <= i <= n ensures LoggedAt(f', n, f'[i], r, snaps[i - 1], page) {
      LoggedKept(f, f', n, tabs[i - 1], r, snaps[i - 1], page, page);
    }
  }

  /** The key page with its current record marked. */
  function Marked(k: LogPage, page: nat): LogPage
    requires k.KeyPage?
  {
    k.(items := k.items[k.recCur := ItemAt(k, k.recCur).(last := page, outcome := Prepared)], pageLast := page)
  }

  lemma MarkedQuiet(d: Disk, v: View, id: int, k: LogPage, page: nat)
    requires Calm(d, v) && MaxId(d.tables) <= id && id in d.logs && 0 in d.logs[id] && d.logs[id][0] == k
    requires KeyOk(k, |d.tables|) && k.pageLast <= page && k.recCur < k.recMax
    ensures KeyOk(Marked(k, page), |d.tables|) && Quiet(d, id, 0, Marked(k, page))
  {
    CalmParts(d, v);
  }

  lemma MarkedCommitting(d: Disk, id: int, key: LogPage, snaps: seq<Snap>, v: View)
    requires Calm(d, v) && MaxId(d.tables) <= id <= v.top && |snaps| == |v.imgs| && key.KeyPage? && Quiet(d, id, 0, key)
    requires MaxId(d.tables) < id ==> Linked(d, id)
    requires Holds(PutLog(d, id, 0, key).logs[id], |snaps|, key.recCur, snaps)
    ensures Committing(PutLog(d, id, 0, key), id, key.recCur, snaps, v)
  {
    hide Holds, Complete, Quiet, Archive;
    MaxIdBound(d.tables);
    ArchiveQuiet(d, v.origin, v.recs, id, 0, key);
    if MaxId(d.tables) != id { CalmLog(d, v, id, 0, key); }
    forall t | 0 <= t < |d.tables| ensures ImageOf(d.tables[t]) == v.imgs[t] { assert Images(d)[t] == v.imgs[t]; }
  }

  lemma FlipsRange(trace: seq<Disk>, from: int, k: int, a: View, b: View)
    requires Flips(trace, from, k, a, b)
    ensures 0 <= from <= k <= |trace|
  {
  }

  /** A trace that never flipped. */
  lemma FlipsNone(trace: seq<Disk>, from: int, a: View, b: View)
    ensures Flips(trace, from, |trace|, a, b) <==> Flips(trace, from, |trace|, a, a)
  {
  }

  /** Log file f holds snap as record r of the table with page p, in pages below the given one. */
  predicate LoggedAt(f: LogFile, n: nat, p: LogPage, r: nat, snap: Snap, page: nat) {
    && p.TablePage? && HoldsRange(f, n, RangeAt(p, r)) && RangeAt(p, r).last <= page
    && var g := RangeAt(p, r); Logged(f, g.first, g.last) == snap
  }

  /** The first j pages of the snapshot stand from the given place on. */
  predicate Saved(f: LogFile, snap: Snap, page: nat, j: nat)
    requires j <= |snap|
  {
    forall q | page <= q < page + j :: q in f && f[q] == DataPage(snap[q - page].0, snap[q - page].1)
  }

  lemma SavedLogged(f: LogFile, f': LogFile, n: nat, p: LogPage, r: nat, snap: Snap, page: nat)
    requires Saved(f, snap, page, |snap|) && n < page && p.TablePage? && RangeAt(p, r) == Range(page, page + |snap|)
    requires forall i | 0 <= i < |snap| - 1 :: snap[i].0 != 0
    requires forall i | n < i :: i in f ==> i in f' && f'[i] == f[i]
    ensures LoggedAt(f', n, p, r, snap, page + |snap|)
  {
    assert Logged(f', page, page + |snap|) == snap;
  }

  /** Later pages of the log do not touch a table's record. */
  lemma LoggedKept(f: LogFile, f': LogFile, n: nat, p: LogPage, r: nat, snap: Snap, page: nat, page': nat)
    requires LoggedAt(f, n, p, r, snap, page) && page <= page'
    requires forall i | n < i < page :: i in f ==> i in f' && f'[i] == f[i]
    ensures LoggedAt(f', n, p, r, snap, page')
  {
  }

  lemma CalmParts(d: Disk, v: View)
    requires Calm(d, v)
    ensures Openable(d) && |d.tables| == |v.imgs| > 0 && MaxId(d.tables) in d.logs && MaxId(d.tables) <= v.top
    ensures Readable(d.logs[MaxId(d.tables)], |v.imgs|)
    ensures var k := d.logs[MaxId(d.tables)][0];
      ItemAt(k, k.recCur).outcome != Prepared && (k.chain == 0 || k.chain > MaxId(d.tables))
    ensures forall id | id in d.logs && id > MaxId(d.tables) :: Unused(d.logs[id])
  {
    ChainTop(d.logs, |d.tables|, v.origin.id, MaxId(d.tables));
  }

  lemma SeenOpens(d: Disk, v: View)
    requires Seen(d, v)
    ensures Openable(d)
  {
  }

  lemma CommitSizes(d: Disk, id: int, r: nat, snaps: seq<Snap>, v: View)
    requires Committing(d, id, r, snaps, v)
    ensures |d.tables| == |snaps| == |v.imgs| > 0 && id > 0
    ensures id in d.logs && Readable(d.logs[id], |snaps|) && Complete(d.logs[id], |snaps|, r)
      && d.logs[id][0].recCur == r && ItemAt(d.logs[id][0], r).outcome == Prepared
  {
  }

  /** What the tables held when commit began, overlaid, is what recovery promised. */
  lemma CommitImages(d: Disk, id: int, r: nat, snaps: seq<Snap>, v: View, imgs: seq<Image>)
    requires Committing(d, id, r, snaps, v) && |imgs| == |snaps|
    requires forall u | 0 <= u < |d.tables| :: ImageOf(d.tables[u]) == Overlay(imgs[u], snaps[u])
    ensures forall u | 0 <= u < |d.tables| :: ImageOf(d.tables[u]) == Overlay(v.imgs[u], snaps[u])
  {
    forall u | 0 <= u < |d.tables| ensures ImageOf(d.tables[u]) == Overlay(v.imgs[u], snaps[u]) {
      OverlayAgain(imgs[u], snaps[u]);
    }
  }
}
