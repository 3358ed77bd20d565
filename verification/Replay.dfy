/** Point-in-time restore: a backup brought forward by the committed records of the log chain. */
module Replay {
  import opened LogDisk
  import opened LogArchive
  import opened RedoLog
  import opened LogHistory

  // ----- which records are taken -----

  /** The records up to the first one that is not older than ts. */
  function UpTo(recs: seq<Rec>, ts: int): (s: seq<Rec>)
    ensures s <= recs
  {
    if |recs| == 0 || recs[0].stamp >= ts then [] else [recs[0]] + UpTo(recs[1..], ts)
  }

  /** The records from the first one on that the backup is older than. */
  function Behind(recs: seq<Rec>, last: int): (s: seq<Rec>)
    ensures |s| <= |recs|
  {
    if |recs| == 0 || recs[0].stamp > last then recs else Behind(recs[1..], last)
  }

  /** All records older than ts. */
  function Earlier(recs: seq<Rec>, ts: int): (s: seq<Rec>)
    ensures |s| <= |recs|
  {
    if |recs| == 0 then [] else (if recs[0].stamp < ts then [recs[0]] else []) + Earlier(recs[1..], ts)
  }

  predicate Ascending(recs: seq<Rec>) {
    forall i, j | 0 <= i < j < |recs| :: recs[i].stamp <= recs[j].stamp
  }

  /** The records of the log that is open, from number r on, and then those of the logs it leads to. */
  function Ahead(logs: Logs, n: nat, id: int, top: int, r: nat): seq<Rec>
    requires Standing(logs, n, id, top) && r <= logs[id][0].recCur
  {
    FileRecs(logs[id], n, r) + Beyond(logs, n, id, top)
  }

  function Beyond(logs: Logs, n: nat, id: int, top: int): seq<Rec>
    requires Standing(logs, n, id, top)
  {
    if id >= top then [] else ChainRecs(logs, n, logs[id][0].chain, top)
  }

  /** Log id is in the chain up to top, or was started after it. */
  predicate Standing(logs: Logs, n: nat, id: int, top: int) {
    if id <= top then ChainOk(logs, n, id, top) else id in logs && Readable(logs[id], n) && Unused(logs[id])
  }

  /** What a restore to ts applies to a backup from time `last` that belongs to log id. */
  function Picked(logs: Logs, n: nat, id: int, top: int, last: int, ts: int): seq<Rec>
    requires ChainOk(logs, n, id, top)
  {
    UpTo(Behind(FileRecs(logs[id], n, 0), last) + Beyond(logs, n, id, top), ts)
  }

  /** The log file that holds record number k (from 1) of those from log id on, where id still has `here` of them. */
  function HomeOf(logs: Logs, n: nat, id: int, top: int, here: nat, k: nat): int
    requires Standing(logs, n, id, top)
    decreases top - id
  {
    if k <= here || id >= top then id else
    var next := logs[id][0].chain;
    assert ChainOk(logs, n, next, top);
    HomeOf(logs, n, next, top, |FileRecs(logs[next], n, 0)|, k - here)
  }

  /** Every table names the log file, and was last checkpointed at the given time. */
  predicate NamedBy(d: Disk, id: int, stamp: int) {
    forall t | 0 <= t < |d.tables| :: d.tables[t].magic.loggerId == id && d.tables[t].magic.lastCheck == stamp
  }

  /** What the applied records leave in the tables, besides their pages: that of the last, or nothing. */
  ghost predicate Left(d0: Disk, d: Disk, id: int, done: seq<Rec>) {
    if done == [] then d.tables == d0.tables else NamedBy(d, id, done[|done| - 1].stamp)
  }

  function Stamps(recs: seq<Rec>): (s: seq<int>)
    ensures |s| == |recs|
  {
    seq(|recs|, i requires 0 <= i < |recs| => recs[i].stamp)
  }

  predicate Fit(recs: seq<Rec>, n: nat) {
    forall i | 0 <= i < |recs| :: |recs[i].snaps| == n
  }

  /** The images after the records, one after the other. */
  function Replayed(img: seq<Image>, recs: seq<Rec>): (s: seq<Image>)
    requires Fit(recs, |img|)
    ensures |s| == |img|
  {
    if |recs| == 0 then img else
    var m := |recs| - 1;
    Post(Replayed(img, recs[..m]), recs[m].snaps)
  }

  // ----- laws of the list functions -----

  lemma {:induction false} UpToAll(a: seq<Rec>, b: seq<Rec>, ts: int)
    ensures UpTo(a + b, ts) == if UpTo(a, ts) == a then a + UpTo(b, ts) else UpTo(a, ts)
  {
    if |a| == 0 {
      assert a + b == b;
    } else if a[0].stamp < ts {
      assert (a + b)[1..] == a[1..] + b;
      UpToAll(a[1..], b, ts);
      assert UpTo(a, ts) == a <==> UpTo(a[1..], ts) == a[1..];
    }
  }

  lemma {:induction false} EarlierSplit(a: seq<Rec>, b: seq<Rec>, ts: int)
    ensures Earlier(a + b, ts) == Earlier(a, ts) + Earlier(b, ts)
  {
    if |a| == 0 {
      assert a + b == b;
    } else {
      assert (a + b)[1..] == a[1..] + b;
      EarlierSplit(a[1..], b, ts);
    }
  }

  lemma {:induction false} UpToEarlier(recs: seq<Rec>, ts: int)
    ensures |UpTo(recs, ts)| <= |Earlier(recs, ts)|
    ensures Ascending(recs) ==> UpTo(recs, ts) == Earlier(recs, ts)
    ensures |UpTo(recs, ts)| < |recs| ==> recs[|UpTo(recs, ts)|].stamp >= ts
  {
    if |recs| > 0 {
      UpToEarlier(recs[1..], ts);
      if recs[0].stamp >= ts && Ascending(recs) { NoneEarlier(recs, ts); }
    }
  }

  lemma {:induction false} NoneEarlier(recs: seq<Rec>, ts: int)
    requires forall i | 0 <= i < |recs| :: recs[i].stamp >= ts
    ensures Earlier(recs, ts) == []
  {
    if |recs| > 0 { NoneEarlier(recs[1..], ts); }
  }

  lemma {:induction false} AllEarlier(recs: seq<Rec>, ts: int)
    requires forall i | 0 <= i < |recs| :: recs[i].stamp < ts
    ensures Earlier(recs, ts) == UpTo(recs, ts) == recs
  {
    if |recs| > 0 { AllEarlier(recs[1..], ts); }
  }

  lemma {:induction false} BehindPrior(prior: seq<Rec>, later: seq<Rec>, last: int)
    requires forall i | 0 <= i < |prior| :: prior[i].stamp <= last
    ensures Behind(prior + later, last) == Behind(later, last)
  {
    if |prior| == 0 {
      assert prior + later == later;
    } else {
      assert (prior + later)[1..] == prior[1..] + later;
      BehindPrior(prior[1..], later, last);
    }
  }

  /** A time after every record. */
  function AfterAll(recs: seq<Rec>): (ts: int)
    ensures forall i | 0 <= i < |recs| :: recs[i].stamp < ts
  {
    if |recs| == 0 then 0 else
    var ts := AfterAll(recs[1..]);
    if ts > recs[0].stamp then ts else recs[0].stamp + 1
  }

  // ----- exactly when a restore is right -----

  /** The stamps put the records of the log after the backup, and each record not before the last. */
  predicate InOrder(later: seq<Rec>, beyond: seq<Rec>, last: int) {
    Ascending(later + beyond) && (|later| > 0 ==> later[0].stamp > last)
  }

  /**
   * With the backup's own records stamped no later than the backup, a restore applies for every time exactly the
   * records committed since and before that time, if and only if the stamps are in order.
   */
  lemma RestoreExactlyInOrder(prior: seq<Rec>, later: seq<Rec>, beyond: seq<Rec>, last: int)
    requires forall i | 0 <= i < |prior| :: prior[i].stamp <= last
    ensures (forall ts :: UpTo(Behind(prior + later, last) + beyond, ts) == Earlier(later + beyond, ts))
      <==> InOrder(later, beyond, last)
  {
    BehindPrior(prior, later, last);
    if InOrder(later, beyond, last) {
      forall ts ensures UpTo(Behind(prior + later, last) + beyond, ts) == Earlier(later + beyond, ts) {
        UpToEarlier(later + beyond, ts);
      }
    } else if |later| > 0 && later[0].stamp <= last {
      var ts := AfterAll(later + beyond);
      AllEarlier(later + beyond, ts);
      assert |UpTo(Behind(later, last) + beyond, ts)| < |later + beyond|;
    } else {
      var i, j :| 0 <= i < j < |later + beyond| && (later + beyond)[i].stamp > (later + beyond)[j].stamp;
      DescentIsMissed(later + beyond, i, j);
    }
  }

  lemma DescentIsMissed(recs: seq<Rec>, i: int, j: int)
    requires 0 <= i < j < |recs| && recs[i].stamp > recs[j].stamp
    ensures UpTo(recs, recs[i].stamp) != Earlier(recs, recs[i].stamp)
  {
    var ts := recs[i].stamp;
    assert recs == recs[..j] + recs[j..];
    EarlierSplit(recs[..j], recs[j..], ts);
    UpToAll(recs[..j], recs[j..], ts);
    UpToEarlier(recs[..j], ts);
    UpToStops(recs[..j], ts, i);
    assert |Earlier(recs[j..], ts)| > 0;
  }

  lemma {:induction false} UpToStops(recs: seq<Rec>, ts: int, i: nat)
    requires i < |recs| && recs[i].stamp >= ts
    ensures |UpTo(recs, ts)| <= i
  {
    if i > 0 && recs[0].stamp < ts { UpToStops(recs[1..], ts, i - 1); }
  }

  // ----- the restore -----

  lemma {:induction false} StampsPositive(logs: Logs, n: nat, id: int, top: int)
    requires ChainOk(logs, n, id, top)
    ensures forall i | 0 <= i < |ChainRecs(logs, n, id, top)| :: ChainRecs(logs, n, id, top)[i].stamp > 0
    ensures Fit(ChainRecs(logs, n, id, top), n)
    decreases top - id
  {
    FileStamps(logs[id], n, 0);
    if id < top { StampsPositive(logs, n, logs[id][0].chain, top); }
  }

  lemma {:induction false} FileStamps(f: LogFile, n: nat, r: nat)
    requires FileOk(f, n) && r <= f[0].recCur
    ensures forall i | 0 <= i < |FileRecs(f, n, r)| :: FileRecs(f, n, r)[i].stamp > 0
    ensures Fit(FileRecs(f, n, r), n)
    decreases f[0].recCur - r
  {
    if r < f[0].recCur {
      FileStamps(f, n, r + 1);
      assert Closed(f, n, r);
    }
  }

  /** LogInfo::commit for a record long committed: table t's pages from the log to the table file. */
  method CopyTable(drive: Drive, id: int, n: nat, r: nat, t: nat, stamp: int)
    requires n == |drive.d.tables| && t < n && id in drive.d.logs && Readable(drive.d.logs[id], n)
    requires Complete(drive.d.logs[id], n, r)
    modifies drive
    ensures drive.d.logs == old(drive.d.logs) && |drive.d.tables| == n
    ensures ImageOf(drive.d.tables[t])
      == Overlay(old(ImageOf(drive.d.tables[t])), SnapOf(old(drive.d.logs)[id], n, r, t))
    ensures drive.d.tables[t].magic.loggerId == id && drive.d.tables[t].magic.lastCheck == stamp
    ensures forall u | 0 <= u < n && u != t :: drive.d.tables[u] == old(drive.d.tables[u])
  {
    hide Complete, Readable;
    var f := drive.d.logs[id];
    CompleteAt(f, n, r, t);
    var g := RangeAt(f[t + 1], r);
    ghost var s, pages0 := Logged(f, g.first, g.last), drive.d.tables[t].pages;
    var m := drive.d.tables[t].magic.(loggerId := id);
    if g.first <= g.last - 1 {
      drive.WriteMagic(t, m);
      assert s[..0] == [];
      for i := g.first to g.last - 1
        invariant drive.d.logs == old(drive.d.logs) && |drive.d.tables| == n
        invariant drive.d.tables[t] == Table(m, Replaced(pages0, s[..i - g.first]))
        invariant forall u | 0 <= u < n && u != t :: drive.d.tables[u] == old(drive.d.tables[u])
        modifies drive
      {
        assert s[i - g.first] == (f[i].index, f[i].body);
        assert s[..i + 1 - g.first][..i - g.first] == s[..i - g.first];
        drive.WritePage(t, f[i].index, f[i].body);
      }
      m := Magic(f[g.last - 1].body, id, m.lastCheck);
    }
    drive.WriteMagic(t, m.(lastCheck := stamp));
  }

  lemma CompleteAt(f: LogFile, n: nat, r: nat, t: nat)
    requires Readable(f, n) && t < n && Complete(f, n, r)
    ensures t + 1 in f && f[t + 1].TablePage? && HoldsRange(f, n, RangeAt(f[t + 1], r))
    ensures var g := RangeAt(f[t + 1], r); SnapOf(f, n, r, t) == Logged(f, g.first, g.last)
  {
  }

  /** restore(timestamp, rec_index): one record, table after table. */
  method CopyRecord(drive: Drive, id: int, n: nat, r: nat, stamp: int)
    requires n == |drive.d.tables| && id in drive.d.logs && Readable(drive.d.logs[id], n)
      && Complete(drive.d.logs[id], n, r)
    modifies drive
    ensures drive.d.logs == old(drive.d.logs) && |drive.d.tables| == n
    ensures Images(drive.d) == Post(old(Images(drive.d)), SnapsAt(old(drive.d.logs)[id], n, r))
    ensures NamedBy(drive.d, id, stamp)
  {
    hide Complete, Readable, SnapOf, Overlay;
    ghost var img, snaps := Images(drive.d), SnapsAt(drive.d.logs[id], n, r);
    for t := 0 to n
      invariant drive.d.logs == old(drive.d.logs) && |drive.d.tables| == n
      invariant forall u | 0 <= u < t :: ImageOf(drive.d.tables[u]) == Overlay(img[u], snaps[u])
      invariant forall u | 0 <= u < t ::
        drive.d.tables[u].magic.loggerId == id && drive.d.tables[u].magic.lastCheck == stamp
      invariant forall u | t <= u < n :: ImageOf(drive.d.tables[u]) == img[u]
      modifies drive
    {
      CopyTable(drive, id, n, r, t, stamp);
    }
    assert Images(drive.d) == Post(img, snaps);
  }

  /** The log file in memory is the one the logger has open. */
  ghost predicate Loaded(lg: GlobalLogger, n: nat)
    reads lg, lg.drive
  {
    && n == |lg.drive.d.tables| && lg.logId in lg.drive.d.logs
    && Readable(lg.drive.d.logs[lg.logId], n) && lg.drive.d.logs[lg.logId][0] == lg.key && lg.key.KeyPage?
  }

  /** So are the table pages. */
  ghost predicate TabsOf(lg: GlobalLogger)
    reads lg, lg.drive
  {
    && lg.logId in lg.drive.d.logs && |lg.tabs| == |lg.drive.d.tables|
    && forall t | 0 <= t < |lg.tabs| ::
         t + 1 in lg.drive.d.logs[lg.logId] && lg.tabs[t] == lg.drive.d.logs[lg.logId][t + 1]
  }

  /** load_log_file. */
  method LoadLogFile(lg: GlobalLogger, id: int) returns (ok: bool)
    modifies lg
    ensures ok == (id in lg.drive.d.logs && Readable(lg.drive.d.logs[id], |lg.drive.d.tables|))
    ensures ok ==> lg.logId == lg.timeStamp == id && lg.needRotate == old(lg.needRotate)
    ensures ok ==> Loaded(lg, |lg.drive.d.tables|) && TabsOf(lg)
    ensures !ok ==> unchanged(lg)
  {
    var n := |lg.drive.d.tables|;
    ok := id in lg.drive.d.logs && Readable(lg.drive.d.logs[id], n);
    if ok {
      var f := lg.drive.d.logs[id];
      lg.logId, lg.timeStamp := id, id;
      lg.key := f[0];
      lg.tabs := seq(n, t requires 0 <= t < n => f[t + 1]);
    }
  }

  lemma ReplayedMore(img: seq<Image>, recs: seq<Rec>, more: seq<Rec>)
    requires Fit(recs, |img|) && Fit(more, |img|)
    ensures Fit(recs + more, |img|) && Replayed(img, recs + more) == Replayed(Replayed(img, recs), more)
    decreases |more|
  {
    if |more| == 0 {
      assert recs + more == recs;
    } else {
      var m := |more| - 1;
      assert (recs + more)[..|recs| + m] == recs + more[..m];
      ReplayedMore(img, recs, more[..m]);
    }
  }

  /** One turn of the loop over the records of a log file. */
  method ScanOne(lg: GlobalLogger, r: nat, ts: int, n: nat) returns (c: bool, stamps: seq<int>, ghost done: seq<Rec>)
    requires Loaded(lg, n) && Closed(lg.drive.d.logs[lg.logId], n, r)
    modifies lg.drive
    ensures lg.drive.d.logs == old(lg.drive.d.logs) && Loaded(lg, n)
    ensures c == (ItemAt(lg.key, r).stamp < ts) && stamps == Stamps(done) && Fit(done, n)
    ensures done == if c then RecAt(lg.drive.d.logs[lg.logId], n, r) else []
    ensures Images(lg.drive.d) == Replayed(old(Images(lg.drive.d)), done)
    ensures Left(old(lg.drive.d), lg.drive.d, lg.logId, done)
  {
    hide Readable, Complete, SnapsAt, Post, Images;
    var item := ItemAt(lg.key, r);
    c, stamps, done := item.stamp < ts, [], [];
    if c && item.outcome == Commit {
      CopyRecord(lg.drive, lg.logId, n, r, item.stamp);
      stamps, done := [item.stamp], RecAt(lg.drive.d.logs[lg.logId], n, r);
      assert done[..0] == [];
    }
  }

  /** After the records r0 to r of a file: those in `done` were applied, and c if the scan goes on. */
  ghost predicate Scanned(f: LogFile, n: nat, r0: nat, r: nat, ts: int, c: bool, done: seq<Rec>)
    requires FileOk(f, n) && r0 <= r <= f[0].recCur
  {
    var recs, rest := FileRecs(f, n, r0), FileRecs(f, n, r);
    if c then done + rest == recs && UpTo(recs, ts) == done + UpTo(rest, ts)
    else done == UpTo(recs, ts) && (ts <= 0 || done != recs)
  }

  lemma ScannedMore(f: LogFile, n: nat, r0: nat, r: nat, ts: int, done: seq<Rec>)
    requires FileOk(f, n) && r0 <= r < f[0].recCur && Closed(f, n, r) && Scanned(f, n, r0, r, ts, true, done)
    ensures var c := ItemAt(f[0], r).stamp < ts;
      Scanned(f, n, r0, r + 1, ts, c, done + if c then RecAt(f, n, r) else [])
  {
    hide FileRecs, UpTo, RecAt, Complete, Readable;
    ScanNext(f, n, r, ts);
    var head, rest := RecAt(f, n, r), FileRecs(f, n, r + 1);
    assert done + (head + rest) == (done + head) + rest;
    assert done + (head + UpTo(rest, ts)) == (done + head) + UpTo(rest, ts);
  }

  lemma ScanNext(f: LogFile, n: nat, r: nat, ts: int)
    requires FileOk(f, n) && r < f[0].recCur && Closed(f, n, r)
    ensures FileRecs(f, n, r) == RecAt(f, n, r) + FileRecs(f, n, r + 1)
    ensures ItemAt(f[0], r).stamp < ts ==>
      UpTo(FileRecs(f, n, r), ts) == RecAt(f, n, r) + UpTo(FileRecs(f, n, r + 1), ts)
    ensures ItemAt(f[0], r).stamp >= ts ==> UpTo(FileRecs(f, n, r), ts) == [] && (ts <= 0 || FileRecs(f, n, r) != [])
  {
    hide SnapsAt, Complete, Readable;
    FileStamps(f, n, r + 1);
    UpToAll(RecAt(f, n, r), FileRecs(f, n, r + 1), ts);
  }

  /** The loop over the records of one log file; c says whether to go on to the next. */
  method ScanFile(lg: GlobalLogger, r0: nat, ts: int, n: nat) returns (c: bool, stamps: seq<int>, ghost done: seq<Rec>)
    requires Loaded(lg, n) && FileOk(lg.drive.d.logs[lg.logId], n) && r0 <= lg.key.recCur
    modifies lg.drive
    ensures lg.drive.d.logs == old(lg.drive.d.logs) && Loaded(lg, n)
    ensures stamps == Stamps(done) && Fit(done, n) && Images(lg.drive.d) == Replayed(old(Images(lg.drive.d)), done)
    ensures Scanned(lg.drive.d.logs[lg.logId], n, r0, lg.key.recCur, ts, c, done)
    ensures Left(old(lg.drive.d), lg.drive.d, lg.logId, done)
  {
    hide Readable, Complete, RecAt, Post, Closed, Images, Replayed, Scanned, FileRecs, UpTo;
    ghost var f := lg.drive.d.logs[lg.logId];
    ghost var img := Images(lg.drive.d);
    c, stamps, done := true, [], [];
    var r := r0;
    ReplayedNone(img);
    ScannedNone(f, n, r0, ts);
    while c && r < lg.key.recCur
      invariant r0 <= r <= lg.key.recCur && lg.drive.d.logs == old(lg.drive.d.logs) && Loaded(lg, n)
      invariant Fit(done, n) && stamps == Stamps(done) && Images(lg.drive.d) == Replayed(img, done)
      invariant Scanned(f, n, r0, if c then r else lg.key.recCur, ts, c, done)
      invariant Left(old(lg.drive.d), lg.drive.d, lg.logId, done)
      decreases lg.key.recCur - r
      modifies lg.drive
    {
      assert Closed(f, n, r);
      ScannedMore(f, n, r0, r, ts, done);
      ghost var before, more := done, [];
      var some;
      c, some, more := ScanOne(lg, r, ts, n);
      ReplayedMore(img, before, more);
      stamps, done := stamps + some, before + more;
      r := r + 1;
      if !c { ScannedStops(f, n, r0, r, ts, done); }
    }
  }

  lemma ScannedNone(f: LogFile, n: nat, r0: nat, ts: int)
    requires FileOk(f, n) && r0 <= f[0].recCur
    ensures Scanned(f, n, r0, r0, ts, true, [])
  {
  }

  lemma ScannedStops(f: LogFile, n: nat, r0: nat, r: nat, ts: int, done: seq<Rec>)
    requires FileOk(f, n) && r0 <= r <= f[0].recCur && Scanned(f, n, r0, r, ts, false, done)
    ensures Scanned(f, n, r0, f[0].recCur, ts, false, done)
  {
  }

  lemma StampsMore(recs: seq<Rec>, more: seq<Rec>)
    ensures Stamps(recs + more) == Stamps(recs) + Stamps(more)
  {
  }

  lemma ReplayedNone(img: seq<Image>)
    ensures Replayed(img, []) == img && Fit([], |img|) && Stamps([]) == []
  {
  }

  lemma SkipNext(f: LogFile, n: nat, r: nat, last: int)
    requires FileOk(f, n) && r < f[0].recCur && Closed(f, n, r) && ItemAt(f[0], r).stamp <= last
    ensures Behind(FileRecs(f, n, r), last) == Behind(FileRecs(f, n, r + 1), last)
  {
    hide SnapsAt, Complete;
    var rest := FileRecs(f, n, r + 1);
    assert FileRecs(f, n, r) == RecAt(f, n, r) + rest;
    if ItemAt(f[0], r).outcome == Commit {
      assert FileRecs(f, n, r)[1..] == rest;
    } else {
      assert [] + rest == rest;
    }
  }

  /** Skipping what the backup already holds. */
  method SkipOld(lg: GlobalLogger, last: int, n: nat) returns (r: nat)
    requires Loaded(lg, n) && FileOk(lg.drive.d.logs[lg.logId], n) && last >= 0
    ensures r <= lg.key.recCur
    ensures FileRecs(lg.drive.d.logs[lg.logId], n, r) == Behind(FileRecs(lg.drive.d.logs[lg.logId], n, 0), last)
  {
    hide Readable, Complete, SnapsAt;
    ghost var f := lg.drive.d.logs[lg.logId];
    r := 0;
    while r < lg.key.recCur && ItemAt(lg.key, r).stamp <= last
      invariant r <= lg.key.recCur
      invariant Behind(FileRecs(f, n, 0), last) == Behind(FileRecs(f, n, r), last)
    {
      assert Closed(f, n, r);
      SkipNext(f, n, r, last);
      r := r + 1;
    }
    if r < lg.key.recCur { assert Closed(f, n, r); }
  }

  lemma AheadStep(logs: Logs, n: nat, id: int, top: int, r: nat, ts: int, c: bool, more: seq<Rec>)
    requires Standing(logs, n, id, top) && FileOk(logs[id], n) && r <= logs[id][0].recCur
    requires Scanned(logs[id], n, r, logs[id][0].recCur, ts, c, more)
    ensures if c then
        UpTo(Ahead(logs, n, id, top, r), ts) == more + UpTo(Beyond(logs, n, id, top), ts)
      else UpTo(Ahead(logs, n, id, top, r), ts) == more
  {
    hide Scanned, UpTo, Beyond, FileRecs, FileOk;
    UpToAll(FileRecs(logs[id], n, r), Beyond(logs, n, id, top), ts);
    ScannedAll(logs[id], n, r, ts, c, more);
    if !c && ts <= 0 {
      BeyondPositive(logs, n, id, top);
      UpToStopsAtOnce(Beyond(logs, n, id, top), ts);
    }
  }

  lemma UpToStopsAtOnce(recs: seq<Rec>, ts: int)
    requires |recs| > 0 ==> recs[0].stamp >= ts
    ensures UpTo(recs, ts) == []
  {
  }

  lemma ScannedAll(f: LogFile, n: nat, r: nat, ts: int, c: bool, more: seq<Rec>)
    requires FileOk(f, n) && r <= f[0].recCur && Scanned(f, n, r, f[0].recCur, ts, c, more)
    ensures more == UpTo(FileRecs(f, n, r), ts)
    ensures if c then more == FileRecs(f, n, r) else ts <= 0 || more != FileRecs(f, n, r)
  {
  }

  lemma BeyondPositive(logs: Logs, n: nat, id: int, top: int)
    requires Standing(logs, n, id, top)
    ensures forall i | 0 <= i < |Beyond(logs, n, id, top)| :: Beyond(logs, n, id, top)[i].stamp > 0
  {
    if id < top { StampsPositive(logs, n, logs[id][0].chain, top); }
  }

  /** Where the chain leads. */
  lemma NextLog(logs: Logs, n: nat, id: int, top: int)
    requires Standing(logs, n, id, top) && TailOk(logs, top)
    ensures FileOk(logs[id], n)
    ensures var next := logs[id][0].chain;
      if id < top then
        && next > id && next != 0 && next in logs && Readable(logs[next], n) && Standing(logs, n, next, top)
        && FileOk(logs[next], n)
        && Ahead(logs, n, next, top, 0) == Beyond(logs, n, id, top)
      else
        && Beyond(logs, n, id, top) == [] && (next != 0 ==> id == top && next > top)
        && (next > top && next in logs && Readable(logs[next], n) ==>
          Standing(logs, n, next, top) && FileOk(logs[next], n) && Ahead(logs, n, next, top, 0) == [])
  {
    if id < top { assert ChainOk(logs, n, logs[id][0].chain, top); }
  }

  /** The file whose records are being read is where those that follow will be found. */
  ghost predicate Onward(logs: Logs, n: nat, id0: int, top: int, here: nat, got: nat, id: int, r: nat)
    requires Standing(logs, n, id0, top) && Standing(logs, n, id, top) && r <= logs[id][0].recCur
    requires FileOk(logs[id], n)
  {
    forall k: nat {:trigger HomeOf(logs, n, id0, top, here, k)} | got < k <= got + |Ahead(logs, n, id, top, r)| ::
      HomeOf(logs, n, id0, top, here, k) == HomeOf(logs, n, id, top, |FileRecs(logs[id], n, r)|, k - got)
  }

  /** The log can be read on from its start. */
  ghost predicate CanRead(logs: Logs, n: nat, id: int, top: int)
  {
    id in logs && Readable(logs[id], n) && Standing(logs, n, id, top) && FileOk(logs[id], n)
  }

  /** Records taken from log id are at home there. */
  lemma OnwardHere(logs: Logs, n: nat, id0: int, top: int, here: nat, got: nat, id: int, r: nat, more: seq<Rec>)
    requires Standing(logs, n, id0, top) && Standing(logs, n, id, top) && r <= logs[id][0].recCur
    requires FileOk(logs[id], n) && Onward(logs, n, id0, top, here, got, id, r)
    requires more <= FileRecs(logs[id], n, r) && more != []
    ensures HomeOf(logs, n, id0, top, here, got + |more|) == id
  {
    hide FileRecs, Beyond, ChainOk, Closed, Readable;
    assert |more| <= |Ahead(logs, n, id, top, r)|;
  }

  /** Once all of them are taken the next log has those that follow. */
  lemma OnwardNext(logs: Logs, n: nat, id0: int, top: int, here: nat, got: nat, id: int, r: nat)
    requires Standing(logs, n, id0, top) && Standing(logs, n, id, top) && r <= logs[id][0].recCur
    requires FileOk(logs[id], n) && Onward(logs, n, id0, top, here, got, id, r) && TailOk(logs, top)
    requires CanRead(logs, n, logs[id][0].chain, top) && logs[id][0].chain != 0
    ensures Onward(logs, n, id0, top, here, got + |FileRecs(logs[id], n, r)|, logs[id][0].chain, 0)
  {
    NextLog(logs, n, id, top);
    hide FileRecs, Beyond, TailOk, Unused, ChainOk, Closed, Readable;
    var next, first := logs[id][0].chain, |FileRecs(logs[id], n, r)|;
    if id < top {
      forall k: nat | got + first < k <= got + first + |Ahead(logs, n, next, top, 0)|
        ensures HomeOf(logs, n, id0, top, here, k)
          == HomeOf(logs, n, next, top, |FileRecs(logs[next], n, 0)|, k - (got + first))
      {
        assert HomeOf(logs, n, id0, top, here, k) == HomeOf(logs, n, id, top, first, k - got);
      }
    }
  }

  /** In the middle of a restore: what is picked already, and what log id and those after it still have for it. */
  ghost predicate Reading(logs: Logs, n: nat, id0: int, top: int, here: nat, ts: int, goal: seq<Rec>, picked: seq<Rec>,
                          id: int, r: nat)
  {
    && Standing(logs, n, id0, top) && TailOk(logs, top) && CanRead(logs, n, id, top) && r <= logs[id][0].recCur
    && goal == picked + UpTo(Ahead(logs, n, id, top, r), ts)
    && Onward(logs, n, id0, top, here, |picked|, id, r)
  }

  lemma ReadFrom(logs: Logs, n: nat, id: int, top: int, r: nat, last: int, ts: int)
    requires ChainOk(logs, n, id, top) && TailOk(logs, top) && FileOk(logs[id], n) && r <= logs[id][0].recCur
    requires FileRecs(logs[id], n, r) == Behind(FileRecs(logs[id], n, 0), last)
    ensures Standing(logs, n, id, top)
    ensures var here, goal := HeldBack(logs, n, id, top, last), Picked(logs, n, id, top, last, ts);
      Reading(logs, n, id, top, here, ts, goal, [], id, r)
  {
    hide FileRecs, UpTo, Behind, Beyond, Onward;
    StandingFirst(logs, n, id, top);
    AheadIs(logs, n, id, top, r, last, ts);
    OnwardFirst(logs, n, id, top, r);
    assert [] + UpTo(Ahead(logs, n, id, top, r), ts) == UpTo(Ahead(logs, n, id, top, r), ts);
  }

  lemma ReadOn(logs: Logs, n: nat, id0: int, top: int, here: nat, ts: int, goal: seq<Rec>, picked: seq<Rec>, id: int,
               r: nat, c: bool, more: seq<Rec>)
    requires Reading(logs, n, id0, top, here, ts, goal, picked, id, r)
    requires Scanned(logs[id], n, r, logs[id][0].recCur, ts, c, more)
    ensures more != [] ==> HomeOf(logs, n, id0, top, here, |picked + more|) == id
    ensures var next := logs[id][0].chain;
      if c && next != 0 && next in logs && Readable(logs[next], n) then
        Reading(logs, n, id0, top, here, ts, goal, picked + more, next, 0) && (next > top || id < next) && id <= top
      else goal == picked + more
  {
    hide Onward, HomeOf, UpTo, FileRecs, Beyond, Ahead, Scanned, TailOk, Unused, ChainOk, Standing, Closed;
    AheadStep(logs, n, id, top, r, ts, c, more);
    NextLog(logs, n, id, top);
    ScannedAll(logs[id], n, r, ts, c, more);
    if more != [] { OnwardHere(logs, n, id0, top, here, |picked|, id, r, more); }
    var next := logs[id][0].chain;
    if c && next != 0 && next in logs && Readable(logs[next], n) {
      OnwardNext(logs, n, id0, top, here, |picked|, id, r);
    }
    UpToStopsAtOnce([], ts);
    assert picked + (more + UpTo(Beyond(logs, n, id, top), ts)) == (picked + more) + UpTo(Beyond(logs, n, id, top), ts);
  }

  lemma ChainFile(logs: Logs, n: nat, id: int, top: int)
    requires ChainOk(logs, n, id, top)
    ensures id in logs && FileOk(logs[id], n) && Standing(logs, n, id, top)
  {
  }

  lemma CanReadIt(logs: Logs, n: nat, id0: int, top: int, here: nat, ts: int, goal: seq<Rec>, picked: seq<Rec>, id: int,
                  r: nat)
    requires Reading(logs, n, id0, top, here, ts, goal, picked, id, r)
    ensures id in logs && FileOk(logs[id], n) && r <= logs[id][0].recCur
  {
  }

  /**
   * restore(timestamp): the records it applies are those of the log files from the one that is open, between the time
   * of the tables and ts; the tables then bear the time of the last of them and name its log file; and the log file
   * that they named before is open again.
   */
  method RestoreTo(lg: GlobalLogger, ts: int, ghost top: int, n: nat) returns (stamps: seq<int>, ghost picked: seq<Rec>)
    requires Loaded(lg, n) && n > 0 && lg.drive.d.tables[0].magic.lastCheck >= 0
    requires ChainOk(lg.drive.d.logs, n, lg.logId, top) && TailOk(lg.drive.d.logs, top)
    modifies lg, lg.drive
    ensures lg.drive.d.logs == old(lg.drive.d.logs)
    ensures picked == Picked(lg.drive.d.logs, n, old(lg.logId), top, old(lg.drive.d.tables[0].magic.lastCheck), ts)
    ensures stamps == Stamps(picked) && Fit(picked, n)
    ensures Images(lg.drive.d) == Replayed(old(Images(lg.drive.d)), picked)
    ensures Standing(lg.drive.d.logs, n, old(lg.logId), top)
    ensures Left(old(lg.drive.d), lg.drive.d,
                 HomeOf(lg.drive.d.logs, n, old(lg.logId), top,
                        HeldBack(lg.drive.d.logs, n, old(lg.logId), top, old(lg.drive.d.tables[0].magic.lastCheck)),
                        |picked|), picked)
    ensures old(Names(lg)) ==> lg.logId == lg.timeStamp == old(MaxId(lg.drive.d.tables)) && Loaded(lg, n) && TabsOf(lg)
    ensures old(lg.logId == MaxId(lg.drive.d.tables)) ==> lg.logId == old(lg.logId) && lg.key == old(lg.key)
  {
    hide ChainOk, FileOk, FileRecs, Replayed, Images, Readable, UpTo, Ahead, Standing, Scanned, Behind, TailOk, Stamps,
      Fit, Onward, HomeOf, NamedBy, Reading, HeldBack, Picked;
    ghost var logs, img, d0 := lg.drive.d.logs, Images(lg.drive.d), lg.drive.d;
    var id0, idT, last := lg.logId, MaxId(lg.drive.d.tables), lg.drive.d.tables[0].magic.lastCheck;
    ChainFile(logs, n, id0, top);
    var r: nat := SkipOld(lg, last, n);
    ghost var goal, here := Picked(logs, n, id0, top, last, ts), HeldBack(logs, n, id0, top, last);
    ReadFrom(logs, n, id0, top, r, last, ts);
    stamps, picked := [], [];
    ReplayedNone(img);
    var going := true;
    while going
      invariant lg.drive.d.logs == logs && |lg.drive.d.tables| == n
      invariant Fit(picked, n) && stamps == Stamps(picked) && Images(lg.drive.d) == Replayed(img, picked)
      invariant Left(d0, lg.drive.d, HomeOf(logs, n, id0, top, here, |picked|), picked)
      invariant going ==> Loaded(lg, n) && Reading(logs, n, id0, top, here, ts, goal, picked, lg.logId, r)
      invariant !going ==> goal == picked
      decreases if !going then 0 else if lg.logId > top then 1 else top - lg.logId + 2
      modifies lg, lg.drive
    {
      ghost var before, more := picked, [];
      var c, some;
      CanReadIt(logs, n, id0, top, here, ts, goal, picked, lg.logId, r);
      c, some, more := ScanFile(lg, r, ts, n);
      ReadOn(logs, n, id0, top, here, ts, goal, picked, lg.logId, r, c, more);
      ReplayedMore(img, before, more);
      StampsMore(before, more);
      stamps, picked := stamps + some, before + more;
      going := c && lg.key.chain != 0;
      if going {
        going := LoadLogFile(lg, lg.key.chain);
      }
      r := 0;
    }
    var _ := LoadLogFile(lg, idT);
  }

  /** The log file that the tables name can be opened. */
  ghost predicate Names(lg: GlobalLogger)
    reads lg, lg.drive
  {
    var id := MaxId(lg.drive.d.tables);
    id in lg.drive.d.logs && Readable(lg.drive.d.logs[id], |lg.drive.d.tables|)
  }

  /** How many records of log id the tables do not hold yet. */
  ghost function HeldBack(logs: Logs, n: nat, id: int, top: int, last: int): nat
    requires ChainOk(logs, n, id, top)
  {
    |Behind(FileRecs(logs[id], n, 0), last)|
  }

  lemma OnwardFirst(logs: Logs, n: nat, id: int, top: int, r: nat)
    requires Standing(logs, n, id, top) && r <= logs[id][0].recCur && FileOk(logs[id], n)
    ensures Onward(logs, n, id, top, |FileRecs(logs[id], n, r)|, 0, id, r)
  {
  }

  lemma StandingFirst(logs: Logs, n: nat, id: int, top: int)
    requires ChainOk(logs, n, id, top)
    ensures Standing(logs, n, id, top)
  {
  }

  lemma AheadIs(logs: Logs, n: nat, id: int, top: int, r: nat, last: int, ts: int)
    requires ChainOk(logs, n, id, top) && FileOk(logs[id], n) && r <= logs[id][0].recCur
    requires FileRecs(logs[id], n, r) == Behind(FileRecs(logs[id], n, 0), last)
    ensures UpTo(Ahead(logs, n, id, top, r), ts) == Picked(logs, n, id, top, last, ts)
  {
  }

  // ----- a backup, a history, and a restore -----

  /** The tables are a copy of one checkpoint: at rest, with no record of their log file stamped later. */
  predicate Backup(d: Disk, v: View) {
    && Calm(d, v) && v.origin.id == MaxId(d.tables) && FileOk(d.logs[MaxId(d.tables)], |d.tables|)
    && v.recs == v.origin.held == FileRecs(d.logs[MaxId(d.tables)], |d.tables|, 0)
    && d.tables[0].magic.lastCheck >= 0 && AllBy(v.recs, d.tables[0].magic.lastCheck)
  }

  /** What a checkpoint leaves is such a copy, if the stamps were in order until then. */
  lemma CopyOf(d: Disk, v: View, stamp: nat) returns (b: View)
    requires Calm(d, v) && AllBy(v.recs, stamp) && CheckedAt(d, stamp)
    ensures Backup(d, b) && b.imgs == v.imgs && b.top == v.top && d.tables[0].magic.lastCheck == stamp
  {
    var n, top := |d.tables|, MaxId(d.tables);
    CalmParts(d, v);
    ChainTop(d.logs, n, v.origin.id, top);
    var held := FileRecs(d.logs[top], n, 0);
    ChainEnds(d.logs, n, v.origin.id, top);
    b := v.(origin := Origin(top, held), recs := held);
    assert ChainRecs(d.logs, n, top, top) == held;
    forall i | 0 <= i < |held| ensures held[i].stamp <= stamp {
      assert held[i] in ChainRecs(d.logs, n, v.origin.id, top);
    }
  }

  /** The records of the newest file stand last. */
  lemma {:induction false} ChainEnds(logs: Logs, n: nat, id: int, top: int)
    requires ChainOk(logs, n, id, top) && top in logs && FileOk(logs[top], n)
    ensures forall rec | rec in FileRecs(logs[top], n, 0) :: rec in ChainRecs(logs, n, id, top)
    decreases top - id
  {
    hide FileRecs;
    if id < top { ChainEnds(logs, n, logs[id][0].chain, top); }
  }

  /** Applying all committed records gives the images as they are in the end. */
  lemma {:induction false} ReplayedAll(img: seq<Image>, events: seq<Event>, took: seq<bool>, stamps: seq<int>)
    requires |events| == |took| == |stamps| && forall e | e in events :: |e.snaps| == |img|
    ensures Fit(Taken(events, took, stamps), |img|)
    ensures Replayed(img, Taken(events, took, stamps)) == Effect(img, events, took)
  {
    hide Post;
    if |events| > 0 {
      var n := |events| - 1;
      assert events[n] in events;
      ReplayedAll(img, events[..n], took[..n], stamps[..n]);
      var r := Taken(events[..n], took[..n], stamps[..n]);
      assert if took[n] then Taken(events, took, stamps)[..|r|] == r else Taken(events, took, stamps) == r;
    }
  }

  /** Applying the first c gives the images as they were after the c-th checkpoint that took effect. */
  lemma {:induction false} ReplayedEffect(img: seq<Image>, events: seq<Event>, took: seq<bool>, stamps: seq<int>,
                                          c: nat) returns (j: nat)
    requires |events| == |took| == |stamps| && forall e | e in events :: |e.snaps| == |img|
    requires c <= |Taken(events, took, stamps)|
    ensures j <= |events| && Taken(events[..j], took[..j], stamps[..j]) == Taken(events, took, stamps)[..c]
    ensures Fit(Taken(events, took, stamps)[..c], |img|)
    ensures Replayed(img, Taken(events, took, stamps)[..c]) == Effect(img, events[..j], took[..j])
    decreases |events|
  {
    hide Post, Fit, Replayed, Effect;
    var recs := Taken(events, took, stamps);
    if c == |recs| {
      j := |events|;
      assert events[..j] == events && took[..j] == took && stamps[..j] == stamps && recs[..c] == recs;
      ReplayedAll(img, events, took, stamps);
    } else {
      var n := |events| - 1;
      var r := Taken(events[..n], took[..n], stamps[..n]);
      j := ReplayedEffect(img, events[..n], took[..n], stamps[..n], c);
      assert r[..c] == recs[..c] && events[..n][..j] == events[..j];
      assert took[..n][..j] == took[..j] && stamps[..n][..j] == stamps[..j];
    }
  }

  /** The records of the backup's own log file that were committed after it. */
  function Later(d: Disk, o: Origin): seq<Rec>
    requires o.id in d.logs && FileOk(d.logs[o.id], |d.tables|) && o.held <= FileRecs(d.logs[o.id], |d.tables|, 0)
  {
    FileRecs(d.logs[o.id], |d.tables|, 0)[|o.held|..]
  }

  /** The logs d keeps hold, behind the backup's records, just those committed since. */
  lemma LaterTaken(d: Disk, v: View, w: View, more: seq<Rec>)
    requires Calm(d, w) && w.origin == v.origin && v.recs == v.origin.held && w.recs == v.recs + more
    ensures ChainOk(d.logs, |d.tables|, v.origin.id, MaxId(d.tables)) && TailOk(d.logs, MaxId(d.tables))
    ensures v.origin.held <= FileRecs(d.logs[v.origin.id], |d.tables|, 0)
    ensures Later(d, v.origin) + Beyond(d.logs, |d.tables|, v.origin.id, MaxId(d.tables)) == more
  {
    var n, id, top := |d.tables|, v.origin.id, MaxId(d.tables);
    var first, beyond := FileRecs(d.logs[id], n, 0), Beyond(d.logs, n, id, top);
    var p := |v.origin.held|;
    assert first + beyond == v.recs + more;
    assert (first + beyond)[p..] == first[p..] + beyond;
  }

  /** What is known of the time when a backup is made while the logger's time is `clock`. */
  function CopyPace(v: View, clock: int, last: int): Pace {
    Pace(v.top, clock, last, last <= clock)
  }

  /** Stamps that rise behind the backup are in order. */
  lemma RisingInOrder(recs: seq<Rec>, held: seq<Rec>, later: seq<Rec>, beyond: seq<Rec>, last: int)
    requires recs == held + (later + beyond) && Rising(recs, |held|, last)
    ensures InOrder(later, beyond, last)
  {
    var more := later + beyond;
    forall i | 0 <= i < |more| ensures more[i] == recs[|held| + i] {}
    if |later| > 0 { assert more[0] == later[0]; }
  }

  /** What a restore to ts comes to, of the backup in v, after the events with the given stamps. */
  ghost predicate Forwarded(v: View, last: int, ts: int, events: seq<Event>, took: seq<bool>, given: seq<int>,
                            clock: int,
                            later: seq<Rec>, beyond: seq<Rec>, picked: seq<Rec>)
  {
    && |events| == |took| == |given| && (forall e | e in events :: |e.snaps| == |v.imgs|) && Fit(picked, |v.imgs|)
    && later + beyond == Taken(events, took, given)
    && picked == UpTo(Behind(v.recs + later, last) + beyond, ts)
    && (InTime(CopyPace(v, clock, last), events) ==> InOrder(later, beyond, last))
    && (InOrder(later, beyond, last) ==>
      && picked == Earlier(Taken(events, took, given), ts)
      && exists j: nat | j <= |events| :: AtTaken(v.imgs, events, took, given, j, picked))
  }

  /** After the first j turns the checkpoints that had taken effect were those picked, and had left these images. */
  ghost predicate AtTaken(img: seq<Image>, events: seq<Event>, took: seq<bool>, given: seq<int>, j: nat,
                          picked: seq<Rec>)
    requires |events| == |took| == |given| && j <= |events| && (forall e | e in events :: |e.snaps| == |img|)
    requires Fit(picked, |img|)
  {
    && Taken(events[..j], took[..j], given[..j]) == picked
    && Replayed(img, picked) == Effect(img, events[..j], took[..j])
  }

  lemma PickedForwards(v: View, w: View, last: int, ts: int, events: seq<Event>, took: seq<bool>, given: seq<int>,
                       clock: int,
                       later: seq<Rec>, beyond: seq<Rec>, picked: seq<Rec>)
    requires |events| == |took| == |given| && (forall e | e in events :: |e.snaps| == |v.imgs|) && AllBy(v.recs, last)
    requires w.recs == v.recs + Taken(events, took, given) && later + beyond == Taken(events, took, given)
    requires Fit(picked, |v.imgs|) && picked == UpTo(Behind(v.recs + later, last) + beyond, ts)
    requires InTime(CopyPace(v, clock, last), events) ==> Rising(w.recs, |v.recs|, last)
    ensures Forwarded(v, last, ts, events, took, given, clock, later, beyond, picked)
  {
    hide Behind, Effect, Taken, Replayed, InTime, Rising;
    if InTime(CopyPace(v, clock, last), events) { RisingInOrder(w.recs, v.recs, later, beyond, last); }
    if InOrder(later, beyond, last) {
      RestoreExactlyInOrder(v.recs, later, beyond, last);
      assert picked == Earlier(later + beyond, ts);
      UpToEarlier(later + beyond, ts);
      assert picked == (later + beyond)[..|picked|];
      var j := ReplayedEffect(v.imgs, events, took, given, |picked|);
      assert AtTaken(v.imgs, events, took, given, j, picked);
    }
  }

  /** The copied tables open the log file they belong to. */
  lemma BackupOpens(d0: Disk, d: Disk, v: View, w: View)
    requires Backup(d0, v) && Calm(d, w) && Rested(d) && |d.tables| == |d0.tables|
    requires ChainOk(d.logs, |d.tables|, v.origin.id, MaxId(d.tables))
    ensures var r := Disk(d0.tables, d.logs); Openable(r) && AtRest(r.logs[MaxId(r.tables)][0]) && Images(r) == v.imgs
  {
  }

  lemma BackupIs(d: Disk, v: View)
    requires Backup(d, v)
    ensures |d.tables| == |v.imgs| > 0 && v.recs == v.origin.held && v.origin.id == MaxId(d.tables)
    ensures d.tables[0].magic.lastCheck >= 0 && AllBy(v.recs, d.tables[0].magic.lastCheck)
  {
  }

  /**
   * Tables copied at one checkpoint, then any history of checkpoints, crashes and recoveries: brought forward over
   * the logs to time ts, the copy holds the images as they were after exactly the checkpoints stamped before ts,
   * among those that took effect, if the stamps are in order; and they are if the clock keeps the time.
   */
  method PointInTime(drive: Drive, logger0: GlobalLogger, events: seq<Event>, rotate: nat, perPage: Headers, ts: int,
                     ghost v: View)
    returns (restored: Drive, stamps: seq<int>, ghost took: seq<bool>, ghost given: seq<int>, ghost later: seq<Rec>,
             ghost beyond: seq<Rec>, ghost picked: seq<Rec>)
    requires logger0.drive == drive && logger0.Valid(v) && Backup(drive.d, v)
    requires forall e | e in events :: |e.snaps| == |v.imgs| && SnapsOk(e.snaps)
    modifies drive, logger0
    ensures fresh(restored) && |took| == |given| == |events|
    ensures forall i | 0 <= i < |events| :: Decided(events[i], took[i])
    ensures Images(drive.d) == Effect(v.imgs, events, took)
    ensures stamps == Stamps(picked) && Fit(picked, |v.imgs|) && Images(restored.d) == Replayed(v.imgs, picked)
    ensures if picked == [] then restored.d.tables == old(drive.d.tables)
      else CheckedAt(restored.d, picked[|picked| - 1].stamp)
    ensures var last, clock := old(drive.d.tables[0].magic.lastCheck), old(logger0.timeStamp);
      && Forwarded(v, last, ts, events, took, given, clock, later, beyond, picked)
      && forall i | 0 <= i < |events| && took[i] ::
           Ticks(PaceAfter(CopyPace(v, clock, last), events[..i]), events[i], given[i])
  {
    hide Calm, Seen, Effect, SnapsOk, ChainOk, TailOk, FileRecs, Images, Replayed, Taken, InTime, PaceAfter, Ticks,
      Rising,
      Backup, AllBy, Behind, UpTo, Forwarded, Beyond;
    ghost var d0 := drive.d;
    var tables := drive.d.tables;
    BackupIs(d0, v);
    ghost var p0 := CopyPace(v, logger0.timeStamp, tables[0].magic.lastCheck);
    AllByLater(v.recs, p0.last, logger0.timeStamp);
    var logger;
    ghost var w;
    logger, took, given, w := Continue(drive, logger0, events, rotate, perPage, v, p0);
    LaterTaken(drive.d, v, w, Taken(events, took, given));
    CalmHolds(drive.d, w);
    later := Later(drive.d, v.origin);
    beyond := Beyond(drive.d.logs, |drive.d.tables|, v.origin.id, MaxId(drive.d.tables));
    restored := new Drive(Disk(tables, drive.d.logs));
    BackupOpens(d0, drive.d, v, w);
    var lg := new GlobalLogger.Open(restored, rotate, perPage, false);
    assert AtRest(lg.key);
    stamps, picked := RestoreTo(lg, ts, MaxId(drive.d.tables), |tables|);
    assert FileRecs(drive.d.logs[v.origin.id], |tables|, 0) == v.recs + later;
    PickedForwards(v, w, p0.last, ts, events, took, given, p0.clock, later, beyond, picked);
  }

  lemma CalmHolds(d: Disk, v: View)
    requires Calm(d, v)
    ensures Images(d) == v.imgs && |d.tables| == |v.imgs|
  {
  }

  lemma AllByLater(recs: seq<Rec>, t: int, t': int)
    requires AllBy(recs, t)
    ensures t <= t' ==> AllBy(recs, t')
  {
  }

  // ----- a clock that goes back -----

  /** One table of one page, checkpointed never, with an empty log. */
  const NEW_DISK :=
    Disk([Table(Magic([], 1, 0), map[])], map[1 := map[0 := KeyPage(2, 2, 9, 0, 0, map[]), 1 := TablePage(map[])]])

  const NEW_VIEW := View(Origin(1, []), [Image([], map[])], [], Nothing, 5)

  lemma NewDiskCalm()
    ensures Calm(NEW_DISK, NEW_VIEW) && AtRest(NEW_DISK.logs[1][0]) && MaxId(NEW_DISK.tables) == 1 && Openable(NEW_DISK)
  {
    var f := NEW_DISK.logs[1];
    assert MaxId(NEW_DISK.tables[..0]) == 0;
    assert Readable(f, 1);
    assert FileRecs(f, 1, 0) == [];
    assert Images(NEW_DISK) == NEW_VIEW.imgs;
  }

  /** Two checkpoints, each after a restart; the clock stands at 30 for the first and at 20 for the second. */
  function ClockGoesBack(b: seq<Snap>, c: seq<Snap>): seq<Event> {
    [Event(true, b, 5, 30, false, 0, []), Event(true, c, 5, 20, false, 0, [])]
  }

  /** The stamps are those of the clock. */
  lemma ClockGivesStamps(b: seq<Snap>, c: seq<Snap>, p: Pace, took: seq<bool>, given: seq<int>)
    requires p.ids == 5 && |took| == |given| == 2 && took[0] && took[1]
    requires var events := ClockGoesBack(b, c);
      forall i | 0 <= i < 2 && took[i] :: Ticks(PaceAfter(p, events[..i]), events[i], given[i])
    ensures Taken(ClockGoesBack(b, c), took, given) == [Rec(30, b), Rec(20, c)]
  {
    var events := ClockGoesBack(b, c);
    assert events[..0] == [] && events[..1] == [events[0]] && events[..1][..0] == [];
    assert PaceAfter(p, events[..1]) == Went(p, events[0]);
    assert given[0] == 30 && given[1] == 20;
    assert took[..1] == [true] && given[..1] == [30];
    assert Taken(events[..1], took[..1], given[..1]) == [Rec(30, b)];
  }

  /** The second is not reached. */
  lemma StopsBefore(later: seq<Rec>, beyond: seq<Rec>, held: seq<Rec>, b: seq<Snap>, c: seq<Snap>)
    requires later + beyond == [Rec(30, b), Rec(20, c)] && AllBy(held, 11)
    ensures UpTo(Behind(held + later, 11) + beyond, 25) == []
    ensures Earlier(later + beyond, 25) == [Rec(20, c)]
  {
    BehindPrior(held, later, 11);
    if |later| > 0 { assert (later + beyond)[0] == later[0]; }
    assert Behind(later, 11) + beyond == later + beyond;
    assert (later + beyond)[1..] == [Rec(20, c)];
  }

  /**
   * A table is checkpointed at time 11 and copied. The machine is restarted and checkpoints at 30; it is restarted
   * again, with its clock set back, and checkpoints at 20. A restore of the copy to time 25 applies nothing, though
   * the checkpoint stamped 20 took effect.
   */
  method ClockSetBack(a: seq<Snap>, b: seq<Snap>, c: seq<Snap>) returns (restored: Drive, stamps: seq<int>,
                      ghost taken: seq<Rec>)
    requires |a| == |b| == |c| == 1 && SnapsOk(a) && SnapsOk(b) && SnapsOk(c)
    ensures stamps == [] && Images(restored.d) == Post(NEW_VIEW.imgs, a)
    ensures taken == [Rec(30, b), Rec(20, c)] && Earlier(taken, 25) == [Rec(20, c)]
  {
    hide Calm, Seen, Effect, SnapsOk, ChainOk, TailOk, FileRecs, Images, Replayed, Taken, InTime, PaceAfter, Ticks,
      Rising,
      Backup, Behind, UpTo, Earlier, Post, Openable, Turned, Readable;
    NewDiskCalm();
    var drive := new Drive(NEW_DISK);
    var logger := new GlobalLogger.Open(drive, 100, 9, false);
    ghost var k := logger.Checkpoint(a, 5, 11, NEW_VIEW);
    ghost var v := CopyOf(drive.d, Done(NEW_VIEW, a, 11), 11);
    var events := ClockGoesBack(b, c);
    ghost var took, given, later, beyond, picked;
    restored, stamps, took, given, later, beyond, picked := PointInTime(drive, logger, events, 100, 9, 25, v);
    taken := Taken(events, took, given);
    ClockGivesStamps(b, c, CopyPace(v, 11, 11), took, given);
    StopsBefore(later, beyond, v.recs, b, c);
    ReplayedNone(v.imgs);
  }
}
