/** A restore, and then another one to the same or an earlier time. */
module RestoreTwice {
  import opened LogDisk
  import opened LogArchive
  import opened RedoLog
  import opened Replay

  /** The records of log id and of those it leads to. */
  function Chained(logs: Logs, n: nat, id: int, top: int): seq<Rec>
    requires ChainOk(logs, n, id, top)
  {
    FileRecs(logs[id], n, 0) + Beyond(logs, n, id, top)
  }

  /** What UpTo leaves out begins with a record that is not older. */
  lemma {:induction false} UpToParts(recs: seq<Rec>, ts: int)
    ensures recs == UpTo(recs, ts) + recs[|UpTo(recs, ts)|..]
    ensures forall i | 0 <= i < |UpTo(recs, ts)| :: recs[i].stamp < ts
    ensures |UpTo(recs, ts)| < |recs| ==> recs[|UpTo(recs, ts)|].stamp >= ts
  {
    if |recs| > 0 && recs[0].stamp < ts { UpToParts(recs[1..], ts); }
  }

  lemma {:induction false} BehindSuffix(recs: seq<Rec>, last: int)
    ensures Behind(recs, last) == recs[|recs| - |Behind(recs, last)|..]
  {
    if |recs| > 0 && recs[0].stamp <= last { BehindSuffix(recs[1..], last); }
  }

  /** The records from log HomeOf on are the last of the chain, and record k behind the first `skip` is in that file. */
  lemma {:induction false} HomeSplits(logs: Logs, n: nat, id: int, top: int, skip: nat, k: nat) returns (m: nat)
    requires ChainOk(logs, n, id, top) && skip <= |FileRecs(logs[id], n, 0)|
    requires 0 < k && skip + k <= |Chained(logs, n, id, top)|
    ensures Standing(logs, n, id, top)
    ensures var h := HomeOf(logs, n, id, top, |FileRecs(logs[id], n, 0)| - skip, k);
      && ChainOk(logs, n, h, top) && m <= |Chained(logs, n, id, top)|
      && Chained(logs, n, id, top)[m..] == Chained(logs, n, h, top)
      && m < skip + k <= m + |FileRecs(logs[h], n, 0)|
    decreases top - id
  {
    hide FileRecs, FileOk, HomeOf, ChainOk, Beyond, Standing;
    HomeNext(logs, n, id, top, skip, k);
    var here := |FileRecs(logs[id], n, 0)|;
    if k <= here - skip {
      m := 0;
    } else {
      var next := logs[id][0].chain;
      var m' := HomeSplits(logs, n, next, top, 0, k - (here - skip));
      m := here + m';
      FurtherOn(FileRecs(logs[id], n, 0), Chained(logs, n, next, top), m');
    }
  }

  lemma HomeNext(logs: Logs, n: nat, id: int, top: int, skip: nat, k: nat)
    requires ChainOk(logs, n, id, top) && skip <= |FileRecs(logs[id], n, 0)|
    requires 0 < k && skip + k <= |Chained(logs, n, id, top)|
    ensures Standing(logs, n, id, top) && id in logs && FileOk(logs[id], n) && 0 in logs[id] && logs[id][0].KeyPage?
    ensures var next, here := logs[id][0].chain, |FileRecs(logs[id], n, 0)| - skip;
      if k <= here then HomeOf(logs, n, id, top, here, k) == id else
      && id < next <= top && next in logs && FileOk(logs[next], n) && ChainOk(logs, n, next, top)
      && Standing(logs, n, next, top)
      && Beyond(logs, n, id, top) == Chained(logs, n, next, top)
      && HomeOf(logs, n, id, top, here, k) == HomeOf(logs, n, next, top, |FileRecs(logs[next], n, 0)|, k - here)
  {
    hide FileRecs, Closed;
    if id < top { assert ChainOk(logs, n, logs[id][0].chain, top); }
  }

  lemma FurtherOn(a: seq<Rec>, b: seq<Rec>, m: nat)
    requires m <= |b|
    ensures (a + b)[|a| + m..] == b[m..]
  {
  }

  /** Of the last records of a chain in order, those behind record number `got` are not earlier than ts. */
  lemma RestNotEarlier(all: seq<Rec>, got: nat, m: nat, mine: seq<Rec>, beyond: seq<Rec>, ts: int, ts': int)
    requires Ascending(all) && m < got <= |all| && all[got - 1].stamp < ts && ts' <= ts
    requires all[m..] == mine + beyond && got <= m + |mine|
    requires got < |all| ==> all[got].stamp >= ts
    ensures UpTo(Behind(mine, all[got - 1].stamp) + beyond, ts') == []
  {
    hide UpTo, Behind;
    var c, at := got - m, all[got - 1].stamp;
    forall i | 0 <= i < c ensures mine[..c][i].stamp <= at {
      assert mine[i] == all[m..][i] == all[m + i];
    }
    BehindPrior(mine[..c], mine[c..], at);
    assert mine[..c] + mine[c..] == mine;
    assert mine[c..] + beyond == (mine + beyond)[c..] == all[got..];
    if c < |mine| { assert mine[c] == all[m..][c] == all[got]; }
    BehindNone(mine[c..], at);
    UpToStopsAtOnce(all[got..], ts');
  }

  /**
   * After a restore, with the stamps in order: a logger that is opened anew finds nothing to apply up to the same
   * or an earlier time.
   */
  lemma AgainNothing(logs: Logs, n: nat, id: int, top: int, last: int, ts: int, ts': int)
    requires ChainOk(logs, n, id, top) && Ascending(Chained(logs, n, id, top)) && ts' <= ts
    requires Picked(logs, n, id, top, last, ts) != []
    ensures Standing(logs, n, id, top)
    ensures var p := Picked(logs, n, id, top, last, ts);
      var h := HomeOf(logs, n, id, top, HeldBack(logs, n, id, top, last), |p|);
      ChainOk(logs, n, h, top) && Picked(logs, n, h, top, p[|p| - 1].stamp, ts') == []
  {
    hide FileRecs, Beyond, Behind, UpTo, Closed, HomeOf;
    var file, all, p := FileRecs(logs[id], n, 0), Chained(logs, n, id, top), Picked(logs, n, id, top, last, ts);
    var skip := |file| - HeldBack(logs, n, id, top, last);
    BehindSuffix(file, last);
    assert Behind(file, last) + Beyond(logs, n, id, top) == all[skip..];
    UpToParts(all[skip..], ts);
    var k, at := |p|, p[|p| - 1].stamp;
    assert at == all[skip + k - 1].stamp;
    var m := HomeSplits(logs, n, id, top, skip, k);
    var h := HomeOf(logs, n, id, top, |file| - skip, k);
    RestNotEarlier(all, skip + k, m, FileRecs(logs[h], n, 0), Beyond(logs, n, h, top), ts, ts');
  }

  lemma BehindNone(recs: seq<Rec>, last: int)
    requires |recs| > 0 ==> recs[0].stamp > last
    ensures Behind(recs, last) == recs
  {
  }

  /**
   * The logger that did the restore has its old log file open, and skips in that file only: up to an earlier time it
   * finds nothing to apply if and only if the restore took nothing from the files behind, or the first record there
   * is not earlier.
   */
  lemma AgainExactly(logs: Logs, n: nat, id: int, top: int, last: int, ts: int, ts': int)
    requires ChainOk(logs, n, id, top) && Ascending(Chained(logs, n, id, top)) && ts' <= ts
    requires Picked(logs, n, id, top, last, ts) != []
    ensures var p, beyond := Picked(logs, n, id, top, last, ts), Beyond(logs, n, id, top);
      var taken := |p| > HeldBack(logs, n, id, top, last);
      && (taken ==> beyond != [])
      && (Picked(logs, n, id, top, p[|p| - 1].stamp, ts') == [] <==> !taken || beyond[0].stamp >= ts')
  {
    hide FileRecs, Beyond, Behind, UpTo, Closed;
    var file, all, p := FileRecs(logs[id], n, 0), Chained(logs, n, id, top), Picked(logs, n, id, top, last, ts);
    var beyond := Beyond(logs, n, id, top);
    if |p| <= HeldBack(logs, n, id, top, last) {
      AgainNothing(logs, n, id, top, last, ts, ts');
    } else {
      var skip := |file| - HeldBack(logs, n, id, top, last);
      BehindSuffix(file, last);
      assert Behind(file, last) + beyond == all[skip..];
      UpToParts(all[skip..], ts);
      var at := p[|p| - 1].stamp;
      assert at == all[skip + |p| - 1].stamp;
      forall i | 0 <= i < |file| ensures file[i].stamp <= at { assert file[i] == all[i]; }
      BehindPrior(file, [], at);
      assert file + [] == file && [] + beyond == beyond;
      BehindNone([], at);
      UpToFirst(beyond, ts');
    }
  }

  lemma UpToFirst(recs: seq<Rec>, ts: int)
    requires recs != []
    ensures UpTo(recs, ts) == [] <==> recs[0].stamp >= ts
  {
  }

  lemma NamedMax(d: Disk, id: int, stamp: int)
    requires NamedBy(d, id, stamp) && id > 0 && |d.tables| > 0
    ensures MaxId(d.tables) == id
  {
    MaxIdBound(d.tables);
    MaxIdIs(d.tables, id, 0);
  }

  /** The log files of a chain that is at rest can be opened for tables that name one of them. */
  lemma ChainOpens(d: Disk, n: nat, id: int, top: int)
    requires n == |d.tables| > 0 && ChainOk(d.logs, n, id, top) && MaxId(d.tables) == id
    requires top in d.logs && 0 in d.logs[top] && AtRest(d.logs[top][0])
    requires forall t | 0 <= t < n :: d.tables[t].magic.loggerId > 0
    ensures Openable(d)
  {
  }

  /** The stamps of the chain are positive. */
  lemma PickedPositive(logs: Logs, n: nat, id: int, top: int, last: int, ts: int)
    requires ChainOk(logs, n, id, top)
    ensures forall i | 0 <= i < |Picked(logs, n, id, top, last, ts)| :: Picked(logs, n, id, top, last, ts)[i].stamp > 0
  {
    hide FileRecs, Beyond, Behind, UpTo, Closed;
    var file, p := FileRecs(logs[id], n, 0), Picked(logs, n, id, top, last, ts);
    FileStamps(logs[id], n, 0);
    BeyondPositive(logs, n, id, top);
    BehindSuffix(file, last);
    UpToParts(Behind(file, last) + Beyond(logs, n, id, top), ts);
  }

  /**
   * Tables brought forward to time ts; then a logger is opened anew, and brings them forward to the same or an
   * earlier time: with the stamps in order that changes nothing.
   */
  method RestoreTwice(drive: Drive, rotate: nat, perPage: Headers, ts: int, ts': int, ghost top: int)
    returns (stamps: seq<int>, stamps': seq<int>, ghost picked: seq<Rec>)
    requires Openable(drive.d) && drive.d.tables[0].magic.lastCheck >= 0 && ts' <= ts
    requires ChainOk(drive.d.logs, |drive.d.tables|, MaxId(drive.d.tables), top) && TailOk(drive.d.logs, top)
    requires top in drive.d.logs && 0 in drive.d.logs[top] && AtRest(drive.d.logs[top][0])
    requires Ascending(Chained(drive.d.logs, |drive.d.tables|, MaxId(drive.d.tables), top))
    modifies drive
    ensures stamps == Stamps(picked) && Fit(picked, |old(drive.d.tables)|) && stamps' == []
    ensures drive.d.logs == old(drive.d.logs) && Images(drive.d) == Replayed(old(Images(drive.d)), picked)
    ensures if picked == [] then drive.d.tables == old(drive.d.tables)
      else CheckedAt(drive.d, picked[|picked| - 1].stamp)
  {
    hide ChainOk, Replayed, Images, UpTo, Beyond, Standing, Behind, TailOk, Stamps, Fit, HomeOf, NamedBy,
      HeldBack, Picked, Ascending, Chained, AtRest, CheckedAt;
    ghost var logs, n, id := drive.d.logs, |drive.d.tables|, MaxId(drive.d.tables);
    ghost var last := drive.d.tables[0].magic.lastCheck;
    var lg := new GlobalLogger.Open(drive, rotate, perPage, false);
    stamps, picked := RestoreTo(lg, ts, top, |drive.d.tables|);
    ghost var d := drive.d;
    ghost var h := if picked == [] then id else HomeOf(logs, n, id, top, HeldBack(logs, n, id, top, last), |picked|);
    OpensAgain(old(drive.d), d, n, id, top, last, ts, ts', h);
    var lg' := new GlobalLogger.Open(drive, rotate, perPage, false);
    ghost var again;
    stamps', again := RestoreTo(lg', ts', top, |drive.d.tables|);
    ReplayedNone(Images(d));
  }

  lemma OpensAgain(d0: Disk, d: Disk, n: nat, id: int, top: int, last: int, ts: int, ts': int, h: int)
    requires n == |d0.tables| == |d.tables| > 0 && d.logs == d0.logs && MaxId(d0.tables) == id && ts' <= ts
    requires Openable(d0) && last == d0.tables[0].magic.lastCheck >= 0
    requires ChainOk(d.logs, n, id, top) && Ascending(Chained(d.logs, n, id, top)) && Standing(d.logs, n, id, top)
    requires top in d.logs && 0 in d.logs[top] && AtRest(d.logs[top][0])
    requires var p := Picked(d.logs, n, id, top, last, ts);
      && h == (if p == [] then id else HomeOf(d.logs, n, id, top, HeldBack(d.logs, n, id, top, last), |p|))
      && Left(d0, d, h, p)
    ensures Openable(d) && MaxId(d.tables) == h && d.tables[0].magic.lastCheck >= 0 && ChainOk(d.logs, n, h, top)
    ensures Picked(d.logs, n, h, top, d.tables[0].magic.lastCheck, ts') == []
    ensures var p := Picked(d.logs, n, id, top, last, ts); p != [] ==> CheckedAt(d, p[|p| - 1].stamp)
  {
    hide ChainOk, UpTo, Beyond, Standing, Behind, HomeOf, HeldBack, Ascending, Chained, FileRecs, Readable;
    var p := Picked(d.logs, n, id, top, last, ts);
    if p != [] {
      AgainNothing(d.logs, n, id, top, last, ts, ts');
      PickedPositive(d.logs, n, id, top, last, ts);
      ChainPositive(d.logs, n, h, top);
      NamedMax(d, h, p[|p| - 1].stamp);
      ChainOpens(d, n, h, top);
    } else {
      NoneEither(d.logs, n, id, top, last, ts, ts');
    }
  }

  lemma ChainPositive(logs: Logs, n: nat, id: int, top: int)
    requires ChainOk(logs, n, id, top)
    ensures id > 0
  {
  }

  lemma NoneEither(logs: Logs, n: nat, id: int, top: int, last: int, ts: int, ts': int)
    requires ChainOk(logs, n, id, top) && Picked(logs, n, id, top, last, ts) == [] && ts' <= ts
    ensures Picked(logs, n, id, top, last, ts') == []
  {
    hide FileRecs, Beyond, Behind, Closed;
  }

  // ----- an earlier time, with the logger that did the first restore -----

  /** Log 2 holds a record stamped 11, of the magic page, and one stamped 20, of page 1 and the magic page. */
  function SecondLog(x: Body, y: Body, z: Body): LogFile {
    map[0 := KeyPage(2, 5, 9, 2, 0, map[0 := Item(2, 3, 11, Commit), 1 := Item(3, 5, 20, Commit)]),
        1 := TablePage(map[0 := Range(2, 3), 1 := Range(3, 5)]),
        2 := DataPage(0, x), 3 := DataPage(1, z), 4 := DataPage(0, y)]
  }

  /** Log 1 is empty and leads to log 2. */
  function TwoLogs(x: Body, y: Body, z: Body): Logs {
    var first: LogFile := map[0 := KeyPage(2, 2, 9, 0, 2, map[]), 1 := TablePage(map[])];
    map[1 := first, 2 := SecondLog(x, y, z)]
  }

  lemma SecondLogSnaps(x: Body, y: Body, z: Body)
    ensures var f := SecondLog(x, y, z);
      && FileOk(f, 1) && f[0].recCur == 2 && ItemAt(f[0], 0) == Item(2, 3, 11, Commit)
      && ItemAt(f[0], 1) == Item(3, 5, 20, Commit) && Complete(f, 1, 0) && Complete(f, 1, 1)
      && SnapsAt(f, 1, 0) == [[(0, x)]] && SnapsAt(f, 1, 1) == [[(1, z), (0, y)]]
  {
    var f := SecondLog(x, y, z);
    assert Readable(f, 1);
    assert HoldsRange(f, 1, Range(2, 3)) && HoldsRange(f, 1, Range(3, 5));
    assert Logged(f, 2, 3) == [(0, x)] && Logged(f, 3, 5) == [(1, z), (0, y)];
  }

  lemma SecondLogHolds(x: Body, y: Body, z: Body)
    ensures var f := SecondLog(x, y, z);
      FileOk(f, 1) && FileRecs(f, 1, 0) == [Rec(11, [[(0, x)]]), Rec(20, [[(1, z), (0, y)]])]
  {
    hide SecondLog, SnapsAt, Complete, Readable;
    SecondLogSnaps(x, y, z);
    var f := SecondLog(x, y, z);
    assert FileRecs(f, 1, 1) == [Rec(20, [[(1, z), (0, y)]])] + FileRecs(f, 1, 2);
    assert FileRecs(f, 1, 0) == [Rec(11, [[(0, x)]])] + FileRecs(f, 1, 1);
  }

  lemma TwoLogsHold(x: Body, y: Body, z: Body)
    ensures var logs := TwoLogs(x, y, z);
      && ChainOk(logs, 1, 1, 2) && 1 in logs && FileOk(logs[1], 1) && FileRecs(logs[1], 1, 0) == []
      && Standing(logs, 1, 1, 2)
      && Beyond(logs, 1, 1, 2) == [Rec(11, [[(0, x)]]), Rec(20, [[(1, z), (0, y)]])]
  {
    hide SecondLog, FileOk;
    SecondLogHolds(x, y, z);
    SecondLogKey(x, y, z);
    FirstLogHolds(TwoLogs(x, y, z)[1]);
    assert ChainOk(TwoLogs(x, y, z), 1, 2, 2);
  }

  lemma SecondLogKey(x: Body, y: Body, z: Body)
    ensures 0 in SecondLog(x, y, z) && SecondLog(x, y, z)[0].KeyPage? && SecondLog(x, y, z)[0].chain == 0
  {
  }

  lemma FirstLogHolds(f: LogFile)
    requires f == map[0 := KeyPage(2, 2, 9, 0, 2, map[]), 1 := TablePage(map[])]
    ensures FileOk(f, 1) && FileRecs(f, 1, 0) == [] && AtRest(f[0])
  {
  }

  lemma RecsApply(x: Body, y: Body, z: Body, p: map<nat, Body>, m: Body)
    ensures Post([Image(m, p)], [[(0, x)]]) == [Image(x, p)]
    ensures Post([Image(m, p)], [[(1, z), (0, y)]]) == [Image(y, p[1 := z])]
  {
    var a, b: Snap := [(0, x)], [(1, z), (0, y)];
    assert b[..1] == [(1, z)] && b[..1][..0] == [] && a[..0] == [];
    assert Replaced(p, b[..1]) == p[1 := z];
  }

  lemma RecsReplay(x: Body, y: Body, z: Body, img: seq<Image>)
    requires img == [Image([], map[])]
    ensures var r1, r2 := Rec(11, [[(0, x)]]), Rec(20, [[(1, z), (0, y)]]);
      && Replayed(img, [r1]) == [Image(x, map[])] && Replayed(img, [r1, r2]) == [Image(y, map[1 := z])]
      && Replayed([Image(y, map[1 := z])], [r1]) == [Image(x, map[1 := z])]
  {
    hide Post;
    var r1, r2 := Rec(11, [[(0, x)]]), Rec(20, [[(1, z), (0, y)]]);
    assert [r1, r2][..1] == [r1] && [r1][..0] == [];
    RecsApply(x, y, z, map[], []);
    RecsApply(x, y, z, map[], x);
    RecsApply(x, y, z, map[1 := z], y);
    assert map[][1 := z] == map[1 := z];
  }

  lemma RecsPicked(r1: Rec, r2: Rec)
    requires r1.stamp == 11 && r2.stamp == 20
    ensures UpTo(Behind([], 5) + [r1, r2], 25) == [r1, r2] && UpTo(Behind([], 20) + [r1, r2], 15) == [r1]
  {
    assert [] + [r1, r2] == [r1, r2] && [r1, r2][1..] == [r2] && [r2][1..] == [] && [r1] + [] == [r1];
    assert UpTo([r2], 25) == [r2] && UpTo([r2], 15) == [];
  }

  /**
   * A table of time 5 is brought forward to time 25, and with the same logger to time 15. The first restore applies
   * both records; the second applies the first of them again, over what the other had written: the table then holds
   * what it held at no time.
   */
  lemma BackTears(x: Body, y: Body, z: Body)
    requires x != y
    ensures var logs, r1, r2 := TwoLogs(x, y, z), Rec(11, [[(0, x)]]), Rec(20, [[(1, z), (0, y)]]);
      var img := [Image([], map[])];
      && ChainOk(logs, 1, 1, 2) && Ascending(Chained(logs, 1, 1, 2))
      && Picked(logs, 1, 1, 2, 5, 25) == [r1, r2] && Picked(logs, 1, 1, 2, 20, 15) == [r1]
      && var torn := Replayed(Replayed(img, [r1, r2]), [r1]);
      torn != img && torn != Replayed(img, [r1]) && torn != Replayed(img, [r1, r2])
  {
    var logs, r1, r2 := TwoLogs(x, y, z), Rec(11, [[(0, x)]]), Rec(20, [[(1, z), (0, y)]]);
    TwoLogsHold(x, y, z);
    hide TwoLogs, ChainOk, FileRecs, Beyond, Replayed, UpTo, Behind;
    RecsPicked(r1, r2);
    RecsReplay(x, y, z, [Image([], map[])]);
    assert Image(x, map[1 := z]).pages != map[] by { assert 1 in map[1 := z]; }
  }
}
