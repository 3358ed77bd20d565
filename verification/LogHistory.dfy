/** Whole histories of checkpoints, restarts and crashes, and the times they give to their records. */
module LogHistory {
  import opened LogDisk
  import opened LogArchive
  import opened RedoLog

  /**
   * A checkpoint: whether the machine was restarted before, the clock when it begins and when it commits, the write
   * after which the machine stops, and the writes after which its recoveries stop.
   */
  datatype Event = Event(restarted: bool, snaps: seq<Snap>, now: int, stamp: int,
                         crashes: bool, crashPoint: nat, stops: seq<nat>)

  /** The images after the checkpoints that took effect. */
  ghost function Effect(img: seq<Image>, events: seq<Event>, took: seq<bool>): (s: seq<Image>)
    requires |events| == |took| && forall e | e in events :: |e.snaps| == |img|
    ensures |s| == |img|
  {
    if |events| == 0 then img else
    var n := |events| - 1;
    var before := Effect(img, events[..n], took[..n]);
    if took[n] then Post(before, events[n].snaps) else before
  }

  /** The records of the checkpoints that took effect. */
  ghost function Taken(events: seq<Event>, took: seq<bool>, stamps: seq<int>): (s: seq<Rec>)
    requires |events| == |took| == |stamps|
  {
    if |events| == 0 then [] else
    var n := |events| - 1;
    Taken(events[..n], took[..n], stamps[..n]) + if took[n] then [Rec(stamps[n], events[n].snaps)] else []
  }

  /** The pages that a checkpoint logs, and as many page headers of tables. */
  function Pages(snaps: seq<Snap>): nat {
    Sum(snaps) + |snaps|
  }

  /** The writes of a checkpoint, if it starts a new log file or not. */
  function Writes(snaps: seq<Snap>, due: bool): nat {
    2 * Pages(snaps) + 3 + if due then |snaps| + 2 else 0
  }

  /** The number of the write from which on it takes effect: the mark, or in a new file the first write behind it. */
  function TurnsAt(snaps: seq<Snap>, due: bool): nat {
    Pages(snaps) + if due then |snaps| + 4 else 1
  }

  /** A checkpoint that is stopped before any such write does not take effect; stopped later, or not at all, it does. */
  predicate Decided(e: Event, did: bool) {
    && (e.crashes && e.crashPoint < TurnsAt(e.snaps, false) ==> !did)
    && (!e.crashes || e.crashPoint >= TurnsAt(e.snaps, true) ==> did)
  }

  ghost predicate MadeWith(logger: GlobalLogger, rotate: nat, perPage: Headers) {
    logger.rotatePages == rotate && logger.recordsPerPage == perPage
  }

  // ----- time -----

  /**
   * Bounds: no table names a log file newer than `ids`, the logger's time is not after `clock`, no record is stamped
   * after `last`; and whether the logger's time is known to be no earlier than any stamp.
   */
  datatype Pace = Pace(ids: int, clock: int, last: int, sure: bool)

  function Max(x: int, y: int): int {
    if x < y then y else x
  }

  /** After a restart the logger's time is the number of its log file. */
  function Begun(p: Pace, e: Event): Pace {
    if e.restarted then p.(clock := p.ids, sure := false) else p
  }

  /** The newest log file the checkpoint may start, and the latest stamp it, or a redo after its crash, may give. */
  function NewId(p: Pace, e: Event): int {
    Max(Begun(p, e).clock + 1, e.now)
  }

  function Latest(p: Pace, e: Event): int {
    var t := Max(e.stamp, NewId(p, e) + 1);
    if e.crashes then Max(t, Max(e.now, Max(p.ids, NewId(p, e)) + 1)) else t
  }

  function Went(p: Pace, e: Event): Pace {
    Pace(Max(p.ids, NewId(p, e)), Latest(p, e), Max(p.last, Latest(p, e)), !e.crashes)
  }

  function PaceAfter(p: Pace, events: seq<Event>): Pace {
    if |events| == 0 then p else Went(PaceAfter(p, events[..|events| - 1]), events[|events| - 1])
  }

  /** A checkpoint after a restart, and the redo after its crash, read a clock that is past the last stamp. */
  predicate KeepsTime(p: Pace, e: Event) {
    && (Begun(p, e).sure || e.stamp > p.last)
    && (e.crashes ==> e.now > p.last)
  }

  predicate InTime(p: Pace, events: seq<Event>) {
    forall i | 0 <= i < |events| :: KeepsTime(PaceAfter(p, events[..i]), events[i])
  }

  /** A stamp that the event may give. */
  predicate Ticks(p: Pace, e: Event, t: int) {
    (e.stamp <= t || (e.crashes && e.now <= t)) && t <= Latest(p, e)
  }

  /** From record n on the stamps ascend, and are after t. */
  predicate Rising(recs: seq<Rec>, n: nat, t: int) {
    && (forall i | n <= i < |recs| :: recs[i].stamp > t)
    && forall i, j | n <= i < j < |recs| :: recs[i].stamp < recs[j].stamp
  }

  /** A logger that runs without restart or crash keeps the time, once its time or its first stamp is past the last. */
  lemma {:induction false} UnbrokenInTime(p: Pace, events: seq<Event>)
    requires forall i | 0 <= i < |events| :: !events[i].crashes && (i > 0 ==> !events[i].restarted)
    requires |events| > 0 ==> (p.sure && !events[0].restarted) || events[0].stamp > p.last
    ensures InTime(p, events)
    ensures |events| > 0 ==> PaceAfter(p, events).sure
  {
    if |events| > 0 {
      var n := |events| - 1;
      UnbrokenInTime(p, events[..n]);
      forall i | 0 <= i < |events| ensures KeepsTime(PaceAfter(p, events[..i]), events[i]) {
        if i < n { assert events[..n][..i] == events[..i]; } else if n == 0 { assert events[..0] == []; }
      }
    }
  }

  // ----- restarts and turns -----

  /** Raising the bound for log file numbers. */
  function Upto(v: View, top: int): View {
    v.(top := top)
  }

  lemma SeenUpto(d: Disk, v: View, top: int)
    requires v.top <= top
    ensures Seen(d, v) ==> Seen(d, Upto(v, top))
    ensures Calm(d, v) ==> Calm(d, Upto(v, top))
  {
  }

  /** What a recovery writes if there is a record to be redone. */
  function Redoes(v: View): nat {
    if v.open.Redo? then Pages(v.open.snaps) + 1 else 0
  }

  /** A restart that is stopped after the given write, if it gets so far. */
  method RestartCut(drive: Drive, stop: nat, rotate: nat, perPage: Headers, now: int, ghost v: View)
    returns (ghost t: int, ghost w: View)
    requires Seen(drive.d, v)
    modifies drive
    ensures Seen(drive.d, w) && (w == v || w == Redone(v, t)) && (v.open.Redo? ==> now <= t <= Max(now, v.top + 1))
    ensures |drive.trace| >= |old(drive.trace)| + Redoes(v) + if stop < Redoes(v) then 1 else 0
    ensures stop < Redoes(v) ==> drive.d == drive.trace[|old(drive.trace)| + stop]
  {
    hide Calm, Committing, Seen;
    var from := |drive.trace|;
    SeenOpens(drive.d, v);
    SeenTop(drive.d, v);
    var logger := new GlobalLogger.Open(drive, rotate, perPage, false);
    logger.Recover(now, v);
    t, w := logger.timeStamp, Redone(v, logger.timeStamp);
    CalmRecovers(drive.d, w);
    if from + stop < |drive.trace| {
      drive.CrashAt(from + stop);
      if Seen(drive.d, v) { w := v; }
    }
  }

  /** Restart after restart, each stopped after some write, and a last one that completes. */
  method Restart(drive: Drive, stops: seq<nat>, rotate: nat, perPage: Headers, now: int, ghost v: View)
    returns (logger: GlobalLogger, ghost t: int)
    requires Seen(drive.d, v)
    modifies drive
    ensures fresh(logger) && logger.drive == drive && logger.Valid(Redone(v, t))
    ensures v.open.Redo? ==> now <= t <= Max(now, v.top + 1)
    ensures logger.timeStamp <= if v.open.Redo? then Max(now, v.top + 1) else v.top
    ensures MadeWith(logger, rotate, perPage) && !logger.needRotate
    ensures |drive.trace| >= |old(drive.trace)| + Redoes(v)
    ensures stops != [] && stops[0] < Redoes(v) ==> |drive.trace| > |old(drive.trace)| + Redoes(v)
  {
    hide Calm, Committing, Seen;
    ghost var w := v;
    t := now;
    for i := 0 to |stops|
      invariant Seen(drive.d, w) && w == if w.open == v.open then v else Redone(v, t)
      invariant v.open.Redo? && w.open == Nothing ==> now <= t <= Max(now, v.top + 1)
      invariant w.open == v.open || w.open == Nothing
      invariant |drive.trace| >= |old(drive.trace)| + (if i > 0 then Redoes(v) else 0) && (i == 0 ==> w == v)
      invariant i > 0 && stops[0] < Redoes(v) ==> |drive.trace| > |old(drive.trace)| + Redoes(v)
    {
      ghost var t', w' := RestartCut(drive, stops[i], rotate, perPage, now, w);
      t, w := if w' == w then t else t', w';
    }
    SeenOpens(drive.d, w);
    SeenTop(drive.d, w);
    logger := new GlobalLogger.Open(drive, rotate, perPage, false);
    logger.Recover(now, w);
    t := if w.open.Redo? then logger.timeStamp else t;
  }

  lemma SeenTop(d: Disk, v: View)
    requires Seen(d, v)
    ensures MaxId(d.tables) <= v.top
  {
  }

  /** The stamps of the records are at most t. */
  predicate AllBy(recs: seq<Rec>, t: int) {
    forall i | 0 <= i < |recs| :: recs[i].stamp <= t
  }

  /** The machine stops at the given state of a checkpoint's trace. */
  lemma TurnedAt(trace: seq<Disk>, from: int, k: int, a: View, b: View, c: View, i: int)
    requires Turned(trace, from, k, a, b, c) && from <= i < |trace|
    ensures Seen(trace[i], if i == |trace| - 1 then c else if i < k then a else b)
  {
    var t := trace[..|trace| - 1];
    if i < |t| { assert t[i] == trace[i]; }
  }

  /** The first checkpoint after a restart, or not. */
  method Begin(drive: Drive, logger0: GlobalLogger, e: Event, rotate: nat, perPage: Headers, ghost v: View,
               ghost p: Pace)
    returns (logger: GlobalLogger)
    requires logger0.drive == drive && logger0.Valid(v) && v.top <= p.ids && logger0.timeStamp <= p.clock
    modifies drive
    ensures (logger == logger0 || fresh(logger)) && logger.drive == drive && logger.Valid(v)
    ensures logger.timeStamp <= Begun(p, e).clock && (!e.restarted ==> logger == logger0)
    ensures !e.restarted ==> logger.timeStamp == old(logger0.timeStamp)
    ensures logger != logger0 ==> MadeWith(logger, rotate, perPage) && !logger.needRotate
    ensures |drive.trace| >= |old(drive.trace)| && (!e.restarted ==> drive.trace == old(drive.trace))
    ensures !e.restarted && old(logger0.key.KeyPage?) ==>
      logger.key == old(logger0.key) && logger.Due() == old(logger0.Due())
  {
    hide Committing, Seen;
    logger := logger0;
    if e.restarted {
      CalmRecovers(drive.d, v);
      ghost var t;
      logger, t := Restart(drive, [], rotate, perPage, e.now, v);
    }
  }

  /** The machine stops at some write of a checkpoint, and is restarted. */
  method Stopped(drive: Drive, e: Event, from: nat, ghost k: int, rotate: nat, perPage: Headers, ghost u: View,
                 ghost t: int)
    returns (logger: GlobalLogger, ghost did: bool, ghost t': int)
    requires |e.snaps| == |u.imgs| && u.open == Nothing && from + e.crashPoint < |drive.trace|
      && from < k < |drive.trace|
    requires Turned(drive.trace, from, k, u, Ready(u, e.snaps), Done(u, e.snaps, t))
    modifies drive
    ensures fresh(logger) && logger.drive == drive && MadeWith(logger, rotate, perPage) && !logger.needRotate
    ensures did == (from + e.crashPoint >= k)
    ensures logger.Valid(if did then Done(u, e.snaps, t') else u)
    ensures t' == t || e.now <= t' <= Max(e.now, u.top + 1)
    ensures logger.timeStamp <= Max(e.now, u.top + 1)
    ensures did && e.stops != [] && e.stops[0] <= Pages(e.snaps) && from + e.crashPoint < |old(drive.trace)| - 1
      ==> |drive.trace| > |old(drive.trace)| + Pages(e.snaps) + 2
  {
    hide Calm, Committing, Seen, Flips, Linked, Turned, Pages;
    ghost var at, b, c := from + e.crashPoint, Ready(u, e.snaps), Done(u, e.snaps, t);
    TurnedAt(drive.trace, from, k, u, b, c, at);
    ghost var w := if at == |drive.trace| - 1 then c else if at < k then u else b;
    drive.CrashAt(from + e.crashPoint);
    ghost var t1;
    logger, t1 := Restart(drive, e.stops, rotate, perPage, e.now, w);
    did := at >= k;
    t' := if w == b then t1 else t;
  }

  /** One checkpoint, and the recoveries if the machine stops during it. */
  method Turn(drive: Drive, logger0: GlobalLogger, e: Event, rotate: nat, perPage: Headers, ghost v: View,
              ghost p: Pace)
    returns (logger: GlobalLogger, ghost did: bool, ghost t: int, ghost due: bool)
    requires logger0.drive == drive && logger0.Valid(v) && |e.snaps| == |v.imgs| && SnapsOk(e.snaps)
    requires v.top <= p.ids && logger0.timeStamp <= p.clock && AllBy(v.recs, p.last)
    modifies drive, logger0
    ensures (logger == logger0 || fresh(logger)) && logger.drive == drive && (!e.crashes ==> did)
    ensures logger.Valid(Upto(if did then Done(v, e.snaps, t) else v, Went(p, e).ids))
    ensures logger.timeStamp <= Went(p, e).clock && (!e.crashes ==> logger.timeStamp == t)
    ensures did ==> Ticks(p, e, t)
    ensures did && KeepsTime(p, e) && (Begun(p, e).sure ==> AllBy(v.recs, old(logger0.timeStamp))) ==>
      AllBy(v.recs, t - 1)
    ensures did && KeepsTime(p, e) ==> t > p.last || (Begun(p, e).sure && t > old(logger0.timeStamp))
    ensures old(logger0.key.KeyPage?) && (!e.restarted ==> due == old(logger0.Due()))
    ensures (did <==> !e.crashes || e.crashPoint >= TurnsAt(e.snaps, due)) && Decided(e, did)
    ensures e.crashes && e.crashPoint < Writes(e.snaps, due) ==> logger != logger0
    ensures !e.restarted && !(e.crashes && e.crashPoint < Writes(e.snaps, due)) ==>
      logger == logger0 && |drive.trace| == |old(drive.trace)| + Writes(e.snaps, due)
    ensures logger != logger0 ==> MadeWith(logger, rotate, perPage) && !logger.needRotate
    ensures did && e.crashes && e.crashPoint < Writes(e.snaps, due) - 1 && e.stops != [] && e.stops[0] <= Pages(e.snaps)
      ==> |drive.trace| > |old(drive.trace)| + Writes(e.snaps, due) + Pages(e.snaps) + 2
  {
    hide Calm, Committing, Seen, Flips, Linked, Turned, GlobalLogger.Attached, GlobalLogger.Due, SnapsOk;
    logger := Begin(drive, logger0, e, rotate, perPage, v, p);
    SeenUpto(drive.d, v, Went(p, e).ids);
    ghost var u := Upto(v, Went(p, e).ids);
    did := true;
    var from := |drive.trace|;
    due := logger.Due();
    ghost var k := logger.Checkpoint(e.snaps, e.now, e.stamp, u);
    t := logger.timeStamp;
    if e.crashes && from + e.crashPoint < |drive.trace| {
      logger, did, t := Stopped(drive, e, from, k, rotate, perPage, u, t);
    }
  }

  // ----- histories -----

  /** The stamps given so far keep the time. */
  ghost predicate OnTime(recs: seq<Rec>, n: nat, p0: Pace, p: Pace, clock: int) {
    && n <= |recs| && Rising(recs, n, p0.last)
    && (p.sure ==> AllBy(recs, clock) && p0.last <= clock)
  }

  lemma OnTimeNext(recs: seq<Rec>, n: nat, p0: Pace, p: Pace, e: Event, clock: int, did: bool, rec: Rec, clock': int)
    requires OnTime(recs, n, p0, p, clock) && AllBy(recs, p.last) && p0.last <= p.last && KeepsTime(p, e)
    requires did ==> (Begun(p, e).sure ==> AllBy(recs, clock)) ==> AllBy(recs, rec.stamp - 1)
    requires did ==> rec.stamp > p.last || (Begun(p, e).sure && rec.stamp > clock)
    requires !e.crashes ==> did && clock' == rec.stamp
    ensures OnTime(if did then recs + [rec] else recs, n, p0, Went(p, e), clock')
  {
  }

  /** After the first n events. */
  ghost predicate Reached(v0: View, w: View, events: seq<Event>, took: seq<bool>, stamps: seq<int>, p0: Pace, n: nat,
                          clock: int)
    requires n == |took| == |stamps| <= |events| && forall e | e in events :: |e.snaps| == |v0.imgs|
  {
    var p := PaceAfter(p0, events[..n]);
    && w.origin == v0.origin && w.imgs == Effect(v0.imgs, events[..n], took) && w.open == Nothing
    && w.recs == v0.recs + Taken(events[..n], took, stamps)
    && w.top <= p.ids && clock <= p.clock && AllBy(w.recs, p.last) && p0.last <= p.last
    && (InTime(p0, events[..n]) ==> OnTime(w.recs, |v0.recs|, p0, p, clock))
  }

  lemma ReachedFirst(v0: View, events: seq<Event>, p0: Pace, clock: int)
    requires (forall e | e in events :: |e.snaps| == |v0.imgs|) && v0.open == Nothing
    requires v0.top <= p0.ids && clock <= p0.clock && AllBy(v0.recs, p0.last)
    requires p0.sure ==> AllBy(v0.recs, clock) && p0.last <= clock
    ensures Reached(v0, v0, events, [], [], p0, 0, clock)
  {
    assert events[..0] == [];
  }

  /** One more event, on the images and records. */
  lemma EffectNext(img: seq<Image>, events: seq<Event>, took: seq<bool>, stamps: seq<int>, n: nat, did: bool, t: int)
    requires n == |took| == |stamps| < |events| && forall e | e in events :: |e.snaps| == |img|
    ensures events[n] in events && Effect(img, events[..n + 1], took + [did])
      == if did then Post(Effect(img, events[..n], took), events[n].snaps) else Effect(img, events[..n], took)
    ensures Taken(events[..n + 1], took + [did], stamps + [t])
      == Taken(events[..n], took, stamps) + if did then [Rec(t, events[n].snaps)] else []
  {
    hide Post;
    assert events[..n + 1][..n] == events[..n] && (took + [did])[..n] == took && (stamps + [t])[..n] == stamps;
  }

  lemma PaceNext(p0: Pace, events: seq<Event>, n: nat)
    requires n < |events|
    ensures PaceAfter(p0, events[..n + 1]) == Went(PaceAfter(p0, events[..n]), events[n])
  {
    assert events[..n + 1][..n] == events[..n];
  }

  /** One more record keeps the bounds. */
  lemma BoundsNext(p: Pace, e: Event, recs: seq<Rec>, did: bool, rec: Rec)
    requires AllBy(recs, p.last) && (did ==> Ticks(p, e, rec.stamp))
    ensures AllBy(if did then recs + [rec] else recs, Went(p, e).last) && p.last <= Went(p, e).last
  {
  }

  /** What one turn does to the view and the clock. */
  ghost predicate Moved(w: View, p: Pace, e: Event, clock: int, did: bool, t: int, w': View, clock': int) {
    && |w.imgs| == |e.snaps| && w' == Upto(if did then Done(w, e.snaps, t) else w, Went(p, e).ids)
    && clock' <= Went(p, e).clock && (!e.crashes ==> did && clock' == t) && (did ==> Ticks(p, e, t))
    && (did && KeepsTime(p, e) && (Begun(p, e).sure ==> AllBy(w.recs, clock)) ==> AllBy(w.recs, t - 1))
    && (did && KeepsTime(p, e) ==> t > p.last || (Begun(p, e).sure && t > clock))
  }

  lemma MovedIs(w: View, p: Pace, e: Event, clock: int, did: bool, t: int, w': View, clock': int)
    requires Moved(w, p, e, clock, did, t, w', clock')
    ensures |w.imgs| == |e.snaps| && w'.origin == w.origin && w'.imgs == (if did then Post(w.imgs, e.snaps) else w.imgs)
    ensures w'.open == w.open && w'.top == Went(p, e).ids
    ensures w'.recs == if did then w.recs + [Rec(t, e.snaps)] else w.recs
    ensures clock' <= Went(p, e).clock && (!e.crashes ==> did && clock' == t) && (did ==> Ticks(p, e, t))
  {
    hide Post, Went, Ticks;
  }

  /** One turn keeps the time. */
  lemma TimeNext(w: View, p: Pace, e: Event, clock: int, did: bool, t: int, w': View, clock': int, n: nat, p0: Pace)
    requires Moved(w, p, e, clock, did, t, w', clock') && KeepsTime(p, e)
    requires OnTime(w.recs, n, p0, p, clock) && AllBy(w.recs, p.last) && p0.last <= p.last
    ensures OnTime(w'.recs, n, p0, Went(p, e), clock')
  {
    hide Post, KeepsTime, Ticks;
    OnTimeNext(w.recs, n, p0, p, e, clock, did, Rec(t, e.snaps), clock');
  }

  lemma ReachedNext(v0: View, w: View, events: seq<Event>, took: seq<bool>, stamps: seq<int>, p0: Pace, n: nat,
                    clock: int,
                    did: bool, t: int, w': View, clock': int)
    requires n == |took| == |stamps| < |events| && forall e | e in events :: |e.snaps| == |v0.imgs|
    requires Reached(v0, w, events, took, stamps, p0, n, clock)
    requires Moved(w, PaceAfter(p0, events[..n]), events[n], clock, did, t, w', clock')
    ensures Reached(v0, w', events, took + [did], stamps + [t], p0, n + 1, clock')
  {
    hide Post, PaceAfter, Went, Ticks, Effect, Taken, Moved, AllBy, OnTime, InTime, KeepsTime;
    var p, e := PaceAfter(p0, events[..n]), events[n];
    EffectNext(v0.imgs, events, took, stamps, n, did, t);
    PaceNext(p0, events, n);
    MovedIs(w, p, e, clock, did, t, w', clock');
    BoundsNext(p, e, w.recs, did, Rec(t, e.snaps));
    if InTime(p0, events[..n + 1]) {
      InTimeLess(p0, events, n);
      TimeNext(w, p, e, clock, did, t, w', clock', |v0.recs|, p0);
    }
    assert v0.recs + (Taken(events[..n], took, stamps) + [Rec(t, e.snaps)])
      == (v0.recs + Taken(events[..n], took, stamps)) + [Rec(t, e.snaps)];
  }

  lemma InTimeLess(p0: Pace, events: seq<Event>, n: nat)
    requires n < |events| && InTime(p0, events[..n + 1])
    ensures InTime(p0, events[..n]) && KeepsTime(PaceAfter(p0, events[..n]), events[n])
  {
    assert events[..n + 1][..n] == events[..n];
    forall i | 0 <= i < n ensures KeepsTime(PaceAfter(p0, events[..n][..i]), events[..n][i]) {
      assert events[..n][..i] == events[..n + 1][..i];
    }
  }

  lemma ReachedIs(v0: View, w: View, events: seq<Event>, took: seq<bool>, stamps: seq<int>, p0: Pace, n: nat,
                  clock: int)
    requires n == |took| == |stamps| <= |events| && forall e | e in events :: |e.snaps| == |v0.imgs|
    requires Reached(v0, w, events, took, stamps, p0, n, clock)
    ensures var p := PaceAfter(p0, events[..n]);
      w.top <= p.ids && clock <= p.clock && AllBy(w.recs, p.last) && |w.imgs| == |v0.imgs|
    ensures w.origin == v0.origin && w.imgs == Effect(v0.imgs, events[..n], took)
    ensures w.recs == v0.recs + Taken(events[..n], took, stamps)
    ensures InTime(p0, events[..n]) ==> Rising(w.recs, |v0.recs|, p0.last)
  {
  }

  /**
   * Checkpoints and restarts that go on from a logger at rest: what remains is the effect of some of the checkpoints,
   * in order, among them all that were not stopped, and a log of just those; if the clock keeps the time, their
   * stamps ascend, behind p0.last.
   */
  method Continue(drive: Drive, logger0: GlobalLogger, events: seq<Event>, rotate: nat, perPage: Headers,
                  ghost v0: View,
                  ghost p0: Pace)
    returns (logger: GlobalLogger, ghost took: seq<bool>, ghost stamps: seq<int>, ghost w: View)
    requires logger0.drive == drive && logger0.Valid(v0) && AllBy(v0.recs, p0.last)
    requires v0.top <= p0.ids && logger0.timeStamp <= p0.clock
    requires p0.sure ==> p0.last <= logger0.timeStamp && AllBy(v0.recs, logger0.timeStamp)
    requires forall e | e in events :: |e.snaps| == |v0.imgs| && SnapsOk(e.snaps)
    modifies drive, logger0
    ensures (logger == logger0 || fresh(logger)) && logger.drive == drive && logger.Valid(w)
    ensures |took| == |stamps| == |events| && (forall i | 0 <= i < |events| :: Decided(events[i], took[i]))
    ensures w.origin == v0.origin && w.imgs == Effect(v0.imgs, events, took)
      && w.recs == v0.recs + Taken(events, took, stamps)
    ensures forall i | 0 <= i < |events| && took[i] :: Ticks(PaceAfter(p0, events[..i]), events[i], stamps[i])
    ensures InTime(p0, events) ==> Rising(w.recs, |v0.recs|, p0.last)
  {
    hide Calm, Committing, Seen, Flips, Linked, Reached, PaceAfter, Effect, Taken, InTime, Rising, Went, KeepsTime,
      Ticks, AllBy, Max, Decided, Writes, TurnsAt, Pages, MadeWith, GlobalLogger.Attached, GlobalLogger.Due;
    took, stamps, w, logger := [], [], v0, logger0;
    CalmOpen(drive.d, v0);
    ReachedFirst(v0, events, p0, logger.timeStamp);
    for n := 0 to |events|
      invariant |took| == |stamps| == n && (forall i | 0 <= i < n :: Decided(events[i], took[i]))
      invariant (logger == logger0 || fresh(logger)) && logger.drive == drive && logger.Valid(w)
      invariant Reached(v0, w, events, took, stamps, p0, n, logger.timeStamp)
      invariant forall i | 0 <= i < n && took[i] :: Ticks(PaceAfter(p0, events[..i]), events[i], stamps[i])
    {
      assert events[n] in events;
      ghost var p, clock, w' := PaceAfter(p0, events[..n]), logger.timeStamp, w;
      ReachedIs(v0, w, events, took, stamps, p0, n, clock);
      ghost var did, t;
      ghost var due;
      logger, did, t, due := Turn(drive, logger, events[n], rotate, perPage, w, p);
      w := Upto(if did then Done(w, events[n].snaps, t) else w, Went(p, events[n]).ids);
      ReachedNext(v0, w', events, took, stamps, p0, n, clock, did, t, w, logger.timeStamp);
      took, stamps := took + [did], stamps + [t];
    }
    assert events[..|events|] == events;
    ReachedIs(v0, w, events, took, stamps, p0, |events|, logger.timeStamp);
  }

  lemma CalmOpen(d: Disk, v: View)
    requires Calm(d, v)
    ensures v.open == Nothing
  {
  }

  /** What is known of the time once the first recovery is over. */
  function StartPace(v: View, now: int, last: int): Pace {
    var c := Max(now, v.top + 1);
    if v.open.Redo? then Pace(v.top, c, Max(last, c), false) else Pace(v.top, v.top, last, false)
  }

  lemma StartBounds(v: View, now: int, last: int, t: int)
    requires AllBy(v.recs, last) && (v.open.Redo? ==> t <= Max(now, v.top + 1))
    ensures var p, u := StartPace(v, now, last), Redone(v, t); AllBy(u.recs, p.last) && u.top <= p.ids && !p.sure
    ensures (if v.open.Redo? then Max(now, v.top + 1) else v.top) == StartPace(v, now, last).clock
  {
  }

  /** The same from any disk that recovery can open, with a first record still to be redone or not. */
  method History(drive: Drive, events: seq<Event>, rotate: nat, perPage: Headers, now: int, ghost v0: View,
                 ghost last: int)
    returns (ghost took: seq<bool>, ghost stamps: seq<int>, ghost t0: int, ghost w: View)
    requires Seen(drive.d, v0) && AllBy(v0.recs, last)
    requires forall e | e in events :: |e.snaps| == |v0.imgs| && SnapsOk(e.snaps)
    modifies drive
    ensures |took| == |stamps| == |events| && (forall i | 0 <= i < |events| :: Decided(events[i], took[i]))
    ensures Calm(drive.d, w) && Rested(drive.d) && w.origin == v0.origin && w.imgs == Effect(v0.imgs, events, took)
    ensures w.recs == Redone(v0, t0).recs + Taken(events, took, stamps)
    ensures forall i | 0 <= i < |events| && took[i] ::
      Ticks(PaceAfter(StartPace(v0, now, last), events[..i]), events[i], stamps[i])
    ensures InTime(StartPace(v0, now, last), events) ==>
      Rising(w.recs, |Redone(v0, t0).recs|, StartPace(v0, now, last).last)
  {
    hide Calm, Committing, Seen, Linked, PaceAfter, Effect, Taken, InTime, Rising, Ticks, AllBy, StartPace, Max;
    var logger;
    logger, t0 := Restart(drive, [], rotate, perPage, now, v0);
    StartBounds(v0, now, last, t0);
    logger, took, stamps, w :=
      Continue(drive, logger, events, rotate, perPage, Redone(v0, t0), StartPace(v0, now, last));
  }
}
