/** A checkpoint of a cached table file: the pages of its snapshot go through the redo log. */
module SnapshotLog {
  import opened Places
  import opened LruOrder
  import opened LogDisk
  import opened LogArchive
  import opened RedoLog
  import P = PageHash
  import C = CachedFile

  /** The pages of the snapshot with their images, in order. */
  function PagesOf(page: P.Pages, snapshot: seq<PageIndex>): (s: Snap)
    requires forall p | p in snapshot :: p in page
    ensures |s| == |snapshot|
  {
    seq(|snapshot|, i requires 0 <= i < |snapshot| => (snapshot[i], page[snapshot[i]].snap))
  }

  /** What is logged for a table: the pages and then the magic page, or nothing if all are as in the file. */
  function LoggedFor(page: P.Pages, snapshot: seq<PageIndex>, magic: Body, changed: bool): Snap
    requires forall p | p in snapshot :: p in page
  {
    if snapshot == [] && !changed then [] else PagesOf(page, snapshot) + [(0, magic)]
  }

  /** The marked pages are logged, once each, and then the magic page; or nothing, if that has not changed either. */
  ghost predicate Logged(s: Snap, marked: set<PageIndex>, changed: bool) {
    && (s == [] <==> marked == {} && !changed)
    && (s != [] ==> |s| == |marked| + 1 && s[|s| - 1].0 == 0)
    && marked == set i | 0 <= i < |s| - 1 :: s[i].0
  }

  lemma LoggedIs(page: P.Pages, snapshot: seq<PageIndex>, magic: Body, changed: bool)
    requires (forall p | p in snapshot :: p in page) && |P.Elements(snapshot)| == |snapshot|
    ensures Logged(LoggedFor(page, snapshot, magic, changed), P.Elements(snapshot), changed)
  {
    var s, marked := LoggedFor(page, snapshot, magic, changed), P.Elements(snapshot);
    var ahead := set i | 0 <= i < |s| - 1 :: s[i].0;
    if s != [] {
      forall p | p in marked ensures p in ahead {
        var i :| 0 <= i < |snapshot| && snapshot[i] == p;
        assert s[i].0 == p;
      }
      assert forall i | 0 <= i < |s| - 1 :: s[i].0 == snapshot[i];
    }
    assert marked == ahead;
  }

  lemma {:induction false} ReplacedIs(file: P.File, page: P.Pages, snapshot: seq<PageIndex>, n: nat)
    requires n <= |snapshot| && forall p | p in snapshot :: p in page
    requires forall p | p in P.Elements(snapshot) :: p in page
    ensures forall p | p in P.Elements(snapshot[..n]) :: p in page
    ensures Replaced(file, PagesOf(page, snapshot)[..n]) == P.Overlaid(file, page, P.Elements(snapshot[..n]))
  {
    hide P.Overlaid;
    if n == 0 {
      C.OverlaidNone(file, page);
    } else {
      ReplacedIs(file, page, snapshot, n - 1);
      C.OverlaidNext(file, page, snapshot, n - 1);
      assert PagesOf(page, snapshot)[..n][..n - 1] == PagesOf(page, snapshot)[..n - 1];
    }
  }

  /** Writing the logged pages over the file is overlaying the file with the snapshot. */
  lemma OverlayIs(file: P.File, page: P.Pages, snapshot: seq<PageIndex>, was: Body, magic: Body, changed: bool)
    requires (forall p | p in snapshot :: p in page) && (!changed ==> magic == was)
    ensures forall p | p in P.Elements(snapshot) :: p in page
    ensures Overlay(Image(was, file), LoggedFor(page, snapshot, magic, changed))
      == Image(magic, P.Overlaid(file, page, P.Elements(snapshot)))
  {
    hide P.Overlaid;
    var s, ps := LoggedFor(page, snapshot, magic, changed), PagesOf(page, snapshot);
    forall p | p in P.Elements(snapshot) ensures p in page { assert p in snapshot; }
    ReplacedIs(file, page, snapshot, |snapshot|);
    assert ps[..|snapshot|] == ps && snapshot[..|snapshot|] == snapshot;
    if s != [] { assert s[..|s| - 1] == ps; }
  }

  predicate SnapOk(s: Snap) {
    forall i | 0 <= i < |s| - 1 :: s[i].0 != 0
  }

  lemma SnapsAreOk(snaps: seq<Snap>)
    requires forall t | 0 <= t < |snaps| :: SnapOk(snaps[t])
    ensures SnapsOk(snaps)
  {
  }

  lemma LoggedOk(page: P.Pages, snapshot: seq<PageIndex>, magic: Body, changed: bool)
    requires (forall p | p in snapshot :: p in page) && 0 !in page
    ensures SnapOk(LoggedFor(page, snapshot, magic, changed))
  {
    forall i | 0 <= i < |snapshot| ensures snapshot[i] != 0 { assert snapshot[i] in snapshot; }
  }

  // ----- one table between its snapshot and the release -----

  /**
   * A snapshot is outstanding: what readers see, what the checkpoint is to leave in the file, what is there; and
   * there is room for some more pages. The magic page is not among the pages.
   */
  ghost predicate Stands(c: C.CachedFile, seen: P.File, taken: P.File, file: P.File, room: nat)
    reads c, c.hash
  {
    && c.Valid() && c.outstanding && c.Seen() == seen && c.Taken() == taken && c.file == file
    && |c.hash.page| + room < P.LRU_WRAP && 0 !in c.hash.page
  }

  /** No snapshot is outstanding. */
  ghost predicate Rests(c: C.CachedFile, seen: P.File, file: P.File)
    reads c, c.hash
  {
    c.Valid() && !c.outstanding && c.Seen() == seen && c.file == file && 0 !in c.hash.page
  }

  /** No event is about page 0. */
  predicate OffMagic(events: seq<C.Event>) {
    forall i | 0 <= i < |events| :: events[i].p != 0
  }

  lemma OffMagicPages(was: P.Pages, page: P.Pages, events: seq<C.Event>)
    requires C.Grown(was, page, events) && OffMagic(events) && 0 !in was
    ensures 0 !in page && |page| <= |was| + |events|
  {
  }

  method SnapshotOne(c: C.CachedFile, ghost seen: P.File, ghost file: P.File, ghost room: nat)
    requires Rests(c, seen, file) && |c.hash.page| + room < P.LRU_WRAP
    modifies c, c.hash
    ensures Stands(c, seen, seen, file, room) && C.Lists(c.snapshot, C.Marked(old(c.hash.page)))
  {
    hide c.hash.Valid, P.Coherent, P.Overlaid, P.View, C.Copied;
    c.SnapshotCreate();
    C.CopiedSize(old(c.hash.page), c.hash.page);
  }

  method RunOne(c: C.CachedFile, events: seq<C.Event>, ghost seen: P.File, ghost taken: P.File, ghost file: P.File,
                ghost room: nat)
    requires Stands(c, seen, taken, file, |events| + room) && OffMagic(events)
    modifies c.hash
    ensures Stands(c, C.SeenAfter(seen, events), taken, file, room)
  {
    hide c.hash.Valid, P.Coherent, P.Overlaid, P.View, C.Grown, OffMagic;
    ghost var was := c.hash.page;
    c.Run(events);
    OffMagicPages(was, c.hash.page, events);
  }

  /** The pages to be logged: over what the file holds they make what the checkpoint is to leave. */
  method LogOne(c: C.CachedFile, magic: Body, changed: bool, ghost was: Body, ghost seen: P.File, ghost taken: P.File,
                ghost file: P.File, ghost room: nat)
    returns (s: Snap)
    requires Stands(c, seen, taken, file, room) && (!changed ==> magic == was)
    requires |P.Elements(c.snapshot)| == |c.snapshot|
    ensures SnapOk(s) && Overlay(Image(was, file), s) == Image(magic, taken)
    ensures Logged(s, P.Elements(c.snapshot), changed)
  {
    hide c.hash.Valid, P.Coherent, P.Overlaid, P.View, SnapOk, Overlay, Logged, LoggedFor;
    C.InSnapshot(c.hash.page, c.file, c.snapshot);
    s := LoggedFor(c.hash.page, c.snapshot, magic, changed);
    LoggedOk(c.hash.page, c.snapshot, magic, changed);
    OverlayIs(c.file, c.hash.page, c.snapshot, was, magic, changed);
    LoggedIs(c.hash.page, c.snapshot, magic, changed);
  }

  method SaveOne(c: C.CachedFile, steps: seq<C.Step>, ghost seen: P.File, ghost taken: P.File, ghost file: P.File,
                 ghost room: nat)
    requires Stands(c, seen, taken, file, |steps| + room) && OffMagic(C.Works(steps))
    modifies c`file, c.hash
    ensures Stands(c, C.SeenAfter(seen, C.Works(steps)), taken, taken, room)
  {
    hide c.hash.Valid, P.Coherent, P.Overlaid, P.View, C.Grown, OffMagic;
    ghost var was := c.hash.page;
    c.SaveAmid(steps);
    OffMagicPages(was, c.hash.page, C.Works(steps));
  }

  method ReleaseOne(c: C.CachedFile, ghost seen: P.File, ghost taken: P.File, ghost room: nat)
    requires Stands(c, seen, taken, taken, room)
    modifies c, c.hash
    ensures Rests(c, seen, taken)
  {
    hide c.hash.Valid, P.Coherent, P.Overlaid, P.View;
    C.InSnapshot(c.hash.page, c.file, c.snapshot);
    OverlaidHolds(c.file, c.hash.page, c.snapshot);
    c.SnapshotRelease();
  }

  lemma ImagesAt(d: Disk, v: View, t: nat)
    requires Calm(d, v) && t < |v.imgs|
    ensures t < |d.tables| && ImageOf(d.tables[t]) == v.imgs[t]
  {
    assert Images(d)[t] == v.imgs[t];
  }

  lemma OverlaidHolds(file: P.File, page: P.Pages, snapshot: seq<PageIndex>)
    requires (forall p | p in P.Elements(snapshot) :: p in page) && P.Overlaid(file, page, P.Elements(snapshot)) == file
    ensures forall p | p in snapshot :: C.SavedAt(page, file, p)
  {
    forall p | p in snapshot ensures C.SavedAt(page, file, p) {
      assert p in P.Elements(snapshot) && p in P.Overlaid(file, page, P.Elements(snapshot));
    }
  }

  // ----- all tables of a collection -----

  /** No two of the tables share anything. */
  ghost predicate Apart(cs: seq<C.CachedFile>) {
    forall i, j | 0 <= i < j < |cs| :: cs[i] != cs[j] && cs[i].hash != cs[j].hash
  }

  /** The caches, and their pages. */
  ghost function Caches(cs: seq<C.CachedFile>): set<object> {
    (set k | 0 <= k < |cs| :: cs[k]) + (set k | 0 <= k < |cs| :: cs[k].hash)
  }

  /** What is known of each table between its snapshot and the release. */
  datatype Between = Between(seen: P.File, taken: P.File, file: P.File, room: nat)

  ghost predicate AllStand(cs: seq<C.CachedFile>, bs: seq<Between>)
    reads Caches(cs)
  {
    |bs| == |cs| && forall k | 0 <= k < |cs| :: Stands(cs[k], bs[k].seen, bs[k].taken, bs[k].file, bs[k].room)
  }

  /** The tables right after their snapshots. */
  ghost function Begun(seen: seq<P.File>, file: seq<P.File>, rooms: seq<nat>): (s: seq<Between>)
    requires |seen| == |file| == |rooms|
    ensures |s| == |rooms|
  {
    seq(|rooms|, k requires 0 <= k < |rooms| => Between(seen[k], seen[k], file[k], rooms[k]))
  }

  /** Table after table; what a table is used for after its own snapshot makes no difference to the others. */
  method SnapshotAll(cs: seq<C.CachedFile>, ghost seen: seq<P.File>, ghost file: seq<P.File>, ghost rooms: seq<nat>)
    requires Apart(cs) && |rooms| == |cs| == |seen| == |file|
    requires forall k | 0 <= k < |cs| :: Rests(cs[k], seen[k], file[k]) && |cs[k].hash.page| + rooms[k] < P.LRU_WRAP
    modifies Caches(cs)
    ensures AllStand(cs, Begun(seen, file, rooms))
    ensures forall k | 0 <= k < |cs| :: C.Lists(cs[k].snapshot, C.Marked(old(cs[k].hash.page)))
  {
    hide Stands, Rests, C.Lists, C.Marked;
    for k := 0 to |cs|
      invariant forall j | 0 <= j < k :: C.Lists(cs[j].snapshot, C.Marked(old(cs[j].hash.page)))
      invariant forall j | 0 <= j < k :: Stands(cs[j], seen[j], seen[j], file[j], rooms[j])
      invariant forall j | k <= j < |cs| :: unchanged(cs[j]) && unchanged(cs[j].hash)
    {
      SnapshotOne(cs[k], seen[k], file[k], rooms[k]);
    }
  }

  /** The tables after some use of each. */
  ghost function AfterRun(bs: seq<Between>, work: seq<seq<C.Event>>): (s: seq<Between>)
    requires |work| == |bs| && forall k | 0 <= k < |bs| :: |work[k]| <= bs[k].room
    ensures |s| == |bs|
  {
    seq(|bs|, k requires 0 <= k < |bs| =>
      bs[k].(seen := C.SeenAfter(bs[k].seen, work[k]), room := bs[k].room - |work[k]|))
  }

  method RunAll(cs: seq<C.CachedFile>, work: seq<seq<C.Event>>, ghost bs: seq<Between>)
    requires Apart(cs) && AllStand(cs, bs) && |work| == |cs|
    requires forall k | 0 <= k < |cs| :: |work[k]| <= bs[k].room && OffMagic(work[k])
    modifies Caches(cs)
    ensures AllStand(cs, AfterRun(bs, work)) && forall k | 0 <= k < |cs| :: cs[k].snapshot == old(cs[k].snapshot)
  {
    hide Stands, OffMagic;
    ghost var s := AfterRun(bs, work);
    for k := 0 to |cs|
      invariant forall j | 0 <= j < |cs| :: cs[j].snapshot == old(cs[j].snapshot)
      invariant forall j | 0 <= j < k :: Stands(cs[j], s[j].seen, s[j].taken, s[j].file, s[j].room)
      invariant forall j | k <= j < |cs| :: unchanged(cs[j]) && unchanged(cs[j].hash)
    {
      RunOne(cs[k], work[k], bs[k].seen, bs[k].taken, bs[k].file, s[k].room);
    }
  }

  method LogAll(cs: seq<C.CachedFile>, magics: seq<Body>, changed: seq<bool>, ghost imgs: seq<Image>,
                ghost bs: seq<Between>)
    returns (snaps: seq<Snap>)
    requires AllStand(cs, bs) && |magics| == |changed| == |imgs| == |cs|
    requires forall k | 0 <= k < |cs| :: imgs[k].pages == bs[k].file && (!changed[k] ==> magics[k] == imgs[k].magic)
    requires forall k | 0 <= k < |cs| :: |P.Elements(cs[k].snapshot)| == |cs[k].snapshot|
    ensures |snaps| == |cs| && SnapsOk(snaps)
    ensures forall k | 0 <= k < |cs| :: Overlay(imgs[k], snaps[k]) == Image(magics[k], bs[k].taken)
    ensures forall k | 0 <= k < |cs| :: Logged(snaps[k], P.Elements(cs[k].snapshot), changed[k])
  {
    hide Stands, SnapOk, SnapsOk, Overlay, Logged;
    snaps := [];
    for k := 0 to |cs|
      invariant |snaps| == k && forall j | 0 <= j < k :: Logged(snaps[j], P.Elements(cs[j].snapshot), changed[j])
      invariant |snaps| == k && forall j | 0 <= j < k :: SnapOk(snaps[j])
      invariant forall j | 0 <= j < k :: Overlay(imgs[j], snaps[j]) == Image(magics[j], bs[j].taken)
    {
      var s := LogOne(cs[k], magics[k], changed[k], imgs[k].magic, bs[k].seen, bs[k].taken, bs[k].file, bs[k].room);
      snaps := snaps + [s];
    }
    SnapsAreOk(snaps);
  }

  /** The tables after they have been saved, page by page, with some use of each in between. */
  ghost function AfterSave(bs: seq<Between>, steps: seq<seq<C.Step>>): (s: seq<Between>)
    requires |steps| == |bs| && forall k | 0 <= k < |bs| :: |steps[k]| <= bs[k].room
    ensures |s| == |bs|
  {
    seq(|bs|, k requires 0 <= k < |bs| =>
      Between(C.SeenAfter(bs[k].seen, C.Works(steps[k])), bs[k].taken, bs[k].taken, bs[k].room - |steps[k]|))
  }

  method SaveAll(cs: seq<C.CachedFile>, steps: seq<seq<C.Step>>, ghost bs: seq<Between>)
    requires Apart(cs) && AllStand(cs, bs) && |steps| == |cs|
    requires forall k | 0 <= k < |cs| :: |steps[k]| <= bs[k].room && OffMagic(C.Works(steps[k]))
    modifies Caches(cs)
    ensures AllStand(cs, AfterSave(bs, steps))
  {
    hide Stands, OffMagic;
    ghost var s := AfterSave(bs, steps);
    for k := 0 to |cs|
      invariant forall j | 0 <= j < k :: Stands(cs[j], s[j].seen, s[j].taken, s[j].file, s[j].room)
      invariant forall j | k <= j < |cs| :: unchanged(cs[j]) && unchanged(cs[j].hash)
    {
      SaveOne(cs[k], steps[k], bs[k].seen, bs[k].taken, bs[k].file, s[k].room);
    }
  }

  method ReleaseAll(cs: seq<C.CachedFile>, ghost bs: seq<Between>)
    requires Apart(cs) && AllStand(cs, bs) && forall k | 0 <= k < |cs| :: bs[k].file == bs[k].taken
    modifies Caches(cs)
    ensures forall k | 0 <= k < |cs| :: Rests(cs[k], bs[k].seen, bs[k].taken)
  {
    hide Stands, Rests;
    for k := 0 to |cs|
      invariant forall j | 0 <= j < k :: Rests(cs[j], bs[j].seen, bs[j].taken)
      invariant forall j | k <= j < |cs| :: unchanged(cs[j]) && unchanged(cs[j].hash)
    {
      ReleaseOne(cs[k], bs[k].seen, bs[k].taken, bs[k].room);
    }
  }

  // ----- the checkpoint of a running system -----

  /** What the tables are used for: between snapshot and prepare, between prepare and commit, and during the saving. */
  datatype Uses = Uses(before: seq<C.Event>, amid: seq<C.Event>, during: seq<C.Step>)

  function Room(u: Uses): nat {
    |u.before| + |u.amid| + |u.during|
  }

  /** What readers see after all that. */
  function SeenIn(was: P.File, u: Uses): P.File {
    C.SeenAfter(C.SeenAfter(C.SeenAfter(was, u.before), u.amid), C.Works(u.during))
  }

  predicate UsesOk(us: seq<Uses>) {
    forall k | 0 <= k < |us| :: OffMagic(us[k].before) && OffMagic(us[k].amid) && OffMagic(C.Works(us[k].during))
  }

  /** The tables after their uses before the prepare, and then after those before the commit. */
  ghost predicate Reached(bs: seq<Between>, us: seq<Uses>, seen: seq<P.File>, file: seq<P.File>, amid: bool) {
    && |bs| == |us| == |seen| == |file|
    && forall k | 0 <= k < |us| ::
         var now := C.SeenAfter(seen[k], us[k].before);
         bs[k] == if amid then Between(C.SeenAfter(now, us[k].amid), seen[k], file[k], |us[k].during|)
                  else Between(now, seen[k], file[k], |us[k].amid| + |us[k].during|)
  }

  /** snapshot_create of all tables, and their uses until prepare begins. */
  method SnapshotAndRun(cs: seq<C.CachedFile>, us: seq<Uses>, ghost seen: seq<P.File>, ghost file: seq<P.File>)
    returns (ghost bs: seq<Between>)
    requires Apart(cs) && |us| == |cs| == |seen| == |file| && UsesOk(us)
    requires forall k | 0 <= k < |cs| :: Rests(cs[k], seen[k], file[k])
    requires forall k | 0 <= k < |cs| :: |cs[k].hash.page| + Room(us[k]) < P.LRU_WRAP
    modifies Caches(cs)
    ensures AllStand(cs, bs) && Reached(bs, us, seen, file, false)
    ensures forall k | 0 <= k < |cs| :: C.Lists(cs[k].snapshot, C.Marked(old(cs[k].hash.page)))
  {
    hide AllStand, OffMagic, Rests, C.Lists, C.Marked;
    ghost var rooms := seq(|us|, k requires 0 <= k < |us| => Room(us[k]));
    SnapshotAll(cs, seen, file, rooms);
    bs := Begun(seen, file, rooms);
    var work := seq(|us|, k requires 0 <= k < |us| => us[k].before);
    RunAll(cs, work, bs);
    bs := AfterRun(bs, work);
  }

  /** Their uses between prepare and commit. */
  method RunAmid(cs: seq<C.CachedFile>, us: seq<Uses>, ghost seen: seq<P.File>, ghost file: seq<P.File>,
                 ghost bs: seq<Between>)
    returns (ghost bs': seq<Between>)
    requires Apart(cs) && |us| == |cs| && UsesOk(us) && AllStand(cs, bs) && Reached(bs, us, seen, file, false)
    modifies Caches(cs)
    ensures AllStand(cs, bs') && Reached(bs', us, seen, file, true)
  {
    hide AllStand, OffMagic;
    var work := seq(|us|, k requires 0 <= k < |us| => us[k].amid);
    RunAll(cs, work, bs);
    bs' := AfterRun(bs, work);
  }

  /** Their uses while they are saved, and the release. */
  method SaveAndRelease(cs: seq<C.CachedFile>, us: seq<Uses>, ghost seen: seq<P.File>, ghost file: seq<P.File>,
                        ghost bs: seq<Between>)
    requires Apart(cs) && |us| == |cs| && UsesOk(us) && AllStand(cs, bs) && Reached(bs, us, seen, file, true)
    modifies Caches(cs)
    ensures forall k | 0 <= k < |cs| :: Rests(cs[k], SeenIn(seen[k], us[k]), seen[k])
  {
    hide AllStand, OffMagic, Rests;
    var steps := seq(|us|, k requires 0 <= k < |us| => us[k].during);
    SaveAll(cs, steps, bs);
    ReleaseAll(cs, AfterSave(bs, steps));
  }

  lemma LoggerApart(cs: seq<C.CachedFile>, logger: GlobalLogger)
    ensures logger !in Caches(cs) && logger.drive !in Caches(cs)
  {
  }

  /** prepare and commit, with the uses in between. */
  method LogAmid(cs: seq<C.CachedFile>, us: seq<Uses>, logger: GlobalLogger, snaps: seq<Snap>, now: int, stamp: int,
                 ghost seen: seq<P.File>, ghost file: seq<P.File>, ghost bs: seq<Between>, ghost v: View)
    returns (ghost bs': seq<Between>, ghost k: int)
    requires Apart(cs) && |us| == |cs| && UsesOk(us) && AllStand(cs, bs) && Reached(bs, us, seen, file, false)
    requires logger.Valid(v) && |snaps| == |v.imgs| && SnapsOk(snaps) && logger.NextId(now) <= v.top
    modifies Caches(cs), logger, logger.drive
    ensures AllStand(cs, bs') && Reached(bs', us, seen, file, true)
    ensures logger.Valid(Done(v, snaps, logger.timeStamp)) && Calm(logger.drive.d, Done(v, snaps, logger.timeStamp))
    ensures var w := Done(v, snaps, logger.timeStamp);
      Turned(logger.drive.trace, |old(logger.drive.trace)|, k, v, Ready(v, snaps), w)
    ensures old(logger.timeStamp) < logger.timeStamp && stamp <= logger.timeStamp
    ensures logger.timeStamp == stamp || logger.timeStamp <= old(logger.NextId(now)) + 1
    ensures CheckedAt(logger.drive.d, logger.timeStamp)
  {
    hide AllStand, Reached, UsesOk, Apart, Calm, Committing, Openable, Flips, Turned, SnapsOk, Linked;
    LoggerApart(cs, logger);
    ghost var from := |logger.drive.trace|;
    TraceStarts(logger.drive.trace, v, Ready(v, snaps));
    k := logger.Prepare(snaps, now, v, from);
    FlipsRange(logger.drive.trace, from, k, v, Ready(v, snaps));
    bs' := RunAmid(cs, us, seen, file, bs);
    logger.CommitAll(stamp, snaps, v, from, k);
  }

  /** The images of the tables once recovery leads to the new ones. */
  lemma ReadyImages(v: View, snaps: seq<Snap>, magics: seq<Body>, seen: seq<P.File>, d: Disk, stamp: int)
    requires |snaps| == |v.imgs| == |magics| == |seen| && Calm(d, Done(v, snaps, stamp))
    requires forall k | 0 <= k < |snaps| :: Overlay(v.imgs[k], snaps[k]) == Image(magics[k], seen[k])
    ensures |d.tables| == |snaps|
    ensures forall k | 0 <= k < |snaps| :: Ready(v, snaps).imgs[k] == ImageOf(d.tables[k]) == Image(magics[k], seen[k])
  {
    hide Overlay;
    forall k | 0 <= k < |snaps| ensures k < |d.tables| && ImageOf(d.tables[k]) == Post(v.imgs, snaps)[k] {
      ImagesAt(d, Done(v, snaps, stamp), k);
    }
    assert |Images(d)| == |d.tables|;
  }

  /** A whole checkpoint, for tables that readers see, and that the files hold, as given. */
  method CheckpointSeen(cs: seq<C.CachedFile>, logger: GlobalLogger, magics: seq<Body>, changed: seq<bool>,
                        us: seq<Uses>, now: int, stamp: int, ghost seen: seq<P.File>, ghost file: seq<P.File>,
                        ghost v: View)
    returns (snaps: seq<Snap>, ghost k: int)
    requires Apart(cs) && |us| == |magics| == |changed| == |cs| == |v.imgs| == |seen| == |file| && UsesOk(us)
    requires forall t | 0 <= t < |cs| :: Rests(cs[t], seen[t], file[t]) && file[t] == v.imgs[t].pages
    requires forall t | 0 <= t < |cs| :: |cs[t].hash.page| + Room(us[t]) < P.LRU_WRAP
    requires forall t | 0 <= t < |cs| :: !changed[t] ==> magics[t] == v.imgs[t].magic
    requires logger.Valid(v) && logger.NextId(now) <= v.top
    modifies Caches(cs), logger, logger.drive
    ensures |snaps| == |cs| && logger.Valid(Done(v, snaps, logger.timeStamp))
    ensures var w := Done(v, snaps, logger.timeStamp);
      Turned(logger.drive.trace, |old(logger.drive.trace)|, k, v, Ready(v, snaps), w)
    ensures |logger.drive.d.tables| == |cs|
    ensures forall t | 0 <= t < |cs| ::
      Ready(v, snaps).imgs[t] == ImageOf(logger.drive.d.tables[t]) == Image(magics[t], seen[t])
    ensures forall t | 0 <= t < |cs| :: Rests(cs[t], SeenIn(seen[t], us[t]), seen[t])
    ensures old(logger.timeStamp) < logger.timeStamp && stamp <= logger.timeStamp
    ensures logger.timeStamp == stamp || logger.timeStamp <= old(logger.NextId(now)) + 1
    ensures CheckedAt(logger.drive.d, logger.timeStamp)
    ensures forall t | 0 <= t < |cs| :: Logged(snaps[t], C.Marked(old(cs[t].hash.page)), changed[t])
  {
    hide Rests, AllStand, Apart, Calm, Turned, SnapsOk, Overlay, UsesOk, SeenIn, Linked, Post, Reached, Room, Logged,
      C.Marked, C.CachedFile.Valid, C.CachedFile.Seen, GlobalLogger.Valid, ImageOf;
    LoggerApart(cs, logger);
    ghost var bs := SnapshotAndRun(cs, us, seen, file);
    BetweenIs(bs, us, seen, file);
    snaps := LogAll(cs, magics, changed, v.imgs, bs);
    bs, k := LogAmid(cs, us, logger, snaps, now, stamp, seen, file, bs, v);
    ReadyImages(v, snaps, magics, seen, logger.drive.d, logger.timeStamp);
    SaveAndRelease(cs, us, seen, file, bs);
  }

  lemma BetweenIs(bs: seq<Between>, us: seq<Uses>, seen: seq<P.File>, file: seq<P.File>)
    requires Reached(bs, us, seen, file, false)
    ensures |bs| == |us| == |seen| == |file|
    ensures forall k | 0 <= k < |us| :: bs[k].taken == seen[k] && bs[k].file == file[k]
  {
  }

  /**
   * checkpoint, with transactions going on beside it from the moment the snapshots are taken: the table files end
   * with what readers saw when the snapshots were taken, all of them or none, whenever the machine stops; readers see
   * what the transactions have made of that; and the next checkpoint can start from there. The magic page of a table
   * is kept apart, with a mark that says if it has changed.
   */
  method CheckpointAll(cs: seq<C.CachedFile>, logger: GlobalLogger, magics: seq<Body>, changed: seq<bool>,
                       us: seq<Uses>, now: int, stamp: int, ghost v: View)
    returns (snaps: seq<Snap>, ghost k: int)
    requires Apart(cs) && |us| == |magics| == |changed| == |cs| == |v.imgs| && UsesOk(us)
    requires forall t | 0 <= t < |cs| :: cs[t].Valid() && !cs[t].outstanding && cs[t].file == v.imgs[t].pages
    requires forall t | 0 <= t < |cs| :: |cs[t].hash.page| + Room(us[t]) < P.LRU_WRAP && 0 !in cs[t].hash.page
    requires forall t | 0 <= t < |cs| :: !changed[t] ==> magics[t] == v.imgs[t].magic
    requires logger.Valid(v) && logger.NextId(now) <= v.top
    modifies Caches(cs), logger, logger.drive
    ensures |snaps| == |cs| && logger.Valid(Done(v, snaps, logger.timeStamp))
    ensures var w := Done(v, snaps, logger.timeStamp);
      Turned(logger.drive.trace, |old(logger.drive.trace)|, k, v, Ready(v, snaps), w)
    ensures |logger.drive.d.tables| == |cs|
    ensures forall t | 0 <= t < |cs| ::
      Ready(v, snaps).imgs[t] == ImageOf(logger.drive.d.tables[t]) == Image(magics[t], old(cs[t].Seen()))
    ensures forall t | 0 <= t < |cs| ::
      cs[t].Valid() && !cs[t].outstanding && cs[t].file == logger.drive.d.tables[t].pages
    ensures forall t | 0 <= t < |cs| :: cs[t].Seen() == SeenIn(old(cs[t].Seen()), us[t]) && 0 !in cs[t].hash.page
    ensures old(logger.timeStamp) < logger.timeStamp && stamp <= logger.timeStamp
    ensures logger.timeStamp == stamp || logger.timeStamp <= old(logger.NextId(now)) + 1
    ensures CheckedAt(logger.drive.d, logger.timeStamp)
    ensures forall t | 0 <= t < |cs| :: Logged(snaps[t], C.Marked(old(cs[t].hash.page)), changed[t])
  {
    hide Apart, Calm, Turned, UsesOk, SeenIn, Post, Overlay, Room, Logged, C.Marked,
      C.CachedFile.Valid, C.CachedFile.Seen, GlobalLogger.Valid;
    ghost var seen, file := [], [];
    for t := 0 to |cs|
      invariant |seen| == |file| == t
      invariant forall j | 0 <= j < t :: seen[j] == cs[j].Seen() && file[j] == cs[j].file
    {
      seen, file := seen + [cs[t].Seen()], file + [cs[t].file];
    }
    snaps, k := CheckpointSeen(cs, logger, magics, changed, us, now, stamp, seen, file, v);
  }

  lemma TraceStarts(trace: seq<Disk>, a: View, b: View)
    ensures Flips(trace, |trace|, |trace|, a, b)
  {
  }
}
