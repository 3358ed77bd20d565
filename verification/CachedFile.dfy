/** A table file behind the page cache: what readers see, what the file holds, and what a checkpoint saves. */
module CachedFile {
  import opened Places
  import opened LruOrder
  import opened PageHash

  class CachedFile {
    const hash: PageHash
    var file: File
    var snapshot: seq<PageIndex>   // the pages of the outstanding snapshot
    var outstanding: bool

    ghost predicate Valid()
      reads this, hash
    {
      && hash.Valid()
      && Coherent(hash.page, file, Elements(snapshot))
      && (!outstanding ==> snapshot == [])
    }

    /** The pages as a reader gets them. */
    ghost function Seen(): File
      reads this, hash
    {
      View(hash.page, file)
    }

    /** What the checkpoint is to leave in the file: the images of the snapshot over what is there. */
    ghost function Taken(): File
      requires Valid()
      reads this, hash
    {
      Overlaid(file, hash.page, Elements(snapshot))
    }

    constructor (pages: File, high: nat, low: nat)
      ensures Valid() && file == pages && Seen() == pages && !outstanding && fresh(hash)
      ensures hash.page == map[] && hash.order == [] && hash.cacheHigh == high && hash.cacheLow == low
    {
      hash := new PageHash(high, low);
      file, snapshot, outstanding := pages, [], false;
    }

    /** Rload: the page comes into memory; a page that the file does not have is an exception. */
    method Rload(p: PageIndex) returns (ok: bool)
      requires Valid() && |hash.page| + 1 < LRU_WRAP
      modifies hash
      ensures Valid() && Seen() == old(Seen())
      ensures ok == (p in old(Seen())) && (ok ==> p in hash.page && hash.page[p].layout == old(Seen())[p])
      ensures Fetched(old(hash.page), hash.page, p, ok) && Taken() == old(Taken())
      ensures hash.order == if ok then Without(old(hash.order), p) + [p] else old(hash.order)
    {
      hide hash.Valid, Coherent, View, Without, Restamped, Fetched, Overlaid;
      ghost var was := hash.page;
      SeenAt(was, file, p);
      ok := hash.Find(p);
      RestampedView(was, hash.page, file, Elements(snapshot));
      if ok {
        FoundFetched(was, hash.page, p);
        TakenKept(was, hash.page, file, Elements(snapshot));
        return;
      }
      if p in file {
        ghost var found := hash.page;
        AbsentOrder(hash, p);
        hash.Insert(p, file[p]);
        LoadedView(found, hash.page, file, Elements(snapshot), p);
        ok := true;
        LoadedFetched(was, found, hash.page, p);
      } else {
        MissedFetched(was, hash.page, p);
      }
      TakenKept(was, hash.page, file, Elements(snapshot));
    }

    /** Wload: the page comes into memory and is marked dirty. */
    method Wload(p: PageIndex) returns (ok: bool)
      requires Valid() && |hash.page| + 1 < LRU_WRAP
      modifies hash
      ensures Valid() && Seen() == old(Seen())
      ensures ok == (p in old(Seen())) && (ok ==> p in hash.page && hash.page[p].dirty)
      ensures ok ==> hash.page[p].layout == old(Seen())[p]
      ensures ChangedAt(old(hash.page), hash.page, p, ok) && Taken() == old(Taken())
      ensures hash.order == if ok then Without(old(hash.order), p) + [p] else old(hash.order)
    {
      hide hash.Valid, Coherent, View, Without, Overlaid;
      ghost var was := hash.page;
      ok := Rload(p);
      if ok {
        MarkedView(hash.page, file, Elements(snapshot), p);
        hash.SetDirty(p);
      }
      TakenKept(was, hash.page, file, Elements(snapshot));
    }

    /** A change to a page that has been loaded for writing. */
    method Write(p: PageIndex, layout: Image)
      requires Valid() && p in hash.page && hash.page[p].dirty
      modifies hash`page
      ensures hash.page == old(hash.page)[p := old(hash.page)[p].(layout := layout)]
      ensures Valid() && Seen() == old(Seen())[p := layout] && Taken() == old(Taken())
    {
      hide hash.Valid, Coherent, View, Overlaid;
      ghost var was := hash.page;
      WrittenView(hash.page, file, Elements(snapshot), p, layout);
      hash.SetLayout(p, layout);
      TakenKept(was, hash.page, file, Elements(snapshot));
    }

    /** alloc, for a page behind the last one: blank, in memory only, and dirty. */
    method Extend(p: PageIndex, blank: Image)
      requires Valid() && p !in Seen() && |hash.page| + 1 < LRU_WRAP
      modifies hash
      ensures Valid() && Seen() == old(Seen())[p := blank] && p in hash.page && hash.page[p].dirty
      ensures ChangedAt(old(hash.page), hash.page, p, true) && Taken() == old(Taken())
    {
      hide hash.Valid, Overlaid;
      ghost var was := hash.page;
      hash.Insert(p, blank);
      hash.SetDirty(p);
      ExtendedView(was, hash.page, file, Elements(snapshot), p, blank);
      TakenKept(was, hash.page, file, Elements(snapshot));
    }

    /** alloc, for a page of the free list: found or loaded, then blank and dirty. */
    method Reuse(p: PageIndex, blank: Image) returns (ok: bool)
      requires Valid() && |hash.page| + 1 < LRU_WRAP
      modifies hash
      ensures Valid() && ok == (p in old(Seen())) && (ok ==> p in hash.page && hash.page[p].dirty)
      ensures Seen() == if ok then old(Seen())[p := blank] else old(Seen())
      ensures ChangedAt(old(hash.page), hash.page, p, ok) && Taken() == old(Taken())
    {
      hide hash.Valid, Coherent, View, Without, Overlaid;
      ghost var was := hash.page;
      ok := Rload(p);
      if ok {
        BlankedView(hash.page, file, Elements(snapshot), p, blank);
        hash.SetLayout(p, blank);
        hash.SetDirty(p);
      }
      TakenKept(was, hash.page, file, Elements(snapshot));
    }

    // ----- what goes on while a snapshot is outstanding -----

    /** A page is loaded for writing and changed. */
    method Change(p: PageIndex, layout: Image)
      requires Valid() && |hash.page| + 1 < LRU_WRAP
      modifies hash
      ensures Valid() && Taken() == old(Taken()) && Seen() == SeenNext(old(Seen()), Event.Change(p, layout))
      ensures SnapsKept(old(hash.page), hash.page) && hash.page.Keys <= old(hash.page).Keys + {p}
    {
      hide hash.Valid, Coherent, View, Without, Overlaid, ChangedAt, SnapsKept;
      ghost var was := hash.page;
      var ok := Wload(p);
      ChangedKept(was, hash.page, p, ok);
      if ok {
        ghost var page := hash.page;
        Write(p, layout);
        WrittenKept(was, page, p, layout);
      }
    }

    /** alloc, with the free list or the end of the file to take the page from. */
    method Alloc(p: PageIndex, blank: Image)
      requires Valid() && |hash.page| + 1 < LRU_WRAP
      modifies hash
      ensures Valid() && Taken() == old(Taken()) && Seen() == old(Seen())[p := blank]
      ensures SnapsKept(old(hash.page), hash.page) && hash.page.Keys <= old(hash.page).Keys + {p}
    {
      hide hash.Valid, Coherent, View, Without, Overlaid, ChangedAt, SnapsKept;
      ghost var was := hash.page;
      var ok := Reuse(p, blank);
      ChangedKept(was, hash.page, p, ok);
      if !ok {
        ghost var page := hash.page;
        SameSize(was, page);
        Extend(p, blank);
        ChangedKept(page, hash.page, p, true);
        SnapsTwice(was, page, hash.page);
      }
    }

    /** One step of those that use the table. */
    method Work(e: Event)
      requires Valid() && |hash.page| + 1 < LRU_WRAP
      modifies hash
      ensures Valid() && Taken() == old(Taken()) && Seen() == SeenNext(old(Seen()), e)
      ensures SnapsKept(old(hash.page), hash.page) && hash.page.Keys <= old(hash.page).Keys + {e.p}
    {
      hide hash.Valid, Coherent, View, Without, Overlaid, SnapsKept, Fetched;
      match e {
        case Read(p) =>
          ghost var was := hash.page;
          var ok := Rload(p);
          FetchedKept(was, hash.page, p, ok);
        case Change(p, layout) => Change(p, layout);
        case Alloc(p, blank) => Alloc(p, blank);
      }
    }

    /** Any run of them: what the checkpoint is to leave stays, and readers see the run's changes and no others. */
    method Run(events: seq<Event>)
      requires Valid() && |hash.page| + |events| < LRU_WRAP
      modifies hash
      ensures Valid() && Taken() == old(Taken()) && Seen() == SeenAfter(old(Seen()), events)
      ensures Grown(old(hash.page), hash.page, events)
    {
      hide hash.Valid, Coherent, View, Overlaid, SnapsKept, SeenNext, Grown, SeenAfter;
      ghost var was, seen := hash.page, Seen();
      GrownSame(was);
      SeenNone(seen);
      for i := 0 to |events|
        invariant Valid() && Taken() == old(Taken()) && Seen() == SeenAfter(seen, events[..i])
        invariant Grown(was, hash.page, events[..i])
      {
        ghost var page := hash.page;
        GrownSize(was, page, events[..i]);
        Work(events[i]);
        assert events[..i + 1] == events[..i] + [events[i]];
        SeenMore(seen, events[..i], events[i]);
        GrownMore(was, page, hash.page, events[..i], events[i]);
      }
      assert events[..|events|] == events;
    }

    // ----- cleanup -----

    /** The pages that a cleanup would leave in memory. */
    ghost function Staying(): seq<PageIndex>
      reads hash
    {
      if |hash.page| <= hash.cacheHigh then hash.order
      else Survivors(hash.order, Clean(hash.page), |hash.page|, hash.cacheLow)
    }

    /** Of the pages that would go none is in the snapshot, unless its image there is in the file. */
    ghost predicate CleanupSafe()
      reads this, hash
    {
      forall p | p in hash.order && p !in Staying() :: p in snapshot ==> SavedAt(hash.page, file, p)
    }

    /** Of the clean pages that would stay none is in the snapshot, unless its image there is in the file. */
    ghost predicate ReleaseSafe()
      reads this, hash
    {
      forall p | p in snapshot && p in Staying() && p in hash.page && !hash.page[p].dirty :: SavedAt(hash.page, file, p)
    }

    /** All pages of the snapshot would stay. */
    ghost predicate SnapshotStays()
      reads this, hash
    {
      forall p | p in snapshot :: p in Staying()
    }

    /**
     * cleanup, of a walk or of snapshot_release: readers see the same exactly when every page that goes is as in the
     * file, and a snapshot can still be saved exactly when all of its pages stay. With no snapshot outstanding both
     * are always so.
     */
    method Cleanup()
      requires hash.Valid() && |hash.page| < LRU_WRAP
      modifies hash
      ensures hash.Valid() && Remains(old(hash.page), hash.page) && hash.order == old(Staying())
      ensures Seen() == old(Seen()) <==> SafeToLose(old(hash.page), hash.page, file)
      ensures old(Valid()) ==> (Seen() == old(Seen()) <==> old(CleanupSafe()))
      ensures old(Valid()) ==> (Valid() <==> old(SnapshotStays()))
      ensures old(Valid()) && Valid() ==> Seen() == old(Seen()) && Taken() == old(Taken())
      ensures old(Valid()) && !outstanding ==> Valid()
      ensures forall p | p in old(hash.page) && p !in hash.page :: !old(hash.page)[p].dirty
    {
      hide Survivors, SafeToLose, View, Coherent, hash.Valid, Remains, Clean, Distinct, SavedAt, Overlaid, Elements;
      ghost var was, order := hash.page, hash.order;
      OrderOfPages(hash);
      hash.Cleanup();
      OrderOfPages(hash);
      ghost var page := hash.page;
      if |was| > hash.cacheHigh {
        SurvivorsAre(order, Clean(was), |was|, hash.cacheLow);
      }
      UsedKeysOf(order, was, hash.order, page);
      EvictedView(was, page, file);
      if old(Valid()) {
        LossIs(was, page, order, hash.order, file, snapshot);
        EvictedCoherent(was, page, file, snapshot);
      }
    }

    /** snapshot_create: every dirty page is copied, and counts as clean from now on. */
    method SnapshotCreate()
      requires Valid() && !outstanding
      modifies this, hash
      ensures Valid() && outstanding && file == old(file) && Seen() == old(Seen())
      ensures Copied(old(hash.page), hash.page, hash.page.Keys) && hash.order == old(hash.order)
      ensures forall p | p in hash.page :: !hash.page[p].dirty
      ensures Overlaid(file, hash.page, Elements(snapshot)) == old(Seen())
      ensures Lists(snapshot, Marked(old(hash.page)))
    {
      hide hash.Valid, Coherent, View, Copied, DirtyOf, Elements, Covers, Hashed, Overlaid;
      ghost var was := hash.page;
      ValidHashed(hash);
      var ps := hash.Collect();
      snapshot := [];
      CopiedNone(was);
      for i := 0 to |ps|
        invariant hash.Valid() && file == old(file) && outstanding == old(outstanding) && hash.order == old(hash.order)
        invariant Copied(was, hash.page, Elements(ps[..i])) && Lists(snapshot, DirtyOf(was, Elements(ps[..i])))
      {
        var p := ps[i];
        CopiedNext(was, hash.page, ps, i, snapshot);
        if hash.page[p].dirty {
          hash.SetSnapshot(p);
          snapshot := snapshot + [p];
        }
      }
      assert ps[..|ps|] == ps;
      outstanding := true;
      CopiedAll(was, hash.page, file, ps);
    }

    /** The first n pages of the snapshot are in the file. */
    ghost predicate Flushed(n: nat)
      reads this, hash
    {
      && n <= |snapshot|
      && forall i | 0 <= i < n ::
           snapshot[i] in file && snapshot[i] in hash.page && file[snapshot[i]] == hash.page[snapshot[i]].snap
    }

    /** The checkpoint writes one image of the snapshot to the file. */
    method SavePage(n: nat)
      requires Valid() && Flushed(n) && n < |snapshot|
      modifies `file
      ensures Valid() && Flushed(n + 1) && Seen() == old(Seen()) && Taken() == old(Taken())
      ensures snapshot[n] in hash.page && file == old(file)[snapshot[n] := hash.page[snapshot[n]].snap]
    {
      hide hash.Valid, View, Overlaid, Coherent;
      InSnapshot(hash.page, file, snapshot);
      PutView(hash.page, file, snapshot, n);
      file := file[snapshot[n] := hash.page[snapshot[n]].snap];
    }

    /** The images from number n0 on. */
    method SaveFrom(n0: nat)
      requires Valid() && Flushed(n0)
      modifies `file
      ensures Valid() && file == old(Taken()) == Taken() && Seen() == old(Seen())
    {
      hide hash.Valid, Coherent, View, Overlaid;
      for n := n0 to |snapshot|
        invariant Valid() && Flushed(n) && Taken() == old(Taken()) && Seen() == old(Seen())
      {
        SavePage(n);
      }
      AllFlushed(hash.page, file, snapshot);
    }

    /** The checkpoint writes the images of the snapshot to the file, with nobody in between. */
    method Save()
      requires Valid()
      modifies `file
      ensures Valid() && file == old(Taken()) == Taken() && Seen() == old(Seen())
    {
      SaveFrom(0);
    }

    /**
     * The images are written one by one while others use the table: the file becomes what it was to be from the
     * start, and readers see what the others have made of it.
     */
    method SaveAmid(steps: seq<Step>)
      requires Valid() && |hash.page| + |steps| < LRU_WRAP
      modifies `file, hash
      ensures Valid() && file == old(Taken()) == Taken() && Seen() == SeenAfter(old(Seen()), Works(steps))
      ensures Grown(old(hash.page), hash.page, Works(steps))
    {
      hide hash.Valid, Coherent, View, Overlaid, SnapsKept, SeenNext, Grown, SeenAfter, Works;
      ghost var was, seen := hash.page, Seen();
      GrownSame(was);
      SeenNone(seen);
      WorksNone();
      var n := 0;
      for i := 0 to |steps|
        invariant Valid() && Flushed(n) && Taken() == old(Taken()) && Seen() == SeenAfter(seen, Works(steps[..i]))
        invariant Grown(was, hash.page, Works(steps[..i]))
      {
        WorksMore(steps, i);
        match steps[i] {
          case Use(e) =>
            ghost var page, events := hash.page, Works(steps[..i]);
            GrownSize(was, page, events);
            Work(e);
            SeenMore(seen, events, e);
            GrownMore(was, page, hash.page, events, e);
            FlushedKept(page, hash.page, file, snapshot, n);
          case Flush =>
            if n < |snapshot| {
              SavePage(n);
              n := n + 1;
            }
        }
      }
      assert steps[..|steps|] == steps;
      SaveFrom(n);
    }

    /**
     * A snapshot, and any use of the table before and while it is saved: the file is what readers saw when the
     * snapshot was taken, and they see that with the changes made since.
     */
    method SnapshotSaved(events: seq<Event>, steps: seq<Step>)
      requires Valid() && !outstanding && |hash.page| + |events| + |steps| < LRU_WRAP
      modifies this, hash
      ensures Valid() && outstanding && file == old(Seen())
      ensures Seen() == SeenAfter(SeenAfter(old(Seen()), events), Works(steps))
    {
      hide hash.Valid, Coherent, View, Overlaid, Copied, Grown, SeenAfter, Works;
      SnapshotCreate();
      CopiedSize(old(hash.page), hash.page);
      ghost var page := hash.page;
      Run(events);
      GrownSize(page, hash.page, events);
      SaveAmid(steps);
    }

    /**
     * snapshot_release, and the cleanup in it. A page that counted as clean because of the snapshot must be in the
     * file by now: then readers see the same, and the next snapshot will find all there is to save.
     */
    method SnapshotRelease()
      requires Valid() && outstanding && |hash.page| < LRU_WRAP
      modifies this, hash
      ensures hash.Valid() && !outstanding && snapshot == [] && file == old(file) && Remains(old(hash.page), hash.page)
      ensures Seen() == old(Seen()) <==> old(CleanupSafe())
      ensures Valid() <==> old(ReleaseSafe())
      ensures old(forall p | p in snapshot :: SavedAt(hash.page, file, p)) ==> Valid() && Seen() == old(Seen())
    {
      hide hash.Valid, Coherent, View, SafeToLose, Survivors, Clean, Remains;
      ghost var was, page, order := snapshot, hash.page, hash.order;
      OrderOfPages(hash);
      snapshot, outstanding := [], false;
      Cleanup();
      OrderOfPages(hash);
      LossIs(page, hash.page, order, hash.order, file, was);
      EvictedView(page, hash.page, file);
      ReleasedExactly(page, hash.page, file, was);
      StayingClean(page, hash.page, order, hash.order, file, was);
    }
  }

  /** The image of the page in the snapshot is in the file. */
  ghost predicate SavedAt(page: Pages, file: File, p: PageIndex) {
    p in file && p in page && file[p] == page[p].snap
  }

  // ----- uses of a table -----

  /** A page is read; changed, if there is one; or taken by alloc, from the free list or behind the last page. */
  datatype Event = Read(p: PageIndex) | Change(p: PageIndex, layout: Image) | Alloc(p: PageIndex, blank: Image)

  /** A use of the table, or the checkpoint's next page. */
  datatype Step = Use(event: Event) | Flush

  /** What readers see next. */
  function SeenNext(was: File, e: Event): File {
    match e
    case Read(_) => was
    case Change(p, layout) => if p in was then was[p := layout] else was
    case Alloc(p, blank) => was[p := blank]
  }

  function SeenAfter(was: File, events: seq<Event>): File {
    if events == [] then was else SeenNext(SeenAfter(was, events[..|events| - 1]), events[|events| - 1])
  }

  function Works(steps: seq<Step>): (events: seq<Event>)
    ensures |events| <= |steps|
  {
    if steps == [] then [] else
    Works(steps[..|steps| - 1]) + if steps[|steps| - 1].Use? then [steps[|steps| - 1].event] else []
  }

  function PagesIn(events: seq<Event>): set<PageIndex> {
    set e | e in events :: e.p
  }

  lemma SeenNone(was: File)
    ensures SeenAfter(was, []) == was
  {
  }

  lemma SeenMore(was: File, events: seq<Event>, e: Event)
    ensures SeenAfter(was, events + [e]) == SeenNext(SeenAfter(was, events), e)
  {
    assert (events + [e])[..|events|] == events;
  }

  lemma WorksNone()
    ensures Works([]) == []
  {
  }

  lemma WorksMore(steps: seq<Step>, i: nat)
    requires i < |steps|
    ensures |Works(steps[..i])| <= i
    ensures Works(steps[..i + 1]) == if steps[i].Use? then Works(steps[..i]) + [steps[i].event] else Works(steps[..i])
  {
    assert steps[..i + 1][..i] == steps[..i];
  }

  /** The pages are still in memory, with their images of the snapshot. */
  ghost predicate SnapsKept(was: Pages, page: Pages) {
    was.Keys <= page.Keys && forall q | q in was :: page[q].snap == was[q].snap
  }

  lemma SnapsTwice(was: Pages, page: Pages, page': Pages)
    requires SnapsKept(was, page) && SnapsKept(page, page')
    ensures SnapsKept(was, page')
  {
  }

  /** Page p may have changed, but for its image of the snapshot; the others only have new stamps. */
  ghost predicate ChangedAt(was: Pages, page: Pages, p: PageIndex, ok: bool) {
    && page.Keys == was.Keys + (if ok then {p} else {})
    && (forall q | q in was && q != p :: page[q] == was[q].(lru := page[q].lru))
    && (p in was ==> page[p].snap == was[p].snap)
  }

  lemma TakenKept(was: Pages, page: Pages, file: File, snapshot: set<PageIndex>)
    requires SnapsKept(was, page) && Coherent(was, file, snapshot)
    ensures (forall p | p in snapshot :: p in was && p in page)
      && Overlaid(file, page, snapshot) == Overlaid(file, was, snapshot)
  {
  }

  lemma FetchedKept(was: Pages, page: Pages, p: PageIndex, ok: bool)
    requires Fetched(was, page, p, ok)
    ensures SnapsKept(was, page) && page.Keys <= was.Keys + {p}
  {
  }

  lemma ChangedKept(was: Pages, page: Pages, p: PageIndex, ok: bool)
    requires ChangedAt(was, page, p, ok)
    ensures SnapsKept(was, page) && page.Keys <= was.Keys + {p} && (!ok ==> page.Keys == was.Keys)
  {
  }

  lemma WrittenKept(was: Pages, page: Pages, p: PageIndex, layout: Image)
    requires SnapsKept(was, page) && p in page
    ensures SnapsKept(was, page[p := page[p].(layout := layout)])
    ensures page[p := page[p].(layout := layout)].Keys == page.Keys
  {
  }

  lemma SameSize(was: Pages, page: Pages)
    requires page.Keys == was.Keys
    ensures |page| == |was|
  {
    assert |page| == |page.Keys| && |was| == |was.Keys|;
  }

  /** The pages after some uses: all that were there, with their images of the snapshot, and at most the pages used. */
  ghost predicate Grown(was: Pages, page: Pages, events: seq<Event>) {
    SnapsKept(was, page) && page.Keys <= was.Keys + PagesIn(events) && |page| <= |was| + |events|
  }

  lemma GrownSame(page: Pages)
    ensures Grown(page, page, [])
  {
  }

  lemma GrownSize(was: Pages, page: Pages, events: seq<Event>)
    requires Grown(was, page, events)
    ensures |page| <= |was| + |events|
  {
  }

  lemma GrownMore(was: Pages, page: Pages, page': Pages, events: seq<Event>, e: Event)
    requires Grown(was, page, events) && SnapsKept(page, page') && page'.Keys <= page.Keys + {e.p}
    ensures Grown(was, page', events + [e])
  {
    SnapsTwice(was, page, page');
    forall q | q in PagesIn(events) ensures q in PagesIn(events + [e]) {
      var d :| d in events && d.p == q;
      assert d in events + [e];
    }
    assert e in events + [e] && e.p in PagesIn(events + [e]);
    assert |page'| == |page'.Keys| && |page| == |page.Keys|;
    Fewer(page'.Keys, page.Keys + {e.p});
  }

  lemma FlushedKept(was: Pages, page: Pages, file: File, snapshot: seq<PageIndex>, n: nat)
    requires SnapsKept(was, page) && n <= |snapshot|
    requires forall i | 0 <= i < n ::
      snapshot[i] in file && snapshot[i] in was && file[snapshot[i]] == was[snapshot[i]].snap
    ensures forall i | 0 <= i < n :: snapshot[i] in page && file[snapshot[i]] == page[snapshot[i]].snap
  {
  }

  /** An image of the snapshot in the file changes neither what readers see nor what the checkpoint is to leave. */
  lemma PutView(page: Pages, file: File, snapshot: seq<PageIndex>, n: nat)
    requires Coherent(page, file, Elements(snapshot)) && n < |snapshot| && snapshot[n] in page
    ensures var file' := file[snapshot[n] := page[snapshot[n]].snap];
      && Coherent(page, file', Elements(snapshot)) && View(page, file') == View(page, file)
      && Overlaid(file', page, Elements(snapshot)) == Overlaid(file, page, Elements(snapshot))
  {
    assert snapshot[n] in Elements(snapshot);
  }

  lemma AllFlushed(page: Pages, file: File, snapshot: seq<PageIndex>)
    requires Coherent(page, file, Elements(snapshot))
    requires forall i | 0 <= i < |snapshot| ::
      snapshot[i] in file && snapshot[i] in page && file[snapshot[i]] == page[snapshot[i]].snap
    ensures Overlaid(file, page, Elements(snapshot)) == file
  {
  }

  /** The pages that are no longer in memory are in the file as they were. */
  ghost predicate SafeToLose(was: Pages, page: Pages, file: File) {
    forall p | p in was && p !in page :: p in file && was[p].layout == file[p]
  }

  // ----- views -----

  lemma RestampedView(was: Pages, page: Pages, file: File, snapshot: set<PageIndex>)
    requires Restamped(was, page) && Coherent(was, file, snapshot)
    ensures Coherent(page, file, snapshot) && View(page, file) == View(was, file) && page.Keys == was.Keys
  {
  }

  /** The page has been brought into memory, if there is one; only stamps have changed otherwise. */
  ghost predicate Fetched(was: Pages, page: Pages, p: PageIndex, ok: bool) {
    && page.Keys == was.Keys + (if ok then {p} else {})
    && (forall q | q in was :: page[q] == was[q].(lru := page[q].lru))
    && (ok && p !in was ==> !page[p].dirty)
  }

  lemma FoundFetched(was: Pages, page: Pages, p: PageIndex)
    requires Restamped(was, page) && p in was
    ensures Fetched(was, page, p, true) && p in page && page[p].layout == was[p].layout
  {
  }

  lemma MissedFetched(was: Pages, page: Pages, p: PageIndex)
    requires Restamped(was, page)
    ensures Fetched(was, page, p, false)
  {
  }

  lemma LoadedFetched(was: Pages, found: Pages, page: Pages, p: PageIndex)
    requires Restamped(was, found) && p !in found && page.Keys == found.Keys + {p} && !page[p].dirty
    requires forall q | q in found :: page[q] == found[q].(lru := page[q].lru)
    ensures Fetched(was, page, p, true)
  {
  }

  lemma SeenAt(page: Pages, file: File, p: PageIndex)
    ensures p in View(page, file) <==> p in page || p in file
    ensures p in View(page, file) ==> View(page, file)[p] == if p in page then page[p].layout else file[p]
  {
  }

  lemma AbsentOrder(h: PageHash, p: PageIndex)
    requires h.Valid() && p !in h.page
    ensures Without(h.order, p) == h.order
  {
    WithoutAbsent(h.order, p);
  }

  lemma {:induction false} WithoutAbsent(s: seq<PageIndex>, p: PageIndex)
    requires p !in s
    ensures Without(s, p) == s
  {
    if s != [] { WithoutAbsent(s[1..], p); }
  }

  lemma LoadedView(was: Pages, page: Pages, file: File, snapshot: set<PageIndex>, p: PageIndex)
    requires Coherent(was, file, snapshot) && p !in was && p in file && page.Keys == was.Keys + {p}
    requires page[p].layout == file[p] && !page[p].dirty
    requires forall q | q in was :: page[q] == was[q].(lru := page[q].lru)
    ensures Coherent(page, file, snapshot) && View(page, file) == View(was, file)
  {
  }

  lemma ExtendedView(was: Pages, page: Pages, file: File, snapshot: set<PageIndex>, p: PageIndex, blank: Image)
    requires Coherent(was, file, snapshot) && p !in was && p !in file && page.Keys == was.Keys + {p}
    requires page[p].layout == blank && page[p].dirty
    requires forall q | q in was :: page[q] == was[q].(lru := page[q].lru)
    ensures Coherent(page, file, snapshot) && View(page, file) == View(was, file)[p := blank]
  {
  }

  /** The survivors are the pages in memory, the others were clean. */
  lemma UsedKeysOf(order: seq<PageIndex>, was: Pages, order': seq<PageIndex>, page: Pages)
    requires Remains(was, page) && (forall p :: p in order <==> p in was) && (forall p :: p in order' <==> p in page)
    requires forall p | p in order && p !in order' :: p in Clean(was)
    ensures forall p | p in was && p !in page :: !was[p].dirty
  {
  }

  lemma EvictedView(was: Pages, page: Pages, file: File)
    requires Remains(was, page)
    ensures View(page, file) == View(was, file) <==>
              SafeToLose(was, page, file)
  {
    if forall p | p in was && p !in page :: p in file && was[p].layout == file[p] {
      assert forall p | p in View(was, file) :: p in View(page, file) && View(page, file)[p] == View(was, file)[p];
    } else {
      var p :| p in was && p !in page && !(p in file && was[p].layout == file[p]);
      assert p in View(was, file) && View(was, file)[p] == was[p].layout;
      assert p in View(page, file) ==> p in file && View(page, file)[p] == file[p];
    }
  }

  /** Losing clean pages is losing nothing exactly if none of them needs the snapshot. */
  lemma LossIs(was: Pages, page: Pages, order: seq<PageIndex>, order': seq<PageIndex>, file: File,
               snapshot: seq<PageIndex>)
    requires Coherent(was, file, Elements(snapshot)) && Remains(was, page)
    requires (forall p :: p in order <==> p in was) && (forall p :: p in order' <==> p in page)
    requires forall p | p in was && p !in page :: !was[p].dirty
    ensures SafeToLose(was, page, file) <==>
      forall p | p in order && p !in order' :: p in snapshot ==> SavedAt(was, file, p)
  {
    forall p ensures p in snapshot <==> p in Elements(snapshot) {}
  }

  /** The clean pages that stay, before and after. */
  lemma StayingClean(was: Pages, page: Pages, order: seq<PageIndex>, order': seq<PageIndex>, file: File,
                     snapshot: seq<PageIndex>)
    requires Remains(was, page) && (forall p :: p in order' <==> p in page)
    ensures (forall p | p in snapshot && p in page && !page[p].dirty :: p in file && file[p] == page[p].snap)
      <==> forall p | p in snapshot && p in order' && p in was && !was[p].dirty :: SavedAt(was, file, p)
  {
  }

  /** A snapshot can still be saved exactly if its pages are still in memory, and nothing is lost then. */
  lemma EvictedCoherent(was: Pages, page: Pages, file: File, snapshot: seq<PageIndex>)
    requires Remains(was, page) && Coherent(was, file, Elements(snapshot))
    requires forall p | p in was && p !in page :: !was[p].dirty
    ensures Coherent(page, file, Elements(snapshot)) <==> forall p | p in snapshot :: p in page
    ensures Coherent(page, file, Elements(snapshot)) ==> View(page, file) == View(was, file)
    ensures Coherent(page, file, Elements(snapshot)) ==>
      Overlaid(file, page, Elements(snapshot)) == Overlaid(file, was, Elements(snapshot))
  {
    forall p ensures p in snapshot <==> p in Elements(snapshot) {}
    EvictedView(was, page, file);
  }

  // ----- the copies of a snapshot -----

  function DirtyOf(page: Pages, ps: set<PageIndex>): set<PageIndex>
  {
    set p | p in ps && p in page && page[p].dirty
  }

  /** The dirty pages. */
  function Marked(page: Pages): set<PageIndex>
  {
    DirtyOf(page, page.Keys)
  }

  /** Each of the pages once. */
  ghost predicate Lists(s: seq<PageIndex>, ps: set<PageIndex>)
  {
    Elements(s) == ps && |s| == |ps|
  }

  /** Some of the pages have been copied if they were dirty. */
  ghost predicate Copied(was: Pages, page: Pages, ps: set<PageIndex>)
  {
    && page.Keys == was.Keys
    && forall p | p in was :: page[p] ==
         if p in ps && was[p].dirty then was[p].(dirty := false, snap := was[p].layout) else was[p]
  }

  lemma CopiedSize(was: Pages, page: Pages)
    requires Copied(was, page, page.Keys)
    ensures page.Keys == was.Keys && |page| == |was|
  {
    assert |page| == |page.Keys| && |was| == |was.Keys|;
  }

  lemma CopiedNone(was: Pages)
    ensures Copied(was, was, Elements([])) && Lists([], DirtyOf(was, Elements([])))
  {
  }

  lemma ListsMore(s: seq<PageIndex>, ps: set<PageIndex>, p: PageIndex)
    requires Lists(s, ps) && p !in ps
    ensures Lists(s + [p], ps + {p})
  {
    assert Elements(s + [p]) == Elements(s) + {p};
  }

  lemma CopiedOne(was: Pages, page: Pages, ps: set<PageIndex>, p: PageIndex)
    requires Copied(was, page, ps) && p in was && p !in ps
    ensures p in page && page[p] == was[p]
    ensures DirtyOf(was, ps + {p}) == if was[p].dirty then DirtyOf(was, ps) + {p} else DirtyOf(was, ps)
    ensures
      if was[p].dirty then Copied(was, page[p := page[p].(dirty := false, snap := page[p].layout)], ps + {p})
      else Copied(was, page, ps + {p})
  {
  }

  lemma CopiedNext(was: Pages, page: Pages, ps: seq<PageIndex>, i: nat, snapshot: seq<PageIndex>)
    requires i < |ps| && Covers(ps, was.Keys) && Copied(was, page, Elements(ps[..i]))
    requires Lists(snapshot, DirtyOf(was, Elements(ps[..i])))
    ensures ps[i] in page
    ensures
      var p, done := ps[i], Elements(ps[..i + 1]);
      if page[p].dirty then
        Copied(was, page[p := page[p].(dirty := false, snap := page[p].layout)], done) &&
        Lists(snapshot + [p], DirtyOf(was, done))
      else Copied(was, page, done) && Lists(snapshot, DirtyOf(was, done))
  {
    hide Lists, Copied;
    var p, before := ps[i], Elements(ps[..i]);
    assert p in ps && ps[..i + 1] == ps[..i] + [p] && p !in ps[..i];
    assert Elements(ps[..i + 1]) == before + {p};
    CopiedOne(was, page, before, p);
    if page[p].dirty {
      ListsMore(snapshot, DirtyOf(was, before), p);
    }
  }

  /** With all pages copied, file and snapshot together are what readers see. */
  lemma CopiedAll(was: Pages, page: Pages, file: File, ps: seq<PageIndex>)
    requires Copied(was, page, Elements(ps)) && Covers(ps, was.Keys) && Coherent(was, file, Elements([]))
    ensures DirtyOf(was, Elements(ps)) <= page.Keys && Coherent(page, file, DirtyOf(was, Elements(ps)))
    ensures View(page, file) == View(was, file) && Overlaid(file, page, DirtyOf(was, Elements(ps))) == View(was, file)
    ensures Copied(was, page, page.Keys) && forall p | p in page :: !page[p].dirty
    ensures DirtyOf(was, Elements(ps)) == Marked(was)
  {
    assert Elements(ps) == page.Keys;
  }

  lemma ValidHashed(h: PageHash)
    requires h.Valid()
    ensures Hashed(h.bucket, h.page.Keys)
  {
  }

  lemma MarkedView(page: Pages, file: File, snapshot: set<PageIndex>, p: PageIndex)
    requires Coherent(page, file, snapshot) && p in page
    ensures Coherent(page[p := page[p].(dirty := true)], file, snapshot)
    ensures View(page[p := page[p].(dirty := true)], file) == View(page, file)
  {
  }

  lemma WrittenView(page: Pages, file: File, snapshot: set<PageIndex>, p: PageIndex, layout: Image)
    requires Coherent(page, file, snapshot) && p in page && page[p].dirty
    ensures Coherent(page[p := page[p].(layout := layout)], file, snapshot)
    ensures View(page[p := page[p].(layout := layout)], file) == View(page, file)[p := layout]
  {
  }

  lemma BlankedView(page: Pages, file: File, snapshot: set<PageIndex>, p: PageIndex, blank: Image)
    requires Coherent(page, file, snapshot) && p in page
    ensures var page1 := page[p := page[p].(layout := blank)];
      var page' := page1[p := page1[p].(dirty := true)];
      Coherent(page', file, snapshot) && View(page', file) == View(page, file)[p := blank]
  {
  }

  lemma InSnapshot(page: Pages, file: File, snapshot: seq<PageIndex>)
    requires Coherent(page, file, Elements(snapshot))
    ensures forall p | p in snapshot :: p in page
  {
    forall p | p in snapshot ensures p in page { assert p in Elements(snapshot); }
  }

  /** Without its snapshot the cache is coherent exactly if the images of the clean pages in it are in the file. */
  lemma ReleasedExactly(was: Pages, page: Pages, file: File, snapshot: seq<PageIndex>)
    requires Coherent(was, file, Elements(snapshot)) && Remains(was, page)
    ensures Coherent(page, file, Elements([])) <==>
      forall p | p in snapshot && p in page && !page[p].dirty :: p in file && file[p] == page[p].snap
  {
    forall p ensures p in snapshot <==> p in Elements(snapshot) {}
  }

  /** A clean page can go without a reader noticing exactly when it is not in an outstanding snapshot,
      or its image there is already in the file. */
  lemma CleanPageCanGo(page: Pages, file: File, snapshot: set<PageIndex>, p: PageIndex)
    requires Coherent(page, file, snapshot) && p in page && !page[p].dirty
    ensures View(page - {p}, file) == View(page, file) <==>
              p !in snapshot || (p in file && file[p] == page[p].snap)
  {
    EvictedView(page, page - {p}, file);
  }

  lemma OverlaidNone(file: File, page: Pages)
    ensures Overlaid(file, page, Elements([])) == file
  {
  }

  lemma OverlaidNext(file: File, page: Pages, snapshot: seq<PageIndex>, i: nat)
    requires i < |snapshot| && forall p | p in Elements(snapshot) :: p in page
    ensures snapshot[i] in page && forall p | p in Elements(snapshot[..i + 1]) :: p in page
    ensures Overlaid(file, page, Elements(snapshot[..i + 1])) ==
              Overlaid(file, page, Elements(snapshot[..i]))[snapshot[i] := page[snapshot[i]].snap]
  {
    assert snapshot[i] in Elements(snapshot) && snapshot[..i + 1] == snapshot[..i] + [snapshot[i]];
  }

  // ----- a snapshot that cleanup spoils -----

  lemma OldestGoes(order: seq<PageIndex>, clean: set<PageIndex>)
    requires order == Without(Without([], 1) + [1], 2) + [2] && 1 in clean
    ensures Survivors(order, clean, 2, 1) == [2]
  {
    assert [1][1..] == [] && Without([1], 2) == [1] && order == [1, 2] && order[1..] == [2];
  }

  /** The pages as the run leaves them. */
  lemma TwoPages(was: Pages, page: Pages)
    requires Copied(was, page, page.Keys) && was.Keys == {1, 2} && was[1].dirty && !was[2].dirty
    ensures |page| == 2 && 1 in page && !page[1].dirty && page[1].layout == was[1].layout && 1 in Clean(page)
  {
    assert page.Keys == {1, 2} && |page| == |page.Keys|;
  }

  lemma OrderOfPages(h: PageHash)
    requires h.Valid()
    ensures (forall p :: p in h.order <==> p in h.page) && Distinct(h.order) && h.size == |h.page|
  {
  }

  lemma OneLost(was: Pages, page: Pages, file: File)
    requires 1 in was && 1 !in page && 1 in file && was[1].layout != file[1]
    ensures !SafeToLose(was, page, file)
  {
  }

  /**
   * Page 1 is changed, page 2 is read, a snapshot is taken, and a cleanup comes before the snapshot is saved: page 1
   * counts as clean, goes, and readers get its old image again.
   */
  method OpenSnapshotLosesPage(x: Image, y: Image, z: Image) returns (c: CachedFile, ghost before: File)
    requires x != y
    ensures before == map[1 := y, 2 := z] && c.outstanding && c.Seen() != before && 1 in c.Seen() && c.Seen()[1] == x
  {
    hide c.hash.Valid, Coherent, View, Without, Copied, Survivors, Clean, Overlaid, SafeToLose, SavedAt;
    var file: File := map[1 := x, 2 := z];
    c := new CachedFile(file, 1, 1);
    var ok := c.Wload(1);
    assert c.hash.page.Keys == {1};
    c.Write(1, y);
    assert c.hash.page.Keys == {1} && |c.hash.page| == |c.hash.page.Keys|;
    ok := c.Rload(2);
    before := c.Seen();
    assert before == map[1 := y, 2 := z];
    ghost var was := c.hash.page;
    assert was.Keys == {1, 2};
    c.SnapshotCreate();
    ghost var page := c.hash.page;
    TwoPages(was, page);
    OldestGoes(c.hash.order, Clean(page));
    c.Cleanup();
    OrderOfPages(c.hash);
    assert 1 !in c.hash.page;
    OneLost(page, c.hash.page, file);
    SeenAt(c.hash.page, file, 1);
  }
}
