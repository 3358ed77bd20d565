/** The page cache: hashed pages, least recently used eviction, dirty bits and snapshots. */
module PageHash {
  import opened Places
  import opened LruOrder

  type Image = seq<bv8>
  type File = map<PageIndex, Image>

  const LRU_WRAP := 0x1_0000_0000

  /** A page in memory: its image, whether it changed since the last snapshot, and its image in the snapshot. */
  datatype CachedPage = CachedPage(lru: nat, layout: Image, dirty: bool, snap: Image)

  type Pages = map<PageIndex, CachedPage>

  // ----- buckets -----

  /** The bucket of a page; the number of buckets is a power of two, and the mask takes the remainder. */
  function Home(p: PageIndex, n: nat): (b: nat)
    requires n > 0
    ensures b < n
  {
    p % n
  }

  ghost predicate Chained(chain: seq<PageIndex>, keys: set<PageIndex>, b: nat, n: nat)
    requires n > 0
  {
    Distinct(chain) && forall p :: p in chain <==> p in keys && Home(p, n) == b
  }

  /** Each page is in its bucket, once; the buckets hold nothing else. */
  ghost predicate Hashed(bucket: seq<seq<PageIndex>>, keys: set<PageIndex>)
  {
    |bucket| > 0 && forall b {:trigger bucket[b]} | 0 <= b < |bucket| :: Chained(bucket[b], keys, b, |bucket|)
  }

  function Cut(s: seq<PageIndex>, k: nat): seq<PageIndex>
    requires k < |s|
  {
    s[..k] + s[k + 1..]
  }

  lemma HashedMore(bucket: seq<seq<PageIndex>>, keys: set<PageIndex>, p: PageIndex)
    requires Hashed(bucket, keys) && p !in keys
    ensures
      var b := Home(p, |bucket|);
      Hashed(bucket[b := [p] + bucket[b]], keys + {p})
  {
    hide Home;
    var b := Home(p, |bucket|);
    var bucket' := bucket[b := [p] + bucket[b]];
    forall c | 0 <= c < |bucket| ensures Chained(bucket'[c], keys + {p}, c, |bucket|) {
      assert Chained(bucket[c], keys, c, |bucket|);
      if c == b {
        assert forall q :: q in [p] + bucket[b] <==> q == p || q in bucket[b];
      }
    }
  }

  lemma HashedLess(bucket: seq<seq<PageIndex>>, keys: set<PageIndex>, p: PageIndex, k: nat)
    requires Hashed(bucket, keys) && p in keys
    requires k < |bucket[Home(p, |bucket|)]| && bucket[Home(p, |bucket|)][k] == p
    ensures
      var b := Home(p, |bucket|);
      Hashed(bucket[b := Cut(bucket[b], k)], keys - {p})
  {
    hide Home;
    var b := Home(p, |bucket|);
    var bucket' := bucket[b := Cut(bucket[b], k)];
    forall c | 0 <= c < |bucket| ensures Chained(bucket'[c], keys - {p}, c, |bucket|) {
      assert Chained(bucket[c], keys, c, |bucket|);
      if c == b {
        CutElements(bucket[b], k);
      }
    }
  }

  lemma CutElements(s: seq<PageIndex>, k: nat)
    requires Distinct(s) && k < |s|
    ensures Distinct(Cut(s, k)) && forall q :: q in Cut(s, k) <==> q in s && q != s[k]
  {
    assert s == s[..k] + [s[k]] + s[k + 1..];
    assert s[k] !in s[..k] && s[k] !in s[k + 1..];
  }

  /** The pages of the first buckets, and then those of the next one. */
  ghost predicate Gathered(ps: seq<PageIndex>, keys: set<PageIndex>, b: nat, n: nat)
    requires n > 0
  {
    Distinct(ps) && forall p :: p in ps <==> p in keys && Home(p, n) < b
  }

  lemma GatherMore(ps: seq<PageIndex>, chain: seq<PageIndex>, keys: set<PageIndex>, b: nat, n: nat)
    requires n > 0 && Gathered(ps, keys, b, n) && Chained(chain, keys, b, n)
    ensures Gathered(ps + chain, keys, b + 1, n)
  {
    hide Home;
    forall i, j | 0 <= i < j < |ps + chain| ensures (ps + chain)[i] != (ps + chain)[j] {
      if i < |ps| <= j {
        assert ps[i] in ps && chain[j - |ps|] in chain;
      }
    }
  }

  // ----- stamps -----

  function Stamps(page: Pages): map<PageIndex, nat>
  {
    map p | p in page :: page[p].lru
  }

  /** Only stamps have changed. */
  ghost predicate Restamped(page: Pages, page': Pages)
  {
    page'.Keys == page.Keys && forall p | p in page :: page'[p] == page[p].(lru := page'[p].lru)
  }

  /** The order of use is the order of the stamps. */
  ghost predicate Used(order: seq<PageIndex>, page: Pages, lru: nat)
  {
    && Distinct(order)
    && (forall p :: p in order <==> p in page)
    && Ascending(order, Stamps(page))
    && (forall p | p in page :: page[p].lru < lru)
  }

  lemma {:induction false} OrderSize(order: seq<PageIndex>, keys: set<PageIndex>)
    requires Distinct(order) && forall p :: p in order <==> p in keys
    ensures |order| == |keys|
  {
    if order == [] {
      assert keys == {};
    } else {
      assert order == [order[0]] + order[1..];
      OrderSize(order[1..], keys - {order[0]});
    }
  }

  // ----- what the table holds -----

  /** The image a reader gets: the one in memory, or else the one in the file. */
  function View(page: Pages, file: File): File
  {
    map p | p in page.Keys + file.Keys :: if p in page then page[p].layout else file[p]
  }

  /** The file with the images of the snapshot. */
  function Overlaid(file: File, page: Pages, snapshot: set<PageIndex>): File
    requires forall p | p in snapshot :: p in page
  {
    map p | p in file.Keys + snapshot :: if p in snapshot then page[p].snap else file[p]
  }

  /** A clean page is as it was in the last snapshot, or, if it is not in it, as in the file. */
  ghost predicate Coherent(page: Pages, file: File, snapshot: set<PageIndex>)
  {
    && (forall p | p in snapshot :: p in page)
    && (forall p | p in page && !page[p].dirty ::
          if p in snapshot then page[p].layout == page[p].snap else p in file && page[p].layout == file[p])
  }

  class PageHash {
    var bucket: seq<seq<PageIndex>>   // the chains, from their heads on; the mask is |bucket| - 1
    var page: Pages
    var size: nat
    var lru: nat
    const cacheHigh: nat
    const cacheLow: nat
    ghost var order: seq<PageIndex>   // from the page used longest ago on

    ghost predicate Valid()
      reads this
    {
      && Hashed(bucket, page.Keys)
      && size == |page|
      && Used(order, page, lru) && lru < LRU_WRAP
      && Roomy()
    }

    /** A mask does for a remainder, a full cache has a bucket for each page, and so has a fuller one. */
    ghost predicate Roomy()
      reads `bucket, `size
    {
      Doubled(|bucket|) && cacheHigh <= |bucket| && size < |bucket|
    }

    constructor (high: nat, low: nat)
      ensures Valid() && page == map[] && order == [] && cacheHigh == high && cacheLow == low
      ensures |bucket| == 16 || |bucket| / 2 < high
    {
      var n := BucketSize(16, high);
      bucket := seq(n, _ => []);
      page, size, lru, cacheHigh, cacheLow, order := map[], 0, 0, high, low, [];
    }

    /** All pages, bucket by bucket. */
    method Collect() returns (ps: seq<PageIndex>)
      requires Hashed(bucket, page.Keys)
      ensures Covers(ps, page.Keys)
    {
      hide Home, Distinct, Chained;
      ps := [];
      NoneGathered(page.Keys, |bucket|);
      for b := 0 to |bucket|
        invariant Gathered(ps, page.Keys, b, |bucket|)
      {
        ghost var before := ps;
        for i := 0 to |bucket[b]|
          invariant ps == before + bucket[b][..i]
        {
          ps := ps + [bucket[b][i]];
        }
        assert bucket[b][..|bucket[b]|] == bucket[b];
        GatherMore(before, bucket[b], page.Keys, b, |bucket|);
      }
    }

    /** lru_adjust(): the stamps are given anew, in the same order. */
    method Renumber()
      requires Hashed(bucket, page.Keys) && size == |page| && Used(order, page, LRU_WRAP) && |page| < LRU_WRAP
      requires Roomy()
      modifies `page, `lru
      ensures Valid() && lru == |order|
      ensures Restamped(old(page), page)
    {
      hide Hashed, Distinct, Ascending, NumberedTo, Restamped, Used, Stamps, Covers;
      UsedKeys(order, page, LRU_WRAP);
      NumberStart(page, order);
      var ps := Collect();
      StampsOf(ps, page);
      var stamps := Stamps(page);
      var sorted := SortLru(ps, stamps);
      SortedIsOrder(ps, order, page, LRU_WRAP);
      ghost var was := page;
      lru := 0;
      for k := 0 to |sorted|
        invariant lru == k && Restamped(was, page) && NumberedTo(sorted, page, k)
      {
        NumberNext(sorted, was, page, k);
        page := page[sorted[k] := page[sorted[k]].(lru := lru)];
        lru := lru + 1;
      }
      RestampedKeys(was, page);
      Numbered(order, page);
    }

    /** lru_adjust(page): the page is the one used last. */
    method Touch(p: PageIndex)
      requires Valid() && p in page && |page| < LRU_WRAP
      modifies `page, `lru, `order
      ensures Valid() && order == Without(old(order), p) + [p]
      ensures Restamped(old(page), page)
    {
      hide Hashed, Distinct, Ascending, Stamps, Used;
      UseNow(order, page, lru, p);
      ghost var was := page;
      page := page[p := page[p].(lru := lru)];
      order := Without(order, p) + [p];
      lru := lru + 1;
      assert page.Keys == was.Keys;
      if lru == LRU_WRAP {
        Renumber();
      }
    }

    method SetDirty(p: PageIndex)
      requires Valid() && p in page
      modifies `page
      ensures Valid() && page == old(page)[p := old(page)[p].(dirty := true)]
    {
      SameUse(order, page, lru, p, page[p].(dirty := true));
      page := page[p := page[p].(dirty := true)];
    }

    method SetLayout(p: PageIndex, layout: Image)
      requires Valid() && p in page
      modifies `page
      ensures Valid() && page == old(page)[p := old(page)[p].(layout := layout)]
    {
      SameUse(order, page, lru, p, page[p].(layout := layout));
      page := page[p := page[p].(layout := layout)];
    }

    /** set_snapshot, for a dirty page: a copy of the image is kept, and the page is clean. */
    method SetSnapshot(p: PageIndex)
      requires Valid() && p in page && page[p].dirty
      modifies `page
      ensures Valid() && page == old(page)[p := old(page)[p].(dirty := false, snap := old(page)[p].layout)]
    {
      SameUse(order, page, lru, p, page[p].(dirty := false, snap := page[p].layout));
      page := page[p := page[p].(dirty := false, snap := page[p].layout)];
    }

    /** erase: out of its chain. */
    method Erase(p: PageIndex)
      requires Hashed(bucket, page.Keys) && size == |page| && p in page
      modifies `bucket, `page, `size
      ensures Hashed(bucket, page.Keys) && size == |page| && page == old(page) - {p} && size == old(size) - 1
      ensures |bucket| == |old(bucket)|
    {
      hide Home, Distinct;
      var b := Home(p, |bucket|);
      assert Chained(bucket[b], page.Keys, b, |bucket|) && p in bucket[b];
      var chain := bucket[b];
      var k := 0;
      while chain[k] != p
        invariant k < |chain| && p in chain[k..]
        decreases |chain| - k
      {
        assert chain[k..] == [chain[k]] + chain[k + 1..];
        k := k + 1;
      }
      HashedLess(bucket, page.Keys, p, k);
      bucket := bucket[b := Cut(chain, k)];
      size := size - 1;
      assert (page - {p}).Keys == page.Keys - {p};
      page := page - {p};
    }

    /** find */
    method Find(p: PageIndex) returns (found: bool)
      requires Valid() && |page| < LRU_WRAP
      modifies `page, `lru, `order
      ensures Valid() && found == (p in old(page)) && Restamped(old(page), page)
      ensures order == if found then Without(old(order), p) + [p] else old(order)
    {
      hide Home, Distinct, Used;
      var b := Home(p, |bucket|);
      assert Chained(bucket[b], page.Keys, b, |bucket|);
      for k := 0 to |bucket[b]|
        invariant p !in bucket[b][..k] && page == old(page) && lru == old(lru) && order == old(order) && Valid()
      {
        if bucket[b][k] == p {
          assert p in bucket[b];
          Touch(p);
          return true;
        }
        assert bucket[b][..k + 1] == bucket[b][..k] + [bucket[b][k]];
      }
      assert bucket[b][..|bucket[b]|] == bucket[b];
      found := false;
    }

    /** Twice as many buckets, for the pages as they are. */
    method Double()
      requires Hashed(bucket, page.Keys)
      modifies `bucket
      ensures Hashed(bucket, page.Keys) && |bucket| == 2 * |old(bucket)|
    {
      hide Home, Distinct, Chained, Hashed;
      HashedSome(bucket, page.Keys);
      var n := 2 * |bucket|;
      var tmp: seq<seq<PageIndex>> := seq(n, _ => []);
      NoneGathered(page.Keys, |bucket|);
      NoneHashed(tmp);
      ghost var ps: seq<PageIndex> := [];
      for b := 0 to |bucket|
        invariant bucket == old(bucket) && Gathered(ps, page.Keys, b, |bucket|) && |tmp| == n
          && Hashed(tmp, Elements(ps))
      {
        ghost var before := ps;
        HashedAt(bucket, page.Keys, b);
        GatherMore(before, bucket[b], page.Keys, b, |bucket|);
        GatheredDistinct(before + bucket[b], page.Keys, b + 1, |bucket|);
        for i := 0 to |bucket[b]|
          invariant bucket == old(bucket) && ps == before + bucket[b][..i] && |tmp| == n && Hashed(tmp, Elements(ps))
        {
          var p := bucket[b][i];
          NextIsNew(before, bucket[b], i);
          HashedMore(tmp, Elements(ps), p);
          var t := Home(p, n);
          tmp := tmp[t := [p] + tmp[t]];
          assert bucket[b][..i + 1] == bucket[b][..i] + [p];
          ps := ps + [p];
          assert Elements(ps) == Elements(before + bucket[b][..i]) + {p};
        }
        assert bucket[b][..|bucket[b]|] == bucket[b];
      }
      AllGathered(ps, page.Keys, |bucket|);
      bucket := tmp;
    }

    /** The page goes to the head of its chain. */
    method LinkIn(p: PageIndex, c: CachedPage)
      requires Hashed(bucket, page.Keys) && size == |page| && p !in page && Roomy()
      modifies `bucket, `page, `size
      ensures Hashed(bucket, page.Keys) && size == |page| && page == old(page)[p := c] && Roomy()
      ensures |bucket| == if |page| == |old(bucket)| then 2 * |page| else |old(bucket)|
    {
      hide Home, Hashed;
      HashedSome(bucket, page.Keys);
      var b := Home(p, |bucket|);
      HashedMore(bucket, page.Keys, p);
      bucket := bucket[b := [p] + bucket[b]];
      assert page[p := c].Keys == page.Keys + {p};
      page := page[p := c];
      size := size + 1;
      if size == |bucket| {
        Double();
      }
    }

    /** insert: a page that is not there yet. */
    method Insert(p: PageIndex, layout: Image)
      requires Valid() && p !in page && |page| + 1 < LRU_WRAP
      modifies `bucket, `page, `size, `lru, `order
      ensures Valid() && order == old(order) + [p]
      ensures page.Keys == old(page).Keys + {p} && page[p].layout == layout && !page[p].dirty
      ensures |bucket| == if |page| == |old(bucket)| then 2 * |page| else |old(bucket)|
      ensures forall q | q in old(page) :: page[q] == old(page)[q].(lru := page[q].lru)
    {
      hide Used, Hashed;
      var c := CachedPage(0, layout, false, layout);
      AddedUse(order, page, lru, p, c);
      ghost var was := page;
      LinkIn(p, c);
      assert page.Keys == was.Keys + {p};
      page := page[p := page[p].(lru := lru)];
      assert page == was[p := c.(lru := lru)] && page.Keys == was.Keys + {p};
      order := order + [p];
      lru := lru + 1;
      if lru == LRU_WRAP {
        Renumber();
      }
    }

    /** cleanup: clean pages go, from the one used longest ago on, until the low mark. */
    method Cleanup()
      requires Valid() && |page| < LRU_WRAP
      modifies `bucket, `page, `size, `lru, `order
      ensures Valid() && Remains(old(page), page)
      ensures order == if old(size) <= cacheHigh then old(order)
                       else Survivors(old(order), Clean(old(page)), old(size), cacheLow)
    {
      hide Home, Distinct, Used, Ascending, Hashed, Chained, Survivors, NumberedTo, Without, Stamps, Left, Clean,
        Covers, Remains;
      RemainsSame(page);
      if size <= cacheHigh {
        return;
      }
      UsedKeys(order, page, lru);
      var ps := Collect();
      StampsOf(ps, page);
      var sorted := SortLru(ps, Stamps(page));
      SortedIsOrder(ps, order, page, lru);
      LeftAll(sorted, page);
      ghost var was := page;
      ghost var kept;
      var k;
      k, kept := Evict(sorted, was);
      kept := Restamp(sorted, k, was, kept);
      LeftEnd(was, page, kept);
      order := kept;
    }

    /** The first loop of cleanup. */
    method Evict(sorted: seq<PageIndex>, ghost was: Pages) returns (k: nat, ghost kept: seq<PageIndex>)
      requires Hashed(bucket, page.Keys) && size == |page| && page == was && Left(was, page, [], sorted[0..])
      requires Roomy()
      modifies `bucket, `page, `size, `lru
      ensures k <= |sorted| && Hashed(bucket, page.Keys) && size == |page| && Roomy()
      ensures Left(was, page, kept, sorted[k..]) && lru == |kept|
      ensures Survivors(sorted, Clean(was), |was|, cacheLow) == kept + sorted[k..]
    {
      hide Home, Distinct, Used, Ascending, Hashed, Chained, Survivors, NumberedTo, Left, Clean, Covers, Remains,
        Stamps;
      ghost var clean := Clean(was);
      kept, k, lru := [], 0, 0;
      assert sorted[0..] == sorted;
      assert [] + Survivors(sorted, clean, size, cacheLow) == Survivors(sorted, clean, size, cacheLow);
      while size > cacheLow && k < |sorted|
        invariant k <= |sorted| && Hashed(bucket, page.Keys) && size == |page| && Roomy()
        invariant Left(was, page, kept, sorted[k..]) && lru == |kept|
        invariant Survivors(sorted, clean, |was|, cacheLow) == kept + Survivors(sorted[k..], clean, size, cacheLow)
      {
        var p := sorted[k];
        LeftHas(was, page, kept, sorted, k);
        SurvivorsNext(sorted[k..], clean, size, cacheLow);
        if !page[p].dirty {
          LeftErase(was, page, kept, sorted, k);
          Erase(p);
        } else {
          LeftKeep(was, page, kept, sorted, k);
          page := page[p := page[p].(lru := lru)];
          lru := lru + 1;
          GroupAgain(kept, p, Survivors(sorted[k + 1..], clean, size, cacheLow));
          kept := kept + [p];
        }
        k := k + 1;
      }
      SurvivorsEnd(sorted[k..], clean, size, cacheLow);
    }

    /** The second loop of cleanup. */
    method Restamp(sorted: seq<PageIndex>, from: nat, ghost was: Pages, ghost before: seq<PageIndex>)
      returns (ghost kept: seq<PageIndex>)
      requires from <= |sorted| && Hashed(bucket, page.Keys) && size == |page|
      requires Left(was, page, before, sorted[from..]) && lru == |before|
      modifies `page, `lru
      ensures Hashed(bucket, page.Keys) && size == |page|
      ensures Left(was, page, kept, []) && lru == |kept| && kept == before + sorted[from..]
    {
      hide Home, Distinct, Used, Ascending, Hashed, Chained, NumberedTo, Left;
      kept := before;
      var k := from;
      while k < |sorted|
        invariant from <= k <= |sorted| && Hashed(bucket, page.Keys) && size == |page|
        invariant Left(was, page, kept, sorted[k..]) && lru == |kept| && kept == before + sorted[from..k]
      {
        var p := sorted[k];
        LeftHas(was, page, kept, sorted, k);
        LeftKeep(was, page, kept, sorted, k);
        page := page[p := page[p].(lru := lru)];
        lru := lru + 1;
        kept := kept + [p];
        k := k + 1;
      }
      assert sorted[k..] == [];
    }
  }

  function Clean(page: Pages): set<PageIndex>
  {
    set p | p in page && !page[p].dirty
  }

  ghost predicate Covers(all: seq<PageIndex>, keys: set<PageIndex>)
  {
    Distinct(all) && forall p :: p in all <==> p in keys
  }

  ghost predicate Remains(was: Pages, page: Pages)
  {
    forall p | p in page :: p in was && page[p] == was[p].(lru := page[p].lru)
  }

  /** In the middle of a cleanup: the pages kept, with new stamps, and the pages still to be looked at. */
  ghost predicate Left(was: Pages, page: Pages, kept: seq<PageIndex>, rest: seq<PageIndex>)
  {
    Covers(kept + rest, page.Keys) && Remains(was, page) && NumberedTo(kept, page, |kept|)
  }

  lemma LeftAll(order: seq<PageIndex>, page: Pages)
    requires Covers(order, page.Keys)
    ensures Left(page, page, [], order[0..])
  {
    assert [] + order[0..] == order;
  }

  lemma LeftHas(was: Pages, page: Pages, kept: seq<PageIndex>, sorted: seq<PageIndex>, k: nat)
    requires k < |sorted| && Left(was, page, kept, sorted[k..])
    ensures
      var p := sorted[k];
      && p in page && (p in Clean(was) <==> !page[p].dirty)
      && sorted[k..] == [p] + sorted[k + 1..] && sorted[k..][0] == p && sorted[k..][1..] == sorted[k + 1..]
      && (page[p := page[p].(lru := |kept|)]).Keys == page.Keys && |page[p := page[p].(lru := |kept|)]| == |page|
  {
    var p := sorted[k];
    assert (kept + sorted[k..])[|kept|] == p;
    assert p in kept + sorted[k..];
    assert (page[p := page[p].(lru := |kept|)]).Keys == page.Keys;
    SizeOfKeys(page);
    SizeOfKeys(page[p := page[p].(lru := |kept|)]);
  }

  lemma {:induction false} Fewer(a: set<PageIndex>, b: set<PageIndex>)
    requires a <= b
    ensures |a| <= |b|
  {
    if a != {} {
      var x :| x in a;
      Fewer(a - {x}, b - {x});
    }
  }

  lemma SizeOfKeys(page: Pages)
    ensures |page| == |page.Keys|
  {
  }

  lemma LeftErase(was: Pages, page: Pages, kept: seq<PageIndex>, sorted: seq<PageIndex>, k: nat)
    requires k < |sorted| && Left(was, page, kept, sorted[k..]) && sorted[k] in page
    ensures Left(was, page - {sorted[k]}, kept, sorted[k + 1..])
  {
    hide Distinct;
    var p, all := sorted[k], kept + sorted[k..];
    assert Cut(all, |kept|) == kept + sorted[k + 1..] && all[|kept|] == p;
    CutElements(all, |kept|);
    forall i | 0 <= i < |kept| ensures kept[i] in page - {p} && (page - {p})[kept[i]].lru == i {
      KeptOther(all, |kept|, i);
      assert kept[i] == all[i];
    }
  }

  lemma LeftKeep(was: Pages, page: Pages, kept: seq<PageIndex>, sorted: seq<PageIndex>, k: nat)
    requires k < |sorted| && Left(was, page, kept, sorted[k..]) && sorted[k] in page
    ensures Left(was, page[sorted[k] := page[sorted[k]].(lru := |kept|)], kept + [sorted[k]], sorted[k + 1..])
  {
    hide Distinct;
    var p, all := sorted[k], kept + sorted[k..];
    var page', kept' := page[p := page[p].(lru := |kept|)], kept + [p];
    assert kept' + sorted[k + 1..] == all && page'.Keys == page.Keys;
    forall i | 0 <= i < |kept'| ensures kept'[i] in page' && page'[kept'[i]].lru == i {
      if i < |kept| {
        KeptOther(all, |kept|, i);
        assert kept[i] in page && page[kept[i]].lru == i && kept[i] == all[i] && all[|kept|] == p;
      }
    }
  }

  lemma KeptOther(all: seq<PageIndex>, n: nat, i: nat)
    requires Distinct(all) && i < n < |all|
    ensures all[i] != all[n]
  {
  }

  lemma LeftEnd(was: Pages, page: Pages, kept: seq<PageIndex>)
    requires Left(was, page, kept, [])
    ensures Used(kept, page, |kept|) && |kept| == |page| <= |was| && Remains(was, page)
  {
    assert kept + [] == kept;
    SizeOfKeys(was);
    Fewer(page.Keys, was.Keys);
    Numbered(kept, page);
    OrderSize(kept, page.Keys);
    SizeOfKeys(page);
  }

  lemma GroupAgain(s: seq<PageIndex>, p: PageIndex, t: seq<PageIndex>)
    ensures s + ([p] + t) == s + [p] + t
  {
  }

  lemma SurvivorsNext(s: seq<PageIndex>, clean: set<PageIndex>, size: int, low: nat)
    requires s != [] && size > low
    ensures Survivors(s, clean, size, low) ==
              if s[0] in clean then Survivors(s[1..], clean, size - 1, low)
              else [s[0]] + Survivors(s[1..], clean, size, low)
  {
  }

  lemma SurvivorsEnd(s: seq<PageIndex>, clean: set<PageIndex>, size: int, low: nat)
    requires s == [] || size <= low
    ensures Survivors(s, clean, size, low) == s
  {
  }

  function Elements(s: seq<PageIndex>): set<PageIndex>
  {
    set x | x in s
  }

  lemma HashedSome(bucket: seq<seq<PageIndex>>, keys: set<PageIndex>)
    requires Hashed(bucket, keys)
    ensures |bucket| > 0
  {
  }

  lemma HashedAt(bucket: seq<seq<PageIndex>>, keys: set<PageIndex>, b: nat)
    requires Hashed(bucket, keys) && b < |bucket|
    ensures Chained(bucket[b], keys, b, |bucket|)
  {
  }

  lemma NoneHashed(tmp: seq<seq<PageIndex>>)
    requires |tmp| > 0 && forall b | 0 <= b < |tmp| :: tmp[b] == []
    ensures Hashed(tmp, Elements([]))
  {
  }

  lemma GatheredDistinct(ps: seq<PageIndex>, keys: set<PageIndex>, b: nat, n: nat)
    requires n > 0 && Gathered(ps, keys, b, n)
    ensures Distinct(ps)
  {
  }

  lemma NextIsNew(before: seq<PageIndex>, chain: seq<PageIndex>, i: nat)
    requires i < |chain| && Distinct(before + chain)
    ensures chain[i] !in Elements(before + chain[..i])
  {
    var all := before + chain;
    assert before + chain[..i] == all[..|before| + i] && all[|before| + i] == chain[i];
  }

  lemma AllGathered(ps: seq<PageIndex>, keys: set<PageIndex>, n: nat)
    requires n > 0 && Gathered(ps, keys, n, n)
    ensures Elements(ps) == keys
  {
  }

  /** A change to a page that is not to its stamp */
  lemma SameUse(order: seq<PageIndex>, page: Pages, lru: nat, p: PageIndex, c: CachedPage)
    requires Used(order, page, lru) && p in page && c.lru == page[p].lru
    ensures Used(order, page[p := c], lru) && (page[p := c]).Keys == page.Keys && |page[p := c]| == |page|
  {
    assert Stamps(page[p := c]) == Stamps(page);
    assert (page[p := c]).Keys == page.Keys;
    SizeOfKeys(page);
    SizeOfKeys(page[p := c]);
  }

  /** A new page is the one used last. */
  lemma AddedUse(order: seq<PageIndex>, page: Pages, lru: nat, p: PageIndex, c: CachedPage)
    requires Used(order, page, lru) && p !in page
    ensures Used(order + [p], page[p := c.(lru := lru)], lru + 1)
  {
    var page', order' := page[p := c.(lru := lru)], order + [p];
    assert forall q :: q in order' <==> q in order || q == p;
    assert Stamps(page') == Stamps(page)[p := lru];
    forall i, j | 0 <= i < j < |order'|
      ensures order'[i] != order'[j] && Stamps(page')[order'[i]] < Stamps(page')[order'[j]]
    {
      assert order[i] in order;
      if j < |order| {
        assert order[j] in order;
      }
    }
  }

  /** Sorting all pages by their stamps gives the order of use. */
  lemma SortedIsOrder(ps: seq<PageIndex>, order: seq<PageIndex>, page: Pages, lru: nat)
    requires Used(order, page, lru) && Covers(ps, page.Keys)
    ensures (forall x | x in ps :: x in Stamps(page)) && SortLru(ps, Stamps(page)) == order
  {
    var stamps := Stamps(page);
    StampsDiffer(order, page);
    SortIs(ps, stamps);
    OneOrder(SortLru(ps, stamps), order, stamps);
  }

  lemma UseNow(order: seq<PageIndex>, page: Pages, lru: nat, p: PageIndex)
    requires Used(order, page, lru) && p in page
    ensures Used(Without(order, p) + [p], page[p := page[p].(lru := lru)], lru + 1)
  {
    var page', order' := page[p := page[p].(lru := lru)], Without(order, p) + [p];
    UseLast(order, p, Stamps(page), lru);
    WithoutElements(order, p);
    WithoutDistinct(order, p);
    assert Stamps(page') == Stamps(page)[p := lru];
    assert forall q :: q in order' <==> q in order || q == p;
    assert Distinct(order') by {
      forall i, j | 0 <= i < j < |order'| ensures order'[i] != order'[j] {
        assert Without(order, p)[i] in Without(order, p);
      }
    }
  }

  lemma NoneGathered(keys: set<PageIndex>, n: nat)
    requires n > 0
    ensures Gathered([], keys, 0, n)
  {
  }

  /** 16, and what doubling makes of it. */
  predicate Doubled(n: nat)
    ensures Doubled(n) ==> n >= 16
  {
    n == 16 || (n > 16 && n % 2 == 0 && Doubled(n / 2))
  }

  /** The size the table starts with. */
  method BucketSize(from: nat, high: nat) returns (n: nat)
    requires Doubled(from)
    ensures Doubled(n) && n >= high && (n == from || n / 2 < high)
  {
    n := from;
    while n < high
      invariant Doubled(n) && (n == from || n / 2 < high)
      decreases high - n
    {
      n := 2 * n;
    }
  }

  lemma StampsDiffer(order: seq<PageIndex>, page: Pages)
    requires Distinct(order) && Ascending(order, Stamps(page)) && forall p :: p in order <==> p in page
    ensures forall p, q | p in page && q in page && p != q :: Stamps(page)[p] != Stamps(page)[q]
  {
    forall p, q | p in page && q in page && p != q ensures Stamps(page)[p] != Stamps(page)[q] {
      var i :| 0 <= i < |order| && order[i] == p;
      var j :| 0 <= j < |order| && order[j] == q;
      var a, b := if i < j then i else j, if i < j then j else i;
      assert Stamps(page)[order[a]] < Stamps(page)[order[b]];
    }
  }

  ghost predicate NumberedTo(order: seq<PageIndex>, page: Pages, k: nat)
    requires k <= |order|
  {
    forall i | 0 <= i < k :: order[i] in page && page[order[i]].lru == i
  }

  lemma NumberStart(page: Pages, order: seq<PageIndex>)
    ensures Restamped(page, page) && NumberedTo(order, page, 0)
  {
  }

  lemma NumberNext(order: seq<PageIndex>, was: Pages, page: Pages, k: nat)
    requires k < |order| && Restamped(was, page) && NumberedTo(order, page, k) && Distinct(order)
    requires Covers(order, was.Keys)
    ensures order[k] in page
    ensures Restamped(was, page[order[k] := page[order[k]].(lru := k)])
    ensures NumberedTo(order, page[order[k] := page[order[k]].(lru := k)], k + 1)
  {
    assert order[k] in order && order[k] in was;
  }

  lemma Numbered(order: seq<PageIndex>, page: Pages)
    requires Covers(order, page.Keys) && NumberedTo(order, page, |order|)
    ensures Used(order, page, |order|)
  {
  }

  lemma UsedKeys(order: seq<PageIndex>, page: Pages, lru: nat)
    requires Used(order, page, lru)
    ensures Covers(order, page.Keys) && |order| == |page|
  {
    OrderSize(order, page.Keys);
    SizeOfKeys(page);
  }

  lemma RestampedKeys(was: Pages, page: Pages)
    requires Restamped(was, page)
    ensures page.Keys == was.Keys
  {
  }

  lemma StampsOf(ps: seq<PageIndex>, page: Pages)
    requires Covers(ps, page.Keys)
    ensures forall p | p in ps :: p in Stamps(page)
  {
  }

  lemma RemainsSame(page: Pages)
    ensures Remains(page, page)
  {
  }

  lemma {:induction false} WithoutDistinct(s: seq<PageIndex>, x: PageIndex)
    requires Distinct(s)
    ensures Distinct(Without(s, x))
  {
    if s != [] {
      WithoutDistinct(s[1..], x);
      WithoutElements(s[1..], x);
      assert s == [s[0]] + s[1..] && s[0] !in s[1..];
    }
  }
}
