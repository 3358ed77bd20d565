/** What splitting, freeing and joining blocks keeps. */
module HeapSteps {
  import opened Places
  import opened Octets
  import opened IndexPage
  import opened HeapState
  import opened FreeLists

  // ----- a heap at rest, but for some blocks in hand -----

  /** A block is live or on a list; a free block has no free block after it and is not a whole page. */
  ghost predicate Fine(h: Heap, c: Pos)
    requires c in h.blocks
  {
    var b := h.blocks;
    && (b[c].size == 0 <==> c in h.listed)
    && b[c].size <= Capacity(b, c) && |b[c].bytes| == b[c].size
    && (c in h.listed ==> NextPos(b, c) !in h.listed && Capacity(b, c) != PAGEMAXSPARE)
  }

  ghost predicate Good(h: Heap, hole: set<Pos>)
  {
    && Tiled(h.blocks)
    && Lists(h)
    && hole !! h.listed
    && (forall c {:trigger Fine(h, c)} | c in h.blocks && c !in hole :: Fine(h, c))
  }

  /** The live blocks: what the records are made of. */
  function Live(b: Blocks): Blocks
  {
    map c | c in b && b[c].size != 0 :: b[c]
  }

  lemma RelinkedLive(b: Blocks, b': Blocks, listed: set<Pos>)
    requires Relinked(b, b', listed)
    requires forall c | c in listed && c in b :: b[c].size == 0
    ensures Live(b') == Live(b)
  {
  }

  // ----- off a list, onto a list -----

  lemma ClearGood(h: Heap, hole: set<Pos>, a: Pos)
    requires Good(h, hole) && a in h.listed
    ensures Good(Cleared(h, a), hole + {a}) && Live(Cleared(h, a).blocks) == Live(h.blocks)
  {
    hide Lists, Tiled;
    var h' := Cleared(h, a);
    ClearedKeeps(h, a);
    assert h'.listed == h.listed - {a};
    assert Tiled(h'.blocks) by { SameTiles(h.blocks, h'.blocks); }
    forall c | c in h'.blocks && c !in hole + {a} ensures Fine(h', c) {
      assert Fine(h, c);
    }
    forall c | c in h.listed - {a} && c in h.blocks ensures h.blocks[c].size == 0 {
      ListedIn(h, c);
    }
    RelinkedLive(h.blocks, h'.blocks, h.listed - {a});
  }

  /** No free block just before the block in hand. */
  ghost predicate NoneBefore(h: Heap, a: Pos)
  {
    forall c | c in h.blocks && c in h.listed :: NextPos(h.blocks, c) != a
  }

  /** No free block next to the block in hand. */
  ghost predicate Alone(h: Heap, a: Pos)
    requires a in h.blocks
  {
    NextPos(h.blocks, a) !in h.listed && NoneBefore(h, a)
  }

  lemma PushGood(h: Heap, hole: set<Pos>, a: Pos)
    requires Good(h, hole + {a}) && a !in hole && a in h.blocks && h.blocks[a].size == 0 && h.blocks[a].bytes == []
    requires Alone(h, a) && Capacity(h.blocks, a) != PAGEMAXSPARE
    ensures 0 <= Class(h.blocks, a) < CLASSES && forall i | 0 <= i < CLASSES :: IsHead(h, i)
    ensures Good(Pushed(h, a), hole) && Live(Pushed(h, a).blocks) == Live(h.blocks)
  {
    hide OnList, IsHead, Tiled;
    PushReady(h, hole + {a}, a);
    PushedKeeps(h, a);
    hide Lists;
    var h' := Pushed(h, a);
    assert h'.listed == h.listed + {a};
    SameTiles(h.blocks, h'.blocks);
    forall c | c in h'.blocks && c !in hole ensures Fine(h', c) {
      if c != a {
        assert Fine(h, c);
      }
    }
    forall c | c in h'.listed && c in h.blocks ensures h.blocks[c].size == 0 {
      if c != a {
        ListedIn(h, c);
      }
    }
    RelinkedLive(h.blocks, h'.blocks, h'.listed);
  }

  lemma PushReady(h: Heap, hole: set<Pos>, a: Pos)
    requires Good(h, hole) && a in h.blocks
    ensures a.page != 0 && 0 <= Class(h.blocks, a) < CLASSES && forall i | 0 <= i < CLASSES :: IsHead(h, i)
  {
    CapacityAtLeast(h.blocks, a);
    assert Tile(h.blocks, a);
  }

  // ----- joining -----

  function WithNext(h: Heap, a: Pos): Heap
    requires a in h.blocks && NextPos(h.blocks, a) in h.blocks
  {
    h.(blocks := Merged(h.blocks, a))
  }

  /** A block in hand takes in the block after it, which is in hand too. */
  lemma JoinGood(h: Heap, hole: set<Pos>, a: Pos)
    requires a in h.blocks && NextPos(h.blocks, a) in h.blocks
    requires Good(h, hole + {a, NextPos(h.blocks, a)}) && NextPos(h.blocks, a) !in hole
    requires h.blocks[a].size == 0 && h.blocks[NextPos(h.blocks, a)].size == 0
    ensures Good(WithNext(h, a), hole + {a}) && Live(WithNext(h, a).blocks) == Live(h.blocks)
  {
    hide Lists, Tiled, Before;
    var h', n := WithNext(h, a), NextPos(h.blocks, a);
    MergedTiles(h.blocks, a);
    ListsSame(h, h');
    forall c | c in h'.blocks && c !in hole + {a} ensures Fine(h', c) {
      assert Fine(h, c);
    }
  }

  /** A live block takes in a block in hand after it. */
  lemma JoinLive(h: Heap, hole: set<Pos>, a: Pos)
    requires a in h.blocks && NextPos(h.blocks, a) in h.blocks && h.blocks[a].size != 0
    requires Good(h, hole + {NextPos(h.blocks, a)}) && a !in hole && NextPos(h.blocks, a) !in hole
    requires h.blocks[NextPos(h.blocks, a)].size == 0
    ensures Good(WithNext(h, a), hole)
    ensures Live(WithNext(h, a).blocks) == Live(h.blocks)[a := WithNext(h, a).blocks[a]]
  {
    hide Lists, Tiled, Before;
    var h', n := WithNext(h, a), NextPos(h.blocks, a);
    MergedTiles(h.blocks, a);
    MergedMore(h.blocks, a);
    assert Fine(h, a);
    ListsSame(h, h');
    forall c | c in h'.blocks && c !in hole ensures Fine(h', c) {
      assert Fine(h, c);
    }
  }

  lemma MergedMore(b: Blocks, a: Pos)
    requires Tiled(b) && a in b && NextPos(b, a) in b
    ensures b[NextPos(b, a)].next > b[a].next
  {
    assert Tile(b, NextPos(b, a));
  }

  // ----- cutting -----

  function Rest(next: nat): Block
  {
    Block(next, 0, false, NONE, NONE, [])
  }

  function WithCut(h: Heap, a: Pos, at: nat): Heap
    requires a in h.blocks
  {
    h.(blocks := Cut(h.blocks, a, at, Rest(h.blocks[a].next)))
  }

  /** What a live block does not need is cut off, and in hand. */
  lemma CutGood(h: Heap, hole: set<Pos>, a: Pos, at: nat)
    requires Good(h, hole) && a in h.blocks && a !in hole && h.blocks[a].size != 0
    requires at % 16 == 0 && a.off + 16 <= at && a.off + HEADER + h.blocks[a].size <= at && at + 16 <= h.blocks[a].next
    requires NextPos(h.blocks, a) !in h.listed
    ensures Pos(a.page, at) !in h.blocks
    ensures Good(WithCut(h, a, at), hole + {Pos(a.page, at)}) && Alone(WithCut(h, a, at), Pos(a.page, at))
    ensures Live(WithCut(h, a, at).blocks) == Live(h.blocks)[a := h.blocks[a].(next := at)]
  {
    hide Lists, Tiled, Before;
    var h', n := WithCut(h, a, at), Pos(a.page, at);
    CutTiles(h.blocks, a, at, Rest(h.blocks[a].next));
    ListedOnlyBlocks(h);
    assert Fine(h, a);
    ListsSame(h, h');
    forall c | c in h'.blocks && c !in hole + {n} ensures Fine(h', c) {
      assert Fine(h, c);
      if c in h.listed {
        ListedTile(h, c);
      }
    }
    forall c | c in h'.blocks && c in h'.listed ensures NextPos(h'.blocks, c) != n {
      ListedTile(h, c);
    }
  }

  lemma ListedOnlyBlocks(h: Heap)
    requires Lists(h)
    ensures forall c | c in h.listed :: c in h.blocks && h.blocks[c].size == 0
  {
    forall c | c in h.listed ensures c in h.blocks && h.blocks[c].size == 0 {
      ListedIn(h, c);
    }
  }

  /** What follows a listed block is a block, or the end of the page. */
  lemma ListedTile(h: Heap, c: Pos)
    requires Tiled(h.blocks) && c in h.blocks
    ensures h.blocks[c].next == PAGEUSED || NextPos(h.blocks, c) in h.blocks
    ensures h.blocks[c].next <= PAGEUSED
  {
    assert Tile(h.blocks, c);
  }

  // ----- live and not live -----

  function Emptied(h: Heap, a: Pos): Heap
    requires a in h.blocks
  {
    h.(blocks := h.blocks[a := h.blocks[a].(size := 0, firstSlice := false, bytes := [])])
  }

  /** A live block is given up: it is in hand. */
  lemma MarkGood(h: Heap, a: Pos)
    requires Good(h, {}) && a in h.blocks && h.blocks[a].size != 0
    ensures Good(Emptied(h, a), {a}) && Live(Emptied(h, a).blocks) == Live(h.blocks) - {a}
  {
    hide Lists, Tiled;
    var h' := Emptied(h, a);
    assert Fine(h, a);
    SameTiles(h.blocks, h'.blocks);
    ListsSame(h, h');
    forall c | c in h'.blocks && c !in {a} ensures Fine(h', c) {
      assert Fine(h, c);
    }
  }

  /** A live block changes its contents, its size within the capacity, and what it links to. */
  function Filled(h: Heap, a: Pos, bytes: Octets, firstSlice: bool, link: Pos): Heap
    requires a in h.blocks
  {
    h.(blocks := h.blocks[a := h.blocks[a].(size := |bytes|, bytes := bytes, firstSlice := firstSlice, link := link)])
  }

  /** A block in hand, or a live one, becomes live with new contents. */
  lemma FillGood(h: Heap, hole: set<Pos>, a: Pos, bytes: Octets, firstSlice: bool, link: Pos)
    requires Good(h, hole + {a}) || Good(h, hole)
    requires a in h.blocks && a !in hole && a !in h.listed && 0 < |bytes| <= Capacity(h.blocks, a)
    ensures Good(Filled(h, a, bytes, firstSlice, link), hole)
    ensures Live(Filled(h, a, bytes, firstSlice, link).blocks) ==
              Live(h.blocks)[a := Filled(h, a, bytes, firstSlice, link).blocks[a]]
  {
    hide Lists, Tiled;
    var h' := Filled(h, a, bytes, firstSlice, link);
    SameTiles(h.blocks, h'.blocks);
    ListsSame(h, h');
    forall c | c in h'.blocks && c !in hole ensures Fine(h', c) {
      if c != a {
        assert Fine(h, c);
      }
    }
  }

  // ----- whole pages -----

  function WithPage(h: Heap, p: PageIndex): Heap
  {
    h.(blocks := h.blocks[Pos(p, 0) := Rest(PAGEUSED)])
  }

  lemma PageGood(h: Heap, p: PageIndex)
    requires Good(h, {}) && p != 0 && forall a | a in h.blocks :: a.page != p
    ensures Good(WithPage(h, p), {Pos(p, 0)}) && Live(WithPage(h, p).blocks) == Live(h.blocks)
  {
    hide Lists, Tiled;
    var h', n := WithPage(h, p), Pos(p, 0);
    NewTiles(h.blocks, p, Rest(PAGEUSED));
    ListedOnlyBlocks(h);
    ListsSame(h, h');
    forall c | c in h'.blocks && c !in {n} ensures Fine(h', c) {
      assert Fine(h, c);
    }
  }

  function WithoutPage(h: Heap, a: Pos): Heap
  {
    h.(blocks := h.blocks - {a})
  }

  lemma NoPageGood(h: Heap, a: Pos)
    requires Good(h, {a}) && a in h.blocks && h.blocks[a].size == 0 && Capacity(h.blocks, a) == PAGEMAXSPARE
    ensures Good(WithoutPage(h, a), {}) && Live(WithoutPage(h, a).blocks) == Live(h.blocks)
    ensures a.off == 0 && forall c | c in h.blocks && c.page == a.page :: c == a
  {
    hide Lists, Tiled;
    var h' := WithoutPage(h, a);
    CapacityAtLeast(h.blocks, a);
    DropTiles(h.blocks, a);
    ListsSame(h, h');
    forall c | c in h'.blocks && c !in {} ensures Fine(h', c) {
      assert Fine(h, c);
    }
  }

  // ----- the neighbours of a block that is given up -----

  /** The block before is free: it has no free block before it. */
  lemma NoneBeforeFree(h: Heap, hole: set<Pos>, p: Pos)
    requires Good(h, hole) && p in h.listed
    ensures NoneBefore(h, p)
  {
    forall c | c in h.blocks && c in h.listed ensures NextPos(h.blocks, c) != p {
      assert Fine(h, c);
    }
  }

  /** The block before is live, or there is none. */
  lemma NoneBeforeLive(h: Heap, a: Pos, p: Pos)
    requires Tiled(h.blocks) && a in h.blocks
    requires a.off == 0 || (p in h.blocks && p !in h.listed && NextPos(h.blocks, p) == a)
    ensures NoneBefore(h, a)
  {
    forall c | c in h.blocks && c in h.listed ensures NextPos(h.blocks, c) != a {
      assert Tile(h.blocks, c);
      if a.off != 0 {
        assert Tile(h.blocks, p) && Before(h.blocks, c, p) && Before(h.blocks, p, c);
      }
    }
  }

  /** Joining other blocks puts no free block before this one. */
  lemma NoneBeforeStays(h: Heap, h': Heap, a: Pos)
    requires NoneBefore(h, a) && h'.listed <= h.listed
    requires forall c | c in h'.listed && c in h'.blocks :: c in h.blocks && h'.blocks[c].next == h.blocks[c].next
    ensures NoneBefore(h', a)
  {
  }

  /** What becomes of the free block p when it leaves its list and takes in the block a after it, both in hand. */
  lemma TakeInLeft(h: Heap, p: Pos, a: Pos)
    requires Good(h, {a}) && a in h.blocks && h.blocks[a].size == 0 && p in h.listed && p in h.blocks
    requires NextPos(h.blocks, p) == a
    ensures p in Cleared(h, p).blocks && NextPos(Cleared(h, p).blocks, p) == a && a in Cleared(h, p).blocks
    ensures Good(WithNext(Cleared(h, p), p), {p}) && Live(WithNext(Cleared(h, p), p).blocks) == Live(h.blocks)
    ensures NoneBefore(WithNext(Cleared(h, p), p), p)
    ensures h.blocks[p].bytes == [] && h.blocks[p].size == 0 && Cleared(h, p).blocks[p] == h.blocks[p]
  {
    hide Tiled;
    assert Fine(h, p);
    NoneBeforeFree(h, {a}, p);
    ClearGood(h, {a}, p);
    ClearedKeeps(h, p);
    hide Lists, Good;
    ListedIn(h, p);
    var h1 := Cleared(h, p);
    assert {a} + {p} == {} + {p, a} && {p} == {} + {p};
    JoinGood(h1, {}, p);
    NoneBeforeStays(h, WithNext(h1, p), p);
  }

  /** What becomes of the block cur in hand when the free block n after it leaves its list and is taken in. */
  lemma TakeInRight(h: Heap, cur: Pos, n: Pos)
    requires Good(h, {cur}) && cur in h.blocks && h.blocks[cur].size == 0 && NoneBefore(h, cur)
    requires NextPos(h.blocks, cur) == n && n in h.blocks && h.blocks[n].size == 0 && n != cur
    ensures n in h.listed && cur in Cleared(h, n).blocks && NextPos(Cleared(h, n).blocks, cur) == n
    ensures n in Cleared(h, n).blocks && Cleared(h, n).blocks[cur] == h.blocks[cur]
    ensures Good(WithNext(Cleared(h, n), cur), {cur}) && Live(WithNext(Cleared(h, n), cur).blocks) == Live(h.blocks)
    ensures Alone(WithNext(Cleared(h, n), cur), cur)
  {
    hide Tiled;
    assert Fine(h, n);
    ClearGood(h, {cur}, n);
    ClearedKeeps(h, n);
    ListedIn(h, n);
    hide Lists, Good;
    var h1 := Cleared(h, n);
    assert cur !in h.listed && {cur} + {n} == {} + {cur, n} && {cur} == {} + {cur};
    JoinGood(h1, {}, cur);
    NoneBeforeStays(h, WithNext(h1, cur), cur);
  }

  // ----- what a heap at rest is like -----

  /** A data page is there for a live block. */
  lemma PageHasLive(h: Heap, p: PageIndex) returns (a: Pos)
    requires Good(h, {}) && Pos(p, 0) in h.blocks
    ensures a in Live(h.blocks) && a.page == p
  {
    var first := Pos(p, 0);
    assert Fine(h, first) && Tile(h.blocks, first);
    if h.blocks[first].size != 0 {
      a := first;
    } else {
      CapacityAtLeast(h.blocks, first);
      a := NextPos(h.blocks, first);
      assert Fine(h, a);
    }
  }

  /** No two free blocks lie next to each other. */
  lemma FreeAreApart(h: Heap, a: Pos)
    requires Good(h, {}) && a in h.blocks && h.blocks[a].size == 0 && NextPos(h.blocks, a) in h.blocks
    ensures h.blocks[NextPos(h.blocks, a)].size != 0
  {
    assert Fine(h, a) && Fine(h, NextPos(h.blocks, a));
  }

  /** A free block is on the list of its class, and on no other; a live block is on none. */
  lemma FreeIsOnItsList(h: Heap, a: Pos, i: nat)
    requires Good(h, {}) && a in h.blocks && i < CLASSES
    ensures h.frag[i] == NONE || h.frag[i] in h.listed
    ensures a in From(h, h.frag[i]) <==> h.blocks[a].size == 0 && Class(h.blocks, a) == i
  {
    OnItsList(h, i);
    assert Fine(h, a);
  }
}
