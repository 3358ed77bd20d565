/** The data heap: variable-size blocks in pages of a shared page space. */
module DataHeap {
  import opened Places
  import opened Octets
  import opened IndexPage
  import opened SavedFile
  import opened PageSpace
  import opened HeapState
  import opened FreeLists
  import opened HeapSteps
  import opened FreeBlocks

  /** The data pages: every block lies in one of them, and each has a block at its start. */
  ghost predicate Paged(b: Blocks, pages: set<PageIndex>)
  {
    && (forall a {:trigger a in b} | a in b :: a.page in pages)
    && (forall p | p in pages :: Pos(p, 0) in b)
  }

  class DataHeap {
    var blocks: Blocks
    var frag: seq<Pos>           // frag_page_index and frag_page_pos of the magic page
    const space: PageSpace
    ghost var listed: set<Pos>
    ghost var rank: map<Pos, nat>
    ghost var clock: nat
    ghost var pages: set<PageIndex>
    ghost var dirty: set<PageIndex>   // the pages marked here since the file was saved

    ghost function St(): Heap
      reads this
    {
      Heap(blocks, frag, listed, rank, clock)
    }

    ghost predicate Sound(hole: set<Pos>)
      reads this, space, space.file
    {
      && Good(St(), hole)
      && Paged(blocks, pages) && pages <= space.used && space.Valid()
      && Marked()
    }

    /** Every data page that is not as in the file has been marked dirty, and so has page 0 if a list has a new head. */
    ghost predicate Marked()
      reads `blocks, `frag, `dirty, space.file
    {
      SameBlocks(space.file.blocks, blocks, dirty) && (frag != space.file.frag ==> 0 in dirty)
    }

    /** The pages that belong to others. */
    ghost function Foreign(): set<PageIndex>
      reads this, space
    {
      space.used - pages
    }

    constructor (sp: PageSpace)
      requires sp.Valid() && sp.file.Empty()
      ensures space == sp && Sound({}) && blocks == map[] && pages == {}
      ensures Free(blocks) == map[]
    {
      space := sp;
      blocks, frag := map[], seq(CLASSES, _ => NONE);
      listed, rank, clock, pages, dirty := {}, map[], 0, {}, {};
    }

    // ----- changes to pages -----

    /** set_dirty, as Wload_hdr and the W functions of the headers call it for the page they fetch. */
    ghost method SetDirty(p: PageIndex)
      modifies `dirty
      ensures dirty == old(dirty) + {p} && (old(Marked()) ==> Marked())
      ensures Foreign() == old(Foreign()) && (old(Sound({})) ==> Sound({}))
    {
      hide Good, Paged;
      dirty := dirty + {p};
    }

    /** A change to the blocks of a page that has been marked. */
    method Write(p: PageIndex, b: Blocks)
      requires Marked() && p in dirty && SameBlocks(blocks, b, {p})
      modifies `blocks
      ensures blocks == b && Marked()
    {
      SameMore(blocks, b, {p}, dirty);
      SameTwice(space.file.blocks, blocks, b, dirty);
      blocks := b;
    }

    /** A change to the header or the bytes of one block. */
    method WriteBlock(a: Pos, x: Block)
      requires Marked() && a.page in dirty
      modifies `blocks
      ensures blocks == old(blocks)[a := x] && Marked()
    {
      hide Marked;
      OneChanged(blocks, a, x);
      Write(a.page, blocks[a := x]);
    }

    /** The data pages, and the list heads of the magic page, are saved as they are. */
    ghost method Saved()
      modifies `dirty, space.file`blocks, space.file`frag
      ensures Marked() && dirty == {} && space.file.blocks == blocks && space.file.frag == frag
    {
      dirty, space.file.blocks, space.file.frag := {}, blocks, frag;
    }

    /** set_frag_page_position */
    method SetFrag(i: nat, a: Pos)
      requires Marked() && i < |frag|
      modifies `frag, `dirty
      ensures frag == old(frag)[i := a] && dirty == old(dirty) + {0} && Marked()
    {
      frag, dirty := frag[i := a], dirty + {0};
    }

    method ClrFragment(a: Pos)
      requires Lists(St()) && a in listed
      requires Marked()
      modifies `blocks, `frag, `listed, `dirty
      ensures St() == Cleared(old(St()), a)
      ensures Marked() && old(dirty) <= dirty
    {
      hide Marked, SameBlocks;
      LinksOf(St(), a);
      var p, n := blocks[a].prev, blocks[a].link;
      if p.page != 0 {
        if n.page != 0 {
          SetDirty(p.page);
          SetDirty(n.page);
          WriteBlock(p, blocks[p].(link := n));
          WriteBlock(n, blocks[n].(prev := p));
        } else {
          SetDirty(p.page);
          WriteBlock(p, blocks[p].(link := NONE));
        }
      } else {
        var i := Capacity(blocks, a) / FRAGMIN;
        if n.page != 0 {
          SetDirty(n.page);
          SetFrag(i, n);
          WriteBlock(n, blocks[n].(prev := NONE));
        } else {
          SetFrag(i, NONE);
        }
      }
      listed := listed - {a};
    }

    /** The page of a block that fills it goes to the page free list. */
    method DropPage(a: Pos)
      requires Sound({a}) && a in blocks && blocks[a].size == 0 && Capacity(blocks, a) == PAGEMAXSPARE
      modifies `blocks, `pages, `dirty, space
      ensures Sound({}) && Live(blocks) == Live(old(blocks)) && Foreign() == old(Foreign())
      ensures pages == old(pages) - {a.page} && Free(blocks) == old(Free(blocks)) - {a}
      ensures old(dirty) <= dirty
    {
      hide Good, Marked, SameBlocks, space.Valid, Paged;
      NoPageGood(St(), a);
      PagedWithout(blocks, pages, a);
      space.Free(a.page);
      SetDirty(a.page);
      OneDropped(blocks, a);
      Write(a.page, blocks - {a});
      pages := pages - {a.page};
    }

    /** The block is linked before the head of its list. */
    method LinkFirst(a: Pos)
      requires a in blocks && |frag| == CLASSES && 0 <= Class(blocks, a) < CLASSES && Marked() && a.page in dirty
      requires forall i | 0 <= i < CLASSES :: IsHead(St(), i)
      requires var n := frag[Class(blocks, a)]; (n.page == 0 <==> n == NONE) && (n.page != 0 ==> n in blocks)
      modifies `blocks, `frag, `listed, `rank, `clock, `dirty
      ensures St() == Pushed(old(St()), a) && Marked() && old(dirty) <= dirty
    {
      hide IsHead, Marked, SameBlocks, Sound, Foreign;
      var i := Capacity(blocks, a) / FRAGMIN;
      var n := frag[i];
      if n.page != 0 {
        SetDirty(n.page);
        WriteBlock(n, blocks[n].(prev := a));
      }
      WriteBlock(a, blocks[a].(link := n, prev := NONE));
      SetFrag(i, a);
      listed, rank, clock := listed + {a}, rank[a := clock], clock + 1;
    }

    /** The block becomes the head of its list. */
    method ListBlock(a: Pos)
      requires Sound({a}) && a in blocks && blocks[a].size == 0 && blocks[a].bytes == [] && Alone(St(), a)
      requires a.page in dirty && Capacity(blocks, a) != PAGEMAXSPARE
      modifies this
      ensures Sound({}) && Live(blocks) == Live(old(blocks)) && Foreign() == old(Foreign())
      ensures pages == old(pages) && Free(blocks) == old(Free(blocks)) && old(dirty) <= dirty
    {
      hide Good, Lists, Alone, Live, IsHead, Free, Marked, SameBlocks, space.Valid, Paged;
      ghost var h := St();
      assert {} + {a} == {a};
      PushGood(h, {}, a);
      PushedHeads(h, {a}, a);
      PushedIn(h, a);
      FreePushed(h, a);
      LinkFirst(a);
      PagedSame(h.blocks, blocks, pages);
    }

    /** set_fragment: onto the list of its class, or, when it fills its page, the page goes. */
    method SetFragment(a: Pos)
      requires Sound({a}) && a in blocks && blocks[a].size == 0 && blocks[a].bytes == [] && Alone(St(), a)
      requires a.page in dirty
      modifies this, space
      ensures Sound({}) && Live(blocks) == Live(old(blocks)) && Foreign() == old(Foreign())
      ensures pages == if old(Capacity(blocks, a)) == PAGEMAXSPARE then old(pages) - {a.page} else old(pages)
      ensures Free(blocks)
        == if old(Capacity(blocks, a)) == PAGEMAXSPARE then old(Free(blocks)) - {a} else old(Free(blocks))
      ensures old(dirty) <= dirty
    {
      hide Good, Lists, Alone, Live, IsHead, Free, Marked, SameBlocks, space.Valid, Paged;
      var capacity := Capacity(blocks, a);
      if capacity == PAGEMAXSPARE {
        DropPage(a);
        return;
      }
      ListBlock(a);
    }

    // ----- allocation -----

    /** The head of a list leaves it. */
    method TakeHead(i: nat) returns (a: Pos)
      requires Sound({}) && i < |frag| && |frag| == CLASSES && frag[i].page != 0
      modifies `blocks, `frag, `listed, `dirty
      ensures a == old(frag)[i] && a in old(listed) && Sound({a}) && a in blocks && blocks[a].size == 0
      ensures a !in listed && NextPos(blocks, a) !in listed && Capacity(blocks, a) / FRAGMIN == i
      ensures Live(blocks) == Live(old(blocks)) && Foreign() == old(Foreign())
      ensures a in old(blocks) && blocks[a].next == old(blocks)[a].next && Free(blocks) == old(Free(blocks))
      ensures !FreeAfter(blocks, a)
      ensures old(dirty) <= dirty && a.page in dirty
    {
      hide Good, Lists, Live, Free, Marked, SameBlocks, space.Valid, Paged;
      ghost var h := St();
      HeadOf(h, i);
      a := frag[i];
      LinksOf(h, a);
      assert {} + {a} == {a};
      ClearGood(h, {}, a);
      ClearedSame(h, a);
      var n := blocks[a].link;
      SetDirty(a.page);
      SetFrag(i, n);
      if n.page != 0 {
        SetDirty(n.page);
        WriteBlock(n, blocks[n].(prev := NONE));
      }
      listed := listed - {a};
      PagedSame(h.blocks, blocks, pages);
      FreeSame(h.blocks, blocks);
      NoneAfter(St(), {a}, a);
    }

    /** __alloc_data_head: from the first list whose blocks are all large enough, or a whole new page. */
    method AllocHead(size: nat) returns (a: Pos)
      requires Sound({})
      modifies this, space
      ensures Sound({a}) && a in blocks && blocks[a].size == 0
      ensures a !in listed && NextPos(blocks, a) !in listed
      ensures (if size < PAGEMAXSPARE then size else PAGEMAXSPARE) <= Capacity(blocks, a)
      ensures Live(blocks) == Live(old(blocks)) && Foreign() == old(Foreign())
      ensures pages == old(pages) || (pages == old(pages) + {a.page} && a.page !in old(space.used))
      ensures |old(frag)| == CLASSES && var i := ListFor(old(frag), size);
        if i < CLASSES then
          && a == old(frag)[i] && a in old(blocks) && blocks[a].next == old(blocks)[a].next
          && Free(blocks) == old(Free(blocks))
        else
          && a.off == 0 && a.page !in old(space.used) && blocks[a].next == PAGEUSED
          && Free(blocks) == old(Free(blocks))[a := PAGEUSED]
      ensures !FreeAfter(blocks, a)
      ensures old(dirty) <= dirty && a.page in dirty
    {
      hide Good, Lists, Live, Free, Marked, SameBlocks, space.Valid, Paged;
      ClassesOf(St());
      if size < PAGEMAXSPARE {
        for i := (size + FRAGMIN - 1) / FRAGMIN to PAGEUSED / FRAGMIN
          invariant blocks == old(blocks) && frag == old(frag) && listed == old(listed) && pages == old(pages)
          invariant dirty == old(dirty)
          invariant St() == old(St()) && Sound({}) && Foreign() == old(Foreign())
          invariant ListFor(frag, size) == FirstFit(frag, i)
        {
          if frag[i].page != 0 {
            a := TakeHead(i);
            return;
          }
        }
      }
      var p := space.Alloc();
      a := Pos(p, 0);
      NewPageGood(St(), pages, p);
      FreePage(St(), p);
      SetDirty(p);
      WriteBlock(a, Rest(PAGEUSED));
      pages := pages + {p};
      NoneAfter(St(), {a}, a);
    }

    /** The block behind a is taken in if it is free. */
    method TakeNext(a: Pos)
      requires Sound({}) && a in blocks && blocks[a].size != 0
      requires a.page in dirty
      modifies `blocks, `frag, `listed, `dirty
      ensures Sound({}) && a in blocks && blocks[a] == old(blocks)[a].(next := EndOf(old(blocks), a))
      ensures Live(blocks) == Live(old(blocks))[a := blocks[a]] && Foreign() == old(Foreign())
      ensures NextPos(blocks, a) !in listed && old(blocks)[a].next <= blocks[a].next && a.off % 16 == 0
      ensures pages == old(pages) && Free(blocks) == old(Free(blocks)) - {NextPos(old(blocks), a)}
      ensures old(dirty) <= dirty
    {
      hide Good, Lists, Live, Alone, Free, Marked, SameBlocks, space.Valid, Paged;
      LiveSame(blocks, a);
      NextOf(St(), {}, a);
      FreeAt(blocks, a);
      var c := NextPos(blocks, a);
      NotFree(blocks, c);
      NoMinus(Free(blocks), c);
      if blocks[a].next != PAGEUSED && blocks[c].size == 0 {
        AbsorbNext(a);
      }
    }

    /** adjust_data_head: what the block does not need, with a free block after it, becomes a free block. */
    method AdjustHead(a: Pos, size: nat)
      requires Sound({}) && a in blocks && blocks[a].size == size > 0
      requires a.page in dirty
      modifies this, space
      ensures Sound({}) && a in blocks && blocks[a] == old(blocks)[a].(next := blocks[a].next)
      ensures Live(blocks) == Live(old(blocks))[a := blocks[a]] && Foreign() == old(Foreign())
      ensures pages == old(pages)
      ensures blocks[a].next == if Roomy(a, old(blocks)[a].next, size) then RestOf(a, size).off else old(blocks)[a].next
      ensures Free(blocks) == if Roomy(a, old(blocks)[a].next, size) then
          (old(Free(blocks)) - {NextPos(old(blocks), a)})[RestOf(a, size) := EndOf(old(blocks), a)]
        else old(Free(blocks))
      ensures Small(Free(blocks)) <= Small(old(Free(blocks)))
      ensures old(dirty) <= dirty
      ensures old(Snug(blocks, {a})) ==> Snug(blocks, {})
    {
      hide Snug, Good, Lists, Live, Alone, RoundUp, Free, Small, Marked, SameBlocks, space.Valid, Paged;
      LiveSame(blocks, a);
      if Capacity(blocks, a) >= PAGEMINSPARE + size + HEADER {
        var at := RestOf(a, size).off;
        AdjustedSmall(St(), a, size);
        TakeNext(a);
        CutOff(a, at);
      }
      CutIsSnug(a, old(blocks)[a].next, size);
      SnugMore(old(blocks), blocks, a);
    }

    /** The free block after a live block becomes part of it. */
    method AbsorbNext(a: Pos)
      requires Sound({}) && a in blocks && blocks[a].size != 0
      requires NextPos(blocks, a) in blocks && blocks[NextPos(blocks, a)].size == 0
      requires a.page in dirty
      modifies `blocks, `frag, `listed, `dirty
      ensures Sound({}) && a in blocks && blocks[a] == old(blocks)[a].(next := blocks[a].next)
      ensures Live(blocks) == Live(old(blocks))[a := blocks[a]] && Foreign() == old(Foreign())
      ensures NextPos(blocks, a) !in listed
        && blocks[a].next == old(blocks[NextPos(blocks, a)].next) > old(blocks)[a].next
      ensures pages == old(pages) && Free(blocks) == old(Free(blocks)) - {NextPos(old(blocks), a)}
      ensures old(dirty) <= dirty
    {
      hide Good, Lists, Live, Free, Marked, SameBlocks;
      ghost var h := St();
      var c := NextPos(blocks, a);
      FreeIsListed(h, {}, c);
      FreeIsListed(h, {}, a);
      assert {} + {c} == {c};
      ClearGood(h, {}, c);
      ClearedOthers(h, c, a);
      ClrFragment(c);
      JoinLive(St(), {}, a);
      JoinedNext(St(), {c}, a);
      PagedMerged(St(), {c}, a, pages);
      FreeCleared(h, c);
      FreeMerged(blocks, a);
      MergedChanged(blocks, a);
      Write(a.page, Merged(blocks, a));
    }

    /** A live block ends earlier; the rest is a free block. */
    method CutOff(a: Pos, at: nat)
      requires Sound({}) && a in blocks && blocks[a].size != 0 && NextPos(blocks, a) !in listed
      requires at % 16 == 0 && a.off + 16 <= at && a.off + HEADER + blocks[a].size <= at && at + 16 <= blocks[a].next
      requires a.page in dirty
      modifies this, space
      ensures Sound({}) && a in blocks && blocks[a] == old(blocks)[a].(next := at)
      ensures Live(blocks) == Live(old(blocks))[a := blocks[a]] && Foreign() == old(Foreign()) && pages == old(pages)
      ensures Free(blocks) == old(Free(blocks))[Pos(a.page, at) := old(blocks)[a].next]
      ensures old(dirty) <= dirty
    {
      hide Good, Lists, Live, Free, Marked, SameBlocks;
      ghost var h := St();
      var n := Pos(a.page, at);
      assert {} + {n} == {n};
      CutGood(h, {}, a, at);
      PagedCut(h.blocks, pages, a, n);
      FreeCut(blocks, a, at);
      CutChanged(blocks, a, at, Rest(blocks[a].next));
      Write(a.page, Cut(blocks, a, at, Rest(blocks[a].next)));
      SetFragment(n);
      InLive(blocks, a);
    }

    /** alloc_data_head: the first block of the first list that fits, or a new page, cut to the request. */
    method AllocDataHead(size: nat, first: bool) returns (a: Pos)
      requires Sound({}) && size > 0
      modifies this, space
      ensures Sound({}) && a !in Live(old(blocks)) && a in blocks && Foreign() == old(Foreign())
      ensures Live(blocks) == Live(old(blocks))[a := blocks[a]]
      ensures blocks[a].size == (if size < PAGEMAXSPARE then size else PAGEMAXSPARE) && blocks[a].firstSlice == first
      ensures |old(frag)| == CLASSES && var i := ListFor(old(frag), size);
        if i < CLASSES then a == old(frag)[i] && a in old(blocks) else a.off == 0 && a.page !in old(space.used)
      ensures var end := if a in old(blocks) then old(blocks)[a].next else PAGEUSED;
        && Free(blocks) == Trimmed(old(Free(blocks)) - {a}, a, end, size)
        && blocks[a].next == if Roomy(a, end, size) then RestOf(a, size).off else end
      ensures Small(Free(blocks)) <= Small(old(Free(blocks)))
      ensures old(dirty) <= dirty && a.page in dirty
      ensures old(Snug(blocks, {})) ==> Snug(blocks, {})
    {
      hide Snug, Good, Lists, Live, Free, Small, FreeAfter, EndOf, FirstFit, Paged, space.Valid, Marked, SameBlocks;
      a := AllocHead(size);
      PagedIn(old(blocks), old(pages), a);
      NotLive(blocks, a);
      var s := if size < PAGEMAXSPARE then size else PAGEMAXSPARE;
      assert {} + {a} == {a};
      var junk := Junk(s);
      ghost var b := blocks;
      Fill(a, junk, first, blocks[a].link);
      AllocatedEnd(b, a, blocks, old(Free(blocks)));
      if size < PAGEMAXSPARE {
        AdjustHead(a, size);
      }
      CutIsSnug(a, if a in old(blocks) then old(blocks)[a].next else PAGEUSED, size);
      EndInPage(St(), {}, a);
      CutIsSnug(a, blocks[a].next, PAGEMAXSPARE);
      SnugMore(old(blocks), blocks, a);
    }

    /** Sets the size of a block in hand or of a live block, its contents, and its link. */
    method Fill(a: Pos, bytes: Octets, first: bool, link: Pos)
      requires Sound({a}) || Sound({})
      requires a in blocks && a !in listed && 0 < |bytes| <= Capacity(blocks, a)
      requires a.page in dirty
      modifies `blocks
      ensures Sound({}) && blocks == Filled(old(St()), a, bytes, first, link).blocks
      ensures Live(blocks) == Live(old(blocks))[a := blocks[a]] && Foreign() == old(Foreign())
    {
      hide Good, Lists, Live, Marked, SameBlocks, space.Valid, Paged;
      assert {} + {a} == {a};
      FillGood(St(), {}, a, bytes, first, link);
      PagedSame(blocks, Filled(St(), a, bytes, first, link).blocks, pages);
      WriteBlock(a, blocks[a].(size := |bytes|, bytes := bytes, firstSlice := first, link := link));
    }

    /** A live block holds as many bytes as its size says, and its page is not page 0. */
    lemma BlockSizes(a: Pos)
      requires Sound({}) && a in blocks
      ensures |blocks[a].bytes| == blocks[a].size <= Capacity(blocks, a) && a.page != 0
    {
      FreeIsListed(St(), {}, a);
      assert Tile(blocks, a);
    }

    /** set_next */
    method SetNext(a: Pos, link: Pos)
      requires Sound({}) && a in blocks && blocks[a].size != 0
      requires a.page in dirty
      modifies `blocks
      ensures Sound({}) && Foreign() == old(Foreign())
      ensures blocks == old(blocks)[a := old(blocks)[a].(link := link)]
      ensures Live(blocks) == Live(old(blocks))[a := old(blocks)[a].(link := link)]
      ensures old(Snug(blocks, {})) ==> Snug(blocks, {})
    {
      hide Snug, Good, Lists, Live, Marked, SameBlocks, space.Valid, Paged;
      FreeIsListed(St(), {}, a);
      Fill(a, blocks[a].bytes, blocks[a].firstSlice, link);
      if blocks[a].size == old(blocks)[a].size { SnugKept(old(blocks), blocks, a); }
    }

    /** Bytes copied into a live block, and its size set after them or left. */
    method Store(a: Pos, at: nat, data: Octets, size: nat)
      requires Sound({}) && a in blocks && blocks[a].size != 0 && at <= |blocks[a].bytes| && at + |data| <= size
      requires size == |blocks[a].bytes| || size == at + |data|
      requires 0 < size <= Capacity(blocks, a)
      requires a.page in dirty
      modifies `blocks
      ensures Sound({}) && Foreign() == old(Foreign())
      ensures blocks == old(blocks)[a := Stored(old(blocks)[a], at, data, size)]
      ensures Live(blocks) == Live(old(blocks))[a := Stored(old(blocks)[a], at, data, size)]
      ensures old(Snug(blocks, {})) ==> Snug(blocks, {a})
      ensures (size == old(blocks[a]).size || size == old(Capacity(blocks, a))) && old(Snug(blocks, {})) ==>
        Snug(blocks, {})
    {
      hide Snug, Good, Lists, Live, Marked, SameBlocks, space.Valid, Paged;
      FreeIsListed(St(), {}, a);
      Fill(a, Stored(blocks[a], at, data, size).bytes, blocks[a].firstSlice, blocks[a].link);
      if size == Capacity(blocks, a) { FullIsSnug(blocks, a); }
      SnugMore(old(blocks), blocks, a);
      if blocks[a].size == old(blocks)[a].size { SnugKept(old(blocks), blocks, a); }
    }

    // ----- freeing -----

    /** The block that ends where a begins. */
    method BlockBefore(a: Pos) returns (cur: Pos)
      requires Tiled(blocks) && a in blocks && a.off != 0
      ensures cur in blocks && cur != a && NextPos(blocks, cur) == a
    {
      assert Tile(blocks, a);
      cur := Pos(a.page, 0);
      var next := NextPos(blocks, cur);
      while next != a
        invariant cur in blocks && cur.page == a.page && cur.off < a.off && next == NextPos(blocks, cur)
        decreases a.off - cur.off
      {
        assert Tile(blocks, cur) && Before(blocks, cur, a);
        cur := next;
        next := NextPos(blocks, cur);
      }
    }

    /** A block in hand joins the free block before it, if there is one. */
    method JoinLeft(a: Pos) returns (cur: Pos)
      requires Sound({a}) && a in blocks && blocks[a].size == 0 && blocks[a].bytes == []
      requires a.page in dirty
      modifies `blocks, `frag, `listed, `dirty
      ensures Sound({cur}) && cur in blocks && blocks[cur].size == 0 && blocks[cur].bytes == []
      ensures NoneBefore(St(), cur) && Live(blocks) == Live(old(blocks)) && Foreign() == old(Foreign())
      ensures cur == StartOf(old(blocks), a) && cur.page == a.page && blocks[cur].next == old(blocks)[a].next
      ensures Free(blocks) == (old(Free(blocks)) - {a})[cur := old(blocks)[a].next]
      ensures old(dirty) <= dirty
    {
      hide Lists, Live, NoneBefore, Tiled, Good, Free, StartOf, FreeBefore, Marked, SameBlocks, space.Valid, Paged;
      ghost var h := St();
      GoodIs(h, {a});
      cur := a;
      if a.off != 0 {
        var p := BlockBefore(a);
        FreeIsListed(h, {a}, p);
        if blocks[p].size == 0 {
          TakeInLeft(h, p, a);
          StartIs(blocks, a, p);
          ClrFragment(p);
          ClearedKeys(h, p);
          FreeCleared(h, p);
          FreeMerged(blocks, p);
          PagedJoined(h, {a}, Cleared(h, p), p, pages);
          MergedChanged(blocks, p);
          Write(a.page, Merged(blocks, p));
          cur := p;
        } else {
          NoneBeforeLive(h, a, p);
          StartSelf(h, a);
        }
      } else {
        NoneBeforeLive(h, a, a);
        StartSelf(h, a);
      }
    }

    /** A block in hand joins the free block after it, if there is one. */
    method JoinRight(cur: Pos)
      requires Sound({cur}) && cur in blocks && blocks[cur].size == 0 && blocks[cur].bytes == []
        && NoneBefore(St(), cur)
      requires cur.page in dirty
      modifies `blocks, `frag, `listed, `dirty
      ensures Sound({cur}) && cur in blocks && blocks[cur].size == 0 && blocks[cur].bytes == []
      ensures Alone(St(), cur) && Live(blocks) == Live(old(blocks)) && Foreign() == old(Foreign())
      ensures blocks[cur].next == EndOf(old(blocks), cur)
      ensures Free(blocks) == (old(Free(blocks)) - {NextPos(old(blocks), cur)})[cur := EndOf(old(blocks), cur)]
      ensures old(dirty) <= dirty
    {
      hide Lists, Live, NoneBefore, Tiled, Good, Free, Marked, SameBlocks, space.Valid, Paged;
      ghost var h := St();
      NextOf(h, {cur}, cur);
      var n := NextPos(blocks, cur);
      FreeAt(blocks, cur);
      NotFree(blocks, n);
      if blocks[cur].next != PAGEUSED {
        JoinedNext(h, {cur}, cur);
        if blocks[n].size == 0 {
          TakeInRight(h, cur, n);
          GoodIs(h, {cur});
          ClrFragment(n);
          ClearedKeys(h, n);
          FreeCleared(h, n);
          FreeMerged(blocks, cur);
          PagedJoined(h, {cur}, Cleared(h, n), cur, pages);
          MergedChanged(blocks, cur);
          Write(cur.page, Merged(blocks, cur));
        }
      }
    }

    /** One turn of free_data: the block is given up and joined with its free neighbours. */
    method FreeBlock(a: Pos) returns (next: Pos)
      requires Sound({}) && a in blocks && blocks[a].size != 0
      requires a.page in dirty
      modifies this, space
      ensures Sound({}) && Live(blocks) == Live(old(blocks)) - {a} && Foreign() == old(Foreign())
      ensures next == old(blocks)[a].link
      ensures Free(blocks) == GivenUp(old(blocks), a)
      ensures Small(Free(blocks)) - Small(old(Free(blocks))) ==
        if Capacity(old(blocks), a) == 4 && !FreeBefore(old(blocks), a) && !FreeAfter(old(blocks), a) then {a} else {}
      ensures old(dirty) <= dirty
      ensures old(Snug(blocks, {})) ==> Snug(blocks, {})
    {
      hide Snug, Lists, Live, NoneBefore, Alone, Tiled, Good, Free, Small, StartOf, FreeBefore, GivenUp, EndOf,
        FreeAfter,
        Marked, SameBlocks;
      ghost var h := St();
      MarkGood(h, a);
      next := blocks[a].link;
      PagedSame(blocks, Emptied(St(), a).blocks, pages);
      WriteBlock(a, blocks[a].(size := 0, firstSlice := false, bytes := []));
      FreeEmptied(h, a);
      ghost var b1 := blocks;
      StartEmptied(h, a);
      var cur := JoinLeft(a);
      ghost var b2 := blocks;
      JoinRight(cur);
      SetFragment(cur);
      GivenUpIs(h.blocks, a, b2, cur);
      SmallExactly(h, a);
      SnugLess(h.blocks, blocks, a);
    }
  }

  /** After a block in hand no free block follows if none of the listed ones does. */
  lemma NoneAfter(h: Heap, hole: set<Pos>, a: Pos)
    requires Good(h, hole) && a in h.blocks && hole == {a} && NextPos(h.blocks, a) !in h.listed
    ensures !FreeAfter(h.blocks, a)
  {
    var n := NextPos(h.blocks, a);
    if n in h.blocks {
      assert Tile(h.blocks, a) && n != a;
      assert Fine(h, n);
    }
  }

  lemma NotFree(b: Blocks, c: Pos)
    ensures c in Free(b) <==> c in b && b[c].size == 0
    ensures c in Free(b) ==> Free(b)[c] == b[c].next
  {
  }

  lemma NoMinus(f: Frees, c: Pos)
    ensures c !in f ==> f - {c} == f
  {
  }

  lemma FreeAt(b: Blocks, a: Pos)
    requires a in b
    ensures b[a].size == 0 ==> a in Free(b) && Free(b)[a] == b[a].next
    ensures EndOf(b, a) == if NextPos(b, a) in Free(b) then Free(b)[NextPos(b, a)] else b[a].next
  {
  }

  lemma FreePushed(h: Heap, a: Pos)
    requires Lists(h) && a in h.blocks && a !in h.listed && a.page != 0 && h.blocks[a].size == 0
    requires 0 <= Class(h.blocks, a) < CLASSES && forall i | 0 <= i < CLASSES :: IsHead(h, i)
    ensures Free(Pushed(h, a).blocks) == Free(h.blocks)
  {
    PushedKeeps(h, a);
    FreeSame(h.blocks, Pushed(h, a).blocks);
  }

  lemma FreeCleared(h: Heap, a: Pos)
    requires Lists(h) && a in h.listed
    ensures Free(Cleared(h, a).blocks) == Free(h.blocks)
  {
    ClearedKeeps(h, a);
    FreeSame(h.blocks, Cleared(h, a).blocks);
  }

  /** Trimming a block to the request makes no small free block. */
  lemma AdjustedSmall(h: Heap, a: Pos, size: nat)
    requires Good(h, {}) && a in h.blocks && h.blocks[a].size == size > 0 && Roomy(a, h.blocks[a].next, size)
    ensures Small((Free(h.blocks) - {NextPos(h.blocks, a)})[RestOf(a, size) := EndOf(h.blocks, a)])
      <= Small(Free(h.blocks))
    ensures RestOf(a, size).off + 16 <= h.blocks[a].next
  {
    hide Free, RoundUp, Lists, Good;
    EndAligned(h, a);
    SmallBut(Free(h.blocks), NextPos(h.blocks, a), RestOf(a, size), EndOf(h.blocks, a));
  }

  lemma SmallBut(f: Frees, n: Pos, c: Pos, end: nat)
    requires end - c.off - HEADER >= FRAGMIN
    ensures Small((f - {n})[c := end]) <= Small(f)
  {
  }

  lemma EndAligned(h: Heap, a: Pos)
    requires Good(h, {}) && a in h.blocks
    ensures a.off % 16 == 0 && (h.blocks[a].next == PAGEUSED || h.blocks[a].next % 16 == 0)
    ensures EndOf(h.blocks, a) >= h.blocks[a].next
  {
    var n := NextPos(h.blocks, a);
    assert Tile(h.blocks, a);
    if n in h.blocks { assert Tile(h.blocks, n); }
  }

  /** After Fill: the block in hand is live now, with no free block after it. */
  lemma AllocatedEnd(b: Blocks, a: Pos, b': Blocks, f: Frees)
    requires a in b && a in b' && b' == b[a := b'[a]] && b'[a].next == b[a].next && b'[a].size > 0 && !FreeAfter(b, a)
    requires Free(b) == f || Free(b) == f[a := b[a].next]
    ensures Free(b') == f - {a} && Small(Free(b')) <= Small(f)
    ensures EndOf(b', a) == b[a].next && Free(b') - {NextPos(b', a)} == Free(b')
  {
    NotFree(b', NextPos(b', a));
    assert Free(b') == Free(b) - {a};
  }

  lemma StartSelf(h: Heap, a: Pos)
    requires NoneBefore(h, a) && a in h.blocks && Good(h, {a})
    ensures StartOf(h.blocks, a) == a
    ensures h.blocks[a].size == 0 ==> a in Free(h.blocks) && Free(h.blocks)[a] == h.blocks[a].next
  {
    if FreeBefore(h.blocks, a) {
      var p := StartOf(h.blocks, a);
      assert Tile(h.blocks, p);
      FreeIsListed(h, {a}, p);
    }
  }

  /** Giving the block up does not change what lies before it. */
  lemma StartEmptied(h: Heap, a: Pos)
    requires Good(h, {}) && a in h.blocks && h.blocks[a].size != 0
    ensures StartOf(Emptied(h, a).blocks, a) == StartOf(h.blocks, a)
    ensures a !in Free(h.blocks)
    ensures StartOf(h.blocks, a).page == a.page && StartOf(h.blocks, a).off <= a.off < h.blocks[a].next
  {
    var b, b' := h.blocks, Emptied(h, a).blocks;
    SameTiles(b, b');
    assert Tile(b, a);
    if FreeBefore(b, a) {
      assert Tile(b, StartOf(b, a));
      StartIs(b', a, StartOf(b, a));
    } else if FreeBefore(b', a) {
      var p := StartOf(b', a);
      NextBehind(b', p);
    }
  }

  lemma NextBehind(b: Blocks, p: Pos)
    requires Tiled(b) && p in b
    ensures NextPos(b, p) != p
  {
    assert Tile(b, p);
  }

  /** The steps of giving up a block, together. */
  lemma GivenUpIs(b: Blocks, a: Pos, b2: Blocks, cur: Pos)
    requires a in b && b[a].size != 0 && cur in b2 && cur == StartOf(b, a) && cur.page == a.page
      && b2[cur].next == b[a].next
    requires Free(b2) == (Free(b)[a := b[a].next] - {a})[cur := b[a].next] && cur.off <= a.off < b[a].next
    ensures var f := (Free(b2) - {NextPos(b2, cur)})[cur := EndOf(b2, cur)];
      GivenUp(b, a) == if EndOf(b2, cur) - cur.off - HEADER == PAGEMAXSPARE then f - {cur} else f
  {
    hide StartOf, FreeBefore;
    FreeAt(b, a);
    FreeAt(b2, cur);
    assert NextPos(b2, cur) == NextPos(b, a) != cur;
  }

  lemma OneChanged(b: Blocks, a: Pos, x: Block)
    ensures SameBlocks(b, b[a := x], {a.page})
  {
  }

  lemma MergedChanged(b: Blocks, a: Pos)
    requires a in b && NextPos(b, a) in b
    ensures SameBlocks(b, Merged(b, a), {a.page})
  {
  }

  lemma CutChanged(b: Blocks, a: Pos, at: nat, rest: Block)
    requires a in b
    ensures SameBlocks(b, Cut(b, a, at, rest), {a.page})
  {
  }

  lemma OneDropped(b: Blocks, a: Pos)
    ensures SameBlocks(b, b - {a}, {a.page})
  {
  }

  lemma LinksOf(h: Heap, a: Pos)
    requires Lists(h) && a in h.listed
    ensures |h.frag| == CLASSES && a in h.blocks && 0 <= Class(h.blocks, a) < CLASSES
    ensures
      var p, n := h.blocks[a].prev, h.blocks[a].link;
      && (p.page == 0 <==> p == NONE) && (p.page != 0 ==> p in h.blocks)
      && (n.page == 0 <==> n == NONE) && (n.page != 0 ==> n in h.blocks)
  {
    ListedIn(h, a);
    var p, n := h.blocks[a].prev, h.blocks[a].link;
    if p != NONE {
      ListedIn(h, p);
    }
    if n != NONE {
      ListedIn(h, n);
    }
  }

  lemma HeadOf(h: Heap, i: nat)
    requires Good(h, {}) && i < CLASSES && |h.frag| == CLASSES && h.frag[i].page != 0
    ensures h.frag[i] in h.listed && h.frag[i] in h.blocks && h.blocks[h.frag[i]].prev == NONE
    ensures Class(h.blocks, h.frag[i]) == i && h.blocks[h.frag[i]].size == 0 && Lists(h)
  {
    assert IsHead(h, i);
    ListedIn(h, h.frag[i]);
  }

  lemma ClassesOf(h: Heap)
    requires Good(h, {})
    ensures |h.frag| == CLASSES
  {
  }

  /** What a block has after it when it has left its list. */
  lemma ClearedSame(h: Heap, a: Pos)
    requires Good(h, {}) && a in h.listed
    ensures a in h.blocks && a in Cleared(h, a).blocks && NextPos(h.blocks, a) !in h.listed
    ensures Cleared(h, a).blocks[a] == h.blocks[a] && Cleared(h, a).blocks.Keys == h.blocks.Keys
    ensures h.blocks[a].size == 0
  {
    ListedIn(h, a);
    assert Fine(h, a);
    ClearedKeeps(h, a);
  }

  /** The other blocks, when one has left its list. */
  lemma ClearedOthers(h: Heap, a: Pos, c: Pos)
    requires Good(h, {}) && a in h.listed && c in h.blocks && c !in h.listed
    ensures c in Cleared(h, a).blocks && Cleared(h, a).blocks[c] == h.blocks[c]
    ensures Cleared(h, a).blocks.Keys == h.blocks.Keys
    ensures a in h.blocks && Cleared(h, a).blocks[a] == h.blocks[a] && NextPos(h.blocks, a) !in h.listed
  {
    ListedIn(h, a);
    assert Fine(h, a);
    ClearedKeeps(h, a);
  }

  lemma FreeIsListed(h: Heap, hole: set<Pos>, c: Pos)
    requires Good(h, hole) && c in h.blocks && c !in hole
    ensures Lists(h) && (h.blocks[c].size == 0 <==> c in h.listed) && |h.blocks[c].bytes| == h.blocks[c].size
    ensures h.blocks[c].size <= Capacity(h.blocks, c)
  {
    assert Fine(h, c);
  }

  lemma NewPageGood(h: Heap, pages: set<PageIndex>, p: PageIndex)
    requires Good(h, {}) && Paged(h.blocks, pages) && p !in pages && p != 0
    ensures Good(WithPage(h, p), {Pos(p, 0)}) && Live(WithPage(h, p).blocks) == Live(h.blocks)
    ensures Paged(WithPage(h, p).blocks, pages + {p})
    ensures Pos(p, 0) !in h.listed && Pos(p, PAGEUSED) !in h.listed
  {
    PageGood(h, p);
    forall a | a in h.listed ensures a.page != p {
      ListedIn(h, a);
    }
  }

  lemma NextOf(h: Heap, hole: set<Pos>, a: Pos)
    requires Good(h, hole) && a in h.blocks
    ensures h.blocks[a].next == PAGEUSED || NextPos(h.blocks, a) in h.blocks
    ensures h.blocks[a].next == PAGEUSED ==> NextPos(h.blocks, a) !in h.blocks && NextPos(h.blocks, a) !in h.listed
    ensures var n := NextPos(h.blocks, a);
      (n in h.blocks && n !in hole && h.blocks[n].size != 0) ==> n !in h.listed
    ensures a.off % 16 == 0
  {
    var n := NextPos(h.blocks, a);
    assert Tile(h.blocks, a);
    if n in h.blocks {
      assert Tile(h.blocks, n);
      if n !in hole {
        assert Fine(h, n);
      }
    }
    if n in h.listed {
      ListedIn(h, n);
    }
  }

  /** What comes after a block that has taken in the block after it. */
  lemma JoinedNext(h: Heap, hole: set<Pos>, a: Pos)
    requires Good(h, hole) && a in h.blocks && NextPos(h.blocks, a) in h.blocks
    ensures h.blocks[NextPos(h.blocks, a)].next > h.blocks[a].next && NextPos(h.blocks, a) != a
  {
    MergedMore(h.blocks, a);
  }

  lemma PagedMerged(h: Heap, hole: set<Pos>, a: Pos, pages: set<PageIndex>)
    requires Good(h, hole) && a in h.blocks && NextPos(h.blocks, a) in h.blocks && Paged(h.blocks, pages)
    ensures Paged(Merged(h.blocks, a), pages)
  {
    assert Tile(h.blocks, a);
    MergedTiles(h.blocks, a);
  }

  lemma PagedCut(b: Blocks, pages: set<PageIndex>, a: Pos, n: Pos)
    requires Paged(b, pages) && a in b && n !in b && n.page == a.page
    ensures Paged(Cut(b, a, n.off, Rest(b[a].next)), pages)
  {
  }

  lemma LiveSame(b: Blocks, a: Pos)
    requires a in b && b[a].size != 0
    ensures a in Live(b) && Live(b)[a] == b[a] && Live(b)[a := b[a]] == Live(b)
  {
  }

  lemma InLive(b: Blocks, a: Pos)
    ensures a in Live(b) ==> a in b && Live(b)[a] == b[a] && b[a].size != 0
  {
  }

  lemma NotLive(b: Blocks, a: Pos)
    requires a in b && b[a].size == 0
    ensures a !in Live(b)
  {
  }

  /** Bytes of which nothing is known. */
  method Junk(n: nat) returns (s: Octets)
    ensures |s| == n
  {
    s := seq(n, _ => 0);
  }

  lemma GoodIs(h: Heap, hole: set<Pos>)
    requires Good(h, hole)
    ensures Tiled(h.blocks) && Lists(h) && hole !! h.listed
  {
  }

  lemma ClearedKeys(h: Heap, a: Pos)
    requires Lists(h) && a in h.listed
    ensures Cleared(h, a).blocks.Keys == h.blocks.Keys
  {
    ClearedKeeps(h, a);
  }

  lemma PagedJoined(h: Heap, hole: set<Pos>, h': Heap, a: Pos, pages: set<PageIndex>)
    requires Good(h, hole) && Paged(h.blocks, pages) && h'.blocks.Keys == h.blocks.Keys
    requires a in h.blocks && NextPos(h.blocks, a) in h.blocks && h'.blocks[a].next == h.blocks[a].next
    ensures Paged(Merged(h'.blocks, a), pages)
  {
    assert Tile(h.blocks, a);
    assert NextPos(h'.blocks, a).off != 0;
  }

  lemma PagedIn(b: Blocks, pages: set<PageIndex>, a: Pos)
    requires Paged(b, pages)
    ensures a in b ==> a.page in pages
  {
  }

  lemma PagedWithout(b: Blocks, pages: set<PageIndex>, a: Pos)
    requires Paged(b, pages) && a in b && a.off == 0 && forall c | c in b && c.page == a.page :: c == a
    ensures Paged(b - {a}, pages - {a.page}) && a.page in pages
  {
  }

  /** A block after bytes were copied into it. */
  lemma EndInPage(h: Heap, hole: set<Pos>, a: Pos)
    requires Good(h, hole) && a in h.blocks
    ensures h.blocks[a].next <= PAGEUSED
  {
    assert Tile(h.blocks, a);
  }

  function Stored(b: Block, at: nat, data: Octets, size: nat): Block
    requires at <= |b.bytes| && at + |data| <= size && (size == |b.bytes| || size == at + |data|)
  {
    b.(size := size, bytes := b.bytes[..at] + data + if size == |b.bytes| then b.bytes[at + |data|..] else [])
  }

  lemma PushedIn(h: Heap, a: Pos)
    requires Good(h, {a}) && a in h.blocks
    ensures Lists(h) && a !in h.listed && a.page != 0
  {
    assert Tile(h.blocks, a);
  }

  lemma PushedHeads(h: Heap, hole: set<Pos>, a: Pos)
    requires Good(h, hole) && a in h.blocks && 0 <= Class(h.blocks, a) < CLASSES
    ensures |h.frag| == CLASSES
    ensures
      var n := h.frag[Class(h.blocks, a)];
      (n.page == 0 <==> n == NONE) && (n.page != 0 ==> n in h.blocks)
  {
    var i := Class(h.blocks, a);
    assert IsHead(h, i);
    var n := h.frag[i];
    if n != NONE {
      ListedIn(h, n);
    }
  }

  lemma PagedSame(b: Blocks, b': Blocks, pages: set<PageIndex>)
    requires Paged(b, pages) && b'.Keys == b.Keys
    ensures Paged(b', pages)
  {
  }

  lemma ByteRest(c: Pos)
    requires c.off % 16 == 0 && c.off <= 64
    ensures Roomy(c, PAGEUSED, 1) && RestOf(c, 1) == Pos(c.page, c.off + 16)
    ensures Trimmed(map[c := PAGEUSED] - {c}, c, PAGEUSED, 1) == map[Pos(c.page, c.off + 16) := PAGEUSED]
    ensures Trimmed(map[] - {c}, c, PAGEUSED, 1) == map[Pos(c.page, c.off + 16) := PAGEUSED]
    ensures (PAGEUSED - c.off - HEADER) / FRAGMIN >= 1
  {
  }

  /** A slice of one byte, from a heap whose only free block goes to the end of its page. */
  method AllocByte(heap: DataHeap, c: Pos)
    requires heap.Sound({}) && Free(heap.blocks) == map[c := PAGEUSED] && c.off % 16 == 0 && c.off <= 64
    modifies heap, heap.space
    ensures heap.Sound({}) && Free(heap.blocks) == map[Pos(c.page, c.off + 16) := PAGEUSED]
    ensures c in heap.blocks && heap.blocks[c].size == 1 && heap.blocks[c].next == c.off + 16
    ensures Live(heap.blocks) == Live(old(heap.blocks))[c := heap.blocks[c]]
  {
    hide Good, Live, Small, ListFor, Free, Trimmed, RestOf, Roomy, RoundUp, Paged, FirstFit;
    ByteRest(c);
    OneFits(heap.St(), c, PAGEUSED, 1);
    NotFree(heap.blocks, c);
    var a := heap.AllocDataHead(1, true);
  }

  /** In a new heap three slices of one byte are allocated and the second is given up: a free block of 4 bytes. */
  method SmallFragment() returns (heap: DataHeap, a: Pos)
    ensures fresh(heap) && heap.Sound({})
    ensures a in heap.blocks && heap.blocks[a].size == 0 && Capacity(heap.blocks, a) == 4 < FRAGMIN
  {
    hide Good, Live, Small, ListFor, FirstFit, GivenUp, Free, FreeBefore, FreeAfter, Trimmed, RestOf, Roomy, RoundUp,
      Paged;
    var space := new PageSpace();
    heap := new DataHeap(space);
    NoneFits(heap.St(), 1);
    var first := heap.AllocDataHead(1, true);
    var p := first.page;
    ByteRest(first);
    a := Pos(p, 16);
    AllocByte(heap, a);
    InLive(heap.blocks, a);
    LiveSame(heap.blocks, a);
    AllocByte(heap, Pos(p, 32));
    InLive(heap.blocks, a);
    BetweenLive(heap.St(), a, Pos(p, 48));
    var _ := heap.FreeBlock(a);
    IsSmall(heap.blocks, a);
    FourBytes(heap.St(), a);
  }

  lemma FourBytes(h: Heap, a: Pos)
    requires Good(h, {}) && a in h.blocks && Capacity(h.blocks, a) < FRAGMIN
    ensures Capacity(h.blocks, a) == 4
  {
    CapacityAtLeast(h.blocks, a);
  }

  lemma BetweenLive(h: Heap, a: Pos, c: Pos)
    requires Good(h, {}) && a in h.blocks && Free(h.blocks) == map[c := PAGEUSED] && h.blocks[a].next != c.off
      && a.off != PAGEUSED
    ensures !FreeBefore(h.blocks, a) && !FreeAfter(h.blocks, a)
  {
    NotFree(h.blocks, NextPos(h.blocks, a));
    if FreeBefore(h.blocks, a) { NotFree(h.blocks, StartOf(h.blocks, a)); }
  }

  lemma IsSmall(b: Blocks, a: Pos)
    requires a in Small(Free(b))
    ensures a in b && b[a].size == 0 && Capacity(b, a) < FRAGMIN
  {
  }
}
