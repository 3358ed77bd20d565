/** Which pages of the file are in use: the free page list threaded through the free pages. */
module PageSpace {
  import opened Places
  import opened SavedFile

  class PageSpace {
    const file: SavedFile                // the file as it was last saved
    var freeHead: PageIndex              // free_page_list of the magic page
    var maxIndex: nat                    // max_page_idx of the magic page
    var link: map<PageIndex, PageIndex>  // free_page_list of each free page
    ghost var chain: seq<PageIndex>      // the free pages in list order
    ghost var used: set<PageIndex>       // the pages handed out and not returned
    ghost var dirty: set<PageIndex>      // the pages marked here since then

    /** The list is acyclic and ends; each page up to maxIndex is free or in use, never both. */
    ghost predicate Valid()
      reads this, file`free, file`freeHead, file`maxIndex
    {
      && freeHead == Next(-1)
      && (forall i | 0 <= i < |chain| :: chain[i] in link && link[chain[i]] == Next(i))
      && (forall i, j | 0 <= i < j < |chain| :: chain[i] != chain[j])
      && (forall p :: p in chain ==> p !in used)
      && (forall p: PageIndex :: 1 <= p <= maxIndex <==> (p in chain || p in used))
      && Marked()
    }

    /** A free or new page that is not as in the file has been marked dirty, and so has page 0 if a field moved. */
    ghost predicate Marked()
      reads this, file`free, file`freeHead, file`maxIndex
    {
      && (forall p | p !in dirty :: p in chain <==> p in file.free)
      && (forall p | p !in dirty && p in chain && p in link :: link[p] == file.free[p])
      && (freeHead != file.freeHead || maxIndex != file.maxIndex ==> 0 in dirty)
      && file.maxIndex <= maxIndex && forall p | file.maxIndex < p <= maxIndex :: p in dirty
    }

    ghost function Next(i: int): PageIndex
      requires -1 <= i < |chain|
      reads this
    {
      if i + 1 < |chain| then chain[i + 1] else 0
    }

    constructor ()
      ensures Valid() && used == {} && fresh(file) && file.Empty()
    {
      freeHead, maxIndex, link := 0, 0, map[];
      chain, used, dirty := [], {}, {};
      file := new SavedFile();
    }

    /** Takes the head of the free list, or extends the file. */
    method Alloc() returns (p: PageIndex)
      requires Valid()
      modifies this
      ensures Valid() && p != 0 && p !in old(used) && used == old(used) + {p} && dirty == old(dirty) + {0, p}
      ensures old(chain) != [] ==> p == old(chain)[0] && chain == old(chain)[1..] && maxIndex == old(maxIndex)
      ensures old(chain) == [] ==> p == maxIndex == old(maxIndex) + 1 && chain == []
    {
      assert chain != [] ==> chain[0] in chain;
      if freeHead != 0 {
        p := freeHead;
        freeHead := link[p];
        assert p == chain[0] && forall q :: q in chain <==> q == p || q in chain[1..];
        chain := chain[1..];
      } else {
        maxIndex := maxIndex + 1;
        p := maxIndex;
      }
      used, dirty := used + {p}, dirty + {0, p};
    }

    /** The file is saved as it is. */
    ghost method Saved()
      requires Valid()
      modifies `dirty, file`free, file`freeHead, file`maxIndex
      ensures Valid() && dirty == {}
      ensures file.free == (map p | p in chain :: link[p]) && file.freeHead == freeHead && file.maxIndex == maxIndex
    {
      dirty := {};
      file.free := map p | p in chain :: link[p];
      file.freeHead, file.maxIndex := freeHead, maxIndex;
    }

    method Free(p: PageIndex)
      requires Valid() && p in used
      modifies this
      ensures Valid() && used == old(used) - {p} && dirty == old(dirty) + {0, p}
      ensures chain == [p] + old(chain) && maxIndex == old(maxIndex)
    {
      link := link[p := freeHead];
      freeHead := p;
      chain := [p] + chain;
      used, dirty := used - {p}, dirty + {0, p};
    }
  }
}
