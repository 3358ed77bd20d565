/** The table file as it was when its pages were last saved, and what it means that all later changes are marked. */
module SavedFile {
  import opened Places
  import opened IndexPage
  import opened HeapState

  class SavedFile {
    ghost var tree: map<PageIndex, Node>             // the index pages
    ghost var blocks: Blocks                         // the data pages, block by block
    ghost var free: map<PageIndex, PageIndex>        // the free pages, with their links
    ghost var root: PageIndex                        // the fields of the magic page
    ghost var frag: seq<Pos>
    ghost var freeHead: PageIndex
    ghost var maxIndex: nat

    /** A file that has just been created. */
    ghost predicate Empty()
      reads this
    {
      && tree == map[] && blocks == map[] && free == map[] && root == freeHead == maxIndex == 0
      && frag == seq(CLASSES, _ => NONE)
    }

    constructor ()
      ensures Empty()
    {
      tree, blocks, free, root, freeHead, maxIndex := map[], map[], map[], 0, 0, 0;
      frag := seq(CLASSES, _ => NONE);
    }
  }

  /** Pages that are not marked are the same in both. */
  ghost predicate SameBut<T>(m: map<PageIndex, T>, m': map<PageIndex, T>, d: set<PageIndex>) {
    forall p: PageIndex | p !in d :: (p in m <==> p in m') && (p in m ==> m'[p] == m[p])
  }

  ghost predicate SameBlocks(b: Blocks, b': Blocks, d: set<PageIndex>) {
    forall a: Pos | a.page !in d :: (a in b <==> a in b') && (a in b ==> b'[a] == b[a])
  }

  lemma SameMore(b: Blocks, b': Blocks, d: set<PageIndex>, d': set<PageIndex>)
    requires SameBlocks(b, b', d) && d <= d'
    ensures SameBlocks(b, b', d')
  {
  }

  lemma SameTwice(b: Blocks, b': Blocks, b'': Blocks, d: set<PageIndex>)
    requires SameBlocks(b, b', d) && SameBlocks(b', b'', d)
    ensures SameBlocks(b, b'', d)
  {
  }
}
