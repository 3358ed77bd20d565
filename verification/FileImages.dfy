/** The whole file page by page: what its pages hold, and which of them have to be written. */
module FileImages {
  import opened Places
  import opened IndexPage
  import opened HeapState
  import opened SavedFile

  /** What a page holds; page 0 is the magic page. */
  datatype PageImage =
    | Magic(root: PageIndex, frag: seq<Pos>, freeHead: PageIndex, maxIndex: nat)
    | Index(node: Node)
    | Data(blocks: Blocks)
    | Free(link: PageIndex)
    | Nothing

  /** A file, as the parts that use it see it. */
  datatype Parts = Parts(tree: map<PageIndex, Node>, blocks: Blocks, free: map<PageIndex, PageIndex>, magic: PageImage,
                         maxIndex: nat)

  function BlocksOf(b: Blocks, p: PageIndex): Blocks {
    map a | a in b && a.page == p :: b[a]
  }

  function ImageOf(f: Parts, p: PageIndex): PageImage {
    if p == 0 then f.magic
    else if p in f.tree then Index(f.tree[p])
    else if Pos(p, 0) in f.blocks then Data(BlocksOf(f.blocks, p))
    else if p in f.free then Free(f.free[p])
    else Nothing
  }

  /** All pages of the file. */
  function Images(f: Parts): (m: map<PageIndex, PageImage>)
    ensures forall p: PageIndex :: p in m <==> p <= f.maxIndex
  {
    map p: PageIndex | 0 <= p <= f.maxIndex :: ImageOf(f, p)
  }

  /** The images of the pages that are marked. */
  function Marked(f: Parts, d: set<PageIndex>): map<PageIndex, PageImage> {
    map p: PageIndex | 0 <= p <= f.maxIndex && p in d :: ImageOf(f, p)
  }

  /** The two files are the same but for the marked pages. */
  ghost predicate SameParts(f: Parts, g: Parts, d: set<PageIndex>) {
    && SameBut(f.tree, g.tree, d) && SameBlocks(f.blocks, g.blocks, d) && SameBut(f.free, g.free, d)
    && (f.magic != g.magic ==> 0 in d)
    && f.maxIndex <= g.maxIndex && forall p | f.maxIndex < p <= g.maxIndex :: p in d
  }

  lemma SameImage(f: Parts, g: Parts, d: set<PageIndex>, p: PageIndex)
    requires SameParts(f, g, d) && p !in d
    ensures ImageOf(f, p) == ImageOf(g, p)
  {
    assert Pos(p, 0).page == p;
    assert BlocksOf(f.blocks, p) == BlocksOf(g.blocks, p);
  }

  /** The old file with the marked pages as they are now is the file as it is now. */
  lemma MarkedSuffice(f: Parts, g: Parts, d: set<PageIndex>)
    requires SameParts(f, g, d)
    ensures Images(f) + Marked(g, d) == Images(g)
  {
    forall p: PageIndex | p <= g.maxIndex && p !in d ensures p <= f.maxIndex && ImageOf(f, p) == ImageOf(g, p) {
      SameImage(f, g, d, p);
    }
  }
}
