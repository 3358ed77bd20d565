/** The page tree: the methods of the index pages over the page space. */
module BTree {
  import opened Places
  import opened IndexPage
  import opened SavedFile
  import opened PageSpace
  import opened TreeState
  import opened TreeSteps
  import opened TreeShare
  import opened TreeMoves
  import opened TreeEdits
  import opened TreeSlots
  import opened TreeSizes
  import opened TreeOrder
  import opened TreeGaps

  class BTree {
    var pages: map<PageIndex, Node>   // the index pages
    var root: PageIndex               // root_index_idx of the magic page
    const space: PageSpace
    ghost var ord: Reading
    ghost var ht: map<PageIndex, nat>
    ghost var dirty: set<PageIndex>   // the pages marked here since the file was saved

    ghost function St(): State
      reads this
    {
      State(pages, root, ord, ht)
    }

    /** Every index page is in use, and marked if it is not as in the file. */
    ghost predicate Sound()
      reads `pages, `root, `dirty, space, space.file
    {
      space.Valid() && pages.Keys <= space.used && Marked()
    }

    /** Every index page that is not as in the file has been marked dirty, and so has page 0 if there is a new root. */
    ghost predicate Marked()
      reads `pages, `root, `dirty, space.file
    {
      SameBut(space.file.tree, pages, dirty) && (root != space.file.root ==> 0 in dirty)
    }

    /** The pages that belong to others. */
    ghost function Foreign(): set<PageIndex>
      reads `pages, space
    {
      space.used - pages.Keys
    }

    /** An empty table: one blank leaf. */
    constructor (sp: PageSpace)
      requires sp.Valid() && sp.file.Empty()
      modifies sp
      ensures space == sp && Sound() && Foreign() == old(sp.used)
      ensures Tidy(St(), 0) && Whole(St()) == []
    {
      hide Tidy, Whole, Blank, Sound, Foreign, Marked;
      space := sp;
      pages, ord, ht, root, dirty := map[], map[], map[], 0, {};
      new;
      StartsSound();
      var p := AllocPage();
      SoundMarked();
      SetRoot(p);
      ord, ht := map[p := []], map[p := 0];
      BlankTidy(p, pages[p]);
    }

    // ----- changes to pages -----

    /** set_dirty, as WI_page, WL_page and WR_page call it for the page they fetch. */
    ghost method SetDirty(p: PageIndex)
      modifies `dirty
      ensures dirty == old(dirty) + {p} && (old(Marked()) ==> Marked())
      ensures Foreign() == old(Foreign()) && (old(Sound()) ==> Sound())
    {
      dirty := dirty + {p};
    }

    /** A change to a page that has been marked. */
    method Write(p: PageIndex, n: Node)
      requires Marked() && p in dirty
      modifies `pages
      ensures pages == old(pages)[p := n] && Marked()
      ensures p in old(pages) && old(Sound()) ==> Sound() && Foreign() == old(Foreign())
    {
      pages := pages[p := n];
    }

    /** The index pages, and the root of the magic page, are saved as they are. */
    ghost method Saved()
      modifies `dirty, space.file`tree, space.file`root
      ensures Marked() && dirty == {} && space.file.tree == pages && space.file.root == root
    {
      dirty, space.file.tree, space.file.root := {}, pages, root;
    }

    /** set_root_index_idx */
    method SetRoot(p: PageIndex)
      requires Marked()
      modifies `root, `dirty
      ensures root == p && dirty == old(dirty) + {0} && Marked()
      ensures old(Sound()) ==> Sound() && Foreign() == old(Foreign())
    {
      root, dirty := p, dirty + {0};
    }

    lemma SoundMarked()
      requires Sound()
      ensures Marked()
    {
    }

    lemma StartsSound()
      requires pages == map[] && root == 0 && space.Valid() && space.file.Empty()
      ensures Sound() && Foreign() == space.used
    {
    }

    method AllocPage() returns (p: PageIndex)
      requires Sound()
      modifies `pages, `dirty, space
      ensures Sound() && Foreign() == old(Foreign()) && dirty == old(dirty) + {p}
      ensures p != 0 && p !in old(pages) && p in pages && pages == old(pages)[p := pages[p]] && Blank(pages[p])
    {
      p := space.Alloc();
      dirty := dirty + {p};
      pages := pages[p := Zeroed()];
    }

    method FreePage(p: PageIndex)
      requires Sound() && p in pages
      modifies `pages, `dirty, space
      ensures Sound() && Foreign() == old(Foreign()) && pages == old(pages) - {p} && dirty == old(dirty) + {p}
    {
      space.Free(p);
      dirty := dirty + {p};
      pages := pages - {p};
    }

    /** alloc_root_index_page */
    method NewRoot() returns (par: PageIndex)
      requires Sound() && Linked(St())
      modifies this, space
      ensures Sound() && Foreign() == old(Foreign())
      ensures par != 0 && par !in old(pages) && par in pages && Blank(pages[par])
      ensures old(root) in old(ht) && St() == Rooted(old(St()), par, pages[par]) && dirty == old(dirty) + {0, par}
    {
      hide Linked, Down, Up, Kids, Keys, space.Valid, Marked;
      DomainsOf(St());
      par := AllocPage();
      ord, ht := ord[par := At(ord, root)], ht[par := ht[root] + 1];
      SetRoot(par);
    }

    // ----- the copying loops -----

    /** copy_key in ascending order, towards the front. */
    method SlideKeysDown(p: PageIndex, a: int, b: int, d: int)
      requires p in pages && Shape(pages[p]) && d > 0 && Fits(a, b, -d)
      requires Marked() && p in dirty
      modifies `pages
      ensures pages == old(pages)[p := old(pages)[p].(key := Slide(old(pages)[p].key, a, b, -d))]
      ensures Marked()
    {
      hide Marked, Sound, Foreign;
      ghost var n := pages[p];
      SlideNone(n.key, a, -d);
      for i := a to b
        invariant pages == old(pages)[p := n.(key := Slide<Slot>(n.key, a, i, -d))]
        invariant Marked()
      {
        var k := pages[p].key;
        SlideNextDown(n.key, a, i, d);
        Write(p, pages[p].(key := k[i - d := k[i]]));
      }
    }

    /** copy_key in descending order, towards the back. */
    method SlideKeysUp(p: PageIndex, a: int, b: int, d: int)
      requires p in pages && Shape(pages[p]) && d > 0 && Fits(a, b, d)
      requires Marked() && p in dirty
      modifies `pages
      ensures pages == old(pages)[p := old(pages)[p].(key := Slide(old(pages)[p].key, a, b, d))]
      ensures Marked()
    {
      hide Marked, Sound, Foreign;
      ghost var n := pages[p];
      SlideNone(n.key, b, d);
      for i := b downto a
        invariant pages == old(pages)[p := n.(key := Slide<Slot>(n.key, i, b, d))]
        invariant Marked()
      {
        var k := pages[p].key;
        SlideNextUp(n.key, i, b, d);
        Write(p, pages[p].(key := k[i + d := k[i]]));
      }
    }

    /** copy_key_and_left or copy_key_and_right in ascending order; each child moved is relinked. */
    method SlideDown(p: PageIndex, a: int, b: int, d: int, off: int)
      requires p in pages && 0 <= off <= 1 && d > 0 && Fits(a, b, -d) && Linking(pages, p, a + off, b + off)
      requires Marked() && p in dirty
      modifies `pages, `dirty
      ensures pages == Shifted(old(pages), p, a, b, -d, off)
      ensures Marked() && old(dirty) <= dirty
    {
      hide Shifted, Relink, Slide, Marked, Sound, Foreign;
      ghost var o := pages;
      ShiftedNone(o, p, a, -d, off);
      for i := a to b
        invariant pages == Shifted(o, p, a, i, -d, off)
        invariant Marked() && old(dirty) <= dirty
      {
        ShiftedNextDown(o, p, a, i, b, d, off);
        var m := pages[p];
        var c := m.child[i + off];
        SetDirty(c);
        Write(p, m.(key := m.key[i - d := m.key[i]], child := m.child[i + off - d := c]));
        Write(c, pages[c].(ppos := pages[c].ppos - d));
      }
    }

    /** copy_key_and_right in descending order; each child moved is relinked. */
    method SlideUp(p: PageIndex, a: int, b: int, d: int)
      requires p in pages && d > 0 && Fits(a, b, d) && Linking(pages, p, a + 1, b + 1)
      requires Marked() && p in dirty
      modifies `pages, `dirty
      ensures pages == Shifted(old(pages), p, a, b, d, 1)
      ensures Marked() && old(dirty) <= dirty
    {
      hide Shifted, Relink, Slide, Marked, Sound, Foreign;
      ghost var o := pages;
      ShiftedNone(o, p, b, d, 1);
      for i := b downto a
        invariant pages == Shifted(o, p, i, b, d, 1)
        invariant Marked() && old(dirty) <= dirty
      {
        ShiftedNextUp(o, p, a, i, b, d);
        var m := pages[p];
        var c := m.child[i + 1];
        SetDirty(c);
        Write(p, m.(key := m.key[i + d := m.key[i]], child := m.child[i + 1 + d := c]));
        Write(c, pages[c].(ppos := pages[c].ppos + d));
      }
    }

    /** set_parent for the children [a, b) of t, which were children [a - d, b - d) of p. */
    method Adopt(t: PageIndex, a: int, b: int, ghost p: PageIndex, ghost d: int)
      requires t in pages && Shape(pages[t]) && 0 <= a <= b <= INDEXCOUNT + 1
      requires Adoptable(pages, t, a, b, p, d)
      requires Marked()
      modifies `pages, `dirty
      ensures pages == Relink(old(pages), p, a - d, b - d, t, d)
      ensures Marked() && old(dirty) <= dirty && (old(Sound()) ==> Sound() && Foreign() == old(Foreign()))
    {
      hide Relink, Adoptable, Marked, Sound, Foreign;
      ghost var o := pages;
      RelinkNone(o, p, a - d, t, d);
      for i := a to b
        invariant pages == Relink(o, p, a - d, i - d, t, d)
        invariant Marked() && old(dirty) <= dirty && (old(Sound()) ==> Sound() && Foreign() == old(Foreign()))
      {
        AdoptNext(o, t, a, i, b, p, d);
        var c := pages[t].child[i];
        SetDirty(c);
        Write(c, pages[c].(parent := t, ppos := i));
      }
    }

    // ----- insertion -----

    method Split(p: PageIndex)
      requires Sound() && Tidy(St(), p) && p in pages && Size(pages[p]) == 254
      requires p in dirty
      modifies this, space
      ensures Sound() && Foreign() == old(Foreign())
      ensures Tidy(St(), 0) && Whole(St()) == old(Whole(St()))
      ensures old(dirty) <= dirty
      decreases ht[root] - ht[p] + 1, 0
    {
      hide Linked, Down, Up, Splittable, Pending, MayGrow, Kids, Keys, Relink, SplitRight, Blank, Read, Adoptable,
        Whole, Halved, Sound, Foreign, Rooted;
      ghost var s0 := St();
      ShapeOf(s0, p);
      RootIffParent(s0, p);
      var n := pages[p];
      var par := n.parent;
      ghost var k := 0;
      if par == 0 {
        par := NewRoot();
      } else {
        SetDirty(par);
        Climb(s0, p);
        k := Place(s0, p);
      }
      ghost var s := St();
      SplitStart(s0, s, p, par, k);
      var sib := CutPage(p, par, k);
      MiddleKey(n);
      InsertInternal(par, n.ppos, n.key[INDEXMINL], p, sib);
    }

    /** The slots behind the middle one are copied to the new page, and its children led there. */
    method CopyHalf(p: PageIndex, sib: PageIndex, ghost par: PageIndex, ghost k: int, ghost s: State)
      requires Sound() && p in s.pages && p in s.ht && Shape(s.pages[p]) && Size(s.pages[p]) == INDEXCOUNT
      requires Splittable(s, p, par, k) && sib !in s.pages && sib != 0
      requires sib in pages && Blank(pages[sib]) && pages == s.pages[sib := pages[sib]] && {p, sib} <= dirty
      modifies `pages, `dirty
      ensures Sound() && Foreign() == old(Foreign()) && old(dirty) <= dirty
      ensures var n := s.pages[p];
        && Shape(n.(r := INDEXMINL)) && Shape(SplitRight(n, old(pages[sib])))
        && pages == Halved(s, p, sib, n.(r := INDEXMINL), SplitRight(n, old(pages[sib]))).pages
    {
      hide Linked, Down, Up, Splittable, Kids, Keys, Relink, SplitRight, Blank, Read, Adoptable, Halved, Sound, Foreign,
        Marked, Cut;
      var n, z := pages[p], pages[sib];
      SplitPages(s, p, par, k, sib, z);
      SplitShape(n, z);
      SoundMarked();
      Write(p, n.(r := INDEXMINL));
      Write(sib, SplitRight(n, z));
      assert pages == s.pages[p := n.(r := INDEXMINL)][sib := SplitRight(n, z)];
      if pages[sib].child[0] != 0 {
        SplitAdoptable(s, p, par, k, sib, z);
        RelinkKeys(pages, p, INDEXMINL + 1, INDEXCOUNT + 1, sib, -(INDEXMINL + 1));
        Adopt(sib, 0, INDEXMINR + 1, p, -(INDEXMINL + 1));
      }
    }

    /** The slots and children behind the middle slot of p move to a new page. */
    method CutPage(p: PageIndex, ghost par: PageIndex, ghost k: int) returns (sib: PageIndex)
      requires Sound() && p in pages && p in ht && Shape(pages[p]) && Size(pages[p]) == 254
      requires par in pages && par in ht && root in ht
      requires Splittable(St(), p, par, k) && MayGrow(St(), p, par)
      requires p in dirty
      modifies this, space
      ensures Sound() && Foreign() == old(Foreign())
      ensures Pending(St(), par, k, old(Keys(pages[p]))[127], p, sib) && MayGrow(St(), 0, par)
      ensures p in pages && Shape(pages[p]) && Keys(pages[p]) == old(Keys(pages[p]))[..127]
      ensures sib in pages && Shape(pages[sib]) && Keys(pages[sib]) == old(Keys(pages[p]))[128..]
      ensures Kids(pages[p]) == old(Kids(pages[p]))[..128] && Kids(pages[sib]) == old(Kids(pages[p]))[128..]
      ensures old(pages[p]).l == 0
      ensures Whole(St()) == old(Whole(St()))
      ensures par in pages && pages[par] == old(pages[par]) && Shape(pages[par])
      ensures par in ht && root in ht && ht[root] == old(ht[root]) && ht[par] == old(ht[par]) == old(ht[p]) + 1
      ensures old(dirty) <= dirty && sib in dirty
    {
      hide Linked, Down, Up, Splittable, Pending, MayGrow, Kids, Keys, Relink, SplitRight, Blank, Read, Adoptable,
        Whole, Halved, Sound, Foreign, Marked;
      ghost var s := St();
      var n := pages[p];
      sib := AllocPage();
      ghost var z := pages[sib];
      SplitReady(s, p, par, k, sib, z);
      SplitHalves(n, z);
      SplitShape(n, z);
      MiddleKey(n);
      HalvesHold(s, p, sib, n.(r := INDEXMINL), SplitRight(n, z));
      CopyHalf(p, sib, par, k, s);
      ghost var h := Halved(s, p, sib, n.(r := INDEXMINL), SplitRight(n, z));
      HalvedKeys(s, p, sib, n.(r := INDEXMINL), SplitRight(n, z));
      ord, ht := h.ord, h.ht;
    }

    /** The slots and children on the shorter side make room for mid and rc. */
    method Enter(par: PageIndex, pos: int, mid: Slot, lc: PageIndex, rc: PageIndex)
      requires Sound() && par in pages && Shape(pages[par])
      requires Pending(St(), par, pos - pages[par].l, mid, lc, rc) && MayGrow(St(), 0, par)
      requires {par, lc, rc} <= dirty
      modifies `pages, `dirty
      ensures Sound() && Foreign() == old(Foreign()) && old(dirty) <= dirty
      ensures par in pages && Size(pages[par]) == old(Size(pages[par])) + 1
      ensures Tidy(St(), if Size(pages[par]) == INDEXCOUNT then par else 0) && Whole(St()) == old(Whole(St()))
      ensures var n := old(pages[par]);
        pages[par].l == if n.l == 0 || (n.r - pos < pos - n.l && n.r < 254) then n.l else n.l - 1
    {
      hide Linked, Down, Up, Pending, MayGrow, Kids, Keys, Tidy, Grown, Slide, Whole, Marked,
        space.Valid;
      ghost var s := St();
      var n := pages[par];
      PendingPlace(s, par, pos - n.l, mid, lc, rc);
      MayGrowSize(s, 0, par);
      if n.l == 0 || ((n.l + n.r) / 2 < pos && n.r < INDEXCOUNT) {
        GrownRight2(s, par, pos, mid, lc, rc);
        EnterRight(par, pos, mid, lc, rc);
        GrownFields(s, par, GrownRight(n, pos, mid, lc, rc), pos - n.l, lc, rc);
      } else {
        GrownLeft2(s, par, pos, mid, lc, rc);
        EnterLeft(par, pos, mid, lc, rc);
        GrownFields(s, par, GrownLeft(n, pos, mid, lc, rc), pos - n.l, lc, rc);
      }
    }

    /** mid and rc enter par behind lc, which stands at pos. */
    method InsertInternal(par: PageIndex, pos: int, mid: Slot, lc: PageIndex, rc: PageIndex)
      requires Sound() && par in pages && Shape(pages[par])
      requires Pending(St(), par, pos - pages[par].l, mid, lc, rc) && MayGrow(St(), 0, par)
      requires {par, lc, rc} <= dirty
      modifies this, space
      ensures Sound() && Foreign() == old(Foreign())
      ensures Tidy(St(), 0) && Whole(St()) == old(Whole(St()))
      ensures old(dirty) <= dirty
      decreases if Size(pages[par]) == 0 then 0 else ht[root] - ht[par] + 1, 1
    {
      hide Linked, Down, Up, Pending, MayGrow, Kids, Keys, Tidy, Whole, Sound, Foreign;
      PendingPlace(St(), par, pos - pages[par].l, mid, lc, rc);
      Enter(par, pos, mid, lc, rc);
      if Size(pages[par]) == INDEXCOUNT {
        Split(par);
      }
    }

    /** A page is written, and two pages hung under it, side by side. */
    method WriteWith(par: PageIndex, m: Node, lc: PageIndex, rc: PageIndex, i: int)
      requires par in pages && lc in pages && rc in pages && par != lc && par != rc && lc != rc
      requires Marked() && {par, lc, rc} <= dirty
      modifies `pages
      ensures Marked()
      ensures pages == old(pages)[par := m][lc := old(pages[lc]).(parent := par, ppos := i)]
                         [rc := old(pages[rc]).(parent := par, ppos := i + 1)]
    {
      hide Marked, Sound, Foreign;
      Write(par, m);
      Write(lc, pages[lc].(parent := par, ppos := i));
      Write(rc, pages[rc].(parent := par, ppos := i + 1));
    }

    /** The tail of par makes room for mid at pos. */
    method EnterRight(par: PageIndex, pos: int, mid: Slot, lc: PageIndex, rc: PageIndex)
      requires par in pages && Shape(pages[par]) && pages[par].l <= pos <= pages[par].r < INDEXCOUNT
      requires Pending(St(), par, pos - pages[par].l, mid, lc, rc) && lc in pages && rc in pages
      requires Marked() && {par, lc, rc} <= dirty
      modifies `pages, `dirty
      ensures var n := old(pages[par]);
        St() == Grown(old(St()), par, GrownRight(n, pos, mid, lc, rc), pos - n.l, lc, rc)
      ensures Marked() && old(dirty) <= dirty
    {
      hide Linked, Down, Up, Pending, Kids, Keys, Shifted, Slide, Grown, Linking, Marked, Sound, Foreign;
      ghost var s := St();
      var n := pages[par];
      PendingParts(s, par, pos - n.l, mid, lc, rc);
      PendingLinking(s, par, pos - n.l, mid, lc, rc, pos + 1, n.r + 1);
      SlideUp(par, pos, n.r, 1);
      ShiftedAt(s.pages, par, pos, n.r, 1, 1);
      ShiftedOther(s.pages, par, pos, n.r, 1, 1, lc, par, pos);
      ShiftedOther(s.pages, par, pos, n.r, 1, 1, rc, par, pos + 1);
      var m := pages[par];
      m := m.(key := m.key[pos := mid], child := m.child[pos := lc][pos + 1 := rc], r := m.r + 1);
      WriteWith(par, m, lc, rc, pos);
      GrownRightPages(s, par, pos, mid, lc, rc);
      GrownFields(s, par, GrownRight(n, pos, mid, lc, rc), pos - n.l, lc, rc);
    }

    /** The head of par makes room for mid at pos - 1. */
    method EnterLeft(par: PageIndex, pos: int, mid: Slot, lc: PageIndex, rc: PageIndex)
      requires par in pages && Shape(pages[par]) && 0 < pages[par].l <= pos <= pages[par].r
      requires Pending(St(), par, pos - pages[par].l, mid, lc, rc) && lc in pages && rc in pages
      requires Marked() && {par, lc, rc} <= dirty
      modifies `pages, `dirty
      ensures var n := old(pages[par]);
        St() == Grown(old(St()), par, GrownLeft(n, pos, mid, lc, rc), pos - n.l, lc, rc)
      ensures Marked() && old(dirty) <= dirty
    {
      hide Linked, Down, Up, Pending, Kids, Keys, Shifted, Slide, Grown, Linking, Marked, Sound, Foreign;
      ghost var s := St();
      var n := pages[par];
      PendingParts(s, par, pos - n.l, mid, lc, rc);
      PendingLinking(s, par, pos - n.l, mid, lc, rc, n.l, pos);
      SlideDown(par, n.l, pos, 1, 0);
      ShiftedAt(s.pages, par, n.l, pos, -1, 0);
      ShiftedOther(s.pages, par, n.l, pos, -1, 0, lc, par, pos - 1);
      ShiftedOther(s.pages, par, n.l, pos, -1, 0, rc, par, pos);
      var m := pages[par];
      m := m.(key := m.key[pos - 1 := mid], child := m.child[pos - 1 := lc][pos := rc], l := m.l - 1);
      WriteWith(par, m, lc, rc, pos - 1);
      GrownLeftPages(s, par, pos, mid, lc, rc);
      GrownFields(s, par, GrownLeft(n, pos, mid, lc, rc), pos - n.l, lc, rc);
    }

    // ----- deletion -----

    /** The live slots and children of p move d places to the front. */
    method SlideAllDown(p: PageIndex, d: int)
      requires Linked(St()) && p in pages && Shape(pages[p]) && d > 0 && Fits(pages[p].l, pages[p].r, -d)
      requires Marked() && p in dirty
      modifies `pages, `dirty
      ensures St() == Slid(old(St()), p, SlidNode(old(pages[p]), -d))
      ensures Marked() && old(dirty) <= dirty
    {
      hide Linked, Down, Up, Kids, Keys, Slide, Relink, Linking, Marked, Sound, Foreign;
      ghost var s := St();
      var n := pages[p];
      ChildIffInner(s, p);
      if n.child[n.l] != 0 {
        LinkedLinking(s, p, n.l, n.r);
        SlidDownPages(s, p, d);
        SlideDown(p, n.l, n.r, d, 0);
        ShiftedAt(s.pages, p, n.l, n.r, -d, 0);
        var m := pages[p];
        var c := m.child[n.r];
        SetDirty(c);
        Write(p, m.(child := m.child[n.r - d := c], l := n.l - d, r := n.r - d));
        Write(c, pages[c].(ppos := pages[c].ppos - d));
      } else {
        SlideKeysDown(p, n.l, n.r, d);
        Write(p, pages[p].(l := n.l - d, r := n.r - d));
        SlidNodeLive(n, -d);
        SlidLeafPages(s, p, SlidNode(n, -d));
      }
    }

    method SlideAllUp(p: PageIndex, d: int)
      requires Linked(St()) && p in pages && Shape(pages[p]) && d > 0 && Fits(pages[p].l, pages[p].r, d)
      requires Marked() && p in dirty
      modifies `pages, `dirty
      ensures St() == Slid(old(St()), p, SlidNode(old(pages[p]), d))
      ensures Marked() && old(dirty) <= dirty
    {
      hide Linked, Down, Up, Kids, Keys, Slide, Relink, Linking, Marked, Sound, Foreign;
      ghost var s := St();
      var n := pages[p];
      ChildIffInner(s, p);
      if n.child[n.l] != 0 {
        LinkedLinking(s, p, n.l + 1, n.r + 1);
        SlidUpPages(s, p, d);
        SlideUp(p, n.l, n.r, d);
        ShiftedAt(s.pages, p, n.l, n.r, d, 1);
        var m := pages[p];
        var c := m.child[n.l];
        SetDirty(c);
        Write(p, m.(child := m.child[n.l + d := c], l := n.l + d, r := n.r + d));
        Write(c, pages[c].(ppos := pages[c].ppos + d));
      } else {
        SlideKeysUp(p, n.l, n.r, d);
        Write(p, pages[p].(l := n.l + d, r := n.r + d));
        SlidNodeLive(n, d);
        SlidLeafPages(s, p, SlidNode(n, d));
      }
    }

    /** A child, if there is one, is hung under page t. */
    method Hang(c: PageIndex, t: PageIndex, i: nat)
      requires Marked() && (c != 0 ==> c in pages) && 0 !in pages
      modifies `pages, `dirty
      ensures pages == Handed(old(pages), c, t, i) && Marked() && old(dirty) <= dirty
      ensures old(Sound()) ==> Sound() && Foreign() == old(Foreign())
    {
      hide Sound, Foreign, Marked;
      if c != 0 {
        SetDirty(c);
        Write(c, pages[c].(parent := t, ppos := i));
      }
    }

    /** The separator at pos goes to x, the first slot of y takes its place. */
    method BorrowFromRight(x: PageIndex, y: PageIndex, par: PageIndex, pos: int)
      requires Sound() && x in pages && y in pages && par in pages && x in ht
      requires Shape(pages[x]) && Shape(pages[y]) && Shape(pages[par]) && pages[par].l <= pos < pages[par].r
      requires Neighbours(St(), x, y, par, pos - pages[par].l) && Tidy(St(), x)
      requires pages[x].r < INDEXCOUNT && Size(pages[x]) == INDEXMINR - 1 && INDEXMINR < Size(pages[y])
      requires {x, y, par} <= dirty
      modifies this
      ensures Sound() && Foreign() == old(Foreign())
      ensures Tidy(St(), 0) && Whole(St()) == old(Whole(St()))
      ensures old(dirty) <= dirty
    {
      hide Linked, Down, Up, Kids, Keys, Tidy, Whole, Shared, Handed, Sound, Foreign, Marked;
      SoundMarked();
      ghost var s := St();
      ghost var k := pos - pages[par].l;
      BorrowRightOk(s, x, y, par, k);
      NeighbourFacts(s, x, y, par, k);
      HandedFirst(s, x, y, par, k);
      ChildIffKnown(s, y);
      ZeroFree(s);
      var n1, n2, np := pages[x], pages[y], pages[par];
      var c := n2.child[n2.l];
      var m1 := n1.(key := n1.key[n1.r := np.key[pos]], child := n1.child[n1.r + 1 := c], r := n1.r + 1);
      var m2, mp := n2.(l := n2.l + 1), np.(key := np.key[pos := n2.key[n2.l]]);
      Write(x, m1);
      Write(y, m2);
      Write(par, mp);
      Hang(c, x, n1.r + 1);
      ghost var s' := Shared(s, x, y, par, Size(n1) + 1, m1, m2, mp);
      assert pages == s'.pages;
      ord := s'.ord;
    }

    /** The separator at pos goes to y, the last slot of x takes its place. */
    method BorrowFromLeft(x: PageIndex, y: PageIndex, par: PageIndex, pos: int)
      requires Sound() && x in pages && y in pages && par in pages && x in ht
      requires Shape(pages[x]) && Shape(pages[y]) && Shape(pages[par]) && pages[par].l <= pos < pages[par].r
      requires Neighbours(St(), x, y, par, pos - pages[par].l) && Tidy(St(), y)
      requires 0 < pages[y].l && Size(pages[y]) == INDEXMINR - 1 && INDEXMINR < Size(pages[x])
      requires {x, y, par} <= dirty
      modifies this
      ensures Sound() && Foreign() == old(Foreign())
      ensures Tidy(St(), 0) && Whole(St()) == old(Whole(St()))
      ensures old(dirty) <= dirty
    {
      hide Linked, Down, Up, Kids, Keys, Tidy, Whole, Shared, Handed, Sound, Foreign, Marked;
      SoundMarked();
      ghost var s := St();
      ghost var k := pos - pages[par].l;
      BorrowLeftOk(s, x, y, par, k);
      NeighbourFacts(s, x, y, par, k);
      HandedLast(s, x, y, par, k);
      ChildIffKnown(s, x);
      ZeroFree(s);
      var n1, n2, np := pages[x], pages[y], pages[par];
      var c := n1.child[n1.r];
      var m2 := n2.(key := n2.key[n2.l - 1 := np.key[pos]], child := n2.child[n2.l - 1 := c], l := n2.l - 1);
      var m1, mp := n1.(r := n1.r - 1), np.(key := np.key[pos := n1.key[n1.r - 1]]);
      Write(x, m1);
      Write(y, m2);
      Write(par, mp);
      Hang(c, y, n2.l - 1);
      ghost var s' := Shared(s, x, y, par, Size(n1) - 1, m1, m2, mp);
      assert pages == s'.pages;
      ord := s'.ord;
    }

    /** y, which stands right of the separator at pos, is appended to x. */
    method Absorb(x: PageIndex, y: PageIndex, par: PageIndex, pos: int)
      requires Sound() && x in pages && y in pages && par in pages && x in ht
      requires Shape(pages[x]) && Shape(pages[y]) && Shape(pages[par]) && pages[par].l <= pos < pages[par].r
      requires Neighbours(St(), x, y, par, pos - pages[par].l)
      requires pages[x].r + Size(pages[y]) + 1 <= INDEXCOUNT
      requires x in dirty
      modifies `pages, `dirty, space
      ensures Sound() && Foreign() == old(Foreign())
      ensures pages == Absorbed(old(St()), x, y, Appended(old(pages[x]), old(pages[par]).key[pos], old(pages[y])))
      ensures old(dirty) <= dirty
    {
      hide Linked, Down, Up, Kids, Keys, Relink, CopyAt, Adoptable, space.Valid, Marked;
      ghost var s := St();
      ghost var k := pos - pages[par].l;
      NeighbourFacts(s, x, y, par, k);
      var n1, n2, t := pages[x], pages[y], pages[par].key[pos];
      Write(x, n1.(key := CopyAt<Slot>(n1.key[n1.r := t], n1.r + 1, n2.key, n2.l, Size(n2)),
                   child := CopyAt<PageIndex>(n1.child, n1.r + 1, n2.child, n2.l, Size(n2) + 1),
                   r := n1.r + Size(n2) + 1));
      ghost var m := pages[x];
      AppendedFirst(s, x, y, par, k);
      FreePage(y);
      assert pages == (s.pages - {y})[x := m];
      if pages[x].child[n1.r + 1] != 0 {
        AbsorbAdoptable(s, x, y, par, k, m);
        RelinkKeys(pages, y, n2.l, n2.r + 1, x, n1.r + 1 - n2.l);
        Adopt(x, n1.r + 1, pages[x].r + 1, y, n1.r + 1 - n2.l);
      } else {
        AbsorbLeaf(s, x, y, par, k, m);
      }
    }

    /** y has been taken in by x, which is m now; the separator and the child behind it are still in par. */
    ghost predicate Gap(s: State, x: PageIndex, y: PageIndex, par: PageIndex, pos: int, m: Node)
      reads `pages
    {
      && x in s.pages && y in s.pages && par in s.pages && x in s.ht && Shape(m)
      && Shape(s.pages[x]) && Shape(s.pages[y]) && Shape(s.pages[par]) && s.pages[par].l <= pos < s.pages[par].r
      && Neighbours(s, x, y, par, pos - s.pages[par].l)
      && m.l == s.pages[x].l && SameLink(m, s.pages[x])
      && pages == Absorbed(s, x, y, m)
    }

    /** The slots and children behind pos close the gap. */
    method CloseRight(x: PageIndex, y: PageIndex, par: PageIndex, pos: int, ghost s: State, ghost m: Node)
      requires Gap(s, x, y, par, pos, m) && Marked() && par in dirty
      modifies `pages, `dirty
      ensures pages == Merged(s, x, y, par, pos - s.pages[par].l, m, ClosedRight(s.pages[par], pos)).pages
      ensures pages.Keys == old(pages.Keys) && Marked() && old(dirty) <= dirty
    {
      hide Linked, Down, Up, Kids, Keys, Slide, Neighbours, Shifted, Absorbed, Merged, Linking, Marked, Sound, Foreign;
      ghost var k := pos - s.pages[par].l;
      MergedRightPages(s, x, y, par, k, m);
      var np := pages[par];
      AbsorbedLinking(s, x, y, par, k, m, pos + 2, np.r + 1);
      ShiftedAt(pages, par, pos + 1, np.r, -1, 1);
      SlideDown(par, pos + 1, np.r, 1, 1);
      Write(par, pages[par].(r := np.r - 1));
    }

    /** The slots and children in front of pos close the gap. */
    method CloseLeft(x: PageIndex, y: PageIndex, par: PageIndex, pos: int, ghost s: State, ghost m: Node)
      requires Gap(s, x, y, par, pos, m) && Marked() && par in dirty
      modifies `pages, `dirty
      ensures pages == Merged(s, x, y, par, pos - s.pages[par].l, m, ClosedLeft(s.pages[par], pos)).pages
      ensures pages.Keys == old(pages.Keys) && Marked() && old(dirty) <= dirty
    {
      hide Linked, Down, Up, Kids, Keys, Slide, Neighbours, Shifted, Absorbed, Merged, Linking, Marked, Sound, Foreign;
      ghost var k := pos - s.pages[par].l;
      MergedLeftPages(s, x, y, par, k, m);
      var np := pages[par];
      AbsorbedLinking(s, x, y, par, k, m, np.l + 1, pos + 1);
      ShiftedAt(pages, par, np.l, pos, 1, 1);
      SlideUp(par, np.l, pos, 1);
      SlideFirst(np.child, np.l, pos + 1, 1);
      var c := pages[par].child[np.l];
      SetDirty(c);
      Write(par, pages[par].(child := pages[par].child[np.l + 1 := c], l := np.l + 1));
      Write(c, pages[c].(ppos := pages[c].ppos + 1));
    }

    /** The separator at pos and the child behind it leave par. */
    method CloseGap(x: PageIndex, y: PageIndex, par: PageIndex, pos: int, ghost s: State, ghost m: Node)
      returns (ghost mp: Node)
      requires Gap(s, x, y, par, pos, m) && Marked() && par in dirty
      modifies `pages, `dirty
      ensures pages.Keys == old(pages.Keys)
      ensures var n := s.pages[par];
        mp == if n.r - pos < pos - n.l then ClosedRight(n, pos) else ClosedLeft(n, pos)
      ensures pages == Merged(s, x, y, par, pos - s.pages[par].l, m, mp).pages
      ensures Marked() && old(dirty) <= dirty && (old(Sound()) ==> Sound() && Foreign() == old(Foreign()))
    {
      hide Linked, Down, Up, Kids, Keys, Slide, Neighbours, Shifted, Absorbed, Merged, Linking, Marked, space.Valid;
      AbsorbedParent(s, x, y, par, pos - s.pages[par].l, m);
      if (pages[par].l + pages[par].r) / 2 < pos {
        CloseRight(x, y, par, pos, s, m);
        mp := ClosedRight(s.pages[par], pos);
      } else {
        CloseLeft(x, y, par, pos, s, m);
        mp := ClosedLeft(s.pages[par], pos);
      }
    }

    /** x and y, too small together to stay two pages, become one; the gap in par is passed on upwards. */
    method MergeSibling(x: PageIndex, par: PageIndex, pos: int, y: PageIndex, ghost ex: PageIndex)
      requires Sound() && Linked(St()) && par in pages && par in ht && root in ht && pages[par].l <= pos
      requires Neighbours(St(), x, y, par, pos - pages[par].l) && Tidy(St(), ex) && (ex == x || ex == y)
      requires x in pages && y in pages && Size(pages[x]) + Size(pages[y]) + 1 == 2 * INDEXMINR
      requires {x, y, par} <= dirty
      modifies this, space
      ensures Sound() && Foreign() == old(Foreign())
      ensures Tidy(St(), 0) && Whole(St()) == old(Whole(St()))
      ensures old(dirty) <= dirty
      decreases ht[root] - ht[par], 1
    {
      hide Linked, Down, Up, Kids, Keys, Neighbours, Tidy, Whole, Sound, Foreign, Slid, SlidNode, Slide;
      ghost var s := St();
      ghost var k := pos - pages[par].l;
      SizesAround(s, ex, x, y, par, k);
      if INDEXCOUNT < pages[x].r + Size(pages[y]) + 1 {
        SlidForMerge(s, ex, x, y, par, k);
        SlideToFront(x, pages[x].l);
      }
      MergeInto(x, y, par, pos, ex);
      if Size(pages[par]) < INDEXMINR {
        Mend(par, x, s);
      } else {
        MergeTidy(s, St(), par);
      }
    }

    /** The live slots and children of x move d places to the front of its page. */
    method SlideToFront(x: PageIndex, d: int)
      requires Sound() && Linked(St()) && x in pages && Shape(pages[x]) && d > 0 && Fits(pages[x].l, pages[x].r, -d)
      requires x in dirty
      modifies `pages, `dirty
      ensures St() == Slid(old(St()), x, SlidNode(old(pages[x]), -d))
      ensures Sound() && Foreign() == old(Foreign())
      ensures old(dirty) <= dirty
    {
      hide Linked, Down, Up, Kids, Keys, Slide, space.Valid, Marked;
      SlideAllDown(x, d);
    }

    method MergeInto(x: PageIndex, y: PageIndex, par: PageIndex, pos: int, ghost ex: PageIndex)
      requires Sound() && x in pages && y in pages && par in pages && x in ht
      requires Shape(pages[x]) && Shape(pages[y]) && Shape(pages[par]) && pages[par].l <= pos < pages[par].r
      requires Neighbours(St(), x, y, par, pos - pages[par].l) && Tidy(St(), ex) && (ex == x || ex == y)
      requires pages[x].r + Size(pages[y]) + 1 <= INDEXCOUNT
      requires INDEXMINR <= Size(pages[x]) + Size(pages[y]) + 1 < INDEXCOUNT
      requires {x, par} <= dirty
      modifies this, space
      ensures Sound() && Foreign() == old(Foreign())
      ensures MergeOk(old(St()), St(), par) && ht == old(ht) - {y} && root == old(root) && y != par && y != root
      ensures x in pages && (pages[x].parent == par)
      ensures old(dirty) <= dirty
    {
      hide Linked, Down, Up, Kids, Keys, Neighbours, Tidy, Whole, MergeOk, Appended, ClosedRight, ClosedLeft,
        Sound, Foreign, Absorbed, Merged, Read, Marked;
      ghost var s := St();
      ghost var k := pos - pages[par].l;
      NeighbourFacts(s, x, y, par, k);
      ghost var m := Appended(pages[x], pages[par].key[pos], pages[y]);
      AppendedShape(pages[x], pages[par].key[pos], pages[y]);
      Absorb(x, y, par, pos);
      SoundMarked();
      ghost var mp := CloseGap(x, y, par, pos, s, m);
      MergedEither(s, ex, x, y, par, k, mp);
      ord, ht := s.ord[x := Read(s, x, m)] - {y}, ht - {y};
    }

    /** par lost a slot to a merge of its children and now holds too few. */
    method Mend(par: PageIndex, x: PageIndex, ghost s: State)
      requires Sound() && MergeOk(s, St(), par) && par in pages && par in ht && root in ht
        && Size(pages[par]) < INDEXMINR
      requires x in pages && pages[x].parent == par
      requires {x, par} <= dirty
      modifies this, space
      ensures Sound() && Foreign() == old(Foreign())
      ensures Tidy(St(), 0) && Whole(St()) == old(Whole(St()))
      ensures old(dirty) <= dirty
      decreases ht[root] - ht[par], 0
    {
      hide Linked, Down, Up, Kids, Keys, Neighbours, Tidy, Whole, Sound, Foreign;
      RootIffParent(St(), par);
      if pages[par].parent != 0 {
        var anc := pages[par].parent;
        SetDirty(anc);
        ShrinkNext(St(), par);
        if pages[anc].r == pages[par].ppos {
          LShrink(par, anc, pages[par].ppos - 1);
        } else {
          RShrink(par, anc, pages[par].ppos);
        }
      } else if Size(pages[par]) == 0 {
        ParentHeight(St(), x);
        Collapse(x);
      } else {
        assert Tidy(St(), 0) by { MergeTidy(s, St(), par); }
      }
    }

    /** The only child of an empty root becomes the root. */
    method Collapse(x: PageIndex)
      requires Sound() && Linked(St()) && root in pages && root in ht && Size(pages[root]) == 0 && ht[root] > 0
      requires SizedBut(St(), root)
      requires x in pages && pages[x].parent == root
      requires x in dirty
      modifies this, space
      ensures Sound() && Foreign() == old(Foreign())
      ensures Tidy(St(), 0) && Whole(St()) == old(Whole(St()))
      ensures old(dirty) <= dirty
    {
      hide Linked, Down, Up, Kids, Keys, Whole, space.Valid, Marked;
      ghost var s := St();
      CollapsedLinked(s, x);
      CollapsedSizes(s, x);
      var par := root;
      Write(x, pages[x].(parent := 0, ppos := 0));
      SetRoot(x);
      FreePage(par);
      ord, ht := ord - {par}, ht - {par};
    }

    method RShrink(p: PageIndex, par: PageIndex, pos: int)
      requires Sound() && Tidy(St(), p) && p in pages && par in pages && par in ht && root in ht
      requires Size(pages[p]) == INDEXMINR - 1 && Shape(pages[par]) && pages[par].l <= pos < pages[par].r
      requires Neighbours(St(), p, pages[par].child[pos + 1], par, pos - pages[par].l)
      requires {p, par} <= dirty
      modifies this, space
      ensures Sound() && Foreign() == old(Foreign())
      ensures Tidy(St(), 0) && Whole(St()) == old(Whole(St()))
      ensures old(dirty) <= dirty
      decreases ht[root] - ht[par], 2
    {
      hide Linked, Down, Up, Kids, Keys, Neighbours, Tidy, Whole, Sound, Foreign, Slid, SlidNode, Slide;
      ghost var s := St();
      var y := pages[par].child[pos + 1];
      SetDirty(y);
      SizesAround(s, p, p, y, par, pos - pages[par].l);
      if Size(pages[y]) > INDEXMINR {
        if pages[p].r == INDEXCOUNT {
          ghost var d := pages[p].l - INDEXSLIPL;
          SlidForBorrow(s, p, p, y, par, pos - pages[par].l, -d);
          SlideToFront(p, pages[p].l - INDEXSLIPL);
        }
        BorrowFromRight(p, y, par, pos);
      } else {
        MergeSibling(p, par, pos, y, p);
      }
    }

    method LShrink(p: PageIndex, par: PageIndex, pos: int)
      requires Sound() && Tidy(St(), p) && p in pages && par in pages && par in ht && root in ht
      requires Size(pages[p]) == INDEXMINR - 1 && Shape(pages[par]) && pages[par].l <= pos < pages[par].r
      requires Neighbours(St(), pages[par].child[pos], p, par, pos - pages[par].l)
      requires {p, par} <= dirty
      modifies this, space
      ensures Sound() && Foreign() == old(Foreign())
      ensures Tidy(St(), 0) && Whole(St()) == old(Whole(St()))
      ensures old(dirty) <= dirty
      decreases ht[root] - ht[par], 2
    {
      hide Linked, Down, Up, Kids, Keys, Neighbours, Tidy, Whole, Sound, Foreign, Slid, SlidNode, Slide;
      ghost var s := St();
      var x := pages[par].child[pos];
      SetDirty(x);
      SizesAround(s, p, x, p, par, pos - pages[par].l);
      if Size(pages[x]) > INDEXMINR {
        if pages[p].l == 0 {
          SlidForBorrow(s, p, x, p, par, pos - pages[par].l, INDEXSLIPR);
          SlideToBack(p, INDEXSLIPR);
        }
        BorrowFromLeft(x, p, par, pos);
      } else {
        MergeSibling(x, par, pos, p, p);
      }
    }

    /** The live slots and children of x move d places to the back of its page. */
    method SlideToBack(x: PageIndex, d: int)
      requires Sound() && Linked(St()) && x in pages && Shape(pages[x]) && d > 0 && Fits(pages[x].l, pages[x].r, d)
      requires x in dirty
      modifies `pages, `dirty
      ensures St() == Slid(old(St()), x, SlidNode(old(pages[x]), d))
      ensures Sound() && Foreign() == old(Foreign())
      ensures old(dirty) <= dirty
    {
      hide Linked, Down, Up, Kids, Keys, Slide, space.Valid, Marked;
      SlideAllUp(x, d);
    }

    // ----- leaves -----

    /** A blank root leaf gets its first slot, in the middle of the page. */
    method InsertInitNode(val: Slot)
      requires Sound() && Tidy(St(), 0) && root in pages && Size(pages[root]) == 0
      modifies this
      ensures Sound() && Foreign() == old(Foreign())
      ensures Tidy(St(), 0) && Whole(St()) == [val]
      ensures old(dirty) <= dirty
    {
      hide Linked, Down, Up, Kids, Keys, Lift, space.Valid, Marked;
      ghost var s := St();
      LeafSize(s, root);
      var n := pages[root];
      var m := n.(key := n.key[INDEXMINR := val], l := INDEXMINR, r := INDEXMINR + 1);
      SingleSlot(m, val);
      LeafRewritten(s, root, m);
      SetDirty(root);
      Write(root, m);
      ord := Lift(s, root, [val]);
    }

    /** The slots on one side of pos make room for val. */
    method EnterLeaf(p: PageIndex, pos: int, val: Slot)
      requires p in pages && Shape(pages[p]) && AllZero(pages[p]) && Size(pages[p]) < INDEXCOUNT
      requires pages[p].l <= pos <= pages[p].r
      requires Marked() && p in dirty
      modifies `pages
      ensures p in pages && pages == old(pages)[p := pages[p]] && Shape(pages[p]) && AllZero(pages[p])
      ensures var n, k := old(pages[p]), pos - old(pages[p]).l;
        SameLink(n, pages[p]) && Keys(pages[p]) == Keys(n)[..k] + [val] + Keys(n)[k..]
      ensures Size(pages[p]) == old(Size(pages[p])) + 1
      ensures Marked()
      ensures var n := old(pages[p]);
        pages[p].l == if n.l == 0 || (n.r - pos < pos - n.l && n.r < 254) then n.l else n.l - 1
    {
      hide Kids, Keys, Slide, Marked, Sound, Foreign;
      var n := pages[p];
      LeafGrown(n, pos, val);
      if n.l == 0 || ((n.l + n.r) / 2 < pos && n.r < INDEXCOUNT) {
        SlideKeysUp(p, pos, n.r, 1);
        Write(p, pages[p].(key := pages[p].key[pos := val], r := n.r + 1));
      } else {
        SlideKeysDown(p, n.l, pos, 1);
        Write(p, pages[p].(key := pages[p].key[pos - 1 := val], l := n.l - 1));
      }
    }

    /** val enters leaf p in front of position pos. */
    method InsertLeaf(p: PageIndex, pos: int, val: Slot)
      requires Sound() && Tidy(St(), 0) && p in pages && p in ht && ht[p] == 0
      requires Shape(pages[p]) && pages[p].l <= pos <= pages[p].r
      modifies this, space
      ensures Sound() && Foreign() == old(Foreign()) && Tidy(St(), 0)
      ensures var n, k := old(pages[p]), pos - old(pages[p]).l;
        Whole(St()) == old(Before(St(), p)) + (Keys(n)[..k] + [val] + Keys(n)[k..]) + old(After(St(), p))
      ensures old(dirty) <= dirty
    {
      hide Linked, Down, Up, Kids, Keys, Lift, Slide, Whole, Before, After, space.Valid, Marked;
      ghost var s := St();
      LeafSize(s, p);
      SetDirty(p);
      EnterLeaf(p, pos, val);
      ghost var m := pages[p];
      LeafRewritten(s, p, m);
      ord := Lift(s, p, Keys(m));
      if Size(pages[p]) == INDEXCOUNT {
        Split(p);
      } else {
        assert Sized(St(), p);
      }
    }

    /** The slots on one side of pos close the gap. */
    method LeaveLeaf(p: PageIndex, pos: int)
      requires p in pages && Shape(pages[p]) && AllZero(pages[p]) && pages[p].l <= pos < pages[p].r
      requires Marked() && p in dirty
      modifies `pages
      ensures p in pages && pages == old(pages)[p := pages[p]] && Shape(pages[p]) && AllZero(pages[p])
      ensures var n, k := old(pages[p]), pos - old(pages[p]).l;
        SameLink(n, pages[p]) && Keys(pages[p]) == Keys(n)[..k] + Keys(n)[k + 1..]
      ensures Size(pages[p]) == old(Size(pages[p])) - 1
      ensures Marked()
      ensures var n := old(pages[p]); pages[p].l == if n.r - pos < pos - n.l then n.l else n.l + 1
    {
      hide Kids, Keys, Slide, Marked, Sound, Foreign;
      var n := pages[p];
      LeafClosed(n, pos);
      if (n.l + n.r) / 2 < pos {
        SlideKeysDown(p, pos + 1, n.r, 1);
        Write(p, pages[p].(r := n.r - 1));
      } else {
        SlideKeysUp(p, n.l, pos, 1);
        Write(p, pages[p].(l := n.l + 1));
      }
    }

    /** The slot at position pos leaves leaf p. */
    method RemoveLeaf(p: PageIndex, pos: int)
      requires Sound() && Tidy(St(), 0) && p in pages && p in ht && ht[p] == 0
      requires Shape(pages[p]) && pages[p].l <= pos < pages[p].r
      modifies this, space
      ensures Sound() && Foreign() == old(Foreign()) && Tidy(St(), 0)
      ensures var n, k := old(pages[p]), pos - old(pages[p]).l;
        Whole(St()) == old(Before(St(), p)) + (Keys(n)[..k] + Keys(n)[k + 1..]) + old(After(St(), p))
      ensures old(dirty) <= dirty
    {
      hide Linked, Down, Up, Kids, Keys, Lift, Slide, Whole, Before, After, Neighbours, space.Valid, Marked;
      ghost var s := St();
      LeafSize(s, p);
      RootIffParent(s, p);
      SetDirty(p);
      LeaveLeaf(p, pos);
      ghost var m := pages[p];
      LeafRewritten(s, p, m);
      ord := Lift(s, p, Keys(m));
      if Size(pages[p]) < INDEXMINR && pages[p].parent != 0 {
        var par := pages[p].parent;
        SetDirty(par);
        ShrinkNext(St(), p);
        if pages[par].r == pages[p].ppos {
          LShrink(p, par, pages[p].ppos - 1);
        } else {
          RShrink(p, par, pages[p].ppos);
        }
      } else {
        assert Sized(St(), p);
      }
    }

    // ----- remove -----

    /** Down the last children, to the leaf that holds the slot in front of the one at pos. */
    method RightMost(p: PageIndex, pos: int) returns (q: PageIndex)
      requires Tidy(St(), 0) && p in pages && p in ht && ht[p] > 0
      requires Shape(pages[p]) && pages[p].l <= pos < pages[p].r
      ensures q in pages && q in ht && ht[q] == 0 && Shape(pages[q]) && Size(pages[q]) > 0
      ensures Linked(St()) && RightSpine(St(), pages[p].child[pos], q)
    {
      hide Linked, Down, Up, Kids, Keys, Tidy, RightSpine;
      ghost var s := St();
      var n := pages[p];
      TidyLinked(s);
      KidOf(s, p, pos - n.l);
      KidAt(n, pos - n.l);
      q := n.child[pos];
      ShapeOf(s, q);
      SpineSelf(s, q);
      ChildIffInner(s, q);
      while pages[q].child[pages[q].r] != 0
        invariant q in pages && q in ht && Shape(pages[q]) && ht[q] < ht[p]
        invariant RightSpine(s, n.child[pos], q)
        invariant pages[q].child[pages[q].r] != 0 <==> ht[q] > 0
        decreases ht[q]
      {
        SpineNext(s, n.child[pos], q);
        KidAt(pages[q], Size(pages[q]));
        q := pages[q].child[pages[q].r];
        ShapeOf(s, q);
        ChildIffInner(s, q);
      }
      LowerFull(s, p, q);
    }

    /** The slot in front takes the place of the slot at pos and leaves its leaf. */
    method RemoveInternal(p: PageIndex, pos: int)
      requires Sound() && Tidy(St(), 0) && p in pages && p in ht && ht[p] > 0
      requires Shape(pages[p]) && pages[p].l <= pos < pages[p].r && HasSlot(St(), p, pos - pages[p].l)
      modifies this, space
      ensures Sound() && Foreign() == old(Foreign()) && Tidy(St(), 0)
      ensures Whole(St()) == old(LeftPart(St(), p, pos - pages[p].l) + RightPart(St(), p, pos - pages[p].l))
      ensures old(dirty) <= dirty
    {
      hide Linked, Down, Up, Kids, Keys, Lift, Whole, Before, After, Tidy, LeftPart, RightPart, RightSpine,
        Overwritten, Sound, Foreign, Marked;
      SetDirty(p);
      ghost var s := St();
      var n := pages[p];
      var q := RightMost(p, pos);
      var t := pages[q].key[pages[q].r - 1];
      OverwriteReady(s, p, pos - n.l, q);
      SoundMarked();
      Write(p, n.(key := n.key[pos := t]));
      ghost var s' := Overwritten(s, p, pos - n.l, t);
      ord := s'.ord;
      assert St() == s';
      RemoveLeaf(q, pages[q].r - 1);
    }

    method Remove(p: PageIndex, pos: int)
      requires Sound() && Tidy(St(), 0) && p in pages
      requires Shape(pages[p]) && pages[p].l <= pos < pages[p].r && HasSlot(St(), p, pos - pages[p].l)
      modifies this, space
      ensures Sound() && Foreign() == old(Foreign()) && Tidy(St(), 0)
      ensures Whole(St()) == old(LeftPart(St(), p, pos - pages[p].l) + RightPart(St(), p, pos - pages[p].l))
      ensures old(dirty) <= dirty
    {
      hide Linked, Down, Up, Kids, Keys, Whole, Before, After, Sound, Foreign;
      ChildIffInner(St(), p);
      if pages[p].child[pos] != 0 {
        RemoveInternal(p, pos);
      } else {
        ghost var n, k := pages[p], pos - pages[p].l;
        Regroup4(Before(St(), p), Keys(n)[..k], Keys(n)[k + 1..], After(St(), p));
        RemoveLeaf(p, pos);
      }
    }

    // ----- the table as a map -----

    ghost predicate Valid()
      reads this, space, space.file
    {
      Sound() && Tidy(St(), 0) && Sorted(Whole(St()))
    }

    /** The table as a finite map from keys to records. */
    ghost function Contents(): map<Key, Pos>
      requires Valid()
      reads this, space, space.file
    {
      Entries(Whole(St()))
    }

    /** The binary search of find_key inside one page; cmp is the outcome of the last comparison. */
    method SearchPage(n: Node, key: Key) returns (pos: int, cmp: int)
      requires Shape(n) && Size(n) > 0 && Sorted(Keys(n))
      ensures n.l <= pos <= n.r
      ensures cmp == 0 ==> pos < n.r && n.key[pos].key == key
      ensures cmp != 0 ==> AllBelow(Keys(n)[..pos - n.l], key) && AllAbove(key, Keys(n)[pos - n.l..])
    {
      ghost var k := Keys(n);
      var size := n.r - n.l;
      pos := n.l;
      cmp := 1;
      while size > 0
        invariant n.l <= pos <= pos + size <= n.r && cmp != 0
        invariant forall i | 0 <= i < pos - n.l :: k[i].key < key
        invariant forall i | pos + size - n.l <= i < |k| :: key < k[i].key
        decreases size
      {
        var half := size / 2;
        var there := n.key[pos + half].key;
        assert k[pos + half - n.l].key == there;
        if there < key {
          cmp := 1;
          pos, size := pos + half + 1, size - (half + 1);
        } else if key < there {
          cmp := -1;
          size := half;
        } else {
          return pos + half, 0;
        }
      }
    }

    /** The page and position where the search for key ends; page 0 if the table is empty. */
    method FindKey(key: Key) returns (p: PageIndex, pos: int, cmp: int)
      requires Valid()
      ensures p == 0 <==> Size(pages[root]) == 0
      ensures p == 0 ==> root in pages && Whole(St()) == []
      ensures p != 0 ==> Linked(St()) && p in pages && p in ht && Shape(pages[p]) && pages[p].l <= pos <= pages[p].r
      ensures p != 0 && cmp == 0 ==> HasSlot(St(), p, pos - pages[p].l) && Keys(pages[p])[pos - pages[p].l].key == key
      ensures p != 0 && cmp != 0 ==> BelongsAt(St(), p, pos - pages[p].l, key)
    {
      hide Linked, Down, Up, Kids, Keys, Before, After, Whole, Between, Tidy, space.Valid;
      ghost var s := St();
      TidyLinked(s);
      RootBetween(s, key);
      LeafSize(s, root);
      TidyLinked(s);
      ZeroFree(s);
      if Size(pages[root]) == 0 {
        EmptyRoot(s);
        return 0, 0, 0;
      }
      p := root;
      while true
        invariant p in pages && p in ht && Shape(pages[p]) && Size(pages[p]) > 0
        invariant Linked(s) && Between(s, p, key) && p != 0
        decreases ht[p]
      {
        PageSorted(s, p);
        pos, cmp := SearchPage(pages[p], key);
        if cmp == 0 {
          KeyAt(pages[p], pos - pages[p].l);
          return;
        }
        var c := pages[p].child[pos];
        ChildIffInner(s, p);
        if c == 0 {
          LeafBelongs(s, p, pos - pages[p].l, key);
          return;
        }
        KidAtAny(pages[p], pos);
        BetweenBySearch(s, p, pos - pages[p].l, key);
        KidOf(s, p, pos - pages[p].l);
        LowerFull(s, p, c);
        LeafSize(s, c);
        p := c;
      }
    }

    /** find: the record of the key. */
    method Find(key: Key) returns (found: bool, record: Pos)
      requires Valid()
      ensures found <==> key in Contents()
      ensures found ==> record == Contents()[key]
    {
      hide Linked, Down, Up, Kids, Keys, Before, After, Whole, Tidy, space.Valid, LeftPart, RightPart, Sorted;
      ghost var s := St();
      var p, pos, cmp := FindKey(key);
      record := NONE;
      if p != 0 && cmp == 0 {
        KeyAt(pages[p], pos - pages[p].l);
        SlotInWhole(s, p, pos - pages[p].l);
        EntryAt(Whole(s), |LeftPart(s, p, pos - pages[p].l)|);
        return true, pages[p].key[pos].record;
      }
      found := false;
      if p == 0 {
      } else {
        Absent(s, p, pos - pages[p].l, key);
      }
    }

    /** put: enters the key with its record; an existing key keeps its record unless replace is set. */
    method Put(key: Key, record: Pos, replace: bool) returns (existed: bool)
      requires Valid()
      modifies this, space
      ensures Valid() && Foreign() == old(Foreign())
      ensures existed <==> key in old(Contents())
      ensures Contents() == if existed && !replace then old(Contents()) else old(Contents())[key := record]
      ensures old(dirty) <= dirty
    {
      hide Linked, Down, Up, Kids, Keys, Before, After, Whole, Tidy, space.Valid, LeftPart, RightPart, Sorted, Lift,
        Marked;
      ghost var s := St();
      var p, pos, cmp := FindKey(key);
      var t := Slot(key, record);
      if p == 0 {
        InsertInitNode(t);
        FirstEntry(t);
        existed := false;
      } else if cmp != 0 {
        ghost var k := pos - pages[p].l;
        Absent(s, p, k, key);
        LeafWhole(s, p, k);
        EntriesInsert(Before(s, p) + Keys(pages[p])[..k], t, Keys(pages[p])[k..] + After(s, p));
        Regroup5(Before(s, p), Keys(pages[p])[..k], [t], Keys(pages[p])[k..], After(s, p));
        InsertLeaf(p, pos, t);
        existed := false;
      } else {
        ghost var k := pos - pages[p].l;
        SlotInWhole(s, p, k);
        EntryAt(Whole(s), |LeftPart(s, p, k)|);
        existed := true;
        if replace {
          EntriesReplace(LeftPart(s, p, k), Keys(pages[p])[k], t, RightPart(s, p, k));
          ReplacedWhole(s, p, k, t);
          SetDirty(p);
          Write(p, pages[p].(key := pages[p].key[pos := t]));
          ord := Overwritten(s, p, k, t).ord;
        }
      }
    }

    /** del */
    method Del(key: Key) returns (existed: bool)
      requires Valid()
      modifies this, space
      ensures Valid() && Foreign() == old(Foreign())
      ensures existed <==> key in old(Contents())
      ensures Contents() == old(Contents()) - {key}
      ensures old(dirty) <= dirty
    {
      hide Linked, Down, Up, Kids, Keys, Before, After, Whole, Tidy, space.Valid, LeftPart, RightPart, Sorted, Marked;
      ghost var s := St();
      var p, pos, cmp := FindKey(key);
      if p != 0 && cmp == 0 {
        ghost var k := pos - pages[p].l;
        SlotInWhole(s, p, k);
        EntryAt(Whole(s), |LeftPart(s, p, k)|);
        EntriesRemove(LeftPart(s, p, k), Keys(pages[p])[k], RightPart(s, p, k));
        Remove(p, pos);
        return true;
      }
      existed := false;
      if p == 0 {
      } else {
        Absent(s, p, pos - pages[p].l, key);
      }
    }

    // ----- the ordered scan -----

    /** The first slot in the subtree of p; page 0 if there is none. */
    method LeftMost(p: PageIndex, ghost i: int) returns (q: PageIndex, pos: int)
      requires Tidy(St(), 0) && StartsAt(St(), p, i)
      ensures q == 0 ==> |Whole(St())| == i == 0
      ensures q != 0 ==> q in pages && Shape(pages[q]) && IsNth(St(), q, pos - pages[q].l, i)
    {
      hide Linked, Down, Up, Kids, Keys, Before, After, Whole, Tidy;
      ghost var s := St();
      TidyLinked(s);
      ZeroFree(s);
      q := p;
      ChildIffInner(s, q);
      while pages[q].child[pages[q].l] != 0
        invariant q in pages && q in ht && Shape(pages[q]) && StartsAt(s, q, i)
        invariant pages[q].child[pages[q].l] != 0 <==> ht[q] > 0
        decreases ht[q]
      {
        FirstStarts(s, q, i);
        q := pages[q].child[pages[q].l];
        ChildIffInner(s, q);
      }
      LeafSize(s, q);
      pos := pages[q].l;
      if pages[q].l < pages[q].r {
        FirstOfLeaf(s, q, i);
      } else {
        RootOnly(s, q, i);
        q := 0;
      }
    }

    /** The slot behind the one at pos of p; page 0 at the end. */
    method Next(p: PageIndex, pos: int, ghost i: int) returns (q: PageIndex, pos': int)
      requires Tidy(St(), 0) && p in pages && Shape(pages[p]) && IsNth(St(), p, pos - pages[p].l, i)
      ensures q == 0 ==> i + 1 == |Whole(St())|
      ensures q != 0 ==> q in pages && Shape(pages[q]) && IsNth(St(), q, pos' - pages[q].l, i + 1)
    {
      hide Linked, Down, Up, Kids, Keys, Before, After, Whole, Tidy, LeftPart;
      ghost var s := St();
      TidyLinked(s);
      ZeroFree(s);
      ChildIffInner(s, p);
      if pages[p].child[pos + 1] != 0 {
        ChildStarts(s, p, pos - pages[p].l, i);
        q, pos' := LeftMost(pages[p].child[pos + 1], i + 1);
        return;
      }
      if pos + 1 < pages[p].r {
        LeafNext(s, p, pos - pages[p].l, i);
        return p, pos + 1;
      }
      LeafEnds(s, p, pos - pages[p].l, i);
      q, pos' := ClimbToNext(p, i + 1);
    }

    /** From the end of p up to the slot behind it; page 0 at the end of the table. */
    method ClimbToNext(p: PageIndex, ghost i: int) returns (q: PageIndex, pos': int)
      requires EndsAt(St(), p, i)
      ensures q == 0 ==> i == |Whole(St())|
      ensures q != 0 ==> q in pages && Shape(pages[q]) && IsNth(St(), q, pos' - pages[q].l, i)
    {
      hide Linked, Down, Up, Kids, Keys, Before, After, Whole, LeftPart;
      ghost var s := St();
      DomainsOf(s);
      q := p;
      RootIffParent(s, q);
      while pages[q].parent != 0
        invariant EndsAt(s, q, i) && ht[q] <= ht[root]
        invariant pages[q].parent == 0 <==> q == root
        decreases ht[root] - ht[q]
      {
        ClimbNext(s, q, i);
        var par := pages[q].parent;
        if pages[q].ppos < pages[par].r {
          return par, pages[q].ppos;
        }
        q := par;
        RootIffParent(s, q);
      }
      RootEnds(s, i);
      q, pos' := 0, 0;
    }

    /** walk: every slot once, in ascending order. */
    method Walk() returns (out: seq<Slot>)
      requires Valid()
      ensures out == Whole(St()) && Sorted(out)
    {
      hide Linked, Down, Up, Kids, Before, After, Whole, Tidy, LeftPart;
      ghost var s := St();
      RootStarts(s);
      var p, pos := LeftMost(root, 0);
      out := WalkOn(p, pos, 0);
    }

    /** The rest of a scan. */
    method WalkOn(p0: PageIndex, pos0: int, ghost i0: int) returns (out: seq<Slot>)
      requires Tidy(St(), 0) && 0 <= i0 <= |Whole(St())|
      requires if p0 == 0 then i0 == |Whole(St())|
               else p0 in pages && Shape(pages[p0]) && IsNth(St(), p0, pos0 - pages[p0].l, i0)
      ensures out == Whole(St())[i0..]
    {
      hide Linked, Down, Up, Kids, Keys, Before, After, Whole, Tidy, LeftPart, RightPart;
      ghost var s := St();
      ghost var w := Whole(s);
      var p, pos := p0, pos0;
      ghost var i := i0;
      out := [];
      while p != 0
        invariant i0 <= i <= |w| && out == w[i0..i]
        invariant if p == 0 then i == |w| else p in pages && Shape(pages[p]) && IsNth(s, p, pos - pages[p].l, i)
        decreases |w| - i
      {
        NthSlot(s, p, pos - pages[p].l, i);
        KeyAt(pages[p], pos - pages[p].l);
        out := out + [pages[p].key[pos]];
        p, pos := Next(p, pos, i);
        i := i + 1;
      }
    }

    /** great_equal_key, then walk: every slot from the first key not below the given one. */
    method WalkFrom(key: Key) returns (out: seq<Slot>)
      requires Valid()
      ensures exists g :: FirstFrom(Whole(St()), key, g) && out == Whole(St())[g..]
    {
      hide Linked, Down, Up, Kids, Keys, Before, After, Whole, Tidy, LeftPart, RightPart, Sorted, space.Valid;
      ghost var s := St();
      var p, pos, cmp := FindKey(key);
      ghost var g := 0;
      if p != 0 {
        ghost var k := pos - pages[p].l;
        if cmp == 0 {
          g := NthExists(s, p, k);
          HitFirst(s, p, k, g, key);
        } else {
          g := |Before(s, p)| + k;
          MissFirst(s, p, k, key);
        }
        if pos == pages[p].r {
          DomainsOf(s);
          LeafSize(s, root);
          BelongsSize(s, p, k, key);
          LeafNth(s, p, k - 1);
          p, pos := Next(p, pos - 1, g - 1);
        } else if cmp != 0 {
          LeafNth(s, p, k);
        }
      }
      out := WalkOn(p, pos, g);
    }

    /**
     * next_key: the slot behind the place where the search ends. The answer is right exactly if the key is in the
     * table or belongs behind the last slot of its leaf; else it is the slot one further, or none.
     */
    method NextKey(key: Key) returns (found: bool, t: Slot, ghost m: int)
      requires Valid()
      ensures found <==> 0 <= m < |Whole(St())|
      ensures found ==> t == Whole(St())[m]
      ensures FirstFrom(Whole(St()), key, m - if key in Contents() || InFront(St(), key) then 1 else 0)
      ensures NextAbove(Whole(St()), key, found, t) <==> key in Contents() || !InFront(St(), key)
    {
      hide Linked, Down, Up, Kids, Keys, Before, After, Whole, Tidy, LeftPart, RightPart, Sorted, space.Valid,
        InFront, NextAbove, FirstFrom;
      ghost var s := St();
      var p, pos, cmp := FindKey(key);
      t := Slot(0.0, NONE);
      found, m := false, 0;
      TidyLinked(s);
      ZeroFree(s);
      if p == 0 {
        NoneInFront(s, key);
        return;
      }
      ghost var k, g := pos - pages[p].l, 0;
      DomainsOf(s);
      WholeSome(s, p, k, cmp == 0);
      if cmp == 0 {
        g := NthExists(s, p, k);
        HitAt(s, p, k, g, key);
      } else {
        g := |Before(s, p)| + k;
        MissAt(s, p, k, g, key);
        if pos < pages[p].r { LeafNth(s, p, k); NthSlot(s, p, k, g); }
      }
      var q, j;
      if pos < pages[p].r {
        q, j := Next(p, pos, g);
        m := g + 1;
      } else {
        TailEnds(s, p, k);
        q, j := ClimbToNext(p, g);
        m := g;
      }
      if q != 0 {
        NthSlot(s, q, j - pages[q].l, m);
        KeyAt(pages[q], j - pages[q].l);
        found, t := true, pages[q].key[j];
      }
      NextAboveAt(Whole(s), key, g, m, found, t);
    }
  }

  /** With 1 and 3 in a new table, next_key finds nothing behind 2. */
  method NextKeyPassesOver(r1: Pos, r3: Pos) returns (tree: BTree, found: bool, t: Slot)
    ensures fresh(tree) && tree.Valid() && tree.Contents() == map[1.0 := r1, 3.0 := r3]
    ensures !found
  {
    hide Linked, Tidy, Sorted, Whole, InFront, Entries;
    var space := new PageSpace();
    tree := new BTree(space);
    FirstEntry(Slot(1.0, r1));
    var _ := tree.Put(1.0, r1, false);
    var _ := tree.Put(3.0, r3, false);
    var e := tree.Contents();
    assert e == map[1.0 := r1, 3.0 := r3];
    ghost var a, b := Slot(1.0, r1), Slot(3.0, r3);
    TwoEntries(Whole(tree.St()), a, b);
    BetweenTwo(tree.St(), a, b, 2.0);
    ghost var m;
    found, t, m := tree.NextKey(2.0);
    TwoFrom(a, b, 2.0, m - 1);
  }
}
