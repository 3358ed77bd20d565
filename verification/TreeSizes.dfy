/** How many slots the pages hold through each step. */
module TreeSizes {
  import opened Places
  import opened IndexPage
  import opened TreeState
  import opened TreeSteps
  import opened TreeShare
  import opened TreeMoves
  import opened TreeEdits
  import opened TreeSlots

  lemma RootIffParent(s: State, p: PageIndex)
    requires Linked(s) && p in s.pages
    ensures s.pages[p].parent == 0 <==> p == s.root
    ensures p == s.root ==> s.pages[p].ppos == 0
  {
    hide Linked, Down, Up;
    DomainsOf(s);
    RootParent(s);
    if p != s.root { Climb(s, p); }
  }

  /** Every page other than p is at rest, and par may still grow. */
  ghost predicate MayGrow(s: State, p: PageIndex, par: PageIndex) {
    && par in s.pages && Size(s.pages[par]) < INDEXCOUNT
    && (par != s.root ==> INDEXMINR <= Size(s.pages[par]))
    && forall q {:trigger Sized(s, q)} | q in s.pages && q != p && q != par :: q in s.ht && Sized(s, q)
  }

  lemma SplitSizes(s0: State, s: State, p: PageIndex, par: PageIndex)
    requires Tidy(s0, p) && p in s0.pages
    requires if s0.pages[p].parent == 0
             then par !in s0.pages && par in s.pages && Blank(s.pages[par]) && s0.root in s0.ht
                && s == Rooted(s0, par, s.pages[par])
             else par == s0.pages[p].parent && s == s0
    ensures MayGrow(s, p, par)
  {
    hide Linked, Down, Up;
    RootIffParent(s0, p);
    if p != s0.root { Climb(s0, p); }
    forall q | q in s.pages && q != p && q != par ensures q in s.ht && Sized(s, q) {
      DomainsOf(s0);
      assert Sized(s0, q);
    }
    if p != s0.root { DomainsOf(s0); assert Sized(s0, par); }
  }

  lemma HalvedSizes(s: State, p: PageIndex, par: PageIndex, k: int, sib: PageIndex, z: Node)
    requires p in s.pages && p in s.ht && Shape(s.pages[p]) && Size(s.pages[p]) == INDEXCOUNT
    requires Splittable(s, p, par, k) && MayGrow(s, p, par) && sib !in s.pages && Blank(z)
    ensures MayGrow(Halved(s, p, sib, s.pages[p].(r := INDEXMINL), SplitRight(s.pages[p], z)), 0, par)
  {
    hide Down, Up, Kids, Keys, Pre, Suf, KidOk, Read, SplitRight, Blank;
    var n := s.pages[p];
    var h := Halved(s, p, sib, n.(r := INDEXMINL), SplitRight(n, z));
    forall q | q in h.pages && q != 0 && q != par ensures q in h.ht && Sized(h, q) {
      if q != p && q != sib { assert Sized(s, q); }
    }
  }

  lemma GrownSizes(s: State, par: PageIndex, m: Node, k: int, mid: Slot, lc: PageIndex, rc: PageIndex)
    requires Pending(s, par, k, mid, lc, rc) && Grows(s.pages[par], m, k, mid, lc, rc) && MayGrow(s, 0, par)
    ensures Tidy(Grown(s, par, m, k, lc, rc), if Size(m) == INDEXCOUNT then par else 0)
  {
    hide Linked, Down, Up, Kids, Keys, Pre, Suf, KidOk;
    var g := Grown(s, par, m, k, lc, rc);
    GrownLinked(s, par, m, k, mid, lc, rc);
    forall q | q in g.pages && (q != par || Size(m) < INDEXCOUNT) ensures q in g.ht && Sized(g, q) {
      if q != par { assert Sized(s, q); }
    }
  }

  /** What split leaves for insert_internal. */
  lemma SplitReady(s: State, p: PageIndex, par: PageIndex, k: int, sib: PageIndex, z: Node)
    requires p in s.pages && p in s.ht && Shape(s.pages[p]) && Size(s.pages[p]) == INDEXCOUNT
    requires sib !in s.pages && sib != 0 && Blank(z)
    requires Splittable(s, p, par, k) && MayGrow(s, p, par)
    ensures var n := s.pages[p];
      var h := Halved(s, p, sib, n.(r := INDEXMINL), SplitRight(n, z));
      && Shape(n.(r := INDEXMINL)) && n.l == 0 && Pending(h, par, k, n.key[INDEXMINL], p, sib)
      && MayGrow(h, 0, par) && Whole(h) == Whole(s)
      && par in h.pages && h.pages[par] == s.pages[par] && Shape(h.pages[par])
      && par in h.ht && h.root in h.ht && h.ht[h.root] == s.ht[s.root]
      && par in s.ht && h.ht[par] == s.ht[par] == s.ht[p] + 1
  {
    hide Linked, Down, Up, Kids, Keys, Pre, Suf, Read, SplitRight, Blank;
    var n := s.pages[p];
    SplitPages(s, p, par, k, sib, z);
    HalvedPending(s, p, par, k, sib, INDEXMINL, n.(r := INDEXMINL), SplitRight(n, z));
    HalvedSizes(s, p, par, k, sib, z);
    HalvedSiblings(s, p, par, k, sib, INDEXMINL, n.(r := INDEXMINL), SplitRight(n, z));
    KeyAt(n, INDEXMINL);
  }

  lemma SplitStart(s0: State, s: State, p: PageIndex, par: PageIndex, k: int)
    requires Tidy(s0, p) && p in s0.pages
    requires if s0.pages[p].parent == 0
             then par != 0 && par !in s0.pages && par in s.pages && Blank(s.pages[par]) && s0.root in s0.ht
                  && s == Rooted(s0, par, s.pages[par]) && k == 0
             else par == s0.pages[p].parent && s == s0 && par in s0.pages && k == Place(s0, p)
    ensures Splittable(s, p, par, k) && MayGrow(s, p, par) && Whole(s) == Whole(s0)
    ensures p in s.pages && s.pages[p] == s0.pages[p] && p in s.ht && p in s0.ht && s.ht[p] == s0.ht[p]
    ensures s0.pages[p].ppos == s.pages[par].l + k && s.root in s.ht && s0.root in s0.ht
    ensures par in s.ht
    ensures (if Size(s.pages[par]) == 0 then 0 else s.ht[s.root] - s.ht[par] + 1) < s0.ht[s0.root] - s0.ht[p] + 1
  {
    hide Linked, Down, Up, Splittable, Kids, Keys;
    SplitSizes(s0, s, p, par);
    RootIffParent(s0, p);
    DomainsOf(s0);
    if p == s0.root { SplittableRoot(s0, par, s.pages[par]); } else { SplittableChild(s0, p); Climb(s0, p); }
  }

  lemma GrownRight2(s: State, par: PageIndex, pos: int, mid: Slot, lc: PageIndex, rc: PageIndex)
    requires par in s.pages && Shape(s.pages[par]) && s.pages[par].l <= pos <= s.pages[par].r < INDEXCOUNT
    requires Pending(s, par, pos - s.pages[par].l, mid, lc, rc) && MayGrow(s, 0, par)
    ensures var m := GrownRight(s.pages[par], pos, mid, lc, rc);
      GrownOk(s, par, m, pos - s.pages[par].l, lc, rc)
  {
    hide Linked, Down, Up, Pending, Kids, Keys, GrownRight, MayGrow;
    var n := s.pages[par];
    GrownRightGrows(n, pos, mid, lc, rc);
    PendingParts(s, par, pos - n.l, mid, lc, rc);
    GrownSizes(s, par, GrownRight(n, pos, mid, lc, rc), pos - n.l, mid, lc, rc);
    GrownWhole(s, par, GrownRight(n, pos, mid, lc, rc), pos - n.l, mid, lc, rc);
  }

  lemma GrownLeft2(s: State, par: PageIndex, pos: int, mid: Slot, lc: PageIndex, rc: PageIndex)
    requires par in s.pages && Shape(s.pages[par]) && 0 < s.pages[par].l <= pos <= s.pages[par].r
    requires Pending(s, par, pos - s.pages[par].l, mid, lc, rc) && MayGrow(s, 0, par)
    ensures var m := GrownLeft(s.pages[par], pos, mid, lc, rc);
      GrownOk(s, par, m, pos - s.pages[par].l, lc, rc)
  {
    hide Linked, Down, Up, Pending, Kids, Keys, GrownLeft, MayGrow;
    var n := s.pages[par];
    GrownLeftGrows(n, pos, mid, lc, rc);
    PendingParts(s, par, pos - n.l, mid, lc, rc);
    GrownSizes(s, par, GrownLeft(n, pos, mid, lc, rc), pos - n.l, mid, lc, rc);
    GrownWhole(s, par, GrownLeft(n, pos, mid, lc, rc), pos - n.l, mid, lc, rc);
  }

  /** The step leaves a tree at rest, save perhaps par, that reads as before. */
  ghost predicate GrownOk(s: State, par: PageIndex, m: Node, k: int, lc: PageIndex, rc: PageIndex) {
    && par in s.pages && lc in s.pages && rc in s.pages && par != lc && par != rc && lc != rc
    && par in s.ht && s.root in s.ht && Shape(m) && Size(m) == Size(s.pages[par]) + 1
    && var g := Grown(s, par, m, k, lc, rc);
    && Tidy(g, if Size(m) == INDEXCOUNT then par else 0) && Whole(g) == Whole(s)
  }

  lemma GrownWhole(s: State, par: PageIndex, m: Node, k: int, mid: Slot, lc: PageIndex, rc: PageIndex)
    requires Pending(s, par, k, mid, lc, rc) && Grows(s.pages[par], m, k, mid, lc, rc)
    ensures Whole(Grown(s, par, m, k, lc, rc)) == Whole(s) && Shape(m) && Size(m) == Size(s.pages[par]) + 1
  {
  }

  lemma PendingPlace(s: State, par: PageIndex, k: int, mid: Slot, lc: PageIndex, rc: PageIndex)
    requires Pending(s, par, k, mid, lc, rc)
    ensures par in s.pages && s.pages[par].l <= s.pages[par].l + k <= s.pages[par].r && par in s.ht && s.root in s.ht
    ensures s.ht[par] <= s.ht[s.root]
  {
  }

  lemma MayGrowSize(s: State, p: PageIndex, par: PageIndex)
    requires MayGrow(s, p, par)
    ensures Size(s.pages[par]) < INDEXCOUNT
  {
  }

  lemma GrownFields(s: State, par: PageIndex, m: Node, k: int, lc: PageIndex, rc: PageIndex)
    requires par in s.pages && lc in s.pages && rc in s.pages
    ensures Grown(s, par, m, k, lc, rc) == s.(pages := Grown(s, par, m, k, lc, rc).pages)
    ensures Grown(s, par, m, k, lc, rc).pages.Keys == s.pages.Keys
    ensures par != lc && par != rc ==> Grown(s, par, m, k, lc, rc).pages[par] == m
  {
  }

  lemma HalvedKeys(s: State, p: PageIndex, sib: PageIndex, left: Node, right: Node)
    requires p in s.pages && p in s.ht && Shape(left) && Shape(right)
    ensures Halved(s, p, sib, left, right).pages.Keys == s.pages.Keys + {sib}
    ensures Halved(s, p, sib, left, right).root == s.root
  {
  }

  /** What the two halves of a full page hold. */
  lemma HalvesHold(s: State, p: PageIndex, sib: PageIndex, left: Node, right: Node)
    requires p in s.pages && p in s.ht && sib !in s.pages && Size(s.pages[p]) == INDEXCOUNT
    requires Halves(s.pages[p], INDEXMINL, left, right)
    ensures var n, h := s.pages[p], Halved(s, p, sib, left, right).pages;
      && p in h && Shape(h[p]) && Keys(h[p]) == Keys(n)[..127] && Kids(h[p]) == Kids(n)[..128]
      && sib in h && Shape(h[sib]) && Keys(h[sib]) == Keys(n)[128..] && Kids(h[sib]) == Kids(n)[128..]
  {
    hide Read, Keys, Kids, Relink;
  }

  lemma MiddleKey(n: Node)
    requires Shape(n) && n.l == 0 && Size(n) == INDEXCOUNT
    ensures Keys(n)[127] == n.key[INDEXMINL]
  {
  }

  // ----- sliding, sharing and merging -----

  lemma SlidKeeps(s: State, p: PageIndex, d: int, ex: PageIndex)
    requires p in s.pages && Shape(s.pages[p]) && Fits(s.pages[p].l, s.pages[p].r, d)
    requires Tidy(s, ex)
    ensures var s' := Slid(s, p, SlidNode(s.pages[p], d));
      && Tidy(s', ex) && Whole(s') == Whole(s) && s'.pages.Keys == s.pages.Keys
      && s'.pages[p] == SlidNode(s.pages[p], d) && Shape(s'.pages[p])
      && (forall q | q in s.pages && q != p :: SameBody(s.pages[q], s'.pages[q]))
  {
    hide Linked, Down, Up, Kids, Keys, Slide;
    var m := SlidNode(s.pages[p], d);
    SlidNodeLive(s.pages[p], d);
    SlidZero(s, p, d);
    SlidLinked(s, p, m);
    forall q | q in s.pages && q != ex ensures q in Slid(s, p, m).ht && Sized(Slid(s, p, m), q) {
      DomainsOf(s);
      assert Sized(s, q);
    }
  }

  lemma SlidZero(s: State, p: PageIndex, d: int)
    requires p in s.pages && Shape(s.pages[p]) && Fits(s.pages[p].l, s.pages[p].r, d) && Linked(s)
    ensures p in s.ht && (s.ht[p] == 0 ==> AllZero(SlidNode(s.pages[p], d)))
  {
    hide Linked, Up, Kids, Keys, Slide, Flat;
    DownOf(s, p);
    SlidNodeLive(s.pages[p], d);
  }

  lemma SlidNeighbours(s: State, p: PageIndex, d: int, x: PageIndex, y: PageIndex, par: PageIndex, k: int)
    requires p in s.pages && Shape(s.pages[p]) && Fits(s.pages[p].l, s.pages[p].r, d)
    requires Neighbours(s, x, y, par, k) && (p == x || p == y)
    ensures Neighbours(Slid(s, p, SlidNode(s.pages[p], d)), x, y, par, k)
  {
    hide Linked, Down, Up, Kids, Keys, Slide;
    var m := SlidNode(s.pages[p], d);
    NeighbourFacts(s, x, y, par, k);
    SlidNodeLive(s.pages[p], d);
    SlidZero(s, p, d);
    SlidLinked(s, p, m);
    SameArrays(s.pages[par], Slid(s, p, m).pages[par]);
  }

  lemma SharedSizes(s: State, ex: PageIndex, x: PageIndex, y: PageIndex, par: PageIndex, k: int, j: int, m1: Node,
                    m2: Node, mp: Node)
    requires Sharing(s, x, y, par, k, j, m1, m2, mp) && Tidy(s, ex) && (ex == x || ex == y)
    requires INDEXMINR <= Size(m1) < INDEXCOUNT && INDEXMINR <= Size(m2) < INDEXCOUNT
    ensures Tidy(Shared(s, x, y, par, j, m1, m2, mp), 0)
    ensures Whole(Shared(s, x, y, par, j, m1, m2, mp)) == Whole(s)
  {
    hide Linked, Down, Up, Kids, Keys, JointKeys, JointKids;
    NeighbourFacts(s, x, y, par, k);
    var s' := Shared(s, x, y, par, j, m1, m2, mp);
    SharedLinked(s, x, y, par, k, j, m1, m2, mp);
    forall q | q in s'.pages ensures q in s'.ht && Sized(s', q) {
      if q != x && q != y { assert Sized(s, q); }
    }
  }

  lemma MergedSizes(s: State, ex: PageIndex, x: PageIndex, y: PageIndex, par: PageIndex, k: int, m: Node, mp: Node)
    requires Merging(s, x, y, par, k, m, mp) && Tidy(s, ex) && (ex == x || ex == y)
    requires INDEXMINR <= Size(m) < INDEXCOUNT
    ensures var s' := Merged(s, x, y, par, k, m, mp);
      && Linked(s') && Whole(s') == Whole(s) && s'.root == s.root && par in s'.pages && s'.pages[par] == mp
      && (forall q | q in s'.pages && q != par :: q in s'.ht && Sized(s', q))
      && Size(mp) < INDEXCOUNT - 1 && (par != s.root ==> INDEXMINR - 1 <= Size(mp)) && Shape(mp)
  {
    hide Linked, Down, Up, Kids, Keys, JointKeys, JointKids, Neighbours;
    NeighbourFacts(s, x, y, par, k);
    var s' := Merged(s, x, y, par, k, m, mp);
    MergedLinked(s, x, y, par, k, m, mp);
    forall q | q in s'.pages && q != par ensures q in s'.ht && Sized(s', q) {
      if q != x { assert Sized(s, q); }
    }
    assert Sized(s, par);
  }

  /** After r_shrink or l_shrink between x and y. */
  ghost predicate BorrowOk(s: State, s': State) {
    Tidy(s', 0) && Whole(s') == Whole(s) && s'.pages.Keys == s.pages.Keys
  }

  lemma BorrowRightOk(s: State, x: PageIndex, y: PageIndex, par: PageIndex, k: int)
    requires x in s.pages && y in s.pages && par in s.pages && x in s.ht
    requires Shape(s.pages[x]) && Shape(s.pages[y]) && Shape(s.pages[par]) && 0 <= k < Size(s.pages[par])
    requires Neighbours(s, x, y, par, k) && Tidy(s, x)
    requires s.pages[x].r < INDEXCOUNT && Size(s.pages[x]) == INDEXMINR - 1 && INDEXMINR < Size(s.pages[y])
    ensures var n1, n2, np := s.pages[x], s.pages[y], s.pages[par];
      var m1, m2 := TakenLast(n1, np.key[np.l + k], FirstKid(n2)), n2.(l := n2.l + 1);
      var mp := np.(key := np.key[np.l + k := n2.key[n2.l]]);
      && Shape(m1) && Shape(m2)
      && BorrowOk(s, Shared(s, x, y, par, Size(n1) + 1, m1, m2, mp))
      && var s' := Shared(s, x, y, par, Size(n1) + 1, m1, m2, mp);
      s' == s.(pages := Handed(s.pages[x := m1][y := m2][par := mp], FirstKid(n2), x, n1.r + 1), ord := s'.ord)
  {
    hide Linked, Down, Up, Kids, Keys, Neighbours, Handed, Sharing, Read;
    NeighbourFacts(s, x, y, par, k);
    var n1, n2, np := s.pages[x], s.pages[y], s.pages[par];
    var m1, m2 := TakenLast(n1, np.key[np.l + k], FirstKid(n2)), n2.(l := n2.l + 1);
    var mp := np.(key := np.key[np.l + k := n2.key[n2.l]]);
    assert Sized(s, y);
    BorrowRight(s, x, y, par, k);
    BorrowRightPages(s, x, y, par, k, m1, m2, mp);
    SharedSizes(s, x, x, y, par, k, Size(n1) + 1, m1, m2, mp);
  }

  lemma BorrowLeftOk(s: State, x: PageIndex, y: PageIndex, par: PageIndex, k: int)
    requires x in s.pages && y in s.pages && par in s.pages && x in s.ht
    requires Shape(s.pages[x]) && Shape(s.pages[y]) && Shape(s.pages[par]) && 0 <= k < Size(s.pages[par])
    requires Neighbours(s, x, y, par, k) && Tidy(s, y)
    requires 0 < s.pages[y].l && Size(s.pages[y]) == INDEXMINR - 1 && INDEXMINR < Size(s.pages[x])
    ensures var n1, n2, np := s.pages[x], s.pages[y], s.pages[par];
      var m1, m2 := n1.(r := n1.r - 1), TakenFirst(n2, np.key[np.l + k], LastKid(n1));
      var mp := np.(key := np.key[np.l + k := n1.key[n1.r - 1]]);
      && Shape(m1) && Shape(m2)
      && BorrowOk(s, Shared(s, x, y, par, Size(n1) - 1, m1, m2, mp))
      && var s' := Shared(s, x, y, par, Size(n1) - 1, m1, m2, mp);
      s' == s.(pages := Handed(s.pages[x := m1][y := m2][par := mp], LastKid(n1), y, n2.l - 1), ord := s'.ord)
  {
    hide Linked, Down, Up, Kids, Keys, Neighbours, Handed, Sharing, Read;
    NeighbourFacts(s, x, y, par, k);
    var n1, n2, np := s.pages[x], s.pages[y], s.pages[par];
    var m1, m2 := n1.(r := n1.r - 1), TakenFirst(n2, np.key[np.l + k], LastKid(n1));
    var mp := np.(key := np.key[np.l + k := n1.key[n1.r - 1]]);
    assert Sized(s, x);
    BorrowLeft(s, x, y, par, k);
    BorrowLeftPages(s, x, y, par, k, m1, m2, mp);
    SharedSizes(s, y, x, y, par, k, Size(n1) - 1, m1, m2, mp);
  }

  /** After y was merged into x: the separator has left par, everything else is at rest. */
  ghost predicate MergeOk(s: State, s': State, par: PageIndex) {
    && Linked(s') && Whole(s') == Whole(s) && s'.root == s.root && par in s'.pages && Shape(s'.pages[par])
    && SizedBut(s', par)
    && Size(s'.pages[par]) < INDEXCOUNT && (par != s.root ==> INDEXMINR - 1 <= Size(s'.pages[par]))
  }

  lemma MergeRightOk(s: State, ex: PageIndex, x: PageIndex, y: PageIndex, par: PageIndex, k: int)
    requires x in s.pages && y in s.pages && par in s.pages && x in s.ht
    requires Shape(s.pages[x]) && Shape(s.pages[y]) && Shape(s.pages[par]) && 0 <= k < Size(s.pages[par])
    requires Neighbours(s, x, y, par, k) && Tidy(s, ex) && (ex == x || ex == y)
    requires s.pages[x].r + Size(s.pages[y]) + 1 <= INDEXCOUNT
    requires INDEXMINR <= Size(s.pages[x]) + Size(s.pages[y]) + 1 < INDEXCOUNT
    ensures var np := s.pages[par];
      var m, pos := Appended(s.pages[x], np.key[np.l + k], s.pages[y]), np.l + k;
      && Shape(m)
      && MergeOk(s, Merged(s, x, y, par, k, m, ClosedRight(np, pos)), par)
      && MergeOk(s, Merged(s, x, y, par, k, m, ClosedLeft(np, pos)), par)
  {
    hide Linked, Down, Up, Kids, Keys, Appended, ClosedRight, ClosedLeft, Merging;
    var np := s.pages[par];
    var m, pos := Appended(s.pages[x], np.key[np.l + k], s.pages[y]), np.l + k;
    AppendedShape(s.pages[x], np.key[np.l + k], s.pages[y]);
    AppendedKeys(s.pages[x], np.key[np.l + k], s.pages[y]);
    MergingHolds(s, x, y, par, k, ClosedRight(np, pos));
    MergingHolds(s, x, y, par, k, ClosedLeft(np, pos));
    MergedSizes(s, ex, x, y, par, k, m, ClosedRight(np, pos));
    MergedSizes(s, ex, x, y, par, k, m, ClosedLeft(np, pos));
  }

  lemma MergedEither(s: State, ex: PageIndex, x: PageIndex, y: PageIndex, par: PageIndex, k: int, mp: Node)
    requires x in s.pages && y in s.pages && par in s.pages && x in s.ht
    requires Shape(s.pages[x]) && Shape(s.pages[y]) && Shape(s.pages[par]) && 0 <= k < Size(s.pages[par])
    requires Neighbours(s, x, y, par, k) && Tidy(s, ex) && (ex == x || ex == y)
    requires s.pages[x].r + Size(s.pages[y]) + 1 <= INDEXCOUNT
    requires INDEXMINR <= Size(s.pages[x]) + Size(s.pages[y]) + 1 < INDEXCOUNT
    requires mp == ClosedRight(s.pages[par], s.pages[par].l + k) || mp == ClosedLeft(s.pages[par], s.pages[par].l + k)
    ensures var m := Appended(s.pages[x], s.pages[par].key[s.pages[par].l + k], s.pages[y]);
      && Shape(m)
      && var s' := Merged(s, x, y, par, k, m, mp);
      && MergeOk(s, s', par) && x in s'.pages && s'.pages[x].parent == par && y != par && y != s.root
      && s' == State(s'.pages, s.root, s.ord[x := Read(s, x, m)] - {y}, s.ht - {y})
  {
    hide Linked, Down, Up, Kids, Keys, Neighbours, Appended, ClosedRight, ClosedLeft, MergeOk, Merged, Tidy, Read;
    NeighbourFacts(s, x, y, par, k);
    MergeRightOk(s, ex, x, y, par, k);
    AppendedShape(s.pages[x], s.pages[par].key[s.pages[par].l + k], s.pages[y]);
    MergedFields(s, x, y, par, k, Appended(s.pages[x], s.pages[par].key[s.pages[par].l + k], s.pages[y]), mp);
  }

  /** The parent in need of a shrink, with its own parent and neighbours. */
  lemma ShrinkNext(s: State, p: PageIndex)
    requires Linked(s) && p in s.pages && p != s.root
    requires SizedBut(s, p)
    ensures Tidy(s, p) && HasPlace(s, p) && s.pages[p].parent in s.ht && p in s.ht && s.root in s.ht
    ensures s.ht[s.pages[p].parent] == s.ht[p] + 1 <= s.ht[s.root] && 1 <= Size(s.pages[s.pages[p].parent])
    ensures var n, par, i := s.pages[s.pages[p].parent], s.pages[p].parent, s.pages[p].ppos;
      && (i < n.r ==> Neighbours(s, p, n.child[i + 1], par, i - n.l))
      && (i > n.l ==> Neighbours(s, n.child[i - 1], p, par, i - 1 - n.l))
  {
    hide Linked, Down, Up, Keys;
    DomainsOf(s);
    Climb(s, p);
    assert Sized(s, s.pages[p].parent);
  }

  lemma SizesAround(s: State, ex: PageIndex, x: PageIndex, y: PageIndex, par: PageIndex, k: int)
    requires Neighbours(s, x, y, par, k) && Tidy(s, ex) && (ex == x || ex == y)
    ensures Linked(s) && x in s.pages && y in s.pages && par in s.pages && x in s.ht && par in s.ht && s.root in s.ht
    ensures Shape(s.pages[x]) && Shape(s.pages[y]) && Shape(s.pages[par])
    ensures ex != x ==> INDEXMINR <= Size(s.pages[x]) < INDEXCOUNT
    ensures ex != y ==> INDEXMINR <= Size(s.pages[y]) < INDEXCOUNT
    ensures s.ht[par] <= s.ht[s.root] && x != y && x != par && y != par && k < Size(s.pages[par])
    ensures s.pages[y].ppos == s.pages[par].l + k + 1 && s.pages[x].ppos == s.pages[par].l + k
  {
    hide Linked, Down, Up, Kids, Keys;
    NeighbourFacts(s, x, y, par, k);
    if ex != x { assert Sized(s, x); }
    if ex != y { assert Sized(s, y); }
  }

  /** Sliding one of two neighbours leaves them neighbours. */
  lemma SlidForBorrow(s: State, p: PageIndex, x: PageIndex, y: PageIndex, par: PageIndex, k: int, d: int)
    requires x in s.pages && y in s.pages && par in s.pages && p in s.pages && Shape(s.pages[p]) && (p == x || p == y)
    requires Neighbours(s, x, y, par, k) && Tidy(s, p) && Fits(s.pages[p].l, s.pages[p].r, d)
    ensures SlidOk(s, Slid(s, p, SlidNode(s.pages[p], d)), p, p, x, y, par, k, d)
  {
    hide Linked, Down, Up, Kids, Keys, Neighbours, Slide, Tidy;
    SlidNeighbours(s, p, d, x, y, par, k);
    SlidKeeps(s, p, d, p);
    NeighbourFacts(s, x, y, par, k);
  }

  ghost predicate SlidOk(s: State, s': State, ex: PageIndex, p: PageIndex, x: PageIndex, y: PageIndex, par: PageIndex,
                         k: int, d: int) {
    && x in s.pages && y in s.pages && par in s.pages && p in s.pages
    && Neighbours(s', x, y, par, k) && Tidy(s', ex) && Whole(s') == Whole(s) && s'.pages.Keys == s.pages.Keys
    && Shape(s'.pages[x]) && Shape(s'.pages[y]) && Shape(s'.pages[par])
    && s'.pages[p].l == s.pages[p].l + d && s'.pages[p].r == s.pages[p].r + d
    && (p != x ==> SameBody(s.pages[x], s'.pages[x]))
    && (p != y ==> SameBody(s.pages[y], s'.pages[y]))
    && SameBody(s.pages[par], s'.pages[par])
  }

  /** Once the slots of x have slid to the front, y fits behind them. */
  lemma SlidForMerge(s: State, ex: PageIndex, x: PageIndex, y: PageIndex, par: PageIndex, k: int)
    requires x in s.pages && y in s.pages && par in s.pages && Shape(s.pages[x])
    requires Neighbours(s, x, y, par, k) && Tidy(s, ex) && s.pages[x].l > 0
    ensures SlidOk(s, Slid(s, x, SlidNode(s.pages[x], -s.pages[x].l)), ex, x, x, y, par, k, -s.pages[x].l)
  {
    hide Linked, Down, Up, Kids, Keys, Neighbours, Slide, Tidy;
    SlidNeighbours(s, x, -s.pages[x].l, x, y, par, k);
    SlidKeeps(s, x, -s.pages[x].l, ex);
    NeighbourFacts(s, x, y, par, k);
  }

  lemma MergeTidy(s: State, s': State, par: PageIndex)
    requires MergeOk(s, s', par) && par in s'.ht
    requires if par == s'.root then 0 < Size(s'.pages[par]) else INDEXMINR <= Size(s'.pages[par])
    ensures Tidy(s', 0)
  {
    hide Linked, Down, Up;
    forall q | q in s'.pages ensures q in s'.ht && Sized(s', q) {
      if q != par { assert Sized(s', q); }
    }
  }

  lemma CollapsedSizes(s: State, x: PageIndex)
    requires Linked(s) && s.root in s.ht && s.root in s.pages && s.ht[s.root] > 0 && Size(s.pages[s.root]) == 0
    requires x in s.pages && s.pages[x].parent == s.root
    requires SizedBut(s, s.root)
    ensures Tidy(Collapsed(s, x), 0)
  {
    hide Linked, Down, Up;
    DomainsOf(s);
    CollapsedLinked(s, x);
    forall q | q in Collapsed(s, x).pages ensures q in Collapsed(s, x).ht && Sized(Collapsed(s, x), q) {
      assert Sized(s, q);
    }
  }

  // ----- changing the slots of a leaf -----

  /** The leaf p now holds the slots of m. */
  lemma LeafRewritten(s: State, p: PageIndex, m: Node)
    requires Tidy(s, 0) && p in s.pages && p in s.ht && s.ht[p] == 0
    requires Shape(m) && AllZero(m) && SameLink(s.pages[p], m)
    ensures Linked(s) && Lift(s, p, Keys(m)).Keys == s.pages.Keys
    ensures var s' := s.(pages := s.pages[p := m], ord := Lift(s, p, Keys(m)));
      && Linked(s') && SizedBut(s', p) && (Sized(s', p) ==> Tidy(s', 0))
      && Whole(s') == Before(s, p) + Keys(m) + After(s, p)
  {
    hide Linked, Down, Up, Kids, Keys, Lift, Before, After, Whole;
    DomainsOf(s);
    ShapeOf(s, p);
    RewrittenLinked(s, p, m);
    LiftBelow(s, p, Keys(m));
    var s' := Rewritten(s, p, m);
    forall q | q in s'.pages && q != p ensures q in s'.ht && Sized(s', q) {
      assert Sized(s, q);
    }
  }

  lemma LeafGrown(n: Node, pos: int, val: Slot)
    requires Shape(n) && AllZero(n) && n.l <= pos <= n.r
    ensures n.r < INDEXCOUNT ==>
      var m := GrownRight(n, pos, val, 0, 0);
      m == n.(key := Slide<Slot>(n.key, pos, n.r, 1)[pos := val], r := n.r + 1) && AllZero(m)
      && Shape(m) && SameLink(n, m) && Keys(m) == Keys(n)[..pos - n.l] + [val] + Keys(n)[pos - n.l..]
    ensures n.l > 0 ==>
      var m := GrownLeft(n, pos, val, 0, 0);
      m == n.(key := Slide<Slot>(n.key, n.l, pos, -1)[pos - 1 := val], l := n.l - 1) && AllZero(m)
      && Shape(m) && SameLink(n, m) && Keys(m) == Keys(n)[..pos - n.l] + [val] + Keys(n)[pos - n.l..]
  {
    hide Keys, Kids;
    if n.r < INDEXCOUNT {
      GrownRightGrows(n, pos, val, 0, 0);
      assert GrownRight(n, pos, val, 0, 0).child == n.child;
    }
    if n.l > 0 {
      GrownLeftGrows(n, pos, val, 0, 0);
      assert GrownLeft(n, pos, val, 0, 0).child == n.child;
    }
  }

  lemma LeafClosed(n: Node, pos: int)
    requires Shape(n) && AllZero(n) && n.l <= pos < n.r
    ensures var m := ClosedRight(n, pos);
      m == n.(key := Slide<Slot>(n.key, pos + 1, n.r, -1), r := n.r - 1) && AllZero(m)
      && Shape(m) && SameLink(n, m) && Keys(m) == Keys(n)[..pos - n.l] + Keys(n)[pos - n.l + 1..]
    ensures var m := ClosedLeft(n, pos);
      m == n.(key := Slide<Slot>(n.key, n.l, pos, 1), l := n.l + 1) && AllZero(m)
      && Shape(m) && SameLink(n, m) && Keys(m) == Keys(n)[..pos - n.l] + Keys(n)[pos - n.l + 1..]
  {
    hide Keys, Kids;
    ClosedRightKeys(n, pos);
    ClosedLeftKeys(n, pos);
    assert ClosedRight(n, pos).child == n.child;
    assert ClosedLeft(n, pos).child == n.child;
  }

  lemma LeafSize(s: State, p: PageIndex)
    requires Tidy(s, 0) && p in s.pages
    ensures p in s.ht && Shape(s.pages[p]) && Size(s.pages[p]) < INDEXCOUNT
    ensures p != s.root ==> INDEXMINR <= Size(s.pages[p])
    ensures s.ht[p] == 0 ==> AllZero(s.pages[p])
    ensures s.ht[p] > 0 ==> 1 <= Size(s.pages[p])
  {
    hide Linked, Up, Keys, Kids, Flat;
    DomainsOf(s);
    DownOf(s, p);
    assert 0 !in s.pages;
    assert Sized(s, p);
  }

  lemma SingleSlot(m: Node, val: Slot)
    requires Shape(m) && Size(m) == 1 && m.key[m.l] == val
    ensures Keys(m) == [val]
  {
  }

  // ----- removing -----

  lemma TidyLinked(s: State)
    requires Tidy(s, 0)
    ensures Linked(s)
  {
  }

  lemma KidAt(n: Node, k: int)
    requires Shape(n) && 0 <= k <= Size(n)
    ensures Kids(n)[k] == n.child[n.l + k]
  {
  }

  lemma SpineSelf(s: State, q: PageIndex)
    requires Linked(s) && q in s.pages
    ensures RightSpine(s, q, q)
  {
  }

  lemma Regroup4<T>(a: seq<T>, b: seq<T>, c: seq<T>, d: seq<T>)
    ensures a + (b + c) + d == (a + b) + (c + d)
  {
  }

  lemma OverwrittenTidy(s: State, p: PageIndex, k: int, t: Slot)
    requires HasSlot(s, p, k) && s.ht[p] > 0 && Tidy(s, 0)
    ensures Tidy(Overwritten(s, p, k, t), 0)
  {
    hide Linked, Down, Up, Kids, Keys, Lift, Read;
    var n := s.pages[p];
    var m := n.(key := n.key[n.l + k := t]);
    KeyReplaced(n, k, t);
    RewrittenLinked(s, p, m);
    DomainsOf(s);
    var s' := Rewritten(s, p, m);
    forall q | q in s'.pages && q != 0 ensures q in s'.ht && Sized(s', q) {
      assert Sized(s, q);
    }
  }

  /** The tree is at rest when the last slot of the spine leaf has been written over the inner one. */
  lemma OverwriteTidy(s: State, p: PageIndex, k: int, q: PageIndex)
    requires HasSlot(s, p, k) && s.ht[p] > 0 && Tidy(s, 0)
    requires q in s.pages && q in s.ht && s.ht[q] == 0 && Shape(s.pages[q]) && s.ht[q] < s.ht[p]
    ensures Size(s.pages[q]) > 0 && q != p && q != 0
    ensures var t := s.pages[q].key[s.pages[q].r - 1];
      var s' := Overwritten(s, p, k, t);
      && Tidy(s', 0) && Linked(s')
      && s' == s.(pages := s.pages[p := s.pages[p].(key := s.pages[p].key[s.pages[p].l + k := t])], ord := s'.ord)
  {
    hide Linked, Down, Up, Kids, Keys, Lift, Read, Before, After;
    DomainsOf(s);
    assert Sized(s, q) by { assert 0 !in s.pages; }
    SpineRoot(s, p, q);
    var t := s.pages[q].key[s.pages[q].r - 1];
    KeyReplaced(s.pages[p], k, t);
    RewrittenLinked(s, p, s.pages[p].(key := s.pages[p].key[s.pages[p].l + k := t]));
    OverwrittenTidy(s, p, k, t);
  }

  /** What the removal of the spine leaf's last slot will make of the whole. */
  lemma OverwriteReady(s: State, p: PageIndex, k: int, q: PageIndex)
    requires HasSlot(s, p, k) && s.ht[p] > 0 && Tidy(s, 0)
    requires q in s.pages && q in s.ht && s.ht[q] == 0 && Shape(s.pages[q]) && s.ht[q] < s.ht[p]
    requires RightSpine(s, s.pages[p].child[s.pages[p].l + k], q)
    ensures Size(s.pages[q]) > 0 && q != p && q != 0
    ensures var t := s.pages[q].key[s.pages[q].r - 1];
      var s', last, kq := Overwritten(s, p, k, t), Size(s.pages[q]) - 1, Keys(s.pages[q]);
      && Tidy(s', 0)
      && s' == s.(pages := s.pages[p := s.pages[p].(key := s.pages[p].key[s.pages[p].l + k := t])], ord := s'.ord)
      && Linked(s')
      && Before(s', q) + (kq[..last] + kq[last + 1..]) + After(s', q) == LeftPart(s, p, k) + RightPart(s, p, k)
  {
    hide Linked, Down, Up, Kids, Keys, RightSpine, Before, After, LeftPart, RightPart, Overwritten, Tidy, SameLinks;
    OverwriteTidy(s, p, k, q);
    var t := s.pages[q].key[s.pages[q].r - 1];
    var s' := Overwritten(s, p, k, t);
    OverwrittenParts(s, p, k, t);
    KidAt(s'.pages[p], k);
    SpineKept(s, s', s.pages[p].child[s.pages[p].l + k], q);
    KeyAt(s.pages[q], Size(s.pages[q]) - 1);
    OverwrittenWhole(s', p, k, q);
  }

  lemma LowerFull(s: State, p: PageIndex, q: PageIndex)
    requires Tidy(s, 0) && p in s.pages && q in s.pages && p in s.ht && q in s.ht && s.ht[q] < s.ht[p]
    ensures Size(s.pages[q]) > 0
  {
    hide Linked, Down, Up;
    DomainsOf(s);
    assert 0 !in s.pages;
    assert Sized(s, q);
    SpineRoot(s, p, q);
  }

  lemma SpineRoot(s: State, p: PageIndex, q: PageIndex)
    requires Linked(s) && p in s.pages && q in s.pages && s.ht[q] < s.ht[p]
    ensures q != s.root
  {
    hide Down, Up;
  }
}
