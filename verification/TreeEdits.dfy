/** From the array operations of the source to the steps of TreeSteps and TreeShare. */
module TreeEdits {
  import opened Places
  import opened IndexPage
  import opened TreeState
  import opened TreeSteps
  import opened TreeShare
  import opened TreeMoves
  import TreeSlots

  // ----- insert_internal -----

  /** par after its tail moved one place up and mid entered at pos. */
  function GrownRight(n: Node, pos: int, mid: Slot, lc: PageIndex, rc: PageIndex): Node
    requires Shape(n) && n.l <= pos <= n.r < INDEXCOUNT
  {
    n.(key := Slide<Slot>(n.key, pos, n.r, 1)[pos := mid],
       child := Slide<PageIndex>(n.child, pos + 1, n.r + 1, 1)[pos := lc][pos + 1 := rc], r := n.r + 1)
  }

  /** par after its head moved one place down and mid entered at pos - 1. */
  function GrownLeft(n: Node, pos: int, mid: Slot, lc: PageIndex, rc: PageIndex): Node
    requires Shape(n) && 0 < n.l <= pos <= n.r
  {
    n.(key := Slide<Slot>(n.key, n.l, pos, -1)[pos - 1 := mid],
       child := Slide<PageIndex>(n.child, n.l, pos, -1)[pos - 1 := lc][pos := rc], l := n.l - 1)
  }

  lemma GrownRightGrows(n: Node, pos: int, mid: Slot, lc: PageIndex, rc: PageIndex)
    requires Shape(n) && n.l <= pos <= n.r < INDEXCOUNT
    ensures Grows(n, GrownRight(n, pos, mid, lc, rc), pos - n.l, mid, lc, rc)
  {
    hide Slide;
    KeysGrownRight(n.key, n.l, pos, n.r, mid);
    KidsGrownRight(n.child, n.l, pos, n.r + 1, lc, rc);
  }

  lemma GrownLeftGrows(n: Node, pos: int, mid: Slot, lc: PageIndex, rc: PageIndex)
    requires Shape(n) && 0 < n.l <= pos <= n.r
    ensures Grows(n, GrownLeft(n, pos, mid, lc, rc), pos - n.l, mid, lc, rc)
  {
    hide Slide;
    KeysGrownLeft(n.key, n.l, pos, n.r, mid);
    KidsGrownLeft(n.child, n.l, pos, n.r + 1, lc, rc);
  }

  /** A part of a part. */
  lemma PartOf<T>(s: seq<T>, a: int, b: int, x: int, y: int)
    requires 0 <= a <= b <= |s| && 0 <= x <= y <= b - a
    ensures s[a..b][x..y] == s[a + x..a + y]
  {
    var t, u := s[a..b], s[a + x..a + y];
    forall i | 0 <= i < y - x ensures t[x..y][i] == u[i] {
      assert t[x..y][i] == t[x + i] == s[a + (x + i)] && u[i] == s[(a + x) + i];
    }
  }

  lemma SameParts<T>(s: seq<T>, t: seq<T>, a: int, b: int, d: int)
    requires 0 <= a <= b <= |s| && 0 <= a + d && b + d <= |t|
    requires forall i | a <= i < b :: t[i + d] == s[i]
    ensures t[a + d..b + d] == s[a..b]
  {
    forall i | 0 <= i < b - a ensures t[a + d..b + d][i] == s[a..b][i] {
      assert t[(a + i) + d] == s[a + i];
    }
  }

  /** What lies in front of a place, some elements in their place, and what lies behind, up to r. */
  lemma Entered<T>(c: seq<T>, d: seq<T>, l: int, pos: int, r: int, l': int, mid: seq<T>, skip: int)
    requires 0 <= l <= pos <= pos + skip <= r <= |c| && 0 <= skip && 0 <= l' && l' + r - l - skip + |mid| <= |d|
    requires forall i | l <= i < pos :: d[i + (l' - l)] == c[i]
    requires forall i | pos + skip <= i < r :: d[i + (l' - l - skip + |mid|)] == c[i]
    requires d[l' + pos - l..l' + pos - l + |mid|] == mid
    ensures d[l'..l' + r - l - skip + |mid|] == c[l..r][..pos - l] + mid + c[l..r][pos - l + skip..]
  {
    var at := l' + pos - l;
    PartOf(c, l, r, 0, pos - l);
    PartOf(c, l, r, pos - l + skip, r - l);
    SameParts(c, d, l, pos, l' - l);
    SameParts(c, d, pos + skip, r, l' - l - skip + |mid|);
    assert c[l..r][pos - l + skip..] == c[l..r][pos - l + skip..r - l];
    ThreeParts(d, l', at, at + |mid|, l' + r - l - skip + |mid|);
  }

  lemma ThreeParts<T>(d: seq<T>, i: int, j: int, k: int, n: int)
    requires 0 <= i <= j <= k <= n <= |d|
    ensures d[i..n] == d[i..j] + d[j..k] + d[k..n]
  {
  }

  lemma KeysGrownRight(c: seq<Slot>, l: int, pos: int, r: int, mid: Slot)
    requires 0 <= l <= pos <= r < |c|
    ensures Slide<Slot>(c, pos, r, 1)[pos := mid][l..r + 1] == c[l..r][..pos - l] + [mid] + c[l..r][pos - l..]
  {
    Entered(c, Slide<Slot>(c, pos, r, 1)[pos := mid], l, pos, r, l, [mid], 0);
  }

  lemma KeysGrownLeft(c: seq<Slot>, l: int, pos: int, r: int, mid: Slot)
    requires 0 < l <= pos <= r <= |c|
    ensures Slide<Slot>(c, l, pos, -1)[pos - 1 := mid][l - 1..r] == c[l..r][..pos - l] + [mid] + c[l..r][pos - l..]
  {
    Entered(c, Slide<Slot>(c, l, pos, -1)[pos - 1 := mid], l, pos, r, l - 1, [mid], 0);
  }

  lemma KidsGrownRight(c: seq<PageIndex>, l: int, pos: int, r: int, lc: PageIndex, rc: PageIndex)
    requires 0 <= l <= pos < r < |c|
    ensures Slide<PageIndex>(c, pos + 1, r, 1)[pos := lc][pos + 1 := rc][l..r + 1] ==
      c[l..r][..pos - l] + [lc, rc] + c[l..r][pos - l + 1..]
  {
    Entered(c, Slide<PageIndex>(c, pos + 1, r, 1)[pos := lc][pos + 1 := rc], l, pos, r, l, [lc, rc], 1);
  }

  lemma KidsGrownLeft(c: seq<PageIndex>, l: int, pos: int, r: int, lc: PageIndex, rc: PageIndex)
    requires 0 < l <= pos < r <= |c|
    ensures Slide<PageIndex>(c, l, pos, -1)[pos - 1 := lc][pos := rc][l - 1..r] ==
      c[l..r][..pos - l] + [lc, rc] + c[l..r][pos - l + 1..]
  {
    Entered(c, Slide<PageIndex>(c, l, pos, -1)[pos - 1 := lc][pos := rc], l, pos, r, l - 1, [lc, rc], 1);
  }

  /** The children of par that insert_internal moves are linked where they stand. */
  lemma PendingLinking(s: State, par: PageIndex, k: int, mid: Slot, lc: PageIndex, rc: PageIndex, a: int, b: int)
    requires Pending(s, par, k, mid, lc, rc)
    requires s.pages[par].l <= a <= b <= s.pages[par].r + 1
    requires b <= s.pages[par].l + k || s.pages[par].l + k < a
    ensures Linking(s.pages, par, a, b)
  {
    hide Down, Pre, Suf;
    var n := s.pages[par];
    assert Up(s, par);
    forall i | a <= i < b
      ensures var c := n.child[i]; c in s.pages && s.pages[c].parent == par && s.pages[c].ppos == i
    {
      assert KidOk(s, par, i - n.l);
      assert Kids(n)[i - n.l] == n.child[i];
    }
    forall q | q in s.pages && s.pages[q].parent == par && a <= s.pages[q].ppos < b
      ensures n.child[s.pages[q].ppos] == q
    {
      assert q != rc && q != lc;
      assert Up(s, q);
    }
  }

  lemma GrownRightPages(s: State, par: PageIndex, pos: int, mid: Slot, lc: PageIndex, rc: PageIndex)
    requires par in s.pages && Shape(s.pages[par]) && s.pages[par].l <= pos <= s.pages[par].r < INDEXCOUNT
    requires Pending(s, par, pos - s.pages[par].l, mid, lc, rc)
    ensures var n, m := s.pages[par], GrownRight(s.pages[par], pos, mid, lc, rc);
      Shifted(s.pages, par, pos, n.r, 1, 1)[par := m]
        [lc := s.pages[lc].(parent := par, ppos := pos)][rc := s.pages[rc].(parent := par, ppos := pos + 1)]
      == Grown(s, par, m, pos - n.l, lc, rc).pages
  {
    hide Pending, Kids, Keys, Slide;
    PendingParts(s, par, pos - s.pages[par].l, mid, lc, rc);
    var n := s.pages[par];
    forall q | q in s.pages && q != par && q != lc && q != rc
      ensures Moved(s.pages[q], par, pos + 1, n.r + 1, par, 1) == Regrown(s.pages[q], par, n.l, n.l, pos - n.l)
    {
      GrownRightAt(s, par, pos, mid, lc, rc, q);
    }
  }

  lemma GrownRightAt(s: State, par: PageIndex, pos: int, mid: Slot, lc: PageIndex, rc: PageIndex, q: PageIndex)
    requires par in s.pages && Shape(s.pages[par])
    requires Pending(s, par, pos - s.pages[par].l, mid, lc, rc)
    requires q in s.pages && q != par && q != lc && q != rc
    ensures var n := s.pages[par];
      Moved(s.pages[q], par, pos + 1, n.r + 1, par, 1) == Regrown(s.pages[q], par, n.l, n.l, pos - n.l)
  {
    hide Down, Pre, Suf, KidOk;
    assert Up(s, q);
  }

  lemma GrownLeftPages(s: State, par: PageIndex, pos: int, mid: Slot, lc: PageIndex, rc: PageIndex)
    requires par in s.pages && Shape(s.pages[par]) && 0 < s.pages[par].l <= pos <= s.pages[par].r
    requires Pending(s, par, pos - s.pages[par].l, mid, lc, rc)
    ensures var n, m := s.pages[par], GrownLeft(s.pages[par], pos, mid, lc, rc);
      Shifted(s.pages, par, n.l, pos, -1, 0)[par := m]
        [lc := s.pages[lc].(parent := par, ppos := pos - 1)][rc := s.pages[rc].(parent := par, ppos := pos)]
      == Grown(s, par, m, pos - n.l, lc, rc).pages
  {
    hide Pending, Kids, Keys, Slide;
    PendingParts(s, par, pos - s.pages[par].l, mid, lc, rc);
    var n := s.pages[par];
    forall q | q in s.pages && q != par && q != lc && q != rc
      ensures Moved(s.pages[q], par, n.l, pos, par, -1) == Regrown(s.pages[q], par, n.l, n.l - 1, pos - n.l)
    {
      GrownLeftAt(s, par, pos, mid, lc, rc, q);
    }
  }

  lemma GrownLeftAt(s: State, par: PageIndex, pos: int, mid: Slot, lc: PageIndex, rc: PageIndex, q: PageIndex)
    requires par in s.pages && Shape(s.pages[par])
    requires Pending(s, par, pos - s.pages[par].l, mid, lc, rc)
    requires q in s.pages && q != par && q != lc && q != rc
    ensures var n := s.pages[par];
      Moved(s.pages[q], par, n.l, pos, par, -1) == Regrown(s.pages[q], par, n.l, n.l - 1, pos - n.l)
  {
    hide Down, Pre, Suf, KidOk;
    assert Up(s, q);
  }

  // ----- split -----

  /** memcpy: t with s[a..a+n] copied to the front. */
  function CopyFront<T>(t: seq<T>, s: seq<T>, a: int, n: int): (u: seq<T>)
    requires 0 <= a && 0 <= n && a + n <= |s| && n <= |t|
    ensures |u| == |t|
  {
    s[a..a + n] + t[n..]
  }

  /** The new right sibling: slots and children behind the middle slot, at the front of a blank page. */
  function SplitRight(n: Node, z: Node): (m: Node)
    requires Shape(n) && Blank(z)
    ensures Shape(m) && m.l == 0 && m.parent == 0 && m.ppos == 0 && m.r == INDEXMINR
  {
    z.(key := CopyFront<Slot>(z.key, n.key, INDEXMINL + 1, INDEXMINR),
       child := CopyFront<PageIndex>(z.child, n.child, INDEXMINL + 1, INDEXMINR + 1), r := INDEXMINR)
  }

  lemma SplitHalves(n: Node, z: Node)
    requires Shape(n) && Size(n) == INDEXCOUNT && Blank(z)
    ensures Halves(n, INDEXMINL, n.(r := INDEXMINL), SplitRight(n, z))
    ensures AllZero(n) ==> AllZero(SplitRight(n, z))
  {
    var m := SplitRight(n, z);
    assert Keys(m) == Keys(n)[INDEXMINL + 1..];
    assert Kids(m) == Kids(n)[INDEXMINL + 1..];
    assert Keys(n.(r := INDEXMINL)) == Keys(n)[..INDEXMINL];
    assert Kids(n.(r := INDEXMINL)) == Kids(n)[..INDEXMINL + 1];
  }

  lemma SplitAdoptable(s: State, p: PageIndex, par: PageIndex, k: int, sib: PageIndex, z: Node)
    requires p in s.pages && p in s.ht && Splittable(s, p, par, k)
    requires s.ht[p] > 0 && Shape(s.pages[p]) && Size(s.pages[p]) == INDEXCOUNT
    requires sib !in s.pages && Blank(z)
    ensures var n := s.pages[p];
      var o := s.pages[p := n.(r := INDEXMINL)][sib := SplitRight(n, z)];
      && Shape(o[sib])
      && Adoptable(o, sib, 0, INDEXMINR + 1, p, -(INDEXMINL + 1))
  {
    hide Flat, Pre, Suf, SplitRight, Blank, Up, Down, KidOk, Splittable, Kids, Halves;
    var n := s.pages[p];
    SplitShape(n, z);
    var o := s.pages[p := n.(r := INDEXMINL)][sib := SplitRight(n, z)];
    forall i | 0 <= i <= INDEXMINR
      ensures var c := o[sib].child[i]; c in o && o[c].parent == p && o[c].ppos == i + INDEXMINL + 1
    {
      SplitKid(s, p, par, k, i);
      SplitChild(n, z, i);
    }
    forall q | q in o && o[q].parent == p && INDEXMINL + 1 <= o[q].ppos < INDEXCOUNT + 1
      ensures o[sib].child[o[q].ppos - INDEXMINL - 1] == q
    {
      SplittableHang(s, p, par, k, q);
      SplitChild(n, z, o[q].ppos - INDEXMINL - 1);
    }
  }

  lemma SplitShape(n: Node, z: Node)
    requires Shape(n) && Size(n) == INDEXCOUNT && Blank(z)
    ensures Shape(SplitRight(n, z)) && SplitRight(n, z).parent == 0 && n.l == 0
  {
    SplitHalves(n, z);
  }

  lemma SplitChild(n: Node, z: Node, i: int)
    requires Shape(n) && Size(n) == INDEXCOUNT && Blank(z) && 0 <= i <= INDEXMINR
    ensures Shape(SplitRight(n, z)) && SplitRight(n, z).child[i] == Kids(n)[i + INDEXMINL + 1]
  {
    SplitHalves(n, z);
    assert SplitRight(n, z).child[i] == Kids(SplitRight(n, z))[i];
  }

  lemma SplitKid(s: State, p: PageIndex, par: PageIndex, k: int, i: int)
    requires Splittable(s, p, par, k) && s.ht[p] > 0 && Shape(s.pages[p]) && Size(s.pages[p]) == INDEXCOUNT
    requires 0 <= i <= INDEXMINR
    ensures var c := Kids(s.pages[p])[i + INDEXMINL + 1];
      c != p && c in s.pages && s.pages[c].parent == p && s.pages[c].ppos == i + INDEXMINL + 1
  {
    hide Flat, Pre, Suf, Up;
    assert Down(s, p);
    assert KidOk(s, p, i + INDEXMINL + 1);
  }

  lemma SplittableHang(s: State, p: PageIndex, par: PageIndex, k: int, q: PageIndex)
    requires Splittable(s, p, par, k) && q in s.pages && s.pages[q].parent == p
    ensures q != p && q != par && s.ht[p] == s.ht[q] + 1 && Shape(s.pages[p])
    ensures s.pages[p].l <= s.pages[q].ppos <= s.pages[p].r && Kids(s.pages[p])[s.pages[q].ppos - s.pages[p].l] == q
  {
    hide Down, Flat, Pre, Suf, KidOk;
    assert q != p;
    assert Up(s, s.root) && Up(s, q);
  }

  lemma SplitPages(s: State, p: PageIndex, par: PageIndex, k: int, sib: PageIndex, z: Node)
    requires p in s.pages && p in s.ht && Shape(s.pages[p]) && Size(s.pages[p]) == INDEXCOUNT
    requires sib !in s.pages && sib != 0 && Blank(z)
    requires Splittable(s, p, par, k)
    ensures var n := s.pages[p];
      var left, right := n.(r := INDEXMINL), SplitRight(n, z);
      && Cut(s, p, par, k, sib, INDEXMINL, left, right)
      && var h := Halved(s, p, sib, left, right).pages;
      && Relink(s.pages[p := left][sib := right], p, INDEXMINL + 1, INDEXCOUNT + 1, sib, -(INDEXMINL + 1)) == h
      && (s.ht[p] == 0 ==> s.pages[p := left][sib := right] == h)
      && (s.ht[p] == 0 <==> right.child[0] == 0)
  {
    hide Flat, Pre, Suf, KidOk, Kids, Keys, SplitRight, Up;
    var n := s.pages[p];
    var left, right := n.(r := INDEXMINL), SplitRight(n, z);
    SplitHalves(n, z);
    assert Down(s, p);
    SplitFirst(s, p, par, k, z);
    assert n.parent != p;
    if s.ht[p] == 0 {
      forall q | q in s.pages ensures s.pages[q].parent != p {
        if s.pages[q].parent == p { SplittableHang(s, p, par, k, q); }
      }
    }
  }

  lemma SplitFirst(s: State, p: PageIndex, par: PageIndex, k: int, z: Node)
    requires Splittable(s, p, par, k) && Shape(s.pages[p]) && Size(s.pages[p]) == INDEXCOUNT && Blank(z)
    ensures s.ht[p] == 0 <==> SplitRight(s.pages[p], z).child[0] == 0
  {
    hide Flat, Pre, Suf, Up;
    assert Down(s, p);
    if s.ht[p] > 0 { assert KidOk(s, p, INDEXMINL + 1); }
  }

  // ----- sliding a whole page -----

  lemma LinkedLinking(s: State, p: PageIndex, a: int, b: int)
    requires Linked(s) && p in s.pages && s.ht[p] > 0 && Shape(s.pages[p])
    requires s.pages[p].l <= a <= b <= s.pages[p].r + 1
    ensures Linking(s.pages, p, a, b)
  {
    hide Linked, Down, Up;
    var n := s.pages[p];
    RootParent(s);
    if p != s.root { Climb(s, p); }
    forall i | a <= i < b
      ensures var c := n.child[i]; c in s.pages && s.pages[c].parent == p && s.pages[c].ppos == i
    {
      KidOf(s, p, i - n.l);
    }
    forall q | q in s.pages && s.pages[q].parent == p && a <= s.pages[q].ppos < b
      ensures n.child[s.pages[q].ppos] == q
    {
      Climb(s, q);
    }
  }

  /** n with all its live slots and children d places further. */
  function SlidNode(n: Node, d: int): Node
    requires Shape(n) && Fits(n.l, n.r, d)
  {
    n.(key := Slide<Slot>(n.key, n.l, n.r, d), child := Slide<PageIndex>(n.child, n.l, n.r + 1, d), l := n.l + d,
       r := n.r + d)
  }

  lemma SlidNodeLive(n: Node, d: int)
    requires Shape(n) && Fits(n.l, n.r, d)
    ensures SameLive(n, SlidNode(n, d))
    ensures AllZero(n) ==> AllZero(SlidNode(n, d)) && SlidNode(n, d).child == n.child
  {
    var m := SlidNode(n, d);
    assert Keys(n) == Keys(m);
    assert Kids(n) == Kids(m);
    if AllZero(n) { assert m.child == n.child; }
  }

  lemma SlideLast<T>(s: seq<T>, a: int, b: int, d: int)
    requires 0 <= a <= b < |s| && 0 <= a - d && d > 0
    ensures Slide(s, a, b, -d)[b] == s[b]
    ensures Slide(s, a, b, -d)[b - d := s[b]] == Slide(s, a, b + 1, -d)
  {
  }

  lemma SlideFirst<T>(s: seq<T>, a: int, b: int, d: int)
    requires 0 <= a < b <= |s| && b + d <= |s| && d > 0
    ensures Slide(s, a + 1, b, d)[a] == s[a]
    ensures Slide(s, a + 1, b, d)[a + d := s[a]] == Slide(s, a, b, d)
  {
  }

  /** The slide loop towards the front, then the last child. */
  lemma SlidDownPages(s: State, p: PageIndex, d: int)
    requires Linked(s) && p in s.pages && s.ht[p] > 0 && Shape(s.pages[p])
    requires d > 0 && Fits(s.pages[p].l, s.pages[p].r, -d)
    ensures var n := s.pages[p];
      var o := Shifted(s.pages, p, n.l, n.r, -d, 0);
      var c := o[p].child[n.r];
      && c != p && c in o && o[c] == s.pages[c]
      && o[p := o[p].(child := o[p].child[n.r - d := c], l := n.l - d, r := n.r - d)]
          [c := o[c].(ppos := o[c].ppos - d)] == Slid(s, p, SlidNode(n, -d)).pages
  {
    hide Linked, Slide, Kids;
    var n := s.pages[p];
    LinkedLinking(s, p, n.l, n.r + 1);
    SlideLast(n.child, n.l, n.r, d);
    RelinkNextUpper(s.pages, p, n.l, n.r, p, -d, n.child[n.r]);
  }

  /** The slide loop towards the back, then the first child. */
  lemma SlidUpPages(s: State, p: PageIndex, d: int)
    requires Linked(s) && p in s.pages && s.ht[p] > 0 && Shape(s.pages[p])
    requires d > 0 && Fits(s.pages[p].l, s.pages[p].r, d)
    ensures var n := s.pages[p];
      var o := Shifted(s.pages, p, n.l, n.r, d, 1);
      var c := o[p].child[n.l];
      && c != p && c in o && o[c] == s.pages[c]
      && o[p := o[p].(child := o[p].child[n.l + d := c], l := n.l + d, r := n.r + d)]
          [c := o[c].(ppos := o[c].ppos + d)] == Slid(s, p, SlidNode(n, d)).pages
  {
    hide Linked, Slide, Kids;
    var n := s.pages[p];
    LinkedLinking(s, p, n.l, n.r + 1);
    SlideFirst(n.child, n.l, n.r + 1, d);
    RelinkNextLower(s.pages, p, n.l, n.r + 1, d, n.child[n.l]);
  }

  /** A child in front of the first slot tells inner pages from leaves. */
  lemma ChildIffInner(s: State, p: PageIndex)
    requires Linked(s) && p in s.pages && Shape(s.pages[p])
    ensures p in s.ht && (s.pages[p].child[s.pages[p].l] != 0 <==> s.ht[p] > 0)
    ensures s.ht[p] == 0 ==> AllZero(s.pages[p])
    ensures forall i | s.pages[p].l <= i <= s.pages[p].r :: s.pages[p].child[i] != 0 <==> s.ht[p] > 0
  {
    hide Linked, Up, Flat;
    DomainsOf(s);
    DownOf(s, p);
    if s.ht[p] > 0 {
      forall i | s.pages[p].l <= i <= s.pages[p].r ensures s.pages[p].child[i] != 0 {
        KidOf(s, p, i - s.pages[p].l);
        assert s.pages[p].child[i] == Kids(s.pages[p])[i - s.pages[p].l];
      }
    }
  }

  /** A live child index is zero or a page. */
  lemma ChildIffKnown(s: State, p: PageIndex)
    requires Linked(s) && p in s.pages && Shape(s.pages[p])
    ensures forall i | s.pages[p].l <= i <= s.pages[p].r :: s.pages[p].child[i] != 0 <==> s.pages[p].child[i] in s.pages
  {
    hide Linked, Up, Flat, Down;
    DomainsOf(s);
    ChildIffInner(s, p);
    if s.ht[p] > 0 {
      forall i | s.pages[p].l <= i <= s.pages[p].r ensures s.pages[p].child[i] in s.pages {
        KidOf(s, p, i - s.pages[p].l);
        assert s.pages[p].child[i] == Kids(s.pages[p])[i - s.pages[p].l];
      }
    }
  }

  /** No page hangs on a leaf. */
  lemma SlidLeafPages(s: State, p: PageIndex, m: Node)
    requires Linked(s) && p in s.pages && s.ht[p] == 0
    ensures Slid(s, p, m).pages == s.pages[p := m]
  {
    hide Linked, Down, Up;
    forall q | q in s.pages ensures s.pages[q].parent != p { NoLeafParent(s, p, q); }
  }

  lemma NoLeafParent(s: State, p: PageIndex, q: PageIndex)
    requires Linked(s) && p in s.pages && s.ht[p] == 0 && q in s.pages
    ensures s.pages[q].parent != p
  {
    hide Linked, Down, Up;
    DomainsOf(s);
    RootParent(s);
    if q != s.root { Climb(s, q); }
  }

  // ----- r_shrink: x takes the separator, the first slot of y becomes the separator -----

  function TakenLast(n: Node, t: Slot, c: PageIndex): Node
    requires Shape(n) && n.r < INDEXCOUNT
  {
    n.(key := n.key[n.r := t], child := n.child[n.r + 1 := c], r := n.r + 1)
  }

  function TakenFirst(n: Node, t: Slot, c: PageIndex): Node
    requires Shape(n) && 0 < n.l
  {
    n.(key := n.key[n.l - 1 := t], child := n.child[n.l - 1 := c], l := n.l - 1)
  }

  lemma TakenLastReads(n: Node, t: Slot, c: PageIndex)
    requires Shape(n) && n.r < INDEXCOUNT
    ensures Keys(TakenLast(n, t, c)) == Keys(n) + [t] && Kids(TakenLast(n, t, c)) == Kids(n) + [c]
  {
  }

  lemma TakenFirstReads(n: Node, t: Slot, c: PageIndex)
    requires Shape(n) && 0 < n.l
    ensures Keys(TakenFirst(n, t, c)) == [t] + Keys(n) && Kids(TakenFirst(n, t, c)) == [c] + Kids(n)
  {
  }

  lemma FirstGone(n: Node)
    requires Shape(n) && 0 < Size(n)
    ensures Keys(n.(l := n.l + 1)) == Keys(n)[1..] && Kids(n.(l := n.l + 1)) == Kids(n)[1..]
    ensures Keys(n)[0] == n.key[n.l] && Kids(n)[0] == n.child[n.l]
  {
    PartOf(n.key, n.l, n.r, 1, Size(n));
    PartOf(n.child, n.l, n.r + 1, 1, Size(n) + 1);
  }

  lemma LastGone(n: Node)
    requires Shape(n) && 0 < Size(n)
    ensures Keys(n.(r := n.r - 1)) == Keys(n)[..Size(n) - 1] && Kids(n.(r := n.r - 1)) == Kids(n)[..Size(n)]
    ensures Keys(n)[Size(n) - 1] == n.key[n.r - 1] && Kids(n)[Size(n)] == n.child[n.r]
  {
    PartOf(n.key, n.l, n.r, 0, Size(n) - 1);
    PartOf(n.child, n.l, n.r + 1, 0, Size(n));
  }

  /** A joint sequence cut one further, or one less far, than where it was joined. */
  lemma CutAfter<T>(a: seq<T>, b: seq<T>)
    requires |b| > 0
    ensures (a + b)[..|a|] == a && (a + b)[|a|] == b[0] && (a + b)[|a| + 1..] == b[1..]
      && (a + b)[..|a| + 1] == a + [b[0]]
  {
  }

  lemma CutBefore<T>(a: seq<T>, b: seq<T>)
    requires |a| > 0
    ensures (a + b)[..|a| - 1] == a[..|a| - 1] && (a + b)[|a| - 1] == a[|a| - 1] && (a + b)[|a|..] == b
    ensures (a + b)[|a| - 1..] == [a[|a| - 1]] + b
  {
  }

  lemma BorrowRight(s: State, x: PageIndex, y: PageIndex, par: PageIndex, k: int)
    requires Neighbours(s, x, y, par, k) && x in s.pages && y in s.pages && Shape(s.pages[x]) && Shape(s.pages[y])
    requires s.pages[x].r < INDEXCOUNT && 0 < Size(s.pages[y])
    ensures var n1, n2, np := s.pages[x], s.pages[y], s.pages[par];
      Sharing(s, x, y, par, k, Size(n1) + 1, TakenLast(n1, np.key[np.l + k], n2.child[n2.l]), n2.(l := n2.l + 1),
              np.(key := np.key[np.l + k := n2.key[n2.l]]))
  {
    hide Linked, Up, Flat, Keys, Kids;
    NeighbourFacts(s, x, y, par, k);
    var n1, n2, np := s.pages[x], s.pages[y], s.pages[par];
    var m1, m2 := TakenLast(n1, np.key[np.l + k], n2.child[n2.l]), n2.(l := n2.l + 1);
    var mp := np.(key := np.key[np.l + k := n2.key[n2.l]]);
    var c, t, j := JointKids(s, x, y), JointKeys(s, x, y, par, k), Size(n1) + 1;
    KeyAt(np, k);
    TakenLastReads(n1, np.key[np.l + k], n2.child[n2.l]);
    FirstGone(n2);
    CutAfter(Keys(n1) + [Keys(np)[k]], Keys(n2));
    CutAfter(Kids(n1), Kids(n2));
    TreeSlots.KeyReplaced(np, k, n2.key[n2.l]);
    DownOf(s, x);
    DownOf(s, y);
  }

  lemma BorrowLeft(s: State, x: PageIndex, y: PageIndex, par: PageIndex, k: int)
    requires Neighbours(s, x, y, par, k) && x in s.pages && y in s.pages && Shape(s.pages[x]) && Shape(s.pages[y])
    requires 0 < s.pages[y].l && 0 < Size(s.pages[x])
    ensures var n1, n2, np := s.pages[x], s.pages[y], s.pages[par];
      Sharing(s, x, y, par, k, Size(n1) - 1, n1.(r := n1.r - 1), TakenFirst(n2, np.key[np.l + k], n1.child[n1.r]),
              np.(key := np.key[np.l + k := n1.key[n1.r - 1]]))
  {
    hide Linked, Up, Flat, Keys, Kids;
    NeighbourFacts(s, x, y, par, k);
    var n1, n2, np := s.pages[x], s.pages[y], s.pages[par];
    var m1, m2 := n1.(r := n1.r - 1), TakenFirst(n2, np.key[np.l + k], n1.child[n1.r]);
    var mp := np.(key := np.key[np.l + k := n1.key[n1.r - 1]]);
    var c, t, j := JointKids(s, x, y), JointKeys(s, x, y, par, k), Size(n1) - 1;
    KeyAt(np, k);
    TakenFirstReads(n2, np.key[np.l + k], n1.child[n1.r]);
    LastGone(n1);
    CutBefore(Keys(n1), [Keys(np)[k]] + Keys(n2));
    assert Keys(n1) + [Keys(np)[k]] + Keys(n2) == Keys(n1) + ([Keys(np)[k]] + Keys(n2));
    CutBefore(Kids(n1), Kids(n2));
    TreeSlots.KeyReplaced(np, k, n1.key[n1.r - 1]);
    DownOf(s, x);
    DownOf(s, y);
  }

  function FirstKid(n: Node): PageIndex
    requires Shape(n)
  {
    n.child[n.l]
  }

  function LastKid(n: Node): PageIndex
    requires Shape(n)
  {
    n.child[n.r]
  }

  /** The child between the two pages, if they have children, changes sides. */
  function Handed(pages: map<PageIndex, Node>, c: PageIndex, p: PageIndex, i: int): map<PageIndex, Node> {
    if c in pages then pages[c := pages[c].(parent := p, ppos := i)] else pages
  }

  lemma BorrowRightPages(s: State, x: PageIndex, y: PageIndex, par: PageIndex, k: int, m1: Node, m2: Node, mp: Node)
    requires par in s.pages && Neighbours(s, x, y, par, k) && x in s.pages && y in s.pages && Shape(s.pages[x])
      && Shape(s.pages[y])
    requires x in s.ht && Shape(m1) && Shape(m2) && m1.l == s.pages[x].l && m2.l == s.pages[y].l + 1
    ensures Handed(s.pages[x := m1][y := m2][par := mp], FirstKid(s.pages[y]), x, s.pages[x].r + 1)
         == Shared(s, x, y, par, Size(s.pages[x]) + 1, m1, m2, mp).pages
  {
    hide Linked, Up, Kids, Keys, Read, Neighbours;
    NeighbourFacts(s, x, y, par, k);
    var c := FirstKid(s.pages[y]);
    assert c in s.pages ==> c != x && c != y && c != par by { HandedFirst(s, x, y, par, k); }
    forall q | q in s.pages && q != x && q != y && q != par
      ensures Rehung(s.pages[q], x, y, s.pages[x].l, s.pages[y].l, Size(s.pages[x]), Size(s.pages[x]) + 1, m1.l, m2.l)
           == if q == c then s.pages[q].(parent := x, ppos := s.pages[x].r + 1) else s.pages[q]
    {
      BorrowRightAt(s, x, y, par, k, q);
    }
  }

  lemma HandedFirst(s: State, x: PageIndex, y: PageIndex, par: PageIndex, k: int)
    requires Neighbours(s, x, y, par, k) && x in s.pages && y in s.pages && Shape(s.pages[x]) && Shape(s.pages[y])
    ensures var c := FirstKid(s.pages[y]);
      c in s.pages ==> c != x && c != y && c != par && s.pages[c].parent == y && s.pages[c].ppos == s.pages[y].l
  {
    hide Linked, Up, Keys, Flat;
    NeighbourFacts(s, x, y, par, k);
    DownOf(s, y);
    if s.ht[y] > 0 { KidOf(s, y, 0); }
  }

  lemma BorrowRightAt(s: State, x: PageIndex, y: PageIndex, par: PageIndex, k: int, q: PageIndex)
    requires Neighbours(s, x, y, par, k) && x in s.pages && y in s.pages && Shape(s.pages[x]) && Shape(s.pages[y])
    requires q in s.pages && q != x && q != y && q != par
    ensures var c := FirstKid(s.pages[y]);
      Rehung(s.pages[q], x, y, s.pages[x].l, s.pages[y].l, Size(s.pages[x]), Size(s.pages[x]) + 1, s.pages[x].l,
             s.pages[y].l + 1)
      == if q == c then s.pages[q].(parent := x, ppos := s.pages[x].r + 1) else s.pages[q]
  {
    hide Linked, Down, Up, Keys;
    NeighbourFacts(s, x, y, par, k);
    HandedFirst(s, x, y, par, k);
    RootParent(s);
    if q != s.root { Climb(s, q); }
  }

  lemma BorrowLeftPages(s: State, x: PageIndex, y: PageIndex, par: PageIndex, k: int, m1: Node, m2: Node, mp: Node)
    requires x in s.pages && y in s.pages && par in s.pages && x in s.ht
    requires Shape(s.pages[x]) && Shape(s.pages[y]) && Shape(m1) && Shape(m2)
    requires m1.l == s.pages[x].l && m2.l == s.pages[y].l - 1
    requires Neighbours(s, x, y, par, k)
    ensures Shared(s, x, y, par, Size(s.pages[x]) - 1, m1, m2, mp).pages ==
      Handed(s.pages[x := m1][y := m2][par := mp], LastKid(s.pages[x]), y, s.pages[y].l - 1)
  {
    hide Linked, Up, Kids, Keys, Read, Neighbours;
    NeighbourFacts(s, x, y, par, k);
    var c := LastKid(s.pages[x]);
    assert c in s.pages ==> c != x && c != y && c != par by { HandedLast(s, x, y, par, k); }
    forall q | q in s.pages && q != x && q != y && q != par
      ensures Rehung(s.pages[q], x, y, s.pages[x].l, s.pages[y].l, Size(s.pages[x]), Size(s.pages[x]) - 1, m1.l, m2.l)
           == if q == c then s.pages[q].(parent := y, ppos := s.pages[y].l - 1) else s.pages[q]
    {
      BorrowLeftAt(s, x, y, par, k, q);
    }
  }

  lemma HandedLast(s: State, x: PageIndex, y: PageIndex, par: PageIndex, k: int)
    requires Neighbours(s, x, y, par, k) && x in s.pages && y in s.pages && Shape(s.pages[x]) && Shape(s.pages[y])
    ensures var c := LastKid(s.pages[x]);
      c in s.pages ==> c != x && c != y && c != par && s.pages[c].parent == x && s.pages[c].ppos == s.pages[x].r
  {
    hide Linked, Up, Keys, Flat;
    NeighbourFacts(s, x, y, par, k);
    DownOf(s, x);
    if s.ht[x] > 0 { KidOf(s, x, Size(s.pages[x])); }
  }

  lemma BorrowLeftAt(s: State, x: PageIndex, y: PageIndex, par: PageIndex, k: int, q: PageIndex)
    requires Neighbours(s, x, y, par, k) && x in s.pages && y in s.pages && Shape(s.pages[x]) && Shape(s.pages[y])
    requires q in s.pages && q != x && q != y && q != par
    ensures var c := LastKid(s.pages[x]);
      Rehung(s.pages[q], x, y, s.pages[x].l, s.pages[y].l, Size(s.pages[x]), Size(s.pages[x]) - 1, s.pages[x].l,
             s.pages[y].l - 1)
      == if q == c then s.pages[q].(parent := y, ppos := s.pages[y].l - 1) else s.pages[q]
  {
    hide Linked, Down, Up, Keys;
    NeighbourFacts(s, x, y, par, k);
    HandedLast(s, x, y, par, k);
    RootParent(s);
    if q != s.root { Climb(s, q); }
  }

  // ----- merge_sibling -----

  /** memcpy: t with s[a..a+n] copied to position i. */
  function CopyAt<T>(t: seq<T>, i: int, s: seq<T>, a: int, n: int): (u: seq<T>)
    requires 0 <= a && 0 <= n && a + n <= |s| && 0 <= i && i + n <= |t|
    ensures |u| == |t|
  {
    t[..i] + s[a..a + n] + t[i + n..]
  }

  function Appended(n: Node, t: Slot, n2: Node): Node
    requires Shape(n) && Shape(n2) && n.r + Size(n2) + 1 <= INDEXCOUNT
  {
    n.(key := CopyAt<Slot>(n.key[n.r := t], n.r + 1, n2.key, n2.l, Size(n2)),
       child := CopyAt<PageIndex>(n.child, n.r + 1, n2.child, n2.l, Size(n2) + 1),
       r := n.r + Size(n2) + 1)
  }

  lemma AppendedKeys(n: Node, t: Slot, n2: Node)
    requires Shape(n) && Shape(n2) && n.r + Size(n2) + 1 <= INDEXCOUNT
    ensures var m := Appended(n, t, n2);
      && Shape(m) && Keys(m) == Keys(n) + [t] + Keys(n2) && Kids(m) == Kids(n) + Kids(n2)
      && (AllZero(n) && AllZero(n2) ==> AllZero(m) && m.child == n.child)
  {
    var m := Appended(n, t, n2);
    assert Keys(m) == Keys(n) + [t] + Keys(n2);
    assert Kids(m) == Kids(n) + Kids(n2);
    if AllZero(n) && AllZero(n2) { assert m.child == n.child; }
  }

  /** The parent after its tail closed the gap at pos. */
  function ClosedRight(n: Node, pos: int): Node
    requires Shape(n) && n.l <= pos < n.r
  {
    n.(key := Slide<Slot>(n.key, pos + 1, n.r, -1), child := Slide<PageIndex>(n.child, pos + 2, n.r + 1, -1),
       r := n.r - 1)
  }

  /** The parent after its head closed the gap at pos. */
  function ClosedLeft(n: Node, pos: int): Node
    requires Shape(n) && n.l <= pos < n.r
  {
    n.(key := Slide<Slot>(n.key, n.l, pos, 1), child := Slide<PageIndex>(n.child, n.l, pos + 1, 1), l := n.l + 1)
  }

  lemma ClosedRightKeys(n: Node, pos: int)
    requires Shape(n) && n.l <= pos < n.r
    ensures var m, k := ClosedRight(n, pos), pos - n.l;
      && Shape(m) && Keys(m) == Keys(n)[..k] + Keys(n)[k + 1..] && Kids(m) == Kids(n)[..k + 1] + Kids(n)[k + 2..]
  {
    var m, k := ClosedRight(n, pos), pos - n.l;
    var t, c := Keys(n)[..k] + Keys(n)[k + 1..], Kids(n)[..k + 1] + Kids(n)[k + 2..];
    forall i | 0 <= i < |t| ensures Keys(m)[i] == t[i] {}
    forall i | 0 <= i < |c| ensures Kids(m)[i] == c[i] {}
  }

  lemma ClosedLeftKeys(n: Node, pos: int)
    requires Shape(n) && n.l <= pos < n.r
    ensures var m, k := ClosedLeft(n, pos), pos - n.l;
      && Shape(m) && Keys(m) == Keys(n)[..k] + Keys(n)[k + 1..] && Kids(m) == Kids(n)[..k + 1] + Kids(n)[k + 2..]
  {
    var m, k := ClosedLeft(n, pos), pos - n.l;
    var t, c := Keys(n)[..k] + Keys(n)[k + 1..], Kids(n)[..k + 1] + Kids(n)[k + 2..];
    forall i | 0 <= i < |t| ensures Keys(m)[i] == t[i] {}
    forall i | 0 <= i < |c| ensures Kids(m)[i] == c[i] {}
  }

  lemma MergingHolds(s: State, x: PageIndex, y: PageIndex, par: PageIndex, k: int, mp: Node)
    requires Neighbours(s, x, y, par, k) && x in s.pages && y in s.pages && Shape(s.pages[x]) && Shape(s.pages[y])
    requires s.pages[x].r + Size(s.pages[y]) + 1 <= INDEXCOUNT
    requires mp == ClosedRight(s.pages[par], s.pages[par].l + k) || mp == ClosedLeft(s.pages[par], s.pages[par].l + k)
    ensures Merging(s, x, y, par, k, Appended(s.pages[x], s.pages[par].key[s.pages[par].l + k], s.pages[y]), mp)
  {
    hide Linked, Up, Flat, Kids, Keys, ClosedRight, ClosedLeft, Appended;
    NeighbourFacts(s, x, y, par, k);
    var np := s.pages[par];
    ClosedRightKeys(np, np.l + k);
    ClosedLeftKeys(np, np.l + k);
    KeyAt(np, k);
    AppendedKeys(s.pages[x], np.key[np.l + k], s.pages[y]);
    AppendedShape(s.pages[x], np.key[np.l + k], s.pages[y]);
    ClosedShape(np, np.l + k);
    DownOf(s, x);
    DownOf(s, y);
  }

  lemma KeyAt(n: Node, k: int)
    requires Shape(n) && 0 <= k < Size(n)
    ensures Keys(n)[k] == n.key[n.l + k]
  {
  }

  lemma AppendedShape(n: Node, t: Slot, n2: Node)
    requires Shape(n) && Shape(n2) && n.r + Size(n2) + 1 <= INDEXCOUNT
    ensures SameLink(n, Appended(n, t, n2)) && Size(Appended(n, t, n2)) == Size(n) + Size(n2) + 1
    ensures Appended(n, t, n2).l == n.l && Shape(Appended(n, t, n2))
  {
  }

  lemma ClosedShape(n: Node, pos: int)
    requires Shape(n) && n.l <= pos < n.r
    ensures SameLink(n, ClosedRight(n, pos)) && Size(ClosedRight(n, pos)) == Size(n) - 1
    ensures SameLink(n, ClosedLeft(n, pos)) && Size(ClosedLeft(n, pos)) == Size(n) - 1
  {
  }

  /** The pages once y was appended to x and its children relinked, before par lets go of y. */
  ghost function Absorbed(s: State, x: PageIndex, y: PageIndex, m: Node): map<PageIndex, Node>
    requires x in s.pages && y in s.pages
  {
    var n1, n2 := s.pages[x], s.pages[y];
    Relink((s.pages - {y})[x := m], y, n2.l, n2.r + 1, x, n1.r + 1 - n2.l)
  }

  lemma AbsorbAdoptable(s: State, x: PageIndex, y: PageIndex, par: PageIndex, k: int, m: Node)
    requires x in s.pages && y in s.pages && Shape(s.pages[x]) && Shape(s.pages[y])
    requires s.pages[x].r + Size(s.pages[y]) + 1 <= INDEXCOUNT
    requires Neighbours(s, x, y, par, k) && s.ht[x] > 0
    requires m == Appended(s.pages[x], s.pages[par].key[s.pages[par].l + k], s.pages[y])
    ensures var n1, n2 := s.pages[x], s.pages[y];
      && Shape(m)
      && Adoptable((s.pages - {y})[x := m], x, n1.r + 1, m.r + 1, y, n1.r + 1 - n2.l)
  {
    hide Linked, Up, Down;
    NeighbourFacts(s, x, y, par, k);
    var n1, n2 := s.pages[x], s.pages[y];
    var o, d := (s.pages - {y})[x := m], n1.r + 1 - n2.l;
    forall i | n1.r + 1 <= i <= m.r
      ensures var c := m.child[i]; c in o && o[c].parent == y && o[c].ppos == i - d
    {
      KidOf(s, y, i - n1.r - 1);
      assert m.child[i] == Kids(n2)[i - n1.r - 1];
    }
    forall q | q in o && o[q].parent == y && n1.r + 1 <= o[q].ppos + d <= m.r
      ensures m.child[o[q].ppos + d] == q
    {
      AbsorbHang(s, x, y, par, k, q);
    }
  }

  lemma AbsorbHang(s: State, x: PageIndex, y: PageIndex, par: PageIndex, k: int, q: PageIndex)
    requires Neighbours(s, x, y, par, k) && q in s.pages && s.pages[q].parent == y
    ensures y in s.pages && Shape(s.pages[y]) && q != x && q != y && q != par
    ensures s.pages[y].l <= s.pages[q].ppos <= s.pages[y].r && Kids(s.pages[y])[s.pages[q].ppos - s.pages[y].l] == q
  {
    hide Linked, Up, Down, Kids;
    NeighbourFacts(s, x, y, par, k);
    RootParent(s);
    Climb(s, q);
  }

  lemma AbsorbedLinking(s: State, x: PageIndex, y: PageIndex, par: PageIndex, k: int, m: Node, a: int, b: int)
    requires x in s.pages && y in s.pages && par in s.pages && Shape(s.pages[par])
    requires Neighbours(s, x, y, par, k) && SameLink(m, s.pages[x])
    requires s.pages[par].l <= a <= b <= s.pages[par].r + 1
    requires b <= s.pages[par].l + k + 1 || s.pages[par].l + k + 1 < a
    ensures var o := Absorbed(s, x, y, m);
      && par in o && o[par] == s.pages[par] && Linking(o, par, a, b)
  {
    hide Linked, Up, Down;
    NeighbourFacts(s, x, y, par, k);
    RootParent(s);
    var n, o := s.pages[par], Absorbed(s, x, y, m);
    forall i | a <= i < b
      ensures var c := n.child[i]; c in o && o[c].parent == par && o[c].ppos == i
    {
      KidOf(s, par, i - n.l);
      assert n.child[i] == Kids(n)[i - n.l];
    }
    forall q | q in o && o[q].parent == par && a <= o[q].ppos < b
      ensures n.child[o[q].ppos] == q
    {
      Climb(s, q);
    }
  }

  lemma MergedRightPages(s: State, x: PageIndex, y: PageIndex, par: PageIndex, k: int, m: Node)
    requires x in s.pages && y in s.pages && par in s.pages && x in s.ht && Shape(m)
    requires Shape(s.pages[x]) && Shape(s.pages[y]) && Shape(s.pages[par]) && 0 <= k < Size(s.pages[par])
    requires Neighbours(s, x, y, par, k)
    requires m.l == s.pages[x].l && SameLink(m, s.pages[x])
    ensures var np, o := s.pages[par], Absorbed(s, x, y, m);
      var pos := np.l + k;
      && par in o && o[par] == np
      && Shifted(o, par, pos + 1, np.r, -1, 1)[par := ClosedRight(np, pos)]
         == Merged(s, x, y, par, k, m, ClosedRight(np, pos)).pages
  {
    hide Linked, Neighbours, Slide, Read, Moved, Remerged, Kids, Keys;
    NeighbourFacts(s, x, y, par, k);
    var np, pos := s.pages[par], s.pages[par].l + k;
    RemergedPar(s, x, y, par, k, m);
    RemergedRight(s, x, y, par, k, m, x);
    forall q | q in s.pages && q != x && q != y && q != par
      ensures Moved(MovedOver(s, x, y, m, q), par, pos + 2, np.r + 1, par, -1)
        == RemergedTo(s, x, y, par, k, m.l, np.l, q)
    {
      RemergedRight(s, x, y, par, k, m, q);
    }
  }

  lemma AbsorbedParent(s: State, x: PageIndex, y: PageIndex, par: PageIndex, k: int, m: Node)
    requires x in s.pages && y in s.pages && par in s.pages && x in s.ht && Shape(m)
    requires Shape(s.pages[x]) && Shape(s.pages[y]) && Shape(s.pages[par]) && 0 <= k < Size(s.pages[par])
    requires Neighbours(s, x, y, par, k) && m.l == s.pages[x].l && SameLink(m, s.pages[x])
    ensures par in Absorbed(s, x, y, m) && Absorbed(s, x, y, m)[par] == s.pages[par]
  {
    hide Shifted, Merged, Absorbed;
    MergedRightPages(s, x, y, par, k, m);
  }

  /** How absorbing y relinks page q. */
  function MovedOver(s: State, x: PageIndex, y: PageIndex, m: Node, q: PageIndex): Node
    requires x in s.pages && y in s.pages && q in s.pages
  {
    Moved(if q == x then m else s.pages[q], y, s.pages[y].l, s.pages[y].r + 1, x, s.pages[x].r + 1 - s.pages[y].l)
  }

  function RemergedTo(s: State, x: PageIndex, y: PageIndex, par: PageIndex, k: int, xl': int, pl': int,
                      q: PageIndex): Node
    requires x in s.pages && y in s.pages && par in s.pages && q in s.pages
  {
    Remerged(s.pages[q], x, y, par, s.pages[x].l, s.pages[y].l, Size(s.pages[x]), xl', s.pages[par].l, pl', k)
  }

  lemma RemergedPar(s: State, x: PageIndex, y: PageIndex, par: PageIndex, k: int, m: Node)
    requires x in s.pages && y in s.pages && par in s.pages && Neighbours(s, x, y, par, k)
    ensures MovedOver(s, x, y, m, par) == s.pages[par]
  {
    hide Linked, Up, Down, Kids;
    NeighbourFacts(s, x, y, par, k);
  }

  lemma RemergedRight(s: State, x: PageIndex, y: PageIndex, par: PageIndex, k: int, m: Node, q: PageIndex)
    requires x in s.pages && y in s.pages && par in s.pages && q in s.pages && q != y
    requires m.l == s.pages[x].l && SameLink(m, s.pages[x])
    requires Neighbours(s, x, y, par, k) && Shape(s.pages[x]) && Shape(s.pages[y])
    ensures var np, pos := s.pages[par], s.pages[par].l + k;
      var n := Moved(MovedOver(s, x, y, m, q), par, pos + 2, np.r + 1, par, -1);
      if q == x then n == m.(ppos := np.l + k) else n == RemergedTo(s, x, y, par, k, m.l, np.l, q)
  {
    hide Linked, Up, Down, Kids;
    NeighbourFacts(s, x, y, par, k);
    MergedAt(s, x, y, par, k, q);
  }

  lemma RemergedLeft(s: State, x: PageIndex, y: PageIndex, par: PageIndex, k: int, m: Node, q: PageIndex)
    requires x in s.pages && y in s.pages && par in s.pages && q in s.pages && q != y
    requires m.l == s.pages[x].l && SameLink(m, s.pages[x])
    requires Neighbours(s, x, y, par, k) && Shape(s.pages[x]) && Shape(s.pages[y]) && Shape(s.pages[par])
    ensures var np, pos := s.pages[par], s.pages[par].l + k;
      var n := Moved(MovedOver(s, x, y, m, q), par, np.l + 1, pos + 1, par, 1);
      var n' := if q == FirstKid(np) then n.(ppos := n.ppos + 1) else n;
      if q == x then n' == m.(ppos := np.l + 1 + k) else n' == RemergedTo(s, x, y, par, k, m.l, np.l + 1, q)
  {
    hide Linked, Up, Down, Kids;
    NeighbourFacts(s, x, y, par, k);
    MergedAt(s, x, y, par, k, q);
    FirstChild(s, x, y, par, k);
    FirstOnly(s, x, y, par, k, q);
  }

  /** Where a page hangs bounds its place. */
  lemma MergedAt(s: State, x: PageIndex, y: PageIndex, par: PageIndex, k: int, q: PageIndex)
    requires Neighbours(s, x, y, par, k) && q in s.pages && q != y
    requires x in s.pages && y in s.pages && Shape(s.pages[x]) && Shape(s.pages[y])
    ensures var n := s.pages[q];
      && (n.parent == x ==> s.pages[x].l <= n.ppos <= s.pages[x].r)
      && (n.parent == y ==> s.pages[y].l <= n.ppos <= s.pages[y].r)
      && (n.parent == par ==> s.pages[par].l <= n.ppos <= s.pages[par].r && n.ppos != s.pages[par].l + k + 1)
  {
    hide Linked, Up, Down, Kids;
    NeighbourFacts(s, x, y, par, k);
    RootParent(s);
    if q != s.root { Climb(s, q); }
  }

  /** The parent's slots have been moved; its first child is where it was. */
  lemma MergedLeftFirst(s: State, x: PageIndex, y: PageIndex, par: PageIndex, k: int, m: Node)
    requires x in s.pages && y in s.pages && par in s.pages && Shape(s.pages[par]) && 0 <= k < Size(s.pages[par])
    requires Neighbours(s, x, y, par, k) && SameLink(m, s.pages[x])
    ensures var np, o, c := s.pages[par], Absorbed(s, x, y, m), FirstKid(s.pages[par]);
      && par in o && o[par] == np && o.Keys == s.pages.Keys - {y}
      && var p2 := Shifted(o, par, np.l, np.l + k, 1, 1);
      && p2.Keys == o.Keys && p2[par].child[np.l] == c && c in p2 && c != par && p2[c] == o[c]
  {
    hide Linked, Neighbours, Slide, Moved, Kids, Keys;
    NeighbourFacts(s, x, y, par, k);
    FirstChild(s, x, y, par, k);
    SlideFirst(s.pages[par].child, s.pages[par].l, s.pages[par].l + k + 1, 1);
    RemergedPar(s, x, y, par, k, m);
    MovedFirst(s, x, y, par, k, m, s.pages[par].l + k);
  }

  lemma MergedLeftAt(s: State, x: PageIndex, y: PageIndex, par: PageIndex, k: int, m: Node, q: PageIndex)
    requires x in s.pages && y in s.pages && par in s.pages && x in s.ht && Shape(m)
    requires Shape(s.pages[x]) && Shape(s.pages[y]) && Shape(s.pages[par]) && 0 <= k < Size(s.pages[par])
    requires Neighbours(s, x, y, par, k) && par in Absorbed(s, x, y, m) && Absorbed(s, x, y, m)[par] == s.pages[par]
    requires m.l == s.pages[x].l && SameLink(m, s.pages[x]) && q in s.pages && q != y && q != par
    ensures var np := s.pages[par];
      var p2 := Shifted(Absorbed(s, x, y, m), par, np.l, np.l + k, 1, 1);
      && q in p2
      && (if q == FirstKid(np) then p2[q].(ppos := p2[q].ppos + 1) else p2[q])
         == Merged(s, x, y, par, k, m, ClosedLeft(np, np.l + k)).pages[q]
  {
    hide Linked, Neighbours, Slide, Read, Moved, Remerged, Kids, Keys;
    RemergedLeft(s, x, y, par, k, m, q);
  }

  lemma MergedLeftPages(s: State, x: PageIndex, y: PageIndex, par: PageIndex, k: int, m: Node)
    requires x in s.pages && y in s.pages && par in s.pages && x in s.ht && Shape(m)
    requires Shape(s.pages[x]) && Shape(s.pages[y]) && Shape(s.pages[par]) && 0 <= k < Size(s.pages[par])
    requires Neighbours(s, x, y, par, k)
    requires m.l == s.pages[x].l && SameLink(m, s.pages[x])
    ensures var np, o := s.pages[par], Absorbed(s, x, y, m);
      var pos := np.l + k;
      && par in o && o[par] == np
      && var p2 := Shifted(o, par, np.l, pos, 1, 1);
      var c := p2[par].child[np.l];
      && c in p2 && c != par && p2[c] == o[c]
      && p2[par := ClosedLeft(np, pos)][c := p2[c].(ppos := p2[c].ppos + 1)]
         == Merged(s, x, y, par, k, m, ClosedLeft(np, pos)).pages
  {
    hide Linked, Neighbours, Absorbed, Shifted, Merged, ClosedLeft, Kids, Keys, SameLink;
    NeighbourFacts(s, x, y, par, k);
    MergedLeftFirst(s, x, y, par, k, m);
    MergedFields(s, x, y, par, k, m, ClosedLeft(s.pages[par], s.pages[par].l + k));
    forall q | q in s.pages && q != y && q != par
      ensures var np := s.pages[par];
        var p2 := Shifted(Absorbed(s, x, y, m), par, np.l, np.l + k, 1, 1);
        && q in p2
        && (if q == FirstKid(np) then p2[q].(ppos := p2[q].ppos + 1) else p2[q])
           == Merged(s, x, y, par, k, m, ClosedLeft(np, np.l + k)).pages[q]
    {
      MergedLeftAt(s, x, y, par, k, m, q);
    }
  }

  lemma MovedFirst(s: State, x: PageIndex, y: PageIndex, par: PageIndex, k: int, m: Node, pos: int)
    requires x in s.pages && y in s.pages && par in s.pages && Shape(s.pages[par])
    requires Neighbours(s, x, y, par, k) && SameLink(m, s.pages[x])
    ensures FirstKid(s.pages[par]) in s.pages && FirstKid(s.pages[par]) != y
    ensures var n := MovedOver(s, x, y, m, FirstKid(s.pages[par]));
      n == Moved(n, par, s.pages[par].l + 1, pos + 1, par, 1)
  {
    hide Linked, Up, Down, Kids;
    NeighbourFacts(s, x, y, par, k);
    FirstChild(s, x, y, par, k);
  }

  lemma FirstChild(s: State, x: PageIndex, y: PageIndex, par: PageIndex, k: int)
    requires Neighbours(s, x, y, par, k)
    ensures var c := s.pages[par].child[s.pages[par].l];
      && c in s.pages && c != par && c != y && s.pages[c].parent == par && s.pages[c].ppos == s.pages[par].l
  {
    hide Linked, Up, Down;
    NeighbourFacts(s, x, y, par, k);
    KidOf(s, par, 0);
  }

  lemma FirstOnly(s: State, x: PageIndex, y: PageIndex, par: PageIndex, k: int, q: PageIndex)
    requires Neighbours(s, x, y, par, k) && q in s.pages
    ensures s.pages[q].parent == par && s.pages[q].ppos == s.pages[par].l ==> q == s.pages[par].child[s.pages[par].l]
  {
    hide Linked, Up, Down;
    NeighbourFacts(s, x, y, par, k);
    RootParent(s);
    if q != s.root { Climb(s, q); }
  }

  /** Whether children came along shows in the first child of y. */
  lemma AppendedFirst(s: State, x: PageIndex, y: PageIndex, par: PageIndex, k: int)
    requires x in s.pages && y in s.pages && par in s.pages && x in s.ht
    requires Shape(s.pages[x]) && Shape(s.pages[y]) && Neighbours(s, x, y, par, k)
    requires s.pages[x].r + Size(s.pages[y]) + 1 <= INDEXCOUNT
    ensures var n1, n2, t := s.pages[x], s.pages[y], s.pages[par].key[s.pages[par].l + k];
      Appended(n1, t, n2).child[n1.r + 1] != 0 <==> s.ht[x] > 0
  {
    hide Linked, Down, Up, Kids, Keys;
    NeighbourFacts(s, x, y, par, k);
    ChildIffInner(s, y);
  }

  lemma AbsorbLeaf(s: State, x: PageIndex, y: PageIndex, par: PageIndex, k: int, m: Node)
    requires x in s.pages && y in s.pages && Neighbours(s, x, y, par, k) && x in s.ht && s.ht[x] == 0
    requires SameLink(m, s.pages[x])
    ensures Absorbed(s, x, y, m) == (s.pages - {y})[x := m]
  {
    hide Linked, Down, Up, Kids, Keys;
    NeighbourFacts(s, x, y, par, k);
    forall q | q in s.pages ensures s.pages[q].parent != y { NoLeafParent(s, y, q); }
  }
}
