/** How the structural steps act on the state of the tree. */
module TreeSteps {
  import opened Places
  import opened IndexPage
  import opened TreeState

  ghost predicate SameBody(n: Node, m: Node) {
    n.child == m.child && n.key == m.key && n.l == m.l && n.r == m.r
  }

  ghost predicate SameLink(n: Node, m: Node) {
    n.parent == m.parent && n.ppos == m.ppos
  }

  /** A page whose parent is a page outside c. */
  ghost predicate Hangs(s: State, c: set<PageIndex>, q: PageIndex) {
    q in s.pages && s.pages[q].parent in s.pages && s.pages[q].parent !in c
  }

  lemma HangsUp(s: State, c: set<PageIndex>, q: PageIndex)
    requires Linked(s) && Hangs(s, c, q)
    ensures q in s.pages && Up(s, q)
  {
  }

  /** From s to s' only the pages in c, and the links of their children, may change. */
  ghost predicate Untouched(s: State, s': State, c: set<PageIndex>) {
    && Domains(s) && Domains(s')
    && (forall p | p in s.pages && p !in c ::
          p in s'.pages && SameBody(s.pages[p], s'.pages[p]) && s.ht[p] == s'.ht[p] && s.ord[p] == s'.ord[p])
    && (forall p | p in s'.pages && p !in c :: p in s.pages)
    && (forall q | Hangs(s, c, q) ::
          q in s'.pages && q != s'.root && SameLink(s.pages[q], s'.pages[q])
          && s.ht[q] == s'.ht[q] && s.ord[q] == s'.ord[q])
  }

  lemma DownKept(s: State, s': State, c: set<PageIndex>, q: PageIndex)
    requires Untouched(s, s', c) && q in s'.pages && q !in c && Down(s, q)
    ensures Down(s', q)
  {
    var n := s.pages[q];
    assert Kids(s'.pages[q]) == Kids(n) && Keys(s'.pages[q]) == Keys(n) && At(s'.ord, q) == At(s.ord, q);
    if s.ht[q] > 0 {
      forall i | 0 <= i <= Size(n)
        ensures KidOk(s', q, i) && At(s.ord, Kids(n)[i]) == At(s'.ord, Kids(n)[i])
      {
        KidKept(s, s', c, q, i);
      }
      FlatSame(s.ord, s'.ord, Kids(n), Keys(n));
    }
  }

  lemma KidKept(s: State, s': State, c: set<PageIndex>, q: PageIndex, i: int)
    requires Untouched(s, s', c) && q in s'.pages && q !in c && Down(s, q) && s.ht[q] > 0
    requires 0 <= i <= Size(s.pages[q])
    ensures Shape(s'.pages[q]) && KidOk(s', q, i) && At(s.ord, Kids(s.pages[q])[i]) == At(s'.ord, Kids(s.pages[q])[i])
  {
    assert KidOk(s, q, i);
    assert Hangs(s, c, Kids(s.pages[q])[i]);
  }

  lemma UpKept(s: State, s': State, c: set<PageIndex>, q: PageIndex)
    requires Untouched(s, s', c) && Hangs(s, c, q) && Up(s, q)
    ensures q in s'.pages && Up(s', q)
  {
  }

  /** What remains to be shown for s' to be linked. */
  lemma Elsewhere(s: State, s': State, c: set<PageIndex>)
    requires Untouched(s, s', c)
    requires forall q | q in s.pages && q !in c :: Down(s, q)
    requires forall q | Hangs(s, c, q) :: Up(s, q)
    requires forall q | q in s'.pages && q in c :: Down(s', q)
    requires forall q | q in s'.pages && !Hangs(s, c, q) :: Up(s', q)
    ensures Linked(s')
  {
    hide Down, Up, Hangs;
    forall q | q in s'.pages ensures Down(s', q) {
      if q !in c { DownKept(s, s', c, q); }
    }
    forall q | q in s'.pages ensures Up(s', q) {
      if Hangs(s, c, q) { UpKept(s, s', c, q); }
    }
  }

  // ----- Sliding the live slots inside one page -----

  /** The children of p at positions [a, b) now hang on p2, d places further. */
  function Moved(n: Node, p: PageIndex, a: int, b: int, p2: PageIndex, d: int): Node {
    if n.parent == p && a <= n.ppos < b then n.(parent := p2, ppos := n.ppos + d) else n
  }

  function Relink(pages: map<PageIndex, Node>, p: PageIndex, a: int, b: int, p2: PageIndex, d: int): map<PageIndex,
                  Node> {
    map q | q in pages :: Moved(pages[q], p, a, b, p2, d)
  }

  lemma RelinkKeys(pages: map<PageIndex, Node>, p: PageIndex, a: int, b: int, p2: PageIndex, d: int)
    ensures Relink(pages, p, a, b, p2, d).Keys == pages.Keys
  {
  }

  /** The same live slots and children at another place of the page. */
  ghost predicate SameLive(n: Node, m: Node) {
    && Shape(n) && Shape(m) && Size(n) == Size(m) && Keys(n) == Keys(m) && Kids(n) == Kids(m) && SameLink(n, m)
  }

  ghost predicate AllZero(n: Node) {
    |n.child| == INDEXCOUNT + 1 && forall i | 0 <= i <= INDEXCOUNT :: n.child[i] == 0
  }

  ghost function Slid(s: State, p: PageIndex, m: Node): State
    requires p in s.pages
  {
    var n := s.pages[p];
    s.(pages := Relink(s.pages, p, n.l, n.r + 1, p, m.l - n.l)[p := m])
  }

  lemma SlidUntouched(s: State, p: PageIndex, m: Node)
    requires Linked(s) && p in s.pages && SameLive(s.pages[p], m)
    ensures Untouched(s, Slid(s, p, m), {p})
  {
    hide Down, Up, Kids, Keys, Hangs, SameLink, SameBody, SameLive, Linked;
    DomainsOf(s);
    forall q | q in s.pages && q != p ensures SameBody(s.pages[q], Slid(s, p, m).pages[q]) {
      SlidBody(s, p, m, q);
    }
    forall q | Hangs(s, {p}, q) ensures q in s.pages && q != s.root && SameLink(s.pages[q], Slid(s, p, m).pages[q]) {
      SlidHangs(s, p, m, q);
    }
  }

  lemma SlidBody(s: State, p: PageIndex, m: Node, q: PageIndex)
    requires p in s.pages && q in s.pages && q != p
    ensures q in Slid(s, p, m).pages && SameBody(s.pages[q], Slid(s, p, m).pages[q])
  {
  }

  lemma SlidHangs(s: State, p: PageIndex, m: Node, q: PageIndex)
    requires Linked(s) && p in s.pages && SameLive(s.pages[p], m) && Hangs(s, {p}, q)
    ensures q in Slid(s, p, m).pages && q != s.root && SameLink(s.pages[q], Slid(s, p, m).pages[q])
  {
    hide Linked, Down, Up, Kids, Keys;
    RootParent(s);
  }

  lemma SlidDown(s: State, p: PageIndex, m: Node)
    requires Linked(s) && p in s.pages && SameLive(s.pages[p], m)
    requires s.ht[p] == 0 ==> AllZero(m)
    ensures Down(Slid(s, p, m), p)
  {
    hide Up, Flat, Kids, Keys, Linked;
    assert Down(s, p) by { DownOf(s, p); }
    var s' := Slid(s, p, m);
    if s.ht[p] > 0 {
      forall i | 0 <= i <= Size(m) ensures KidOk(s', p, i) {
        KidOf(s, p, i);
        ParentHeight(s, Kids(s.pages[p])[i]);
      }
    }
  }

  lemma DownOf(s: State, p: PageIndex)
    requires Linked(s) && p in s.pages
    ensures p in s.ht && Down(s, p)
  {
  }

  lemma UpOf(s: State, p: PageIndex)
    requires Linked(s) && p in s.pages
    ensures p in s.ht && Up(s, p)
  {
  }

  lemma SlidUp(s: State, p: PageIndex, m: Node, q: PageIndex)
    requires Linked(s) && p in s.pages && SameLive(s.pages[p], m)
    requires q in s.pages && !Hangs(s, {p}, q)
    ensures Up(Slid(s, p, m), q)
  {
    hide Down, Linked;
    UpOf(s, q);
    if q == s.root {
      RootParent(s);
    } else {
      Climb(s, q);
    }
  }

  lemma SlidLinked(s: State, p: PageIndex, m: Node)
    requires Linked(s) && p in s.pages && SameLive(s.pages[p], m)
    requires s.ht[p] == 0 ==> AllZero(m)
    ensures Linked(Slid(s, p, m))
  {
    hide Down, Up, SameLive, Untouched;
    SlidUntouched(s, p, m);
    SlidDown(s, p, m);
    forall q | q in s.pages && !Hangs(s, {p}, q) ensures Up(Slid(s, p, m), q) {
      SlidUp(s, p, m, q);
    }
    Elsewhere(s, Slid(s, p, m), {p});
  }

  // ----- A separator and a new right child enter an internal page -----

  /** Child k of par has been cut into lc, mid and rc, but par does not know yet. */
  ghost predicate Pending(s: State, par: PageIndex, k: int, mid: Slot, lc: PageIndex, rc: PageIndex) {
    && Domains(s)
    && par in s.pages && lc in s.pages && rc in s.pages && par != lc && par != rc && lc != rc
    && s.ht[par] == s.ht[lc] + 1 && s.ht[par] == s.ht[rc] + 1 && lc != s.root && rc != s.root
    && Shape(s.pages[par]) && 0 <= k <= Size(s.pages[par])
    && (forall q {:trigger Down(s, q)} | q in s.pages && q != par :: Down(s, q))
    && (forall q {:trigger Up(s, q)} | q in s.pages && q != lc && q != rc :: Up(s, q))
    && (forall i | 0 <= i <= Size(s.pages[par]) && i != k :: KidOk(s, par, i))
    && s.pages[rc].parent == 0
    && (Kids(s.pages[par])[k] == lc || Kids(s.pages[par])[k] == 0)
    && (s.pages[lc].parent == 0 || (s.pages[lc].parent == par && s.pages[lc].ppos == s.pages[par].l + k))
    && At(s.ord, par) ==
       Pre(s.ord, Kids(s.pages[par])[..k], Keys(s.pages[par])[..k])
       + (At(s.ord, lc) + [mid] + At(s.ord, rc))
       + Suf(s.ord, Kids(s.pages[par])[k + 1..], Keys(s.pages[par])[k..])
  }

  ghost predicate Grows(n: Node, m: Node, k: int, mid: Slot, lc: PageIndex, rc: PageIndex)
    requires Shape(n) && 0 <= k <= Size(n)
  {
    && Shape(m) && SameLink(n, m) && Size(m) == Size(n) + 1
    && Keys(m) == Keys(n)[..k] + [mid] + Keys(n)[k..]
    && Kids(m) == Kids(n)[..k] + [lc, rc] + Kids(n)[k + 1..]
  }

  /** A child of par after a child was inserted at place k + 1 and the page slid from l to l'. */
  function Regrown(c: Node, par: PageIndex, l: int, l': int, k: int): Node {
    if c.parent != par then c
    else c.(ppos := l' + (c.ppos - l) + if c.ppos - l < k then 0 else 1)
  }

  ghost function Grown(s: State, par: PageIndex, m: Node, k: int, lc: PageIndex, rc: PageIndex): State
    requires par in s.pages && lc in s.pages && rc in s.pages
  {
    s.(pages := map q | q in s.pages ::
      if q == par then m
      else if q == lc then s.pages[lc].(parent := par, ppos := m.l + k)
      else if q == rc then s.pages[rc].(parent := par, ppos := m.l + k + 1)
      else Regrown(s.pages[q], par, s.pages[par].l, m.l, k))
  }

  lemma GrownUntouched(s: State, par: PageIndex, m: Node, k: int, mid: Slot, lc: PageIndex, rc: PageIndex)
    requires Pending(s, par, k, mid, lc, rc) && Grows(s.pages[par], m, k, mid, lc, rc)
    ensures Untouched(s, Grown(s, par, m, k, lc, rc), {par})
  {
    hide Down, Pre, Suf, KidOk, Kids, Keys, Pending, Hangs, Up;
    PendingParts(s, par, k, mid, lc, rc);
    forall q | Hangs(s, {par}, q)
      ensures q in s.pages && q != s.root && SameLink(s.pages[q], Grown(s, par, m, k, lc, rc).pages[q])
    {
      GrownHangs(s, par, m, k, mid, lc, rc, q);
    }
  }

  lemma PendingParts(s: State, par: PageIndex, k: int, mid: Slot, lc: PageIndex, rc: PageIndex)
    requires Pending(s, par, k, mid, lc, rc)
    ensures Domains(s) && par in s.pages && lc in s.pages && rc in s.pages && par != lc && par != rc && lc != rc
  {
  }

  lemma GrownHangs(s: State, par: PageIndex, m: Node, k: int, mid: Slot, lc: PageIndex, rc: PageIndex, q: PageIndex)
    requires Pending(s, par, k, mid, lc, rc) && Grows(s.pages[par], m, k, mid, lc, rc)
    requires Hangs(s, {par}, q)
    ensures q in s.pages && q != s.root && SameLink(s.pages[q], Grown(s, par, m, k, lc, rc).pages[q])
  {
    hide Down, Pre, Suf, KidOk, Kids, Keys;
    assert q == lc || q == rc || Up(s, q);
  }

  lemma GrownKid(s: State, par: PageIndex, m: Node, k: int, mid: Slot, lc: PageIndex, rc: PageIndex, i: int)
    requires Pending(s, par, k, mid, lc, rc) && Grows(s.pages[par], m, k, mid, lc, rc)
    requires 0 <= i <= Size(m)
    ensures var s' := Grown(s, par, m, k, lc, rc); KidOk(s', par, i)
  {
    hide Down, Up, Pre, Suf, Keys, Kids;
    var n := s.pages[par];
    if i < k {
      assert KidOk(s, par, i);
    } else if i > k + 1 {
      assert KidOk(s, par, i - 1);
    }
  }

  lemma GrownFlat(s: State, par: PageIndex, m: Node, k: int, mid: Slot, lc: PageIndex, rc: PageIndex)
    requires Pending(s, par, k, mid, lc, rc) && Grows(s.pages[par], m, k, mid, lc, rc)
    ensures At(s.ord, par) == Flat(s.ord, Kids(m), Keys(m))
  {
    hide Down, Up, Pre, Suf, Flat, Keys, Kids, KidOk;
    var n := s.pages[par];
    Around2(s.ord, Kids(m), Keys(m), k);
    assert Kids(m)[..k] == Kids(n)[..k] && Keys(m)[..k] == Keys(n)[..k];
    assert Kids(m)[k + 2..] == Kids(n)[k + 1..] && Keys(m)[k + 1..] == Keys(n)[k..];
  }

  lemma GrownUp(s: State, par: PageIndex, m: Node, k: int, mid: Slot, lc: PageIndex, rc: PageIndex, q: PageIndex)
    requires Pending(s, par, k, mid, lc, rc) && Grows(s.pages[par], m, k, mid, lc, rc)
    requires q in s.pages && !Hangs(s, {par}, q)
    ensures Up(Grown(s, par, m, k, lc, rc), q)
  {
    hide Down, Pre, Suf, Keys, Kids, KidOk;
    if q != lc && q != rc {
      assert Up(s, q);
    }
    if q != lc && q != rc && q != s.root {
      var n, j := s.pages[par], s.pages[q].ppos - s.pages[par].l;
      assert Kids(n)[j] == q && j != k;
      assert Kids(m)[if j < k then j else j + 1] == q;
    }
  }

  lemma GrowsParts(n: Node, m: Node, k: int, mid: Slot, lc: PageIndex, rc: PageIndex)
    requires Shape(n) && 0 <= k <= Size(n) && Grows(n, m, k, mid, lc, rc)
    ensures Shape(m) && SameLink(n, m) && Size(m) == Size(n) + 1
  {
  }

  lemma GrownLinked(s: State, par: PageIndex, m: Node, k: int, mid: Slot, lc: PageIndex, rc: PageIndex)
    requires Pending(s, par, k, mid, lc, rc) && Grows(s.pages[par], m, k, mid, lc, rc)
    ensures Linked(Grown(s, par, m, k, lc, rc))
  {
    hide Up, Untouched, Grows, Pre, Suf, Flat, KidOk, Kids, Keys;
    var s' := Grown(s, par, m, k, lc, rc);
    GrownUntouched(s, par, m, k, mid, lc, rc);
    assert Shape(m) by { GrowsParts(s.pages[par], m, k, mid, lc, rc); }
    forall i | 0 <= i <= Size(m) ensures KidOk(s', par, i) { GrownKid(s, par, m, k, mid, lc, rc, i); }
    GrownFlat(s, par, m, k, mid, lc, rc);
    assert Down(s', par);
    forall q | q in s.pages && !Hangs(s, {par}, q) ensures Up(s', q) {
      GrownUp(s, par, m, k, mid, lc, rc, q);
    }
    Elsewhere(s, s', {par});
  }

  // ----- Cutting a full page in two -----

  /** Page p is child k of par, or par is a fresh root that does not know its only child yet. */
  ghost predicate Splittable(s: State, p: PageIndex, par: PageIndex, k: int) {
    && Domains(s)
    && p in s.pages && par in s.pages && p != par && p != s.root && s.ht[par] == s.ht[p] + 1
    && Shape(s.pages[par]) && 0 <= k <= Size(s.pages[par])
    && (forall q {:trigger Down(s, q)} | q in s.pages && q != par :: Down(s, q))
    && (forall q {:trigger Up(s, q)} | q in s.pages && q != p :: Up(s, q))
    && (forall i | 0 <= i <= Size(s.pages[par]) && i != k :: KidOk(s, par, i))
    && (if s.pages[p].parent == 0 then Kids(s.pages[par])[k] == 0
        else s.pages[p].parent == par && s.pages[p].ppos == s.pages[par].l + k && Kids(s.pages[par])[k] == p)
    && At(s.ord, par) ==
       Pre(s.ord, Kids(s.pages[par])[..k], Keys(s.pages[par])[..k])
       + At(s.ord, p)
       + Suf(s.ord, Kids(s.pages[par])[k + 1..], Keys(s.pages[par])[k..])
  }

  /** A blank page z has become the root, above the old one. */
  ghost function Rooted(s: State, par: PageIndex, z: Node): State
    requires s.root in s.ht
  {
    State(s.pages[par := z], par, s.ord[par := At(s.ord, s.root)], s.ht[par := s.ht[s.root] + 1])
  }

  lemma SplittableChild(s: State, p: PageIndex)
    requires Linked(s) && p in s.pages && p != s.root
    ensures HasPlace(s, p) && Splittable(s, p, s.pages[p].parent, Place(s, p))
  {
    hide Pre, Suf, Flat, Kids, Keys;
    Climb(s, p);
    InParent(s, p);
    var par := s.pages[p].parent;
    forall i | 0 <= i <= Size(s.pages[par]) ensures KidOk(s, par, i) { KidOf(s, par, i); }
  }

  lemma SplittableRoot(s: State, par: PageIndex, z: Node)
    requires Linked(s) && par !in s.pages && par != 0 && Blank(z)
    ensures Splittable(Rooted(s, par, z), s.root, par, 0)
  {
    hide Down, Up;
    var s' := Rooted(s, par, z);
    RootParent(s);
    assert Kids(z)[0] == 0;
    forall q | q in s.pages ensures Down(s', q) { RootedDown(s, par, z, q); }
    forall q | q in s'.pages && q != s.root ensures Up(s', q) { RootedUp(s, par, z, q); }
  }

  lemma RootedUp(s: State, par: PageIndex, z: Node, q: PageIndex)
    requires Linked(s) && par !in s.pages && par != 0 && Blank(z) && q in s.pages[par := z] && q != s.root
    ensures Up(Rooted(s, par, z), q)
  {
    hide Down;
    if q != par { UpOf(s, q); }
  }

  lemma RootedDown(s: State, par: PageIndex, z: Node, q: PageIndex)
    requires Linked(s) && par !in s.pages && par != 0 && q in s.pages
    ensures Down(Rooted(s, par, z), q)
  {
    hide Flat, Up, Kids, Keys;
    DownOf(s, q);
    if s.ht[q] > 0 {
      forall i | 0 <= i <= Size(s.pages[q]) ensures KidOk(Rooted(s, par, z), q, i) { KidOf(s, q, i); }
      RootParent(s);
      Reread(s, q, s.ord, Rooted(s, par, z).ord);
      assert Rooted(s, par, z).pages[q] == s.pages[q] && At(s.ord, q) == At(Rooted(s, par, z).ord, q);
    }
  }

  /** left and right are the parts of n on the two sides of slot k. */
  ghost predicate Halves(n: Node, k: int, left: Node, right: Node) {
    && Shape(n) && Shape(left) && Shape(right) && 0 <= k < Size(n)
    && Size(left) == k && Size(right) == Size(n) - k - 1
    && left.l == n.l && SameLink(n, left) && right.parent == 0
    && Keys(left) == Keys(n)[..k] && Kids(left) == Kids(n)[..k + 1]
    && Keys(right) == Keys(n)[k + 1..] && Kids(right) == Kids(n)[k + 1..]
  }

  ghost function Read(s: State, p: PageIndex, n: Node): seq<Slot>
    requires Shape(n) && p in s.ht
  {
    if s.ht[p] == 0 then Keys(n) else Flat(s.ord, Kids(n), Keys(n))
  }

  ghost function Halved(s: State, p: PageIndex, sib: PageIndex, left: Node, right: Node): State
    requires p in s.pages && p in s.ht && Shape(left) && Shape(right)
  {
    var a := s.pages[p].l + Size(left) + 1;
    s.(pages := Relink(s.pages, p, a, s.pages[p].r + 1, sib, right.l - a)[p := left][sib := right],
       ord := s.ord[p := Read(s, p, left)][sib := Read(s, p, right)],
       ht := s.ht[sib := s.ht[p]])
  }

  ghost predicate Cut(s: State, p: PageIndex, par: PageIndex, k: int, sib: PageIndex, j: int, left: Node, right: Node) {
    && Splittable(s, p, par, k) && sib !in s.pages && sib != 0
    && Shape(s.pages[p]) && Halves(s.pages[p], j, left, right)
    && (s.ht[p] == 0 ==> AllZero(left) && AllZero(right))
  }

  lemma HalvedHangs(s: State, p: PageIndex, par: PageIndex, k: int, sib: PageIndex, j: int, left: Node, right: Node,
                    q: PageIndex)
    requires Cut(s, p, par, k, sib, j, left, right) && Hangs(s, {p, sib, par}, q)
    ensures q in s.pages && q != s.root && q != p && q != sib
    ensures SameLink(s.pages[q], Halved(s, p, sib, left, right).pages[q])
  {
    hide Down, Pre, Suf, KidOk, Kids, Keys, Flat, Read;
    assert q == p || Up(s, q);
  }

  lemma HalvedElsewhere(s: State, p: PageIndex, par: PageIndex, k: int, sib: PageIndex, j: int, left: Node, right: Node)
    requires Cut(s, p, par, k, sib, j, left, right)
    ensures var s' := Halved(s, p, sib, left, right);
      && Domains(s) && s'.pages.Keys == s.pages.Keys + {sib}
      && forall q | q in s.pages && q != p :: SameBody(s.pages[q], s'.pages[q])
  {
    hide Down, Up, Pre, Suf, KidOk, Kids, Keys, Flat, Read;
  }

  lemma HalvedUntouched(s: State, p: PageIndex, par: PageIndex, k: int, sib: PageIndex, j: int, left: Node, right: Node)
    requires Cut(s, p, par, k, sib, j, left, right)
    ensures Untouched(s, Halved(s, p, sib, left, right), {p, sib, par})
  {
    hide Down, Up, Pre, Suf, KidOk, Kids, Keys, Flat, Read, Hangs, SameLink, SameBody, Relink;
    var s' := Halved(s, p, sib, left, right);
    HalvedElsewhere(s, p, par, k, sib, j, left, right);
    forall q | Hangs(s, {p, sib, par}, q)
      ensures q in s.pages && q != s.root && q != p && q != sib && SameLink(s.pages[q], s'.pages[q])
    {
      HalvedHangs(s, p, par, k, sib, j, left, right, q);
    }
  }

  lemma HalvedLeft(s: State, p: PageIndex, par: PageIndex, k: int, sib: PageIndex, j: int, left: Node, right: Node)
    requires Cut(s, p, par, k, sib, j, left, right)
    ensures Down(Halved(s, p, sib, left, right), p)
  {
    hide Up, Pre, Suf, Kids, Keys, Flat;
    var s' := Halved(s, p, sib, left, right);
    assert Down(s, p);
    if s.ht[p] > 0 {
      forall i | 0 <= i <= Size(left)
        ensures KidOk(s', p, i) && At(s.ord, Kids(left)[i]) == At(s'.ord, Kids(left)[i])
      {
        assert KidOk(s, p, i);
      }
      FlatSame(s.ord, s'.ord, Kids(left), Keys(left));
    }
  }

  lemma HalvedRight(s: State, p: PageIndex, par: PageIndex, k: int, sib: PageIndex, j: int, left: Node, right: Node)
    requires Cut(s, p, par, k, sib, j, left, right)
    ensures Down(Halved(s, p, sib, left, right), sib)
  {
    hide Up, Pre, Suf, Kids, Keys, Flat;
    var s' := Halved(s, p, sib, left, right);
    assert Down(s, p);
    if s.ht[p] > 0 {
      forall i | 0 <= i <= Size(right)
        ensures KidOk(s', sib, i) && At(s.ord, Kids(right)[i]) == At(s'.ord, Kids(right)[i])
      {
        assert KidOk(s, p, j + 1 + i);
      }
      FlatSame(s.ord, s'.ord, Kids(right), Keys(right));
    }
  }

  lemma HalvedUp(s: State, p: PageIndex, par: PageIndex, k: int, sib: PageIndex, j: int, left: Node, right: Node,
                 q: PageIndex)
    requires Cut(s, p, par, k, sib, j, left, right) && q in s.pages && q != p && !Hangs(s, {p, sib, par}, q)
    ensures Up(Halved(s, p, sib, left, right), q)
  {
    hide Down, Pre, Suf, Kids, Keys, Flat, KidOk, Read;
    assert Up(s, q);
    assert Up(s, par);
    if q != s.root && s.pages[q].parent == p {
      var i := s.pages[q].ppos - s.pages[p].l;
      assert if i <= j then Kids(left)[i] == q else Kids(right)[i - j - 1] == q;
    }
  }

  lemma HalvedRead(s: State, p: PageIndex, par: PageIndex, k: int, sib: PageIndex, j: int, left: Node, right: Node)
    requires Cut(s, p, par, k, sib, j, left, right)
    ensures At(s.ord, p) == Read(s, p, left) + [Keys(s.pages[p])[j]] + Read(s, p, right)
  {
    hide Up, Pre, Suf, Kids, Keys, Flat, KidOk;
    assert Down(s, p);
    if s.ht[p] > 0 { FlatSplit(s.ord, Kids(s.pages[p]), Keys(s.pages[p]), j); }
  }

  lemma HalvedDown(s: State, p: PageIndex, par: PageIndex, k: int, sib: PageIndex, j: int, left: Node, right: Node,
                   q: PageIndex)
    requires Cut(s, p, par, k, sib, j, left, right) && (q in s.pages || q == sib) && q != par
    ensures Down(Halved(s, p, sib, left, right), q)
  {
    hide Up, Down, Untouched, Pre, Suf, Kids, Keys, Flat, Read, KidOk;
    if q == p { HalvedLeft(s, p, par, k, sib, j, left, right); }
    else if q == sib { HalvedRight(s, p, par, k, sib, j, left, right); }
    else {
      HalvedUntouched(s, p, par, k, sib, j, left, right);
      DownKept(s, Halved(s, p, sib, left, right), {p, sib, par}, q);
    }
  }

  lemma HalvedUpAll(s: State, p: PageIndex, par: PageIndex, k: int, sib: PageIndex, j: int, left: Node, right: Node,
                    q: PageIndex)
    requires Cut(s, p, par, k, sib, j, left, right) && q in s.pages && q != p
    ensures Up(Halved(s, p, sib, left, right), q)
  {
    hide Up, Down, Untouched, Pre, Suf, Kids, Keys, Flat, Read, KidOk;
    if Hangs(s, {p, sib, par}, q) {
      HalvedUntouched(s, p, par, k, sib, j, left, right);
      UpKept(s, Halved(s, p, sib, left, right), {p, sib, par}, q);
    } else {
      HalvedUp(s, p, par, k, sib, j, left, right, q);
    }
  }

  lemma HalvedPending(s: State, p: PageIndex, par: PageIndex, k: int, sib: PageIndex, j: int, left: Node, right: Node)
    requires Cut(s, p, par, k, sib, j, left, right)
    ensures Pending(Halved(s, p, sib, left, right), par, k, Keys(s.pages[p])[j], p, sib)
  {
    hide Down, Up, KidOk, Pre, Suf, Kids, Keys, Flat, Read;
    var s' := Halved(s, p, sib, left, right);
    HalvedSiblings(s, p, par, k, sib, j, left, right);
    forall q | q in s'.pages && q != par ensures Down(s', q) {
      HalvedDown(s, p, par, k, sib, j, left, right, q);
    }
    forall q | q in s'.pages && q != p && q != sib ensures Up(s', q) {
      HalvedUpAll(s, p, par, k, sib, j, left, right, q);
    }
    HalvedRead(s, p, par, k, sib, j, left, right);
  }

  lemma HalvedSiblings(s: State, p: PageIndex, par: PageIndex, k: int, sib: PageIndex, j: int, left: Node, right: Node)
    requires Cut(s, p, par, k, sib, j, left, right)
    ensures var s', n := Halved(s, p, sib, left, right), s.pages[par];
      && s'.pages[par] == n
      && (forall i | 0 <= i <= Size(n) && i != k :: KidOk(s', par, i))
      && Pre(s.ord, Kids(n)[..k], Keys(n)[..k]) == Pre(s'.ord, Kids(n)[..k], Keys(n)[..k])
      && Suf(s.ord, Kids(n)[k + 1..], Keys(n)[k..]) == Suf(s'.ord, Kids(n)[k + 1..], Keys(n)[k..])
  {
    hide Down, Pre, Suf, Kids, Keys, Flat, Read;
    var s', n := Halved(s, p, sib, left, right), s.pages[par];
    assert Up(s, par);
    assert s'.pages[par] == n;
    forall i | 0 <= i <= Size(n) && i != k
      ensures KidOk(s', par, i) && At(s.ord, Kids(n)[i]) == At(s'.ord, Kids(n)[i])
    {
      assert KidOk(s, par, i);
    }
    PreSame(s.ord, s'.ord, Kids(n)[..k], Keys(n)[..k]);
    SufSame(s.ord, s'.ord, Kids(n)[k + 1..], Keys(n)[k..]);
  }

  // ----- Replacing the body of one page -----

  /** Page p gets the body of m; its ancestors are reread. */
  ghost function Rewritten(s: State, p: PageIndex, m: Node): State
    requires Linked(s) && p in s.pages && Shape(m)
  {
    s.(pages := s.pages[p := m], ord := Lift(s, p, Read(s, p, m)))
  }

  ghost predicate Rewrites(s: State, p: PageIndex, m: Node)
    requires Linked(s) && p in s.pages
  {
    && Shape(m) && Shape(s.pages[p]) && SameLink(s.pages[p], m)
    && (if s.ht[p] == 0 then AllZero(m)
        else m.l == s.pages[p].l && Size(m) == Size(s.pages[p]) && Kids(m) == Kids(s.pages[p]))
  }

  lemma RewrittenDown(s: State, p: PageIndex, m: Node, q: PageIndex)
    requires Linked(s) && p in s.pages && Rewrites(s, p, m) && q in s.pages
    requires Lift(s, p, Read(s, p, m)).Keys == s.ord.Keys
    ensures Down(Rewritten(s, p, m), q)
  {
    hide Linked, Up, Kids, Keys, Flat, Lift;
    var s' := Rewritten(s, p, m);
    DomainsOf(s);
    DownOf(s, q);
    DownOf(s, p);
    LiftBelow(s, p, Read(s, p, m));
    if s.ht[q] > 0 {
      forall i | 0 <= i <= Size(s.pages[q]) ensures KidOk(s', q, i) { KidOf(s, q, i); }
      if q == p {
        RereadKids(s, p, s'.ord, Kids(m), Keys(m));
      } else {
        LiftFlat(s, p, Read(s, p, m), q);
      }
    }
  }

  /** Flat only depends on the readings of the children. */
  lemma RereadKids(s: State, x: PageIndex, o: Reading, c: seq<PageIndex>, k: seq<Slot>)
    requires Linked(s) && x in s.pages && s.ht[x] > 0 && Shape(s.pages[x]) && c == Kids(s.pages[x]) && |c| == |k| + 1
    requires forall q | q in s.pages && s.ht[q] < s.ht[x] :: At(o, q) == At(s.ord, q)
    ensures Flat(o, c, k) == Flat(s.ord, c, k)
  {
    hide Linked, Up, Down, Kids, Keys, Flat, At;
    forall i | 0 <= i < |c| ensures At(o, c[i]) == At(s.ord, c[i]) { KidOf(s, x, i); }
    FlatSame(o, s.ord, c, k);
  }

  lemma RewrittenLinked(s: State, p: PageIndex, m: Node)
    requires Linked(s) && p in s.pages && Rewrites(s, p, m)
    ensures Linked(Rewritten(s, p, m))
    ensures Whole(Rewritten(s, p, m)) == Before(s, p) + Read(s, p, m) + After(s, p)
  {
    hide Down, Up, Kids, Keys, Flat, Lift, Read, Before, After, Shape;
    var s' := Rewritten(s, p, m);
    LiftWhole(s, p, Read(s, p, m));
    forall q | q in s.pages ensures Down(s', q) { RewrittenDown(s, p, m, q); }
    forall q | q in s.pages ensures Up(s', q) { RewrittenUp(s, p, m, q); }
  }

  lemma RewrittenUp(s: State, p: PageIndex, m: Node, q: PageIndex)
    requires Linked(s) && p in s.pages && Rewrites(s, p, m) && q in s.pages
    requires Lift(s, p, Read(s, p, m)).Keys == s.ord.Keys
    ensures Up(Rewritten(s, p, m), q)
  {
    hide Linked, Down, Kids, Keys, Flat, Lift, Read;
    UpOf(s, q);
    if q != s.root {
      Climb(s, q);
      ParentHeight(s, q);
    }
  }
}
