/**
 * The state of the page tree as a value, its invariants, and what each structural
 * step (slide, split, borrow, merge, lift) does to them.
 */
module TreeState {
  import opened Places
  import opened IndexPage

  /**
   * `pages` and `root` are stored; `ord` (the in-order reading of the subtree under a page)
   * and `ht` (its height) only serve the proof.
   */
  datatype State = State(pages: map<PageIndex, Node>, root: PageIndex, ord: Reading, ht: map<PageIndex, nat>)

  /** The i-th child of p is a page one level down that names p, and its slot in p, as its parent. */
  ghost predicate KidOk(s: State, p: PageIndex, i: int)
    requires p in s.pages && p in s.ht && Shape(s.pages[p]) && 0 <= i <= Size(s.pages[p])
  {
    var c := Kids(s.pages[p])[i];
    && c in s.pages && c in s.ht
    && s.pages[c].parent == p && s.pages[c].ppos == s.pages[p].l + i
    && s.ht[c] + 1 == s.ht[p]
  }

  /** A page agrees with its children and with its reading. */
  ghost predicate Down(s: State, p: PageIndex)
    requires p in s.pages && p in s.ht
  {
    var n := s.pages[p];
    && Shape(n)
    && (s.ht[p] == 0 ==> (forall i | 0 <= i <= INDEXCOUNT :: n.child[i] == 0) && At(s.ord, p) == Keys(n))
    && (s.ht[p] > 0 ==>
          && (forall i {:trigger Kids(n)[i]} | 0 <= i <= Size(n) :: KidOk(s, p, i))
          && At(s.ord, p) == Flat(s.ord, Kids(n), Keys(n)))
  }

  /** A page is the child its parent link names. */
  ghost predicate Up(s: State, q: PageIndex)
    requires q in s.pages && q in s.ht
  {
    var n := s.pages[q];
    if q == s.root then n.parent == 0 && n.ppos == 0
    else
      && n.parent in s.pages && n.parent in s.ht && s.ht[n.parent] == s.ht[q] + 1
      && Shape(s.pages[n.parent])
      && s.pages[n.parent].l <= n.ppos <= s.pages[n.parent].r
      && Kids(s.pages[n.parent])[n.ppos - s.pages[n.parent].l] == q
  }

  ghost predicate Domains(s: State) {
    && s.root in s.pages && 0 !in s.pages
    && s.ord.Keys == s.pages.Keys && s.ht.Keys == s.pages.Keys
    && forall q | q in s.pages :: s.ht[q] <= s.ht[s.root]
  }

  /** Everything but the number of keys in a page. */
  ghost predicate Linked(s: State) {
    && Domains(s)
    && (forall q {:trigger Down(s, q)} | q in s.pages :: Down(s, q))
    && (forall q {:trigger Up(s, q)} | q in s.pages :: Up(s, q))
  }

  ghost predicate Sized(s: State, q: PageIndex)
    requires q in s.pages && q in s.ht
  {
    && Size(s.pages[q]) < INDEXCOUNT
    && (q != s.root ==> INDEXMINR <= Size(s.pages[q]))
    && (s.ht[q] > 0 ==> 1 <= Size(s.pages[q]))
  }

  /** At rest, except that page `ex` may hold too many or too few keys. */
  ghost predicate Tidy(s: State, ex: PageIndex) {
    Linked(s) && SizedBut(s, ex)
  }

  ghost predicate SizedBut(s: State, ex: PageIndex) {
    forall q {:trigger Sized(s, q)} | q in s.pages && q != ex :: q in s.ht && Sized(s, q)
  }

  ghost function Whole(s: State): seq<Slot> {
    At(s.ord, s.root)
  }

  // ----- Where a page sits in the whole reading -----

  ghost predicate HasPlace(s: State, q: PageIndex) {
    && q in s.pages && s.pages[q].parent in s.pages
    && Shape(s.pages[s.pages[q].parent])
    && s.pages[s.pages[q].parent].l <= s.pages[q].ppos <= s.pages[s.pages[q].parent].r
  }

  lemma Climb(s: State, q: PageIndex)
    requires Linked(s) && q in s.pages && q != s.root
    ensures HasPlace(s, q) && 0 < s.ht[s.pages[q].parent] == s.ht[q] + 1 <= s.ht[s.root]
    ensures Kids(s.pages[s.pages[q].parent])[Place(s, q)] == q
  {
    assert Up(s, q);
  }

  function Place(s: State, q: PageIndex): int
    requires q in s.pages && s.pages[q].parent in s.pages
  {
    s.pages[q].ppos - s.pages[s.pages[q].parent].l
  }

  /** What precedes q among the siblings, in the reading of its parent. */
  ghost function LeftOf(s: State, q: PageIndex): seq<Slot>
    requires HasPlace(s, q)
  {
    var p := s.pages[s.pages[q].parent];
    Pre(s.ord, Kids(p)[..Place(s, q)], Keys(p)[..Place(s, q)])
  }

  ghost function RightOf(s: State, q: PageIndex): seq<Slot>
    requires HasPlace(s, q)
  {
    var p := s.pages[s.pages[q].parent];
    Suf(s.ord, Kids(p)[Place(s, q) + 1..], Keys(p)[Place(s, q)..])
  }

  ghost function Before(s: State, q: PageIndex): seq<Slot>
    requires Linked(s) && q in s.pages
    decreases s.ht[s.root] - s.ht[q]
  {
    if q == s.root then [] else
    Climb(s, q);
    Before(s, s.pages[q].parent) + LeftOf(s, q)
  }

  ghost function After(s: State, q: PageIndex): seq<Slot>
    requires Linked(s) && q in s.pages
    decreases s.ht[s.root] - s.ht[q]
  {
    if q == s.root then [] else
    Climb(s, q);
    RightOf(s, q) + After(s, s.pages[q].parent)
  }

  /** A non-root page in the reading of its parent. */
  lemma InParent(s: State, q: PageIndex)
    requires Linked(s) && q in s.pages && q != s.root
    ensures HasPlace(s, q)
    ensures At(s.ord, s.pages[q].parent) == LeftOf(s, q) + At(s.ord, q) + RightOf(s, q)
  {
    var pp := s.pages[q].parent;
    assert Up(s, q) && Down(s, pp);
    var p := s.pages[pp];
    Around(s.ord, Kids(p), Keys(p), Place(s, q));
  }

  lemma {:induction false} InWhole(s: State, q: PageIndex)
    requires Linked(s) && q in s.pages
    ensures Whole(s) == Before(s, q) + At(s.ord, q) + After(s, q)
    decreases s.ht[s.root] - s.ht[q]
  {
    hide Linked, LeftOf, RightOf;
    if q == s.root {
    } else {
      Climb(s, q);
      var p := s.pages[q].parent;
      InWhole(s, p);
      InParent(s, q);
      Regroup5(Before(s, p), LeftOf(s, q), At(s.ord, q), RightOf(s, q), After(s, p));
    }
  }

  lemma Regroup5<T>(a: seq<T>, b: seq<T>, c: seq<T>, d: seq<T>, e: seq<T>)
    ensures a + (b + c + d) + e == (a + b) + c + (d + e)
  {
  }

  // ----- Changing one page's reading and carrying the change up to the root -----

  /** The readings after page q reads as t: each ancestor is reread in its old context. */
  ghost function Lift(s: State, q: PageIndex, t: seq<Slot>): Reading
    requires Linked(s) && q in s.pages
    decreases s.ht[s.root] - s.ht[q]
  {
    if q == s.root then s.ord[q := t] else
    Climb(s, q);
    Lift(s, s.pages[q].parent, LeftOf(s, q) + t + RightOf(s, q))[q := t]
  }

  lemma {:induction false} LiftBelow(s: State, q: PageIndex, t: seq<Slot>)
    requires Linked(s) && q in s.pages
    ensures Lift(s, q, t).Keys == s.ord.Keys && Lift(s, q, t)[q] == t
    ensures forall x | x in s.pages && x != q && s.ht[x] <= s.ht[q] :: At(Lift(s, q, t), x) == At(s.ord, x)
    decreases s.ht[s.root] - s.ht[q]
  {
    hide Down, LeftOf, RightOf;
    if q != s.root {
      Climb(s, q);
      LiftBelow(s, s.pages[q].parent, LeftOf(s, q) + t + RightOf(s, q));
    }
  }

  lemma {:induction false} LiftWhole(s: State, q: PageIndex, t: seq<Slot>)
    requires Linked(s) && q in s.pages
    ensures Lift(s, q, t).Keys == s.ord.Keys
    ensures At(Lift(s, q, t), s.root) == Before(s, q) + t + After(s, q)
    decreases s.ht[s.root] - s.ht[q]
  {
    hide Linked, LeftOf, RightOf;
    LiftBelow(s, q, t);
    if q != s.root {
      Climb(s, q);
      var p := s.pages[q].parent;
      LiftWhole(s, p, LeftOf(s, q) + t + RightOf(s, q));
      Regroup5(Before(s, p), LeftOf(s, q), t, RightOf(s, q), After(s, p));
    }
  }

  lemma RootParent(s: State)
    requires Linked(s)
    ensures s.pages[s.root].parent == 0 && s.pages[s.root].ppos == 0 && 0 !in s.pages
  {
    assert Up(s, s.root);
  }

  lemma ParentHeight(s: State, q: PageIndex)
    requires Linked(s) && q in s.pages && s.pages[q].parent in s.pages
    ensures q != s.root && 0 < s.ht[s.pages[q].parent] == s.ht[q] + 1
  {
    assert Up(s, q);
  }

  lemma KidOf(s: State, p: PageIndex, i: int)
    requires Linked(s) && p in s.pages && s.ht[p] > 0 && Shape(s.pages[p]) && 0 <= i <= Size(s.pages[p])
    ensures KidOk(s, p, i)
  {
    assert Down(s, p);
    var c := Kids(s.pages[p])[i];
  }

  lemma DomainsOf(s: State)
    requires Linked(s)
    ensures Domains(s)
  {
  }

  lemma ShapeOf(s: State, p: PageIndex)
    requires Linked(s) && p in s.pages
    ensures Shape(s.pages[p])
  {
    assert Down(s, p);
  }

  /** A node reads the same under two readings that agree on its children. */
  lemma Reread(s: State, x: PageIndex, o: Reading, o': Reading)
    requires Linked(s) && x in s.pages && s.ht[x] > 0 && Shape(s.pages[x])
    requires forall c | c in s.pages && s.pages[c].parent == x :: At(o, c) == At(o', c)
    ensures Flat(o, Kids(s.pages[x]), Keys(s.pages[x])) == Flat(o', Kids(s.pages[x]), Keys(s.pages[x]))
  {
    hide Linked, Flat, At;
    var n := s.pages[x];
    forall i | 0 <= i <= Size(n) ensures At(o, Kids(n)[i]) == At(o', Kids(n)[i]) {
      KidOf(s, x, i);
    }
    FlatSame(o, o', Kids(n), Keys(n));
  }

  /** Two readings that agree on the children other than one. */
  lemma RereadAround(s: State, x: PageIndex, o: Reading, o': Reading, k: int)
    requires Linked(s) && x in s.pages && s.ht[x] > 0 && Shape(s.pages[x]) && 0 <= k <= Size(s.pages[x])
    requires forall c | c in s.pages && s.pages[c].parent == x && c != Kids(s.pages[x])[k] :: At(o, c) == At(o', c)
    ensures var c, t := Kids(s.pages[x]), Keys(s.pages[x]);
      && Pre(o, c[..k], t[..k]) == Pre(o', c[..k], t[..k])
      && Suf(o, c[k + 1..], t[k..]) == Suf(o', c[k + 1..], t[k..])
  {
    hide Linked, Pre, Suf, At;
    var n := s.pages[x];
    KidOf(s, x, k);
    forall i | 0 <= i <= Size(n) && i != k ensures At(o, Kids(n)[i]) == At(o', Kids(n)[i]) {
      KidOf(s, x, i);
    }
    PreSame(o, o', Kids(n)[..k], Keys(n)[..k]);
    SufSame(o, o', Kids(n)[k + 1..], Keys(n)[k..]);
  }

  /** After a lift every internal page other than q still reads as its children do. */
  lemma {:induction false} LiftFlat(s: State, q: PageIndex, t: seq<Slot>, x: PageIndex)
    requires Linked(s) && q in s.pages && x in s.pages && x != q && s.ht[x] > 0 && Shape(s.pages[x])
    ensures At(Lift(s, q, t), x) == Flat(Lift(s, q, t), Kids(s.pages[x]), Keys(s.pages[x]))
    decreases s.ht[s.root] - s.ht[q]
  {
    hide Linked, Flat, LeftOf, RightOf;
    if q == s.root {
      assert At(s.ord, x) == Flat(s.ord, Kids(s.pages[x]), Keys(s.pages[x])) by { FlatOf(s, x); }
      assert s.pages[q].parent != x by { RootParent(s); }
      Reread(s, x, s.ord, Lift(s, q, t));
    } else {
      Climb(s, q);
      var p := s.pages[q].parent;
      var u := LeftOf(s, q) + t + RightOf(s, q);
      if x == p {
        LiftParent(s, q, t);
      } else {
        LiftFlat(s, p, u, x);
        Reread(s, x, Lift(s, p, u), Lift(s, q, t));
      }
    }
  }

  lemma FlatOf(s: State, p: PageIndex)
    requires Linked(s) && p in s.pages && s.ht[p] > 0 && Shape(s.pages[p])
    ensures At(s.ord, p) == Flat(s.ord, Kids(s.pages[p]), Keys(s.pages[p]))
  {
    assert Down(s, p);
  }

  lemma LiftParent(s: State, q: PageIndex, t: seq<Slot>)
    requires Linked(s) && q in s.pages && q != s.root && HasPlace(s, q)
    ensures var p := s.pages[q].parent;
      At(Lift(s, q, t), p) == Flat(Lift(s, q, t), Kids(s.pages[p]), Keys(s.pages[p]))
  {
    hide Linked, Pre, Suf, Flat;
    Climb(s, q);
    var p := s.pages[q].parent;
    var n, k := s.pages[p], Place(s, q);
    var o := Lift(s, q, t);
    LiftBelow(s, q, t);
    LiftBelow(s, p, LeftOf(s, q) + t + RightOf(s, q));
    forall c | c in s.pages && s.pages[c].parent == p && c != q ensures At(s.ord, c) == At(o, c) {
      ParentHeight(s, c);
    }
    RereadAround(s, p, s.ord, o, k);
    Around(o, Kids(n), Keys(n), k);
  }

  // ----- The shape of the tree -----

  /** How many steps up from q to the root. */
  ghost function Depth(s: State, q: PageIndex): nat
    requires Linked(s) && q in s.pages
    decreases s.ht[s.root] - s.ht[q]
  {
    if q == s.root then 0 else
      Climb(s, q);
      1 + Depth(s, s.pages[q].parent)
  }

  lemma {:induction false} DepthAndHeight(s: State, q: PageIndex)
    requires Linked(s) && q in s.pages
    ensures Depth(s, q) + s.ht[q] == s.ht[s.root]
    decreases s.ht[s.root] - s.ht[q]
  {
    if q != s.root {
      Climb(s, q);
      DepthAndHeight(s, s.pages[q].parent);
    }
  }

  /** All leaves have the same depth: a page has no child exactly when it is as deep as the tree goes. */
  lemma LeavesAtOneDepth(s: State, q: PageIndex)
    requires Linked(s) && q in s.pages
    ensures Shape(s.pages[q]) && (s.pages[q].child[s.pages[q].l] == 0 <==> Depth(s, q) == s.ht[s.root])
  {
    DepthAndHeight(s, q);
    assert Down(s, q);
    if s.ht[q] > 0 {
      assert KidOk(s, q, 0) && Kids(s.pages[q])[0] == s.pages[q].child[s.pages[q].l];
    }
  }

  lemma BlankTidy(p: PageIndex, n: Node)
    requires Blank(n) && p != 0
    ensures var s := State(map[p := n], p, map[p := []], map[p := 0]); Tidy(s, 0) && Whole(s) == []
  {
    assert Kids(n) == [n.child[0]] && Keys(n) == [];
  }

  lemma Bounds(s: State, q: PageIndex)
    requires Tidy(s, 0) && q in s.pages
    ensures Shape(s.pages[q]) && Size(s.pages[q]) < INDEXCOUNT && (q != s.root ==> INDEXMINR <= Size(s.pages[q]))
  {
    assert Down(s, q) && Sized(s, q);
  }

  /** At rest a page other than the root holds 126 to 253 keys, and each child names its parent and its slot there. */
  lemma AtRest(s: State, q: PageIndex)
    requires Tidy(s, 0) && q in s.pages
    ensures Shape(s.pages[q]) && Size(s.pages[q]) <= 253 && (q != s.root ==> 126 <= Size(s.pages[q]))
    ensures s.ht[q] > 0 ==> forall i | s.pages[q].l <= i <= s.pages[q].r ::
              var c := s.pages[q].child[i];
              c in s.pages && s.pages[c].parent == q && s.pages[c].ppos == i
  {
    hide Shape, Sized;
    Bounds(s, q);
    SlotsFit(0);
    if s.ht[q] > 0 {
      forall i | s.pages[q].l <= i <= s.pages[q].r
        ensures
          var c := s.pages[q].child[i];
          c in s.pages && s.pages[c].parent == q && s.pages[c].ppos == i
      {
        ChildAtRest(s, q, i);
      }
    }
  }

  lemma ChildAtRest(s: State, q: PageIndex, i: int)
    requires Tidy(s, 0) && q in s.pages && Shape(s.pages[q]) && s.ht[q] > 0 && s.pages[q].l <= i <= s.pages[q].r
    ensures var c := s.pages[q].child[i]; c in s.pages && s.pages[c].parent == q && s.pages[c].ppos == i
  {
    assert Down(s, q);
    assert KidOk(s, q, i - s.pages[q].l) && Kids(s.pages[q])[i - s.pages[q].l] == s.pages[q].child[i];
  }
}
