/** Two neighbouring pages share their slots anew, or become one. */
module TreeShare {
  import opened Places
  import opened IndexPage
  import opened TreeState
  import opened TreeSteps

  /** x and y are children k and k + 1 of par. */
  ghost predicate Neighbours(s: State, x: PageIndex, y: PageIndex, par: PageIndex, k: int) {
    && Linked(s) && par in s.pages && s.ht[par] > 0
    && Shape(s.pages[par]) && 0 <= k < Size(s.pages[par])
    && Kids(s.pages[par])[k] == x && Kids(s.pages[par])[k + 1] == y
  }

  lemma NeighbourFacts(s: State, x: PageIndex, y: PageIndex, par: PageIndex, k: int)
    requires Neighbours(s, x, y, par, k)
    ensures Domains(s) && x in s.pages && y in s.pages && x != y && x != par && y != par
    ensures x != s.root && y != s.root && s.ht[x] + 1 == s.ht[par] == s.ht[y] + 1
    ensures s.pages[x].parent == par && s.pages[x].ppos == s.pages[par].l + k
    ensures s.pages[y].parent == par && s.pages[y].ppos == s.pages[par].l + k + 1
    ensures s.pages[par].parent != x && s.pages[par].parent != y && s.pages[par].parent != par
    ensures Shape(s.pages[x]) && Shape(s.pages[y]) && Shape(s.pages[par]) && 0 <= k < Size(s.pages[par])
  {
    hide Linked, Down, Up, Kids;
    KidOf(s, par, k);
    KidOf(s, par, k + 1);
    RootParent(s);
    ShapeOf(s, x);
    ShapeOf(s, y);
    if par != s.root { Climb(s, par); }
    assert Domains(s) by { DomainsOf(s); }
  }

  /** The slots of x, the separator and the slots of y, in order. */
  ghost function JointKeys(s: State, x: PageIndex, y: PageIndex, par: PageIndex, k: int): (t: seq<Slot>)
    requires Neighbours(s, x, y, par, k) && x in s.pages && y in s.pages && Shape(s.pages[x]) && Shape(s.pages[y])
    ensures |t| == Size(s.pages[x]) + Size(s.pages[y]) + 1
  {
    Keys(s.pages[x]) + [Keys(s.pages[par])[k]] + Keys(s.pages[y])
  }

  ghost function JointKids(s: State, x: PageIndex, y: PageIndex): (t: seq<PageIndex>)
    requires x in s.pages && y in s.pages && Shape(s.pages[x]) && Shape(s.pages[y])
    ensures |t| == Size(s.pages[x]) + Size(s.pages[y]) + 2
  {
    Kids(s.pages[x]) + Kids(s.pages[y])
  }

  ghost function ReadAt(s: State, p: PageIndex, c: seq<PageIndex>, k: seq<Slot>): seq<Slot>
    requires |c| == |k| + 1 && p in s.ht
  {
    if s.ht[p] == 0 then k else Flat(s.ord, c, k)
  }

  /** The two neighbours read together as one node with the joint slots. */
  lemma JointRead(s: State, x: PageIndex, y: PageIndex, par: PageIndex, k: int)
    requires Neighbours(s, x, y, par, k) && x in s.pages && y in s.pages && Shape(s.pages[x]) && Shape(s.pages[y])
    ensures At(s.ord, x) + [Keys(s.pages[par])[k]] + At(s.ord, y)
         == ReadAt(s, x, JointKids(s, x, y), JointKeys(s, x, y, par, k))
  {
    hide Linked, Up, Kids, Keys, Flat, At;
    NeighbourFacts(s, x, y, par, k);
    DownOf(s, x);
    DownOf(s, y);
    var c, t, i := JointKids(s, x, y), JointKeys(s, x, y, par, k), Size(s.pages[x]);
    if s.ht[x] > 0 {
      FlatSplit(s.ord, c, t, i);
      assert c[..i + 1] == Kids(s.pages[x]) && c[i + 1..] == Kids(s.pages[y]);
      assert t[..i] == Keys(s.pages[x]) && t[i + 1..] == Keys(s.pages[y]);
    }
  }

  /** A child that was i-th among the joint children, after x keeps j slots. */
  function Rehung(c: Node, x: PageIndex, y: PageIndex, xl: int, yl: int, sx: int, j: int, xl': int, yl': int): Node {
    if c.parent != x && c.parent != y then c else
    var i := if c.parent == x then c.ppos - xl else sx + 1 + (c.ppos - yl);
    if i <= j then c.(parent := x, ppos := xl' + i) else c.(parent := y, ppos := yl' + (i - j - 1))
  }

  ghost function Shared(s: State, x: PageIndex, y: PageIndex, par: PageIndex, j: int, m1: Node, m2: Node,
                        mp: Node): State
    requires x in s.pages && y in s.pages && par in s.pages && x in s.ht && Shape(m1) && Shape(m2)
  {
    var n1, n2 := s.pages[x], s.pages[y];
    s.(pages := map q | q in s.pages ::
         if q == x then m1 else if q == y then m2 else if q == par then mp
         else Rehung(s.pages[q], x, y, n1.l, n2.l, Size(n1), j, m1.l, m2.l),
       ord := s.ord[x := Read(s, x, m1)][y := Read(s, x, m2)])
  }

  /** m1, the separator in mp and m2 hold the joint slots, cut at j. */
  ghost predicate Shares(s: State, x: PageIndex, y: PageIndex, par: PageIndex, k: int, j: int, m1: Node, m2: Node,
                         mp: Node)
    requires Neighbours(s, x, y, par, k) && x in s.pages && y in s.pages && Shape(s.pages[x]) && Shape(s.pages[y])
  {
    var c, t := JointKids(s, x, y), JointKeys(s, x, y, par, k);
    && 0 <= j < |t|
    && Shape(m1) && Shape(m2) && Size(m1) == j && Size(m2) == |t| - j - 1
    && SameLink(s.pages[x], m1) && SameLink(s.pages[y], m2) && SameLink(s.pages[par], mp)
    && Keys(m1) == t[..j] && Keys(m2) == t[j + 1..]
    && (if s.ht[x] == 0 then AllZero(m1) && AllZero(m2) else Kids(m1) == c[..j + 1] && Kids(m2) == c[j + 1..])
    && Shape(mp) && mp.l == s.pages[par].l && Size(mp) == Size(s.pages[par])
    && Kids(mp) == Kids(s.pages[par]) && Keys(mp) == Keys(s.pages[par])[k := t[j]]
  }

  ghost predicate Sharing(s: State, x: PageIndex, y: PageIndex, par: PageIndex, k: int, j: int, m1: Node, m2: Node,
                          mp: Node) {
    && Neighbours(s, x, y, par, k) && x in s.pages && y in s.pages && Shape(s.pages[x]) && Shape(s.pages[y])
    && x in s.ht && Shares(s, x, y, par, k, j, m1, m2, mp)
  }

  lemma SharedUntouched(s: State, x: PageIndex, y: PageIndex, par: PageIndex, k: int, j: int, m1: Node, m2: Node,
                        mp: Node)
    requires Sharing(s, x, y, par, k, j, m1, m2, mp)
    ensures Untouched(s, Shared(s, x, y, par, j, m1, m2, mp), {x, y, par})
  {
    hide Linked, Down, Up, Kids, Keys, Flat, JointKids, JointKeys, Read, Hangs, SameLink, SameBody, Rehung;
    NeighbourFacts(s, x, y, par, k);
    var s' := Shared(s, x, y, par, j, m1, m2, mp);
    forall q | q in s.pages && q != x && q != y && q != par ensures SameBody(s.pages[q], s'.pages[q]) {
      RehungBody(s.pages[q], x, y, s.pages[x].l, s.pages[y].l, Size(s.pages[x]), j, m1.l, m2.l);
    }
    forall q | Hangs(s, {x, y, par}, q)
      ensures q in s.pages && q != s.root && q != x && q != y && SameLink(s.pages[q], s'.pages[q])
    {
      SharedHangs(s, x, y, par, k, j, m1, m2, mp, q);
    }
  }

  lemma RehungBody(c: Node, x: PageIndex, y: PageIndex, xl: int, yl: int, sx: int, j: int, xl': int, yl': int)
    ensures SameBody(c, Rehung(c, x, y, xl, yl, sx, j, xl', yl'))
  {
  }

  lemma SharedHangs(s: State, x: PageIndex, y: PageIndex, par: PageIndex, k: int, j: int, m1: Node, m2: Node, mp: Node,
                    q: PageIndex)
    requires Sharing(s, x, y, par, k, j, m1, m2, mp) && Hangs(s, {x, y, par}, q)
    ensures q in s.pages && q != s.root && q != x && q != y
    ensures SameLink(s.pages[q], Shared(s, x, y, par, j, m1, m2, mp).pages[q])
  {
    hide Linked, Down, Up, Kids, Keys, Flat, JointKids, JointKeys, Read;
    NeighbourFacts(s, x, y, par, k);
    RootParent(s);
  }

  lemma SharedDownX(s: State, x: PageIndex, y: PageIndex, par: PageIndex, k: int, j: int, m1: Node, m2: Node, mp: Node)
    requires Sharing(s, x, y, par, k, j, m1, m2, mp)
    ensures Down(Shared(s, x, y, par, j, m1, m2, mp), x)
  {
    hide Linked, Up, Kids, Keys, Flat, JointKeys;
    NeighbourFacts(s, x, y, par, k);
    var s' := Shared(s, x, y, par, j, m1, m2, mp);
    if s.ht[x] > 0 {
      forall i | 0 <= i <= Size(m1)
        ensures KidOk(s', x, i) && At(s.ord, Kids(m1)[i]) == At(s'.ord, Kids(m1)[i])
      {
        JointKid(s, x, y, par, k, i);
      }
      FlatSame(s.ord, s'.ord, Kids(m1), Keys(m1));
    }
  }

  lemma JointKid(s: State, x: PageIndex, y: PageIndex, par: PageIndex, k: int, i: int)
    requires Neighbours(s, x, y, par, k) && x in s.pages && y in s.pages && Shape(s.pages[x]) && Shape(s.pages[y])
    requires s.ht[x] > 0 && 0 <= i < |JointKids(s, x, y)|
    ensures var c, sx := JointKids(s, x, y)[i], Size(s.pages[x]);
      && c in s.pages && c in s.ht && s.ht[c] + 1 == s.ht[x] == s.ht[y] && c != x && c != y && c != par
      && (if i <= sx then s.pages[c].parent == x && s.pages[c].ppos == s.pages[x].l + i
          else s.pages[c].parent == y && s.pages[c].ppos == s.pages[y].l + (i - sx - 1))
  {
    hide Linked, Up, Down, Kids, Keys;
    NeighbourFacts(s, x, y, par, k);
    if i <= Size(s.pages[x]) { KidOf(s, x, i); } else { KidOf(s, y, i - Size(s.pages[x]) - 1); }
  }

  lemma SharedDownY(s: State, x: PageIndex, y: PageIndex, par: PageIndex, k: int, j: int, m1: Node, m2: Node, mp: Node)
    requires Sharing(s, x, y, par, k, j, m1, m2, mp)
    ensures Down(Shared(s, x, y, par, j, m1, m2, mp), y)
  {
    hide Linked, Up, Kids, Keys, Flat, JointKeys;
    NeighbourFacts(s, x, y, par, k);
    var s' := Shared(s, x, y, par, j, m1, m2, mp);
    if s.ht[x] > 0 {
      forall i | 0 <= i <= Size(m2)
        ensures KidOk(s', y, i) && At(s.ord, Kids(m2)[i]) == At(s'.ord, Kids(m2)[i])
      {
        JointKid(s, x, y, par, k, j + 1 + i);
      }
      FlatSame(s.ord, s'.ord, Kids(m2), Keys(m2));
    }
  }

  /** The parent reads as before. */
  lemma SharedFlat(s: State, x: PageIndex, y: PageIndex, par: PageIndex, k: int, j: int, m1: Node, m2: Node, mp: Node)
    requires Sharing(s, x, y, par, k, j, m1, m2, mp)
    ensures var s' := Shared(s, x, y, par, j, m1, m2, mp);
      At(s'.ord, par) == Flat(s'.ord, Kids(mp), Keys(mp))
  {
    hide Linked, Up, Down, Kids, Keys, Flat, Pre, Suf, Read, JointKids, JointKeys;
    NeighbourFacts(s, x, y, par, k);
    var s' := Shared(s, x, y, par, j, m1, m2, mp);
    var c, t := Kids(s.pages[par]), Keys(s.pages[par]);
    FlatOf(s, par);
    Around2(s.ord, c, t, k);
    Around2(s'.ord, c, Keys(mp), k);
    assert Keys(mp)[..k] == t[..k] && Keys(mp)[k + 1..] == t[k + 1..];
    forall i | 0 <= i < |c| && i != k && i != k + 1 ensures At(s.ord, c[i]) == At(s'.ord, c[i]) {
      KidOf(s, par, i);
    }
    PreSame(s.ord, s'.ord, c[..k], t[..k]);
    SufSame(s.ord, s'.ord, c[k + 2..], t[k + 1..]);
    SharedRead(s, x, y, par, k, j, m1, m2, mp);
  }

  lemma SharedRead(s: State, x: PageIndex, y: PageIndex, par: PageIndex, k: int, j: int, m1: Node, m2: Node, mp: Node)
    requires Sharing(s, x, y, par, k, j, m1, m2, mp)
    ensures At(s.ord, x) + [Keys(s.pages[par])[k]] + At(s.ord, y)
         == Read(s, x, m1) + [Keys(mp)[k]] + Read(s, x, m2)
  {
    hide Linked, Up, Down, Kids, Keys, Flat, At;
    JointRead(s, x, y, par, k);
    var c, t := JointKids(s, x, y), JointKeys(s, x, y, par, k);
    if s.ht[x] > 0 { FlatSplit(s.ord, c, t, j); }
  }

  lemma SharedDownPar(s: State, x: PageIndex, y: PageIndex, par: PageIndex, k: int, j: int, m1: Node, m2: Node,
                      mp: Node)
    requires Sharing(s, x, y, par, k, j, m1, m2, mp)
    ensures Down(Shared(s, x, y, par, j, m1, m2, mp), par)
  {
    hide Linked, Up, Kids, Keys, Flat, JointKids, JointKeys;
    NeighbourFacts(s, x, y, par, k);
    var s' := Shared(s, x, y, par, j, m1, m2, mp);
    SharedFlat(s, x, y, par, k, j, m1, m2, mp);
    forall i | 0 <= i <= Size(mp) ensures KidOk(s', par, i) { KidOf(s, par, i); }
  }

  lemma SharedUp(s: State, x: PageIndex, y: PageIndex, par: PageIndex, k: int, j: int, m1: Node, m2: Node, mp: Node,
                 q: PageIndex)
    requires Sharing(s, x, y, par, k, j, m1, m2, mp) && q in s.pages && !Hangs(s, {x, y, par}, q)
    requires x in s.ht && y in s.ht && par in s.ht
    ensures Up(Shared(s, x, y, par, j, m1, m2, mp), q)
  {
    hide Linked, Down, Kids, Keys, Flat, JointKeys, Read;
    NeighbourFacts(s, x, y, par, k);
    RootParent(s);
    UpOf(s, q);
    if q != s.root && (s.pages[q].parent == x || s.pages[q].parent == y) {
      SharedUpKid(s, x, y, par, k, j, m1, m2, mp, q);
    }
  }

  lemma SharedUpKid(s: State, x: PageIndex, y: PageIndex, par: PageIndex, k: int, j: int, m1: Node, m2: Node,
                    mp: Node, q: PageIndex)
    requires Sharing(s, x, y, par, k, j, m1, m2, mp)
    requires q in s.pages && q != s.root && (s.pages[q].parent == x || s.pages[q].parent == y)
    requires x in s.ht && y in s.ht && par in s.ht
    ensures Up(Shared(s, x, y, par, j, m1, m2, mp), q)
  {
    hide Linked, Down, Kids, Keys, Flat, JointKeys, Read;
    NeighbourFacts(s, x, y, par, k);
    Climb(s, q);
    var c := JointKids(s, x, y);
    var i := if s.pages[q].parent == x then s.pages[q].ppos - s.pages[x].l
             else Size(s.pages[x]) + 1 + s.pages[q].ppos - s.pages[y].l;
    assert c[i] == q;
    JointKid(s, x, y, par, k, i);
    if i <= j { assert Kids(m1)[i] == q; } else { assert Kids(m2)[i - j - 1] == q; }
  }

  lemma SharedLinked(s: State, x: PageIndex, y: PageIndex, par: PageIndex, k: int, j: int, m1: Node, m2: Node, mp: Node)
    requires Sharing(s, x, y, par, k, j, m1, m2, mp)
    ensures Linked(Shared(s, x, y, par, j, m1, m2, mp))
    ensures Whole(Shared(s, x, y, par, j, m1, m2, mp)) == Whole(s)
  {
    hide Down, Up, Kids, Keys, Flat, JointKeys, JointKids, Read, Untouched, Rehung, AllZero, SameLink, Hangs;
    var s' := Shared(s, x, y, par, j, m1, m2, mp);
    NeighbourFacts(s, x, y, par, k);
    SharedUntouched(s, x, y, par, k, j, m1, m2, mp);
    SharedDownX(s, x, y, par, k, j, m1, m2, mp);
    SharedDownY(s, x, y, par, k, j, m1, m2, mp);
    SharedDownPar(s, x, y, par, k, j, m1, m2, mp);
    forall q | q in s.pages && !Hangs(s, {x, y, par}, q) ensures Up(s', q) {
      SharedUp(s, x, y, par, k, j, m1, m2, mp, q);
    }
    forall q | Hangs(s, {x, y, par}, q) ensures q in s.pages && Up(s, q) {
      HangsUp(s, {x, y, par}, q);
    }
    Elsewhere(s, s', {x, y, par});
  }

  // ----- Merging -----

  /** A child of par, x or y after child k + 1 of par left and y was appended to x. */
  function Remerged(c: Node, x: PageIndex, y: PageIndex, par: PageIndex, xl: int, yl: int, sx: int, xl': int,
                    pl: int, pl': int, k: int): Node {
    if c.parent == x then c.(ppos := xl' + (c.ppos - xl))
    else if c.parent == y then c.(parent := x, ppos := xl' + sx + 1 + (c.ppos - yl))
    else if c.parent == par then c.(ppos := pl' + (c.ppos - pl) - if c.ppos - pl <= k then 0 else 1)
    else c
  }

  ghost function Merged(s: State, x: PageIndex, y: PageIndex, par: PageIndex, k: int, m: Node, mp: Node): State
    requires x in s.pages && y in s.pages && par in s.pages && x in s.ht && Shape(m)
  {
    var n1, n2, np := s.pages[x], s.pages[y], s.pages[par];
    s.(pages := map q | q in s.pages && q != y ::
         if q == x then m.(ppos := mp.l + k) else if q == par then mp
         else Remerged(s.pages[q], x, y, par, n1.l, n2.l, Size(n1), m.l, np.l, mp.l, k),
       ord := s.ord[x := Read(s, x, m)] - {y},
       ht := s.ht - {y})
  }

  lemma MergedFields(s: State, x: PageIndex, y: PageIndex, par: PageIndex, k: int, m: Node, mp: Node)
    requires x in s.pages && y in s.pages && par in s.pages && x in s.ht && Shape(m)
    requires x != y && x != par && y != par
    ensures var s' := Merged(s, x, y, par, k, m, mp);
      && s' == State(s'.pages, s.root, s.ord[x := Read(s, x, m)] - {y}, s.ht - {y})
      && s'.pages.Keys == s.pages.Keys - {y} && s'.pages[par] == mp && s'.pages[x].parent == m.parent
  {
  }

  ghost predicate Merging(s: State, x: PageIndex, y: PageIndex, par: PageIndex, k: int, m: Node, mp: Node) {
    && Neighbours(s, x, y, par, k) && x in s.pages && y in s.pages && Shape(s.pages[x]) && Shape(s.pages[y])
    && x in s.ht && y in s.ht && par in s.ht
    && Shape(m) && m.parent == par && Size(m) == Size(s.pages[x]) + Size(s.pages[y]) + 1
    && Keys(m) == JointKeys(s, x, y, par, k)
    && (if s.ht[x] == 0 then AllZero(m) else Kids(m) == JointKids(s, x, y))
    && Shape(mp) && SameLink(s.pages[par], mp) && Size(mp) == Size(s.pages[par]) - 1
    && Keys(mp) == Keys(s.pages[par])[..k] + Keys(s.pages[par])[k + 1..]
    && Kids(mp) == Kids(s.pages[par])[..k + 1] + Kids(s.pages[par])[k + 2..]
  }

  lemma MergedUntouched(s: State, x: PageIndex, y: PageIndex, par: PageIndex, k: int, m: Node, mp: Node)
    requires Merging(s, x, y, par, k, m, mp)
    ensures Untouched(s, Merged(s, x, y, par, k, m, mp), {x, y, par})
  {
    hide Linked, Down, Up, Kids, Keys, Flat, JointKids, JointKeys, Read, Hangs, SameLink, SameBody, Remerged;
    NeighbourFacts(s, x, y, par, k);
    var s' := Merged(s, x, y, par, k, m, mp);
    forall q | q in s.pages && q != x && q != y && q != par ensures SameBody(s.pages[q], s'.pages[q]) {
      MergedBody(s, x, y, par, k, m, mp, q);
    }
    forall q | Hangs(s, {x, y, par}, q)
      ensures q in s.pages && q != s.root && q != x && q != y && SameLink(s.pages[q], s'.pages[q])
    {
      MergedHangs(s, x, y, par, k, m, mp, q);
    }
  }

  lemma MergedBody(s: State, x: PageIndex, y: PageIndex, par: PageIndex, k: int, m: Node, mp: Node, q: PageIndex)
    requires x in s.pages && y in s.pages && par in s.pages && x in s.ht && Shape(m)
    requires q in s.pages && q != x && q != y && q != par
    ensures SameBody(s.pages[q], Merged(s, x, y, par, k, m, mp).pages[q])
  {
    hide Read;
  }

  lemma MergedHangs(s: State, x: PageIndex, y: PageIndex, par: PageIndex, k: int, m: Node, mp: Node, q: PageIndex)
    requires Merging(s, x, y, par, k, m, mp) && Hangs(s, {x, y, par}, q)
    ensures q in s.pages && q != s.root && q != x && q != y
    ensures SameLink(s.pages[q], Merged(s, x, y, par, k, m, mp).pages[q])
  {
    hide Linked, Down, Up, Kids, Keys, Flat, JointKids, JointKeys, Read;
    NeighbourFacts(s, x, y, par, k);
    RootParent(s);
  }

  lemma MergedDownX(s: State, x: PageIndex, y: PageIndex, par: PageIndex, k: int, m: Node, mp: Node)
    requires Merging(s, x, y, par, k, m, mp)
    ensures x in Merged(s, x, y, par, k, m, mp).ht && Down(Merged(s, x, y, par, k, m, mp), x)
  {
    hide Linked, Up, Kids, Keys, Flat, JointKeys;
    NeighbourFacts(s, x, y, par, k);
    var s' := Merged(s, x, y, par, k, m, mp);
    var w := s'.pages[x];
    assert Kids(w) == Kids(m) && Keys(w) == Keys(m) by { SameArrays(w, m); }
    if s.ht[x] > 0 {
      forall i | 0 <= i <= Size(m)
        ensures KidOk(s', x, i) && At(s.ord, Kids(m)[i]) == At(s'.ord, Kids(m)[i])
      {
        JointKid(s, x, y, par, k, i);
      }
      FlatSame(s.ord, s'.ord, Kids(m), Keys(m));
    }
  }

  lemma SameArrays(n: Node, m: Node)
    requires Shape(n) && Shape(m) && SameBody(n, m)
    ensures Kids(n) == Kids(m) && Keys(n) == Keys(m)
  {
  }

  lemma MergedParKid(s: State, x: PageIndex, y: PageIndex, par: PageIndex, k: int, m: Node, mp: Node, i: int)
    requires Merging(s, x, y, par, k, m, mp) && 0 <= i <= Size(mp)
    requires par in Merged(s, x, y, par, k, m, mp).ht
    ensures var s' := Merged(s, x, y, par, k, m, mp);
      KidOk(s', par, i) && (i != k ==> At(s.ord, Kids(mp)[i]) == At(s'.ord, Kids(mp)[i]))
  {
    hide Linked, Down, Up, Kids, Keys, Flat, JointKeys, JointKids, Read;
    NeighbourFacts(s, x, y, par, k);
    var j := if i <= k then i else i + 1;
    assert Kids(mp)[i] == Kids(s.pages[par])[j];
    KidOf(s, par, j);
  }

  lemma MergedFlat(s: State, x: PageIndex, y: PageIndex, par: PageIndex, k: int, m: Node, mp: Node)
    requires Merging(s, x, y, par, k, m, mp)
    requires par in Merged(s, x, y, par, k, m, mp).ht
    ensures var s' := Merged(s, x, y, par, k, m, mp);
      At(s'.ord, par) == Flat(s'.ord, Kids(mp), Keys(mp))
  {
    hide Linked, Up, Down, Kids, Keys, Flat, Pre, Suf, JointKids, JointKeys;
    NeighbourFacts(s, x, y, par, k);
    var s' := Merged(s, x, y, par, k, m, mp);
    var c, t := Kids(s.pages[par]), Keys(s.pages[par]);
    var c', t' := Kids(mp), Keys(mp);
    FlatOf(s, par);
    Around2(s.ord, c, t, k);
    Around(s'.ord, c', t', k);
    assert c'[..k] == c[..k] && t'[..k] == t[..k] && c'[k + 1..] == c[k + 2..] && t'[k..] == t[k + 1..];
    forall i | 0 <= i < |c'| && i != k ensures At(s.ord, c'[i]) == At(s'.ord, c'[i]) {
      MergedParKid(s, x, y, par, k, m, mp, i);
    }
    PreSame(s.ord, s'.ord, c'[..k], t'[..k]);
    SufSame(s.ord, s'.ord, c'[k + 1..], t'[k..]);
    JointRead(s, x, y, par, k);
    assert c'[k] == x;
  }

  lemma MergedDownPar(s: State, x: PageIndex, y: PageIndex, par: PageIndex, k: int, m: Node, mp: Node)
    requires Merging(s, x, y, par, k, m, mp)
    ensures par in Merged(s, x, y, par, k, m, mp).ht && Down(Merged(s, x, y, par, k, m, mp), par)
  {
    hide Linked, Up, Kids, Keys, Flat, JointKids, JointKeys, KidOk, Read;
    NeighbourFacts(s, x, y, par, k);
    var s' := Merged(s, x, y, par, k, m, mp);
    MergedFlat(s, x, y, par, k, m, mp);
    forall i | 0 <= i <= Size(mp) ensures KidOk(s', par, i) { MergedParKid(s, x, y, par, k, m, mp, i); }
  }

  lemma MergedUp(s: State, x: PageIndex, y: PageIndex, par: PageIndex, k: int, m: Node, mp: Node, q: PageIndex)
    requires Merging(s, x, y, par, k, m, mp) && q in s.pages && q != y && !Hangs(s, {x, y, par}, q)
    ensures q in Merged(s, x, y, par, k, m, mp).ht && Up(Merged(s, x, y, par, k, m, mp), q)
  {
    hide Linked, Down, Kids, Keys, Flat, JointKeys, Read;
    NeighbourFacts(s, x, y, par, k);
    RootParent(s);
    UpOf(s, q);
    if q != s.root {
      if s.pages[q].parent == par { MergedUpPar(s, x, y, par, k, m, mp, q); }
      else { MergedUpKid(s, x, y, par, k, m, mp, q); }
    }
  }

  lemma MergedUpPar(s: State, x: PageIndex, y: PageIndex, par: PageIndex, k: int, m: Node, mp: Node, q: PageIndex)
    requires Merging(s, x, y, par, k, m, mp) && q in s.pages && q != y && q != s.root && s.pages[q].parent == par
    ensures q in Merged(s, x, y, par, k, m, mp).ht && Up(Merged(s, x, y, par, k, m, mp), q)
  {
    hide Linked, Down, Kids, Keys, Flat, JointKeys, JointKids, Read;
    NeighbourFacts(s, x, y, par, k);
    Climb(s, q);
    var j := Place(s, q);
    assert j != k + 1;
    assert Kids(mp)[if j <= k then j else j - 1] == q;
  }

  lemma MergedUpKid(s: State, x: PageIndex, y: PageIndex, par: PageIndex, k: int, m: Node, mp: Node, q: PageIndex)
    requires Merging(s, x, y, par, k, m, mp)
    requires q in s.pages && q != s.root && (s.pages[q].parent == x || s.pages[q].parent == y)
    ensures q in Merged(s, x, y, par, k, m, mp).ht && Up(Merged(s, x, y, par, k, m, mp), q)
  {
    hide Linked, Down, Kids, Keys, Flat, JointKeys, Read;
    NeighbourFacts(s, x, y, par, k);
    Climb(s, q);
    var i := if s.pages[q].parent == x then s.pages[q].ppos - s.pages[x].l
             else Size(s.pages[x]) + 1 + s.pages[q].ppos - s.pages[y].l;
    assert JointKids(s, x, y)[i] == q;
    JointKid(s, x, y, par, k, i);
    assert Kids(Merged(s, x, y, par, k, m, mp).pages[x]) == Kids(m) by {
      SameArrays(Merged(s, x, y, par, k, m, mp).pages[x], m);
    }
  }

  lemma MergedLinked(s: State, x: PageIndex, y: PageIndex, par: PageIndex, k: int, m: Node, mp: Node)
    requires Merging(s, x, y, par, k, m, mp)
    ensures Linked(Merged(s, x, y, par, k, m, mp))
    ensures Whole(Merged(s, x, y, par, k, m, mp)) == Whole(s)
  {
    hide Down, Up, Kids, Keys, Flat, JointKeys, JointKids, Read, Untouched;
    var s' := Merged(s, x, y, par, k, m, mp);
    NeighbourFacts(s, x, y, par, k);
    MergedUntouched(s, x, y, par, k, m, mp);
    MergedDownX(s, x, y, par, k, m, mp);
    MergedDownPar(s, x, y, par, k, m, mp);
    forall q | q in s'.pages && !Hangs(s, {x, y, par}, q) ensures Up(s', q) {
      MergedUp(s, x, y, par, k, m, mp, q);
    }
    Elsewhere(s, s', {x, y, par});
  }

  // ----- The last child of an empty root becomes the root -----

  ghost function Collapsed(s: State, x: PageIndex): State
    requires x in s.pages
  {
    State(s.pages[x := s.pages[x].(parent := 0, ppos := 0)] - {s.root}, x, s.ord - {s.root}, s.ht - {s.root})
  }

  lemma CollapsedLinked(s: State, x: PageIndex)
    requires Linked(s) && s.ht[s.root] > 0 && Size(s.pages[s.root]) == 0 && x in s.pages && s.pages[x].parent == s.root
    ensures Linked(Collapsed(s, x)) && Whole(Collapsed(s, x)) == Whole(s)
  {
    hide Down, Up, Kids, Keys, Flat;
    var s' := Collapsed(s, x);
    CollapsedOnly(s, x);
    forall q | q in s'.pages ensures Down(s', q) { CollapsedDown(s, x, q); }
    forall q | q in s'.pages ensures Up(s', q) { CollapsedUp(s, x, q); }
  }

  /** x is the only child, and everything else lies below it. */
  lemma CollapsedOnly(s: State, x: PageIndex)
    requires Linked(s) && s.ht[s.root] > 0 && Size(s.pages[s.root]) == 0 && x in s.pages && s.pages[x].parent == s.root
    ensures x != s.root && s.ht[x] + 1 == s.ht[s.root] && At(s.ord, x) == Whole(s)
    ensures forall q | q in s.pages && q != s.root :: s.ht[q] <= s.ht[x] && (s.pages[q].parent == s.root ==> q == x)
  {
    hide Down, Up, Linked, Flat;
    DomainsOf(s);
    RootParent(s);
    Climb(s, x);
    ShapeOf(s, s.root);
    FlatOf(s, s.root);
    assert Flat(s.ord, [x], []) == At(s.ord, x) by { Around(s.ord, [x], [], 0); }
    assert Kids(s.pages[s.root]) == [x] && Keys(s.pages[s.root]) == [];
    forall q | q in s.pages && q != s.root
      ensures s.ht[q] <= s.ht[x] && (s.pages[q].parent == s.root ==> q == x)
    {
      Climb(s, q);
    }
  }

  lemma CollapsedDown(s: State, x: PageIndex, q: PageIndex)
    requires Linked(s) && s.ht[s.root] > 0 && Size(s.pages[s.root]) == 0 && x in s.pages && s.pages[x].parent == s.root
    requires q in s.pages && q != s.root
    ensures Down(Collapsed(s, x), q)
  {
    hide Linked, Up, Keys, Kids, Flat;
    DomainsOf(s);
    CollapsedOnly(s, x);
    DownOf(s, q);
    var s' := Collapsed(s, x);
    SameArrays(s.pages[q], s'.pages[q]);
    if s.ht[q] > 0 {
      forall i | 0 <= i <= Size(s.pages[q]) ensures KidOk(s', q, i) { KidOf(s, q, i); }
      RereadKids(s, q, s'.ord, Kids(s.pages[q]), Keys(s.pages[q]));
      assert At(s'.ord, q) == At(s.ord, q) && s'.pages[q].l == s.pages[q].l;
    }
  }

  lemma CollapsedUp(s: State, x: PageIndex, q: PageIndex)
    requires Linked(s) && s.ht[s.root] > 0 && Size(s.pages[s.root]) == 0 && x in s.pages && s.pages[x].parent == s.root
    requires q in s.pages && q != s.root
    ensures Up(Collapsed(s, x), q)
  {
    hide Linked, Down, Keys, Flat;
    DomainsOf(s);
    CollapsedOnly(s, x);
    UpOf(s, q);
  }
}
