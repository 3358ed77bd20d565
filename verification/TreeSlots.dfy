/** Where a slot sits in the whole reading, and what entering and leaving a leaf does to it. */
module TreeSlots {
  import opened Places
  import opened IndexPage
  import opened TreeState
  import opened TreeSteps
  import opened TreeShare

  ghost predicate HasSlot(s: State, p: PageIndex, k: int) {
    Linked(s) && p in s.pages && p in s.ht && Shape(s.pages[p]) && 0 <= k < Size(s.pages[p])
  }

  /** What page p reads before its k-th slot. */
  ghost function HeadOf(s: State, p: PageIndex, k: int): seq<Slot>
    requires HasSlot(s, p, k)
  {
    var n := s.pages[p];
    if s.ht[p] == 0 then Keys(n)[..k] else Flat(s.ord, Kids(n)[..k + 1], Keys(n)[..k])
  }

  ghost function TailOf(s: State, p: PageIndex, k: int): seq<Slot>
    requires HasSlot(s, p, k)
  {
    var n := s.pages[p];
    if s.ht[p] == 0 then Keys(n)[k + 1..] else Flat(s.ord, Kids(n)[k + 1..], Keys(n)[k + 1..])
  }

  /** Everything in front of the k-th slot of p. */
  ghost function LeftPart(s: State, p: PageIndex, k: int): seq<Slot>
    requires HasSlot(s, p, k)
  {
    Before(s, p) + HeadOf(s, p, k)
  }

  /** Everything behind the k-th slot of p. */
  ghost function RightPart(s: State, p: PageIndex, k: int): seq<Slot>
    requires HasSlot(s, p, k)
  {
    TailOf(s, p, k) + After(s, p)
  }

  lemma SlotInPage(s: State, p: PageIndex, k: int)
    requires HasSlot(s, p, k)
    ensures At(s.ord, p) == HeadOf(s, p, k) + [Keys(s.pages[p])[k]] + TailOf(s, p, k)
  {
    hide Up, Linked, Flat, Kids, Keys;
    DownOf(s, p);
    var n := s.pages[p];
    if s.ht[p] > 0 { FlatSplit(s.ord, Kids(n), Keys(n), k); }
  }

  lemma SlotInWhole(s: State, p: PageIndex, k: int)
    requires HasSlot(s, p, k)
    ensures Whole(s) == LeftPart(s, p, k) + [Keys(s.pages[p])[k]] + RightPart(s, p, k)
  {
    hide Up, Down, Linked, Kids, Keys, HeadOf, TailOf, Before, After, Whole, At;
    InWhole(s, p);
    SlotInPage(s, p, k);
    Regroup5(Before(s, p), HeadOf(s, p, k), [Keys(s.pages[p])[k]], TailOf(s, p, k), After(s, p));
  }

  // ----- the place of a page does not depend on what it holds -----

  /** On the way from x to the root the siblings read the same. */
  ghost predicate SameSiblings(s: State, s': State, x: PageIndex)
    requires Linked(s) && x in s.pages
    decreases s.ht[s.root] - s.ht[x]
  {
    x == s.root ||
    (Climb(s, x);
     var par := s.pages[x].parent;
     && par in s'.pages && SameBody(s.pages[par], s'.pages[par])
     && (forall c | c in s.pages && s.pages[c].parent == par && c != x :: At(s.ord, c) == At(s'.ord, c))
     && SameSiblings(s, s', par))
  }

  ghost predicate SameLinks(s: State, s': State) {
    && s.root == s'.root && s.pages.Keys == s'.pages.Keys && s.ht == s'.ht
    && forall q | q in s.pages :: SameLink(s.pages[q], s'.pages[q])
  }

  lemma {:induction false} PlaceKept(s: State, s': State, x: PageIndex)
    requires Linked(s) && Linked(s') && x in s.pages && SameLinks(s, s') && SameSiblings(s, s', x)
    ensures Before(s, x) == Before(s', x) && After(s, x) == After(s', x)
    decreases s.ht[s.root] - s.ht[x]
  {
    hide Linked, LeftOf, RightOf;
    if x != s.root {
      Climb(s, x);
      Climb(s', x);
      var par := s.pages[x].parent;
      PlaceKept(s, s', par);
      SiblingsRead(s, s', x);
    }
  }

  lemma SiblingsRead(s: State, s': State, x: PageIndex)
    requires Linked(s) && Linked(s') && x in s.pages && x != s.root && SameLinks(s, s') && SameSiblings(s, s', x)
    ensures HasPlace(s, x) && HasPlace(s', x)
    ensures LeftOf(s, x) == LeftOf(s', x) && RightOf(s, x) == RightOf(s', x)
  {
    hide Linked, Pre, Suf;
    Climb(s, x);
    Climb(s', x);
    var par := s.pages[x].parent;
    SameArrays(s.pages[par], s'.pages[par]);
    RereadAround(s, par, s.ord, s'.ord, Place(s, x));
  }

  /** A lift from q leaves the siblings on the way up alone. */
  lemma {:induction false} LiftSiblings(s: State, q: PageIndex, t: seq<Slot>, s': State)
    requires Linked(s) && q in s.pages && s'.pages.Keys == s.pages.Keys
    requires forall x | x in s.pages && s.ht[x] >= s.ht[q] :: At(s'.ord, x) == At(Lift(s, q, t), x)
    requires forall x | x in s.pages && s.ht[x] > s.ht[q] :: SameBody(s.pages[x], s'.pages[x])
    ensures SameSiblings(s, s', q)
    decreases s.ht[s.root] - s.ht[q]
  {
    hide Linked, LeftOf, RightOf;
    if q != s.root {
      DomainsOf(s);
      Climb(s, q);
      var par := s.pages[q].parent;
      LiftBelow(s, q, t);
      forall c | c in s.pages && s.pages[c].parent == par && c != q ensures At(s.ord, c) == At(s'.ord, c) {
        ParentHeight(s, c);
      }
      LiftSiblings(s, par, LeftOf(s, q) + t + RightOf(s, q), s');
    }
  }

  lemma RewrittenPlace(s: State, p: PageIndex, m: Node)
    requires Linked(s) && p in s.pages && Rewrites(s, p, m)
    ensures Linked(Rewritten(s, p, m))
    ensures Before(Rewritten(s, p, m), p) == Before(s, p) && After(Rewritten(s, p, m), p) == After(s, p)
  {
    hide Linked, Down, Up, Kids, Keys, Read, Lift, SameSiblings, Before, After;
    var s' := Rewritten(s, p, m);
    RewrittenLinked(s, p, m);
    DomainsOf(s);
    LiftSiblings(s, p, Read(s, p, m), s');
    PlaceKept(s, s', p);
  }

  // ----- the slot in front of a slot of an internal page -----

  /** What follows the page at child k of p. */
  lemma AfterChild(s: State, p: PageIndex, k: int)
    requires HasSlot(s, p, k) && s.ht[p] > 0
    ensures var c := Kids(s.pages[p])[k];
      c in s.pages && After(s, c) == [Keys(s.pages[p])[k]] + RightPart(s, p, k)
  {
    hide Linked, Up, Down, Flat, Kids, Keys, Suf;
    KidOf(s, p, k);
    var n := s.pages[p];
    var c := Kids(n)[k];
    ParentHeight(s, c);
    assert RightOf(s, c) == Suf(s.ord, Kids(n)[k + 1..], Keys(n)[k..]);
    SufNext(s.ord, Kids(n), Keys(n), k);
    FlatFirst(s.ord, Kids(n)[k + 1..], Keys(n)[k + 1..]);
    assert Kids(n)[k + 1..][1..] == Kids(n)[k + 2..];
    assert Kids(n)[k + 1..][0] == Kids(n)[k + 1];
    assert RightOf(s, c) == [Keys(n)[k]] + TailOf(s, p, k) by {
      Regroup3([Keys(n)[k]], At(s.ord, Kids(n)[k + 1]), Suf(s.ord, Kids(n)[k + 2..], Keys(n)[k + 1..]));
    }
    Regroup3([Keys(n)[k]], TailOf(s, p, k), After(s, p));
  }

  lemma Regroup3<T>(a: seq<T>, b: seq<T>, c: seq<T>)
    ensures a + b + c == a + (b + c)
  {
  }

  /** The last child of a page ends where the page ends. */
  lemma AfterLast(s: State, p: PageIndex)
    requires Linked(s) && p in s.pages && p in s.ht && Shape(s.pages[p]) && s.ht[p] > 0
    ensures var c := Kids(s.pages[p])[Size(s.pages[p])];
      c in s.pages && c in s.ht && s.ht[c] + 1 == s.ht[p] && After(s, c) == After(s, p)
  {
    hide Linked, Up, Down, Flat, Kids, Keys;
    var n := s.pages[p];
    KidOf(s, p, Size(n));
    var c := Kids(n)[Size(n)];
    ParentHeight(s, c);
    assert RightOf(s, c) == [];
  }

  /** The first child of a page starts where the page starts. */
  lemma BeforeFirst(s: State, p: PageIndex)
    requires Linked(s) && p in s.pages && p in s.ht && Shape(s.pages[p]) && s.ht[p] > 0
    ensures var c := Kids(s.pages[p])[0];
      c in s.pages && c in s.ht && s.ht[c] + 1 == s.ht[p] && Before(s, c) == Before(s, p)
  {
    hide Linked, Up, Down, Flat, Kids, Keys;
    var n := s.pages[p];
    KidOf(s, p, 0);
    var c := Kids(n)[0];
    ParentHeight(s, c);
    assert LeftOf(s, c) == [];
  }

  /** What precedes the page at child k + 1 of p. */
  lemma BeforeChild(s: State, p: PageIndex, k: int)
    requires HasSlot(s, p, k) && s.ht[p] > 0
    ensures var c := Kids(s.pages[p])[k + 1];
      c in s.pages && c in s.ht && s.ht[c] + 1 == s.ht[p]
      && Before(s, c) == LeftPart(s, p, k) + [Keys(s.pages[p])[k]]
  {
    hide Linked, Up, Down, Kids, Keys, Pre;
    KidOf(s, p, k + 1);
    var n := s.pages[p];
    var c := Kids(n)[k + 1];
    ParentHeight(s, c);
    assert LeftOf(s, c) == Pre(s.ord, Kids(n)[..k + 1], Keys(n)[..k + 1]);
    PreNext(s.ord, Kids(n), Keys(n), k);
    assert Kids(n)[..k + 1][..k] == Kids(n)[..k];
    assert HeadOf(s, p, k) == Pre(s.ord, Kids(n)[..k], Keys(n)[..k]) + At(s.ord, Kids(n)[k]);
    Regroup3(Pre(s.ord, Kids(n)[..k], Keys(n)[..k]), At(s.ord, Kids(n)[k]), [Keys(n)[k]]);
    Regroup3(Before(s, p), HeadOf(s, p, k), [Keys(n)[k]]);
  }

  // ----- the right spine below a child -----

  /** q is reached from c by taking last children. */
  ghost predicate RightSpine(s: State, c: PageIndex, q: PageIndex)
    requires Linked(s) && q in s.pages
    decreases s.ht[s.root] - s.ht[q]
  {
    q == c || (q != s.root &&
      (Climb(s, q);
       s.pages[q].ppos == s.pages[s.pages[q].parent].r && RightSpine(s, c, s.pages[q].parent)))
  }

  lemma {:induction false} SpineAfter(s: State, c: PageIndex, q: PageIndex)
    requires Linked(s) && q in s.pages && c in s.pages && RightSpine(s, c, q)
    ensures After(s, q) == After(s, c)
    decreases s.ht[s.root] - s.ht[q]
  {
    hide Linked;
    if q != c {
      Climb(s, q);
      assert RightOf(s, q) == [];
      SpineAfter(s, c, s.pages[q].parent);
    }
  }

  lemma {:induction false} SpineKept(s: State, s': State, c: PageIndex, q: PageIndex)
    requires Linked(s) && Linked(s') && q in s.pages && RightSpine(s, c, q) && SameLinks(s, s')
    requires forall x | x in s.pages :: s.pages[x].r == s'.pages[x].r
    ensures RightSpine(s', c, q)
    decreases s.ht[s.root] - s.ht[q]
  {
    hide Linked;
    if q != c {
      Climb(s, q);
      Climb(s', q);
      SpineKept(s, s', c, s.pages[q].parent);
    }
  }

  lemma SpineNext(s: State, c: PageIndex, q: PageIndex)
    requires Linked(s) && q in s.pages && q in s.ht && Shape(s.pages[q]) && s.ht[q] > 0 && RightSpine(s, c, q)
    ensures var d := Kids(s.pages[q])[Size(s.pages[q])];
      d in s.pages && d in s.ht && s.ht[d] + 1 == s.ht[q] && RightSpine(s, c, d)
  {
    hide Linked, Kids;
    KidOf(s, q, Size(s.pages[q]));
    ParentHeight(s, Kids(s.pages[q])[Size(s.pages[q])]);
  }

  // ----- putting the slot in front into the place of slot k of p -----

  /** Slot k of p is overwritten by t. */
  ghost function Overwritten(s: State, p: PageIndex, k: int, t: Slot): State
    requires Linked(s) && p in s.pages && Shape(s.pages[p]) && 0 <= k < Size(s.pages[p])
  {
    var n := s.pages[p];
    Rewritten(s, p, n.(key := n.key[n.l + k := t]))
  }

  lemma OverwrittenParts(s: State, p: PageIndex, k: int, t: Slot)
    requires HasSlot(s, p, k) && s.ht[p] > 0
    ensures var s' := Overwritten(s, p, k, t);
      && HasSlot(s', p, k) && s'.ht == s.ht && Keys(s'.pages[p])[k] == t
      && LeftPart(s', p, k) == LeftPart(s, p, k) && RightPart(s', p, k) == RightPart(s, p, k)
      && SameLinks(s, s')
  {
    hide Linked, Up, Down, Flat, Read, Lift, Before, After, Kids, Keys;
    var n := s.pages[p];
    var m := n.(key := n.key[n.l + k := t]);
    KeyReplaced(n, k, t);
    RewrittenPlace(s, p, m);
    RewrittenLinked(s, p, m);
    DomainsOf(s);
    LiftBelow(s, p, Read(s, p, m));
    var o := Lift(s, p, Read(s, p, m));
    forall i | 0 <= i < |Kids(n)| ensures At(s.ord, Kids(n)[i]) == At(o, Kids(n)[i]) { KidOf(s, p, i); }
    FlatSame(s.ord, o, Kids(n)[..k + 1], Keys(n)[..k]);
    FlatSame(s.ord, o, Kids(n)[k + 1..], Keys(n)[k + 1..]);
  }

  lemma KeyReplaced(n: Node, k: int, t: Slot)
    requires Shape(n) && 0 <= k < Size(n)
    ensures var m := n.(key := n.key[n.l + k := t]);
      && Shape(m) && Keys(m) == Keys(n)[k := t] && Kids(m) == Kids(n) && SameLink(n, m)
      && Keys(m)[..k] == Keys(n)[..k] && Keys(m)[k + 1..] == Keys(n)[k + 1..]
  {
    assert Keys(n.(key := n.key[n.l + k := t])) == Keys(n)[k := t];
  }

  /** Dropping the last slot of the spine leaf then drops the overwritten slot's old content. */
  lemma OverwrittenWhole(s: State, p: PageIndex, k: int, q: PageIndex)
    requires HasSlot(s, p, k) && s.ht[p] > 0
    requires q in s.pages && q in s.ht && s.ht[q] == 0 && Shape(s.pages[q]) && Size(s.pages[q]) > 0
    requires RightSpine(s, Kids(s.pages[p])[k], q)
    requires Keys(s.pages[p])[k] == Keys(s.pages[q])[Size(s.pages[q]) - 1]
    ensures var last := Size(s.pages[q]) - 1;
      Before(s, q) + (Keys(s.pages[q])[..last] + Keys(s.pages[q])[last + 1..]) + After(s, q)
      == LeftPart(s, p, k) + RightPart(s, p, k)
  {
    hide Linked, Up, Flat, Kids, Before, After, LeftPart, RightPart, RightSpine;
    var kq, t, last := Keys(s.pages[q]), Keys(s.pages[p])[k], Size(s.pages[q]) - 1;
    AfterChild(s, p, k);
    SpineAfter(s, Kids(s.pages[p])[k], q);
    InWhole(s, q);
    SlotInWhole(s, p, k);
    DownOf(s, q);
    SpineCancel(Before(s, q), kq, t, RightPart(s, p, k), LeftPart(s, p, k));
  }

  lemma SpineCancel<T>(b: seq<T>, kq: seq<T>, t: T, r: seq<T>, l: seq<T>)
    requires |kq| > 0 && kq[|kq| - 1] == t
    requires b + kq + ([t] + r) == l + [t] + r
    ensures b + (kq[..|kq| - 1] + kq[|kq| - 1 + 1..]) + ([t] + r) == l + r
  {
    assert |b + kq| == |l|;
    assert b + kq == (b + kq + ([t] + r))[..|l|] == (l + [t] + r)[..|l|] == l;
    assert kq == kq[..|kq| - 1] + [t];
  }
}
