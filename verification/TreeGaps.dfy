/** Each gap between the keys belongs to one place of one leaf; and what that says of next_key. */
module TreeGaps {
  import opened Places
  import opened IndexPage
  import opened TreeState
  import opened TreeSteps
  import opened TreeSlots
  import opened TreeSizes
  import opened TreeOrder

  /** The reading of q ends before the reading of p starts, with a slot between them. */
  ghost predicate Precedes(s: State, q: PageIndex, p: PageIndex)
    requires Linked(s) && q in s.pages && p in s.pages
  {
    |Before(s, q)| + |At(s.ord, q)| < |Before(s, p)|
  }

  lemma {:induction false} PreGrows(ord: Reading, c: seq<PageIndex>, k: seq<Slot>, a: int, b: int)
    requires |c| >= |k| && 0 <= a < b <= |k|
    ensures |Pre(ord, c[..a], k[..a])| + |At(ord, c[a])| < |Pre(ord, c[..b], k[..b])|
    decreases b
  {
    PreNext(ord, c, k, b - 1);
    if a < b - 1 { PreGrows(ord, c, k, a, b - 1); }
  }

  /** Of two pages of one parent the one further left precedes the other. */
  lemma SiblingsApart(s: State, q: PageIndex, p: PageIndex)
    requires Linked(s) && q in s.pages && p in s.pages && q != s.root && p != s.root
      && s.pages[q].parent == s.pages[p].parent
    requires s.pages[q].ppos < s.pages[p].ppos
    ensures Precedes(s, q, p)
  {
    hide Linked, Pre, At, Up, Down;
    Climb(s, q);
    Climb(s, p);
    var n := s.pages[s.pages[p].parent];
    PreGrows(s.ord, Kids(n), Keys(n), Place(s, q), Place(s, p));
  }

  /** What precedes the parent precedes the page, and the other way round. */
  lemma ParentSpan(s: State, q: PageIndex)
    requires Linked(s) && q in s.pages && q != s.root
    ensures HasPlace(s, q) && var p := s.pages[q].parent;
      |Before(s, p)| <= |Before(s, q)| && |Before(s, q)| + |At(s.ord, q)| <= |Before(s, p)| + |At(s.ord, p)|
  {
    hide Linked, LeftOf, RightOf, At;
    Climb(s, q);
    InParent(s, q);
  }

  /** Two pages of one height are apart. */
  lemma {:induction false} PagesApart(s: State, q: PageIndex, p: PageIndex)
    requires Linked(s) && q in s.pages && p in s.pages && q != p && s.ht[q] == s.ht[p]
    ensures Precedes(s, q, p) || Precedes(s, p, q)
    decreases s.ht[s.root] - s.ht[q]
  {
    hide Linked, Up, Down, Before, At, Kids;
    DomainsOf(s);
    if q == s.root { Climb(s, p); } else if p == s.root { Climb(s, q); } else {
      Climb(s, q);
      Climb(s, p);
      if s.pages[q].parent == s.pages[p].parent {
        if s.pages[q].ppos < s.pages[p].ppos { SiblingsApart(s, q, p); } else { SiblingsApart(s, p, q); }
      } else {
        PagesApart(s, s.pages[q].parent, s.pages[p].parent);
        ParentSpan(s, q);
        ParentSpan(s, p);
      }
    }
  }

  lemma BelowAt(w: seq<Slot>, key: Key, g: int, i: int)
    requires FirstFrom(w, key, g) && 0 <= i < g
    ensures w[i].key < key
  {
    assert w[..g][i] == w[i];
  }

  lemma FirstFromOnce(w: seq<Slot>, key: Key, g: int, h: int)
    requires FirstFrom(w, key, g) && FirstFrom(w, key, h)
    ensures g == h
  {
    if g < h { BelowAt(w, key, h, g); } else if h < g { BelowAt(w, key, g, h); }
  }

  /** The tree and the key determine the leaf and the place where the search for a missing key ends. */
  lemma BelongsOnce(s: State, key: Key, p: PageIndex, k: int, q: PageIndex, j: int)
    requires BelongsAt(s, p, k, key) && BelongsAt(s, q, j, key)
    ensures p == q && k == j
  {
    hide Linked, Up, Down, Before, At, After, AllBelow, AllAbove, FirstFrom;
    MissFirst(s, p, k, key);
    MissFirst(s, q, j, key);
    FirstFromOnce(Whole(s), key, |Before(s, p)| + k, |Before(s, q)| + j);
    DownOf(s, p);
    DownOf(s, q);
    if p != q { PagesApart(s, p, q); }
  }

  /** A missing key belongs in front of a slot of its leaf, not behind the last one. */
  ghost predicate InFront(s: State, key: Key) {
    exists p, k :: BelongsAt(s, p, k, key) && k < Size(s.pages[p])
  }

  lemma InFrontIs(s: State, p: PageIndex, k: int, key: Key)
    requires BelongsAt(s, p, k, key)
    ensures InFront(s, key) <==> k < Size(s.pages[p])
  {
    if InFront(s, key) {
      var q, j :| BelongsAt(s, q, j, key) && j < Size(s.pages[q]);
      BelongsOnce(s, key, p, k, q, j);
    }
  }

  // ----- the next key -----

  /** The answer is the slot with the smallest key above the given one, and there is none if no key is above it. */
  ghost predicate NextAbove(w: seq<Slot>, key: Key, found: bool, t: Slot) {
    if found then t in w && key < t.key && forall u | u in w && key < u.key :: t.key <= u.key
    else forall u | u in w :: u.key <= key
  }

  /** The slot at place m is the right answer exactly if no larger key comes before it. */
  lemma NextAboveAt(w: seq<Slot>, key: Key, g: int, m: int, found: bool, t: Slot)
    requires Sorted(w) && FirstFrom(w, key, g) && g <= m
    requires m == g || m == g + 1
    requires m == g ==> g < |w| ==> w[g].key != key
    requires found <==> m < |w|
    requires found ==> t == w[m]
    requires m == g + 1 ==> g < |w|
    ensures NextAbove(w, key, found, t) <==> m == g || w[g].key == key
  {
    forall i | 0 <= i < g ensures w[i].key < key { BelowAt(w, key, g, i); }
    if m == g + 1 { assert w[g] in w; }
  }

  // ----- small trees -----

  /** A page below the root reads as many keys as a page has to hold, or more. */
  lemma {:induction false} LargeBelow(s: State, q: PageIndex)
    requires Tidy(s, 0) && q in s.pages && q != s.root
    ensures |At(s.ord, q)| >= INDEXMINR
    decreases s.ht[q]
  {
    hide Linked, Up, Kids, At, LeftOf, RightOf;
    DomainsOf(s);
    DownOf(s, q);
    assert Sized(s, q);
    if s.ht[q] > 0 {
      KidOf(s, q, 0);
      var c := Kids(s.pages[q])[0];
      RootParent(s);
      LargeBelow(s, c);
      InParent(s, c);
    }
  }

  /** A tree of few keys is one leaf. */
  lemma OneLeaf(s: State)
    requires Tidy(s, 0) && |Whole(s)| < INDEXMINR
    ensures s.root in s.pages && s.root in s.ht && s.ht[s.root] == 0 && Shape(s.pages[s.root])
      && Keys(s.pages[s.root]) == Whole(s)
  {
    hide Linked, Up, Kids, At, LeftOf, RightOf;
    DomainsOf(s);
    ShapeOf(s, s.root);
    DownOf(s, s.root);
    if s.ht[s.root] > 0 {
      KidOf(s, s.root, 0);
      var c := Kids(s.pages[s.root])[0];
      RootParent(s);
      LargeBelow(s, c);
      InParent(s, c);
    }
  }

  lemma ThreeKeys(w: seq<Slot>)
    requires Sorted(w) && |w| > 2
    ensures w[0].key < w[1].key < w[2].key
  {
  }

  lemma OnlyTwo(w: seq<Slot>, a: Slot, b: Slot)
    requires Sorted(w) && a.key < b.key && a in w && b in w && forall x | 0 <= x < |w| :: w[x] == a || w[x] == b
    ensures w == [a, b]
  {
    if |w| > 2 { ThreeKeys(w); }
  }

  /** A sorted reading is what its entries say. */
  lemma TwoEntries(w: seq<Slot>, a: Slot, b: Slot)
    requires Sorted(w) && a.key < b.key && Entries(w) == map[a.key := a.record, b.key := b.record]
    ensures w == [a, b]
  {
    hide Sorted;
    forall x | 0 <= x < |w| ensures w[x] == a || w[x] == b { EntryAt(w, x); }
    assert a.key in Entries(w) && b.key in Entries(w);
    OnlyTwo(w, a, b);
  }

  /** Of two keys in one leaf, a key between them belongs in front of the second. */
  lemma BetweenTwo(s: State, a: Slot, b: Slot, key: Key)
    requires Tidy(s, 0) && Whole(s) == [a, b] && a.key < key < b.key
    ensures InFront(s, key)
  {
    hide Linked, Up, Down;
    OneLeaf(s);
    var p := s.root;
    assert [a, b][..1] == [a] && [a, b][1..] == [b];
    assert BelongsAt(s, p, 1, key);
  }

  lemma TwoFrom(a: Slot, b: Slot, key: Key, g: int)
    requires a.key < key < b.key && FirstFrom([a, b], key, g)
    ensures g == 1
  {
    assert [a, b][..1] == [a];
    FirstFromOnce([a, b], key, g, 1);
  }

  // ----- how the search ended -----

  /** The key is in slot k of p. */
  lemma HitAt(s: State, p: PageIndex, k: int, i: int, key: Key)
    requires IsNth(s, p, k, i) && Sorted(Whole(s)) && Keys(s.pages[p])[k].key == key
    ensures FirstFrom(Whole(s), key, i) && 0 <= i < |Whole(s)| && Whole(s)[i].key == key && key in Entries(Whole(s))
  {
    hide Linked, LeftPart, RightPart, Keys, Whole, Sorted, IsNth, FirstFrom;
    HitFirst(s, p, k, i, key);
    NthSlot(s, p, k, i);
    EntryAt(Whole(s), i);
  }

  /** The key is missing, and belongs at place k of leaf p. */
  lemma MissAt(s: State, p: PageIndex, k: int, g: int, key: Key)
    requires BelongsAt(s, p, k, key) && Sorted(Whole(s)) && g == |Before(s, p)| + k
    ensures FirstFrom(Whole(s), key, g) && key !in Entries(Whole(s)) && (g < |Whole(s)| ==> Whole(s)[g].key != key)
    ensures p in s.pages && (InFront(s, key) <==> k < Size(s.pages[p])) && 0 <= g
  {
    hide Linked, Before, Keys, Whole, Sorted, FirstFrom, InFront, After;
    MissFirst(s, p, k, key);
    Absent(s, p, k, key);
    AbsentAt(s, g, key);
    InFrontIs(s, p, k, key);
  }

  /** In an empty table no key is in front of a slot. */
  lemma NoneInFront(s: State, key: Key)
    requires Tidy(s, 0) && Whole(s) == [] && s.root in s.pages && Size(s.pages[s.root]) == 0
    ensures !InFront(s, key) && Entries([]) == map[] && FirstFrom([], key, 0)
      && NextAbove([], key, false, Slot(0.0, NONE))
  {
    hide Linked, Up;
    OneLeaf(s);
    assert BelongsAt(s, s.root, 0, key);
    InFrontIs(s, s.root, 0, key);
  }
}
