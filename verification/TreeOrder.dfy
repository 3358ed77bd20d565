/** The order of the keys: what the search, the scan and a change of one slot mean for the whole reading. */
module TreeOrder {
  import opened Places
  import opened IndexPage
  import opened TreeState
  import opened TreeSteps
  import opened TreeSlots
  import opened TreeEdits
  import opened TreeSizes

  ghost predicate Sorted(w: seq<Slot>) {
    forall i, j | 0 <= i < j < |w| :: w[i].key < w[j].key
  }

  ghost predicate AllBelow(w: seq<Slot>, key: Key) {
    forall i | 0 <= i < |w| :: w[i].key < key
  }

  ghost predicate AllAbove(key: Key, w: seq<Slot>) {
    forall i | 0 <= i < |w| :: key < w[i].key
  }

  /** A sorted reading as a finite map. */
  ghost function Entries(w: seq<Slot>): map<Key, Pos>
    requires Sorted(w)
  {
    map i | 0 <= i < |w| :: w[i].key := w[i].record
  }

  lemma EntryAt(w: seq<Slot>, i: int)
    requires Sorted(w) && 0 <= i < |w|
    ensures w[i].key in Entries(w) && Entries(w)[w[i].key] == w[i].record
  {
  }

  lemma SortedInsert(a: seq<Slot>, t: Slot, b: seq<Slot>)
    requires Sorted(a + b) && AllBelow(a, t.key) && AllAbove(t.key, b)
    ensures Sorted(a + [t] + b)
  {
    var w, v := a + b, a + [t] + b;
    forall i, j | 0 <= i < j < |v| ensures v[i].key < v[j].key {
      if i != |a| && j != |a| {
        assert v[i] == w[if i < |a| then i else i - 1] && v[j] == w[if j < |a| then j else j - 1];
      }
    }
  }

  /** A slot in front of larger and behind smaller keys adds one entry. */
  lemma EntriesInsert(a: seq<Slot>, t: Slot, b: seq<Slot>)
    requires Sorted(a + b) && AllBelow(a, t.key) && AllAbove(t.key, b)
    ensures Sorted(a + [t] + b) && t.key !in Entries(a + b)
    ensures Entries(a + [t] + b) == Entries(a + b)[t.key := t.record]
  {
    hide Sorted;
    var w, v := a + b, a + [t] + b;
    SortedInsert(a, t, b);
    NotBetween(a, b, t.key);
    EntryAt(v, |a|);
    forall k | k in Entries(w) ensures k in Entries(v) && Entries(v)[k] == Entries(w)[k] {
      EntryKept(a, t, b, k);
    }
    forall k | k in Entries(v) && k != t.key ensures k in Entries(w) {
      EntryOld(a, t, b, k);
    }
  }

  lemma EntryKept(a: seq<Slot>, t: Slot, b: seq<Slot>, k: Key)
    requires Sorted(a + b) && Sorted(a + [t] + b) && k in Entries(a + b)
    ensures k in Entries(a + [t] + b) && Entries(a + [t] + b)[k] == Entries(a + b)[k]
  {
    hide Sorted;
    var i :| 0 <= i < |a + b| && (a + b)[i].key == k;
    EntryAt(a + b, i);
    EntryAt(a + [t] + b, if i < |a| then i else i + 1);
  }

  lemma EntryOld(a: seq<Slot>, t: Slot, b: seq<Slot>, k: Key)
    requires Sorted(a + b) && Sorted(a + [t] + b) && k in Entries(a + [t] + b) && k != t.key
    ensures k in Entries(a + b)
  {
    hide Sorted;
    var i :| 0 <= i < |a + [t] + b| && (a + [t] + b)[i].key == k;
    EntryAt(a + b, if i < |a| then i else i - 1);
  }

  /** Taking a slot out removes one entry. */
  lemma EntriesRemove(a: seq<Slot>, t: Slot, b: seq<Slot>)
    requires Sorted(a + [t] + b)
    ensures Sorted(a + b) && t.key in Entries(a + [t] + b)
    ensures Entries(a + b) == Entries(a + [t] + b) - {t.key}
  {
    Around3(a, t, b);
    EntriesInsert(a, t, b);
  }

  lemma Around3(a: seq<Slot>, t: Slot, b: seq<Slot>)
    requires Sorted(a + [t] + b)
    ensures Sorted(a + b) && AllBelow(a, t.key) && AllAbove(t.key, b)
  {
    var v := a + [t] + b;
    forall i | 0 <= i < |a| ensures a[i].key < t.key { assert v[i] == a[i] && v[|a|] == t; }
    forall i | 0 <= i < |b| ensures t.key < b[i].key { assert v[|a| + 1 + i] == b[i] && v[|a|] == t; }
    forall i, j | 0 <= i < j < |a + b| ensures (a + b)[i].key < (a + b)[j].key {
      assert v[if i < |a| then i else i + 1] == (a + b)[i];
      assert v[if j < |a| then j else j + 1] == (a + b)[j];
    }
  }

  /** Changing the record of a slot changes one entry. */
  lemma EntriesReplace(a: seq<Slot>, t: Slot, u: Slot, b: seq<Slot>)
    requires Sorted(a + [t] + b) && u.key == t.key
    ensures Sorted(a + [u] + b)
    ensures Entries(a + [u] + b) == Entries(a + [t] + b)[t.key := u.record]
  {
    EntriesRemove(a, t, b);
    Around3(a, t, b);
    EntriesInsert(a, u, b);
  }

  lemma NotBetween(a: seq<Slot>, b: seq<Slot>, key: Key)
    requires Sorted(a + b) && AllBelow(a, key) && AllAbove(key, b)
    ensures key !in Entries(a + b)
  {
    var w := a + b;
    forall i | 0 <= i < |w| ensures w[i].key != key {
      assert w[i] == if i < |a| then a[i] else b[i - |a|];
    }
  }

  // ----- bounds on the way down -----

  /** The key, if present, is in the subtree of p. */
  ghost predicate Between(s: State, p: PageIndex, key: Key)
    requires Linked(s) && p in s.pages
  {
    AllBelow(Before(s, p), key) && AllAbove(key, After(s, p))
  }

  lemma RootBetween(s: State, key: Key)
    requires Linked(s)
    ensures s.root in s.pages && Between(s, s.root, key)
  {
  }

  lemma PageSorted(s: State, p: PageIndex)
    requires Linked(s) && p in s.pages && Shape(s.pages[p]) && Sorted(Whole(s))
    ensures Sorted(Keys(s.pages[p]))
  {
    hide Linked, Up, Down, LeftPart, RightPart;
    var n := s.pages[p];
    DomainsOf(s);
    forall i, j | 0 <= i < j < Size(n) ensures Keys(n)[i].key < Keys(n)[j].key {
      SlotInWhole(s, p, i);
      SlotOrder(s, p, i, j);
    }
  }

  /** A later slot of the page is part of what follows an earlier one. */
  lemma SlotOrder(s: State, p: PageIndex, i: int, j: int)
    requires HasSlot(s, p, i) && i < j < Size(s.pages[p]) && Sorted(Whole(s))
    ensures Keys(s.pages[p])[i].key < Keys(s.pages[p])[j].key
  {
    hide Linked, Up, Down, LeftPart, RightPart, HeadOf;
    SlotInWhole(s, p, i);
    SlotInWhole(s, p, j);
    HeadGrows(s, p, i, j);
    var w := Whole(s);
    assert w[|LeftPart(s, p, i)|] == Keys(s.pages[p])[i];
    assert w[|LeftPart(s, p, j)|] == Keys(s.pages[p])[j];
  }

  lemma {:induction false} HeadGrows(s: State, p: PageIndex, i: int, j: int)
    requires HasSlot(s, p, i) && i < j < Size(s.pages[p])
    ensures |LeftPart(s, p, i)| < |LeftPart(s, p, j)|
    decreases j - i
  {
    hide Linked, Up, Down, Before, HeadOf, Shape, Pre;
    if i + 1 < j {
      HeadGrows(s, p, i, j - 1);
    }
    HeadNext(s, p, j - 1);
  }

  lemma HeadNext(s: State, p: PageIndex, i: int)
    requires HasSlot(s, p, i) && i + 1 < Size(s.pages[p])
    ensures |HeadOf(s, p, i)| < |HeadOf(s, p, i + 1)|
  {
    hide Linked, Up, Down, Pre;
    var n := s.pages[p];
    if s.ht[p] > 0 {
      PreNext(s.ord, Kids(n), Keys(n), i);
      assert Kids(n)[..i + 1][..i] == Kids(n)[..i] && Keys(n)[..i][..i] == Keys(n)[..i];
      assert Kids(n)[..i + 2][..i + 1] == Kids(n)[..i + 1] && Keys(n)[..i + 1][..i + 1] == Keys(n)[..i + 1];
    }
  }

  /** Everything behind a slot is larger, everything in front is smaller. */
  lemma SlotBounds(s: State, p: PageIndex, k: int)
    requires HasSlot(s, p, k) && Sorted(Whole(s))
    ensures var key := Keys(s.pages[p])[k].key;
      AllBelow(LeftPart(s, p, k), key) && AllAbove(key, RightPart(s, p, k))
  {
    hide Linked, Up, Down, LeftPart, RightPart, Keys;
    SlotInWhole(s, p, k);
    Around3(LeftPart(s, p, k), Keys(s.pages[p])[k], RightPart(s, p, k));
  }

  /** Child k, whose left separator is below and whose right separator is above the key, still has it between. */
  lemma BetweenChild(s: State, p: PageIndex, k: int, key: Key)
    requires Linked(s) && p in s.pages && p in s.ht && s.ht[p] > 0 && Shape(s.pages[p]) && 0 <= k <= Size(s.pages[p])
    requires Sorted(Whole(s)) && Between(s, p, key)
    requires k > 0 ==> Keys(s.pages[p])[k - 1].key < key
    requires k < Size(s.pages[p]) ==> key < Keys(s.pages[p])[k].key
    ensures Kids(s.pages[p])[k] in s.pages && Between(s, Kids(s.pages[p])[k], key)
  {
    hide Linked, Up, Down, LeftPart, RightPart, Keys, Kids, Before, After;
    if k == 0 { BeforeFirst(s, p); } else { BeforeChild(s, p, k - 1); SlotBounds(s, p, k - 1); }
    if k == Size(s.pages[p]) { AfterLast(s, p); } else { AfterChild(s, p, k); SlotBounds(s, p, k); }
  }

  /** The key belongs at place k of leaf p. */
  ghost predicate BelongsAt(s: State, p: PageIndex, k: int, key: Key) {
    && Linked(s) && p in s.pages && p in s.ht && s.ht[p] == 0 && Shape(s.pages[p]) && 0 <= k <= Size(s.pages[p])
    && AllBelow(Before(s, p) + Keys(s.pages[p])[..k], key)
    && AllAbove(key, Keys(s.pages[p])[k..] + After(s, p))
  }

  lemma LeafBelongs(s: State, p: PageIndex, k: int, key: Key)
    requires Linked(s) && p in s.pages && p in s.ht && s.ht[p] == 0 && Shape(s.pages[p]) && 0 <= k <= Size(s.pages[p])
    requires Between(s, p, key)
    requires AllBelow(Keys(s.pages[p])[..k], key) && AllAbove(key, Keys(s.pages[p])[k..])
    ensures BelongsAt(s, p, k, key)
  {
    hide Linked;
  }

  /** The whole around a place of a leaf. */
  lemma LeafWhole(s: State, p: PageIndex, k: int)
    requires Linked(s) && p in s.pages && p in s.ht && s.ht[p] == 0 && Shape(s.pages[p]) && 0 <= k <= Size(s.pages[p])
    ensures Whole(s) == (Before(s, p) + Keys(s.pages[p])[..k]) + (Keys(s.pages[p])[k..] + After(s, p))
  {
    hide Linked, Up, Before, After, Keys;
    InWhole(s, p);
    DownOf(s, p);
    var t := Keys(s.pages[p]);
    assert t == t[..k] + t[k..];
    Regroup4(Before(s, p), t[..k], t[k..], After(s, p));
  }

  // ----- the next slot -----

  /** Slot k of p is the i-th of the whole. */
  ghost predicate IsNth(s: State, p: PageIndex, k: int, i: int) {
    HasSlot(s, p, k) && |LeftPart(s, p, k)| == i
  }

  lemma NthSlot(s: State, p: PageIndex, k: int, i: int)
    requires IsNth(s, p, k, i)
    ensures 0 <= i < |Whole(s)| && Whole(s)[i] == Keys(s.pages[p])[k]
    ensures |RightPart(s, p, k)| == |Whole(s)| - i - 1
  {
    hide Linked, Up, Down, LeftPart, RightPart, Keys, Whole;
    SlotInWhole(s, p, k);
  }

  /** p starts at position i of the whole. */
  ghost predicate StartsAt(s: State, p: PageIndex, i: int) {
    Linked(s) && p in s.pages && p in s.ht && Shape(s.pages[p]) && |Before(s, p)| == i
  }

  lemma FirstStarts(s: State, p: PageIndex, i: int)
    requires StartsAt(s, p, i) && s.ht[p] > 0
    ensures var c := s.pages[p].child[s.pages[p].l]; c in s.pages && StartsAt(s, c, i) && s.ht[c] < s.ht[p]
  {
    hide Linked, Up, Down, Before, Kids;
    BeforeFirst(s, p);
    KidAt(s.pages[p], 0);
    DomainsOf(s);
    ShapeOf(s, s.pages[p].child[s.pages[p].l]);
  }

  lemma FirstOfLeaf(s: State, p: PageIndex, i: int)
    requires StartsAt(s, p, i) && s.ht[p] == 0 && Size(s.pages[p]) > 0
    ensures IsNth(s, p, 0, i)
  {
    hide Linked, Up, Down, Before;
  }

  lemma ChildStarts(s: State, p: PageIndex, k: int, i: int)
    requires IsNth(s, p, k, i) && s.ht[p] > 0
    ensures var c := s.pages[p].child[s.pages[p].l + k + 1]; StartsAt(s, c, i + 1) && s.ht[c] < s.ht[p]
  {
    hide Linked, Up, Down, Before, Kids, LeftPart;
    BeforeChild(s, p, k);
    KidAt(s.pages[p], k + 1);
    DomainsOf(s);
    ShapeOf(s, s.pages[p].child[s.pages[p].l + k + 1]);
  }

  lemma LeafNext(s: State, p: PageIndex, k: int, i: int)
    requires IsNth(s, p, k, i) && s.ht[p] == 0 && k + 1 < Size(s.pages[p])
    ensures IsNth(s, p, k + 1, i + 1)
  {
    hide Linked, Up, Down, Before;
  }

  /** The reading of p ends at position i of the whole. */
  ghost predicate EndsAt(s: State, p: PageIndex, i: int) {
    Linked(s) && p in s.pages && p in s.ht && Shape(s.pages[p]) && |Before(s, p)| + |At(s.ord, p)| == i
  }

  lemma LeafEnds(s: State, p: PageIndex, k: int, i: int)
    requires IsNth(s, p, k, i) && s.ht[p] == 0 && k + 1 == Size(s.pages[p])
    ensures EndsAt(s, p, i + 1)
  {
    hide Linked, Up, Before;
    DownOf(s, p);
  }

  lemma RootEnds(s: State, i: int)
    requires EndsAt(s, s.root, i)
    ensures i == |Whole(s)|
  {
  }

  /** From the end of a page to the slot behind it, or to the end of its parent. */
  lemma ClimbNext(s: State, p: PageIndex, i: int)
    requires EndsAt(s, p, i) && p != s.root
    ensures HasPlace(s, p) && s.pages[p].parent in s.ht && s.root in s.ht
    ensures s.ht[p] < s.ht[s.pages[p].parent] <= s.ht[s.root]
    ensures var q, k := s.pages[p].parent, Place(s, p);
      if s.pages[p].ppos < s.pages[q].r then IsNth(s, q, k, i) else EndsAt(s, q, i)
  {
    hide Linked, Up, Down, Keys;
    Climb(s, p);
    DomainsOf(s);
    InParent(s, p);
    var q, k := s.pages[p].parent, Place(s, p);
    if s.pages[p].ppos < s.pages[q].r {
      var n := s.pages[q];
      assert Kids(n)[..k + 1][..k] == Kids(n)[..k] && Keys(n)[..k][..k] == Keys(n)[..k];
      assert HeadOf(s, q, k) == LeftOf(s, p) + At(s.ord, p);
    } else {
      assert RightOf(s, p) == [];
    }
  }

  lemma KidAtAny(n: Node, i: int)
    requires Shape(n) && n.l <= i <= n.r
    ensures Kids(n)[i - n.l] == n.child[i]
  {
  }

  /** Rewriting the record of a slot in place. */
  lemma ReplacedWhole(s: State, p: PageIndex, k: int, t: Slot)
    requires HasSlot(s, p, k) && Tidy(s, 0)
    ensures Tidy(Overwritten(s, p, k, t), 0)
    ensures Whole(Overwritten(s, p, k, t)) == LeftPart(s, p, k) + [t] + RightPart(s, p, k)
  {
    hide Linked, Up, Down, Flat, Keys, Kids, LeftPart, RightPart;
    if s.ht[p] > 0 {
      OverwrittenTidy(s, p, k, t);
      OverwrittenParts(s, p, k, t);
      SlotInWhole(Overwritten(s, p, k, t), p, k);
    } else {
      ReplacedLeaf(s, p, k, t);
    }
  }

  lemma ReplacedLeaf(s: State, p: PageIndex, k: int, t: Slot)
    requires HasSlot(s, p, k) && Tidy(s, 0) && s.ht[p] == 0
    ensures Tidy(Overwritten(s, p, k, t), 0)
    ensures Whole(Overwritten(s, p, k, t)) == LeftPart(s, p, k) + [t] + RightPart(s, p, k)
  {
    hide Linked, Up, Down, Keys, Kids, Lift, Before, After;
    var n := s.pages[p];
    var m := n.(key := n.key[n.l + k := t]);
    KeyReplaced(n, k, t);
    LeafSize(s, p);
    LeafRewritten(s, p, m);
    var s' := Overwritten(s, p, k, t);
    assert s' == s.(pages := s.pages[p := m], ord := Lift(s, p, Keys(m)));
    assert Sized(s', p);
    assert Keys(m) == Keys(n)[..k] + [t] + Keys(n)[k + 1..];
    Regroup5(Before(s, p), Keys(n)[..k], [t], Keys(n)[k + 1..], After(s, p));
  }

  lemma ZeroFree(s: State)
    requires Linked(s)
    ensures 0 !in s.pages
  {
  }

  lemma EmptyRoot(s: State)
    requires Tidy(s, 0) && s.root in s.pages && Size(s.pages[s.root]) == 0
    ensures Whole(s) == []
  {
    hide Linked, Up;
    LeafSize(s, s.root);
    DownOf(s, s.root);
  }

  lemma Absent(s: State, p: PageIndex, k: int, key: Key)
    requires BelongsAt(s, p, k, key) && Sorted(Whole(s))
    ensures key !in Entries(Whole(s))
  {
    hide Linked, Before, After, Keys, Whole, Sorted;
    LeafWhole(s, p, k);
    NotBetween(Before(s, p) + Keys(s.pages[p])[..k], Keys(s.pages[p])[k..] + After(s, p), key);
  }

  lemma BetweenBySearch(s: State, p: PageIndex, k: int, key: Key)
    requires Linked(s) && p in s.pages && p in s.ht && s.ht[p] > 0 && Shape(s.pages[p]) && 0 <= k <= Size(s.pages[p])
    requires Sorted(Whole(s)) && Between(s, p, key)
    requires AllBelow(Keys(s.pages[p])[..k], key) && AllAbove(key, Keys(s.pages[p])[k..])
    ensures Kids(s.pages[p])[k] in s.pages && Between(s, Kids(s.pages[p])[k], key)
  {
    hide Linked, Between, Kids, Keys, Sorted;
    var t := Keys(s.pages[p]);
    if k > 0 { assert t[..k][k - 1] == t[k - 1]; }
    if k < |t| { assert t[k..][0] == t[k]; }
    BetweenChild(s, p, k, key);
  }

  lemma FirstEntry(t: Slot)
    ensures Sorted([]) && Entries([]) == map[]
    ensures Sorted([t]) && Entries([t]) == map[t.key := t.record]
  {
    EntryAt([t], 0);
  }

  // ----- where a search starts a scan -----

  /** The first key not below the given one is at place g of the whole. */
  ghost predicate FirstFrom(w: seq<Slot>, key: Key, g: int) {
    0 <= g <= |w| && AllBelow(w[..g], key) && forall i | g <= i < |w| :: key <= w[i].key
  }

  lemma HitFirst(s: State, p: PageIndex, k: int, i: int, key: Key)
    requires IsNth(s, p, k, i) && Sorted(Whole(s)) && Keys(s.pages[p])[k].key == key
    ensures FirstFrom(Whole(s), key, i)
  {
    hide Linked, LeftPart, RightPart, Keys, Whole;
    NthSlot(s, p, k, i);
  }

  lemma MissFirst(s: State, p: PageIndex, k: int, key: Key)
    requires BelongsAt(s, p, k, key)
    ensures FirstFrom(Whole(s), key, |Before(s, p)| + k)
  {
    hide Linked, Before, After, Keys, Whole;
    LeafWhole(s, p, k);
    var a, b := Before(s, p) + Keys(s.pages[p])[..k], Keys(s.pages[p])[k..] + After(s, p);
    var w := Whole(s);
    assert w[..|a|] == a;
    forall i | |a| <= i < |w| ensures key <= w[i].key { assert w[i] == b[i - |a|]; }
  }

  lemma LeafNth(s: State, p: PageIndex, k: int)
    requires Linked(s) && p in s.pages && p in s.ht && s.ht[p] == 0 && Shape(s.pages[p]) && 0 <= k < Size(s.pages[p])
    ensures IsNth(s, p, k, |Before(s, p)| + k)
  {
    hide Linked, Before;
  }

  lemma NthExists(s: State, p: PageIndex, k: int) returns (i: int)
    requires HasSlot(s, p, k)
    ensures IsNth(s, p, k, i)
  {
    i := |LeftPart(s, p, k)|;
  }

  lemma RootStarts(s: State)
    requires Tidy(s, 0)
    ensures StartsAt(s, s.root, 0)
  {
    hide Down, Up;
    DomainsOf(s);
    ShapeOf(s, s.root);
  }

  /** Only a root leaf can be empty. */
  lemma RootOnly(s: State, p: PageIndex, i: int)
    requires Tidy(s, 0) && StartsAt(s, p, i) && s.ht[p] == 0 && Size(s.pages[p]) == 0
    ensures p == s.root && i == 0 && |Whole(s)| == 0
  {
    hide Linked, Down, Up, Keys, Kids;
    LeafSize(s, p);
    EmptyRoot(s);
  }

  /** In a table that is not empty every leaf holds a slot. */
  lemma BelongsSize(s: State, p: PageIndex, k: int, key: Key)
    requires Tidy(s, 0) && BelongsAt(s, p, k, key) && s.root in s.pages && Size(s.pages[s.root]) > 0
    ensures Size(s.pages[p]) > 0
  {
    hide Linked, Down, Up, Keys, Kids, Before, After;
    LeafSize(s, p);
  }

  lemma WholeSome(s: State, p: PageIndex, k: int, hit: bool)
    requires Tidy(s, 0) && s.root in s.pages && Size(s.pages[s.root]) != 0
    requires if hit then HasSlot(s, p, k) else Linked(s) && p in s.pages && p in s.ht && s.ht[p] == 0
    ensures Whole(s) != []
  {
    hide Linked, Down, Up, Keys, Kids, Before, After, LeftPart, RightPart;
    if hit {
      SlotInWhole(s, p, k);
    } else {
      LeafSize(s, p);
      LeafSize(s, s.root);
      SlotInWhole(s, p, 0);
    }
  }

  lemma AbsentAt(s: State, g: int, key: Key)
    requires Sorted(Whole(s)) && key !in Entries(Whole(s))
    ensures 0 <= g < |Whole(s)| ==> Whole(s)[g].key != key
  {
    if 0 <= g < |Whole(s)| { EntryAt(Whole(s), g); }
  }

  lemma TailEnds(s: State, p: PageIndex, k: int)
    requires Linked(s) && p in s.pages && p in s.ht && s.ht[p] == 0 && Shape(s.pages[p]) && k == Size(s.pages[p])
    ensures EndsAt(s, p, |Before(s, p)| + k)
  {
    hide Linked, Up, Before;
    DownOf(s, p);
  }
}
