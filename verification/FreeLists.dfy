/** The segregated, doubly linked lists of free blocks. */
module FreeLists {
  import opened Places
  import opened Octets
  import opened IndexPage
  import opened HeapState

  predicate None(p: Pos)
  {
    p == NONE
  }

  function Class(b: Blocks, a: Pos): int
    requires a in b
  {
    Capacity(b, a) / FRAGMIN
  }

  /** The block before a on its list, or the head of the list, leads to a. */
  ghost predicate FromPrev(h: Heap, a: Pos)
    requires a in h.blocks && |h.frag| == CLASSES
  {
    var b := h.blocks;
    if None(b[a].prev) then
      0 <= Class(b, a) < CLASSES && h.frag[Class(b, a)] == a
    else
      var p := b[a].prev;
      && p in h.listed && p in b && b[p].link == a && Class(b, p) == Class(b, a)
      && p in h.rank && a in h.rank && h.rank[a] < h.rank[p]
  }

  ghost predicate ToNext(h: Heap, a: Pos)
    requires a in h.blocks
  {
    var b := h.blocks;
    None(b[a].link) ||
      var n := b[a].link;
      && n in h.listed && n in b && b[n].prev == a && Class(b, n) == Class(b, a)
      && n in h.rank && a in h.rank && h.rank[n] < h.rank[a]
  }

  ghost predicate OnList(h: Heap, a: Pos)
  {
    && |h.frag| == CLASSES
    && a in h.blocks && a.page != 0 && h.blocks[a].size == 0
    && 0 <= Class(h.blocks, a) < CLASSES
    && a in h.rank && h.rank[a] < h.clock
    && FromPrev(h, a) && ToNext(h, a)
  }

  ghost predicate IsHead(h: Heap, i: nat)
  {
    i < |h.frag| &&
    var a := h.frag[i];
    None(a) || (a in h.listed && a in h.blocks && None(h.blocks[a].prev) && Class(h.blocks, a) == i)
  }

  ghost predicate Lists(h: Heap)
  {
    && |h.frag| == CLASSES
    && (forall a {:trigger OnList(h, a)} | a in h.listed :: OnList(h, a))
    && (forall i {:trigger IsHead(h, i)} | 0 <= i < CLASSES :: IsHead(h, i))
  }

  // ----- the lists as sequences -----

  function RankOf(h: Heap, a: Pos): nat
  {
    if a in h.rank then h.rank[a] else 0
  }

  /** The blocks from a on. */
  ghost function From(h: Heap, a: Pos): seq<Pos>
    requires Lists(h) && (None(a) || a in h.listed)
    decreases if None(a) then 0 else 1 + RankOf(h, a)
  {
    if None(a) then [] else assert OnList(h, a); [a] + From(h, h.blocks[a].link)
  }

  lemma {:induction false} FromMembers(h: Heap, a: Pos)
    requires Lists(h) && a in h.listed
    ensures forall c | c in From(h, a) ::
              c in h.listed && c in h.blocks && c in h.rank && a in h.blocks && a in h.rank &&
              Class(h.blocks, c) == Class(h.blocks, a) && (c == a || h.rank[c] < h.rank[a])
    ensures forall j, k | 0 <= j < k < |From(h, a)| :: From(h, a)[j] != From(h, a)[k]
    decreases RankOf(h, a)
  {
    assert OnList(h, a);
    var n := h.blocks[a].link;
    if !None(n) {
      assert OnList(h, n);
      FromMembers(h, n);
    }
  }

  lemma {:induction false} FromClosed(h: Heap, a: Pos, p: Pos)
    requires Lists(h) && a in h.listed && p in From(h, a)
    ensures p in h.blocks && (None(h.blocks[p].link) || h.blocks[p].link in From(h, a))
    decreases RankOf(h, a)
  {
    assert OnList(h, a);
    var n := h.blocks[a].link;
    if p != a {
      assert OnList(h, n);
      FromClosed(h, n, p);
    } else if !None(n) {
      assert From(h, n)[0] == n;
    }
  }

  lemma {:induction false} FromHead(h: Heap, c: Pos)
    requires Lists(h) && c in h.listed
    ensures c in h.blocks && 0 <= Class(h.blocks, c) < CLASSES
    ensures h.frag[Class(h.blocks, c)] in h.listed && c in From(h, h.frag[Class(h.blocks, c)])
    decreases h.clock - RankOf(h, c)
  {
    assert OnList(h, c);
    var p := h.blocks[c].prev;
    var head := h.frag[Class(h.blocks, c)];
    if None(p) {
      assert From(h, head)[0] == c;
    } else {
      assert OnList(h, p);
      FromHead(h, p);
      FromClosed(h, head, p);
    }
  }

  /** Each free block is on the list of its class, once, and the list holds nothing else. */
  lemma OnItsList(h: Heap, i: nat)
    requires Lists(h) && i < CLASSES
    ensures None(h.frag[i]) || h.frag[i] in h.listed
    ensures forall a :: a in From(h, h.frag[i]) <==> a in h.listed && a in h.blocks && Class(h.blocks, a) == i
    ensures forall j, k | 0 <= j < k < |From(h, h.frag[i])| :: From(h, h.frag[i])[j] != From(h, h.frag[i])[k]
  {
    assert IsHead(h, i);
    if !None(h.frag[i]) {
      FromMembers(h, h.frag[i]);
    }
    forall a | a in h.listed && a in h.blocks && Class(h.blocks, a) == i ensures a in From(h, h.frag[i]) {
      FromHead(h, a);
    }
  }

  // ----- taking a block off its list -----

  function WithLink(b: Blocks, a: Pos, n: Pos): Blocks
    requires a in b
  {
    b[a := b[a].(link := n)]
  }

  function WithPrev(b: Blocks, a: Pos, p: Pos): Blocks
    requires a in b
  {
    b[a := b[a].(prev := p)]
  }

  /** clr_fragment */
  ghost function Cleared(h: Heap, a: Pos): Heap
    requires Lists(h) && a in h.listed
  {
    assert OnList(h, a);
    var b, p, n := h.blocks, h.blocks[a].prev, h.blocks[a].link;
    var b1 := if None(p) then b else WithLink(b, p, n);
    var b2 := if None(n) then b1 else WithPrev(b1, n, p);
    Heap(b2, if None(p) then h.frag[Class(b, a) := n] else h.frag,
         h.listed - {a}, h.rank, h.clock)
  }

  /** Only links change, and only of listed blocks. */
  ghost predicate Relinked(b: Blocks, b': Blocks, listed: set<Pos>)
  {
    && b'.Keys == b.Keys
    && (forall c {:trigger c in b} | c in b :: c !in listed ==> b'[c] == b[c])
    && (forall c {:trigger c in b} | c in b :: b'[c] == b[c].(link := b'[c].link, prev := b'[c].prev))
  }

  lemma ClearedLinks(h: Heap, a: Pos)
    requires Lists(h) && a in h.listed
    ensures Relinked(h.blocks, Cleared(h, a).blocks, h.listed - {a})
  {
    assert OnList(h, a);
    var p, n := h.blocks[a].prev, h.blocks[a].link;
    assert !None(p) ==> OnList(h, p) && p != a;
    assert !None(n) ==> OnList(h, n) && n != a && n != p;
  }

  lemma ClearedClass(h: Heap, a: Pos, c: Pos)
    requires Lists(h) && a in h.listed && c in h.blocks
    ensures c in Cleared(h, a).blocks && Class(Cleared(h, a).blocks, c) == Class(h.blocks, c)
  {
    hide Cleared, Lists;
    ClearedLinks(h, a);
  }

  lemma ClearedFrom(h: Heap, a: Pos, c: Pos)
    requires Lists(h) && a in h.listed && c in h.listed && c != a
    ensures |Cleared(h, a).frag| == CLASSES && c in Cleared(h, a).blocks && FromPrev(Cleared(h, a), c)
  {
    hide Class;
    assert OnList(h, a) && OnList(h, c);
    var p, n := h.blocks[a].prev, h.blocks[a].link;
    assert !None(p) ==> OnList(h, p);
    assert !None(n) ==> OnList(h, n);
    ClearedClass(h, a, c);
    if !None(p) { ClearedClass(h, a, p); }
    if !None(h.blocks[c].prev) { ClearedClass(h, a, h.blocks[c].prev); }
  }

  lemma ClearedTo(h: Heap, a: Pos, c: Pos)
    requires Lists(h) && a in h.listed && c in h.listed && c != a
    ensures c in Cleared(h, a).blocks && ToNext(Cleared(h, a), c)
  {
    hide Class;
    assert OnList(h, a) && OnList(h, c);
    var p, n := h.blocks[a].prev, h.blocks[a].link;
    assert !None(p) ==> OnList(h, p);
    assert !None(n) ==> OnList(h, n);
    ClearedClass(h, a, c);
    if !None(n) { ClearedClass(h, a, n); }
    if !None(h.blocks[c].link) { ClearedClass(h, a, h.blocks[c].link); }
  }

  lemma ClearedOn(h: Heap, a: Pos, c: Pos)
    requires Lists(h) && a in h.listed && c in h.listed && c != a
    ensures OnList(Cleared(h, a), c)
  {
    hide FromPrev, ToNext;
    assert OnList(h, a) && OnList(h, c);
    ClearedFrom(h, a, c);
    ClearedTo(h, a, c);
    ClearedLinks(h, a);
  }

  lemma ClearedHead(h: Heap, a: Pos, i: nat)
    requires Lists(h) && a in h.listed && i < CLASSES
    ensures IsHead(Cleared(h, a), i)
  {
    assert OnList(h, a) && IsHead(h, i);
    var p, n := h.blocks[a].prev, h.blocks[a].link;
    assert !None(p) ==> OnList(h, p);
    assert !None(n) ==> OnList(h, n);
  }

  lemma ClearedKeeps(h: Heap, a: Pos)
    requires Lists(h) && a in h.listed
    ensures Lists(Cleared(h, a)) && Relinked(h.blocks, Cleared(h, a).blocks, h.listed - {a})
  {
    hide OnList, IsHead;
    ClearedLinks(h, a);
    var h' := Cleared(h, a);
    forall c | c in h'.listed ensures OnList(h', c) {
      ClearedOn(h, a, c);
    }
    forall i | 0 <= i < CLASSES ensures IsHead(h', i) {
      ClearedHead(h, a, i);
    }
    ListedIn(h, a);
  }

  lemma ListedIn(h: Heap, a: Pos)
    requires Lists(h) && a in h.listed
    ensures a in h.blocks && a.page != 0 && h.blocks[a].size == 0 && 0 <= Class(h.blocks, a) < CLASSES
    ensures !None(h.blocks[a].prev) ==> h.blocks[a].prev in h.listed && h.blocks[a].prev in h.blocks
    ensures !None(h.blocks[a].link) ==> h.blocks[a].link in h.listed && h.blocks[a].link in h.blocks
  {
    assert OnList(h, a);
  }

  // ----- putting a block on its list -----

  /** set_fragment, for a block that is not a whole page */
  ghost function Pushed(h: Heap, a: Pos): Heap
    requires |h.frag| == CLASSES && a in h.blocks && 0 <= Class(h.blocks, a) < CLASSES
    requires forall i | 0 <= i < CLASSES :: IsHead(h, i)
  {
    var i := Class(h.blocks, a);
    var was := h.frag[i];
    assert IsHead(h, i);
    var b1 := if None(was) then h.blocks else WithPrev(h.blocks, was, a);
    Heap(b1[a := b1[a].(link := was, prev := NONE)], h.frag[i := a], h.listed + {a}, h.rank[a := h.clock], h.clock + 1)
  }

  lemma PushedOn(h: Heap, a: Pos, c: Pos)
    requires Lists(h) && a in h.blocks && a !in h.listed && a.page != 0 && h.blocks[a].size == 0
    requires 0 <= Class(h.blocks, a) < CLASSES && (c in h.listed || c == a)
    ensures OnList(Pushed(h, a), c)
  {
    var i := Class(h.blocks, a);
    assert IsHead(h, i);
    assert !None(h.frag[i]) ==> OnList(h, h.frag[i]);
    assert c != a ==> OnList(h, c);
  }

  lemma PushedHead(h: Heap, a: Pos, i: nat)
    requires Lists(h) && a in h.blocks && a !in h.listed && a.page != 0 && h.blocks[a].size == 0
    requires 0 <= Class(h.blocks, a) < CLASSES && i < CLASSES
    ensures IsHead(Pushed(h, a), i)
  {
    assert IsHead(h, i) && IsHead(h, Class(h.blocks, a));
  }

  lemma PushedKeeps(h: Heap, a: Pos)
    requires Lists(h) && a in h.blocks && a !in h.listed && a.page != 0 && h.blocks[a].size == 0
    requires 0 <= Class(h.blocks, a) < CLASSES
    ensures Lists(Pushed(h, a)) && Relinked(h.blocks, Pushed(h, a).blocks, h.listed + {a})
  {
    hide OnList;
    var h' := Pushed(h, a);
    assert IsHead(h, Class(h.blocks, a));
    hide IsHead;
    forall c | c in h'.listed ensures OnList(h', c) {
      PushedOn(h, a, c);
    }
    forall i | 0 <= i < CLASSES ensures IsHead(h', i) {
      PushedHead(h, a, i);
    }
  }

  // ----- the lists do not see the other blocks -----

  lemma ListsSame(h: Heap, h': Heap)
    requires Lists(h)
    requires h'.frag == h.frag && h'.listed == h.listed && h'.rank == h.rank && h'.clock == h.clock
    requires forall a | a in h.listed && a in h.blocks :: a in h'.blocks && h'.blocks[a] == h.blocks[a]
    ensures Lists(h')
  {
    forall c | c in h'.listed ensures OnList(h', c) {
      assert OnList(h, c);
      if !None(h.blocks[c].prev) {
        assert OnList(h, h.blocks[c].prev);
      }
      if !None(h.blocks[c].link) {
        assert OnList(h, h.blocks[c].link);
      }
    }
    forall i | 0 <= i < CLASSES ensures IsHead(h', i) {
      assert IsHead(h, i);
    }
  }
}
