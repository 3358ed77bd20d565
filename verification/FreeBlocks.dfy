/** The free blocks of the heap: which of them each step takes, cuts off and joins, and how small they can be. */
module FreeBlocks {
  import opened Places
  import opened Octets
  import opened IndexPage
  import opened HeapState
  import opened FreeLists
  import opened HeapSteps

  type Frees = map<Pos, nat>

  /** The free blocks, with the offsets where they end. */
  function Free(b: Blocks): Frees {
    map c | c in b && b[c].size == 0 :: b[c].next
  }

  /** The offsets of blocks are multiples of 16. */
  function RoundUp(x: nat): (r: nat)
    ensures r % 16 == 0 && x <= r <= x + 15
  {
    (x + 15) / 16 * 16
  }

  // ----- which block is allocated -----

  /** The first list, from the class of the request on, that is not empty; CLASSES if there is none. */
  function FirstFit(frag: seq<Pos>, i: nat): (j: nat)
    requires |frag| == CLASSES
    ensures i < CLASSES ==> i <= j <= CLASSES
    ensures j < CLASSES ==> frag[j].page != 0
    ensures forall k | i <= k < j && k < CLASSES :: frag[k].page == 0
    decreases CLASSES - i
  {
    if i >= CLASSES then CLASSES else if frag[i].page != 0 then i else FirstFit(frag, i + 1)
  }

  /** The list an allocation takes its block from. */
  function ListFor(frag: seq<Pos>, size: nat): nat
    requires |frag| == CLASSES
  {
    if size < PAGEMAXSPARE then FirstFit(frag, (size + FRAGMIN - 1) / FRAGMIN) else CLASSES
  }

  // ----- what a request leaves -----

  /** The block has room for the request and for another block behind it. */
  predicate Roomy(a: Pos, end: nat, size: nat) {
    end - a.off - HEADER >= PAGEMINSPARE + size + HEADER
  }

  /** Where the part that is cut off starts. */
  function RestOf(a: Pos, size: nat): Pos {
    Pos(a.page, RoundUp(a.off + HEADER + size))
  }

  /** The free blocks when block a, which ends at `end` and is not among them, is cut to the request. */
  function Trimmed(f: Frees, a: Pos, end: nat, size: nat): Frees {
    if Roomy(a, end, size) then f[RestOf(a, size) := end] else f
  }

  /** No block in use, outside the hole, has room behind its bytes for another block. */
  ghost predicate Snug(b: Blocks, hole: set<Pos>) {
    forall a | a in b && b[a].size != 0 && a !in hole :: !Roomy(a, b[a].next, b[a].size)
  }

  lemma SnugMore(b: Blocks, b': Blocks, a: Pos)
    requires a in b' && b'[a].size != 0 && Live(b') == Live(b)[a := b'[a]]
    ensures Snug(b, {}) ==> Snug(b', {a})
    ensures Snug(b, {a}) && !Roomy(a, b'[a].next, b'[a].size) ==> Snug(b', {})
    ensures Snug(b, {}) && !Roomy(a, b'[a].next, b'[a].size) ==> Snug(b', {})
  {
    forall c | c in b' && b'[c].size != 0 && c != a ensures c in b && b[c] == b'[c] {
      assert c in Live(b');
      assert Live(b')[c] == b'[c];
    }
  }

  /** Snug or not depends on where a block ends and how much of it is used. */
  lemma SnugKept(b: Blocks, b': Blocks, a: Pos)
    requires a in b && a in b' && b'[a].size != 0 && Live(b') == Live(b)[a := b'[a]]
    requires b[a].size == b'[a].size && b[a].next == b'[a].next
    ensures Snug(b, {}) ==> Snug(b', {})
  {
    SnugMore(b, b', a);
  }

  lemma FullIsSnug(b: Blocks, a: Pos)
    requires a in b && b[a].size == Capacity(b, a)
    ensures !Roomy(a, b[a].next, b[a].size)
  {
  }

  lemma SnugLess(b: Blocks, b': Blocks, a: Pos)
    requires Live(b') == Live(b) - {a}
    ensures Snug(b, {}) ==> Snug(b', {})
  {
    forall c | c in b' && b'[c].size != 0 ensures c in b && b[c] == b'[c] {
      assert c in Live(b');
      assert Live(b')[c] == b'[c];
    }
  }

  lemma CutIsSnug(a: Pos, end: nat, size: nat)
    ensures !Roomy(a, if Roomy(a, end, size) then RestOf(a, size).off else end, size)
    ensures size >= PAGEMAXSPARE && end <= PAGEUSED ==> !Roomy(a, end, PAGEMAXSPARE)
  {
  }

  // ----- what giving up a block leaves -----

  /** A free block ends where a begins. */
  ghost predicate FreeBefore(b: Blocks, a: Pos) {
    exists p :: p in b && b[p].size == 0 && NextPos(b, p) == a
  }

  predicate FreeAfter(b: Blocks, a: Pos)
    requires a in b
  {
    NextPos(b, a) in b && b[NextPos(b, a)].size == 0
  }

  ghost function StartOf(b: Blocks, a: Pos): (s: Pos)
    ensures if FreeBefore(b, a) then s in b && b[s].size == 0 && NextPos(b, s) == a else s == a
  {
    if FreeBefore(b, a) then var p :| p in b && b[p].size == 0 && NextPos(b, p) == a; p else a
  }

  function EndOf(b: Blocks, a: Pos): nat
    requires a in b
  {
    if FreeAfter(b, a) then b[NextPos(b, a)].next else b[a].next
  }

  /** Block a and its free neighbours become one free block, or, if they fill the page, none. */
  ghost function GivenUp(b: Blocks, a: Pos): Frees
    requires a in b
  {
    var s, e, f := StartOf(b, a), EndOf(b, a), Free(b) - {NextPos(b, a)};
    if e - s.off - HEADER == PAGEMAXSPARE then f - {s} else f[s := e]
  }

  lemma StartIs(b: Blocks, a: Pos, p: Pos)
    requires Tiled(b) && a in b && p in b && b[p].size == 0 && NextPos(b, p) == a
    ensures StartOf(b, a) == p
  {
    assert FreeBefore(b, a);
    NextOnce(b, p, StartOf(b, a));
  }

  // ----- how small a free block can be -----

  /** The free blocks with less than FRAGMIN bytes. */
  function Small(f: Frees): set<Pos> {
    set c | c in f && f[c] - c.off - HEADER < FRAGMIN
  }

  /** What an allocation cuts off is never small. */
  lemma TrimmedKeepsSmall(b: Blocks, a: Pos, end: nat, size: nat)
    requires a.off % 16 == 0 && (end % 16 == 0 || end == PAGEUSED)
    ensures Small(Trimmed(Free(b), a, end, size)) <= Small(Free(b))
  {
  }

  /**
   * Giving up a block makes a free block of less than FRAGMIN bytes exactly when the block has room for 4 bytes and
   * none of its neighbours is free; it is that block, and no other becomes small.
   */
  lemma SmallExactly(h: Heap, a: Pos)
    requires Good(h, {}) && a in h.blocks && h.blocks[a].size != 0
    ensures Small(GivenUp(h.blocks, a)) - Small(Free(h.blocks)) ==
      if Capacity(h.blocks, a) == 4 && !FreeBefore(h.blocks, a) && !FreeAfter(h.blocks, a) then {a} else {}
  {
    hide Lists, Before;
    var b := h.blocks;
    var s, n := StartOf(b, a), NextPos(b, a);
    CapacityAtLeast(b, a);
    if FreeBefore(b, a) { CapacityAtLeast(b, s); }
    if FreeAfter(b, a) { CapacityAtLeast(b, n); assert Tile(b, n); }
    assert Tile(b, a);
  }

  /** A small block is on the first list, where no allocation looks. */
  lemma SmallNeverTaken(h: Heap, a: Pos, size: nat)
    requires Good(h, {}) && a in Small(Free(h.blocks)) && size > 0
    ensures |h.frag| == CLASSES && (ListFor(h.frag, size) < CLASSES ==> h.frag[ListFor(h.frag, size)] != a)
  {
    var i := ListFor(h.frag, size);
    if i < CLASSES { assert IsHead(h, i); }
  }

  // ----- what single changes do to the free blocks -----

  lemma FreeSame(b: Blocks, b': Blocks)
    requires b'.Keys == b.Keys && forall c | c in b :: b'[c].next == b[c].next && (b'[c].size == 0 <==> b[c].size == 0)
    ensures Free(b') == Free(b)
  {
  }

  lemma FreeCut(b: Blocks, a: Pos, at: nat)
    requires a in b && b[a].size != 0 && Pos(a.page, at) != a
    ensures Free(Cut(b, a, at, Rest(b[a].next))) == Free(b)[Pos(a.page, at) := b[a].next]
  {
  }

  lemma FreeMerged(b: Blocks, a: Pos)
    requires a in b && NextPos(b, a) in b && NextPos(b, a) != a
    ensures Free(Merged(b, a)) == if b[a].size != 0 then Free(b) - {NextPos(b, a)}
      else (Free(b) - {NextPos(b, a)})[a := b[NextPos(b, a)].next]
  {
  }

  lemma FreeEmptied(h: Heap, a: Pos)
    requires a in h.blocks
    ensures Free(Emptied(h, a).blocks) == Free(h.blocks)[a := h.blocks[a].next]
  {
  }

  lemma FreePage(h: Heap, p: PageIndex)
    ensures Free(WithPage(h, p).blocks) == Free(h.blocks)[Pos(p, 0) := PAGEUSED]
  {
  }

  // ----- heaps with few free blocks -----

  lemma HeadIsFree(h: Heap, i: nat)
    requires Good(h, {}) && i < CLASSES
    ensures |h.frag| == CLASSES
    ensures h.frag[i].page != 0 ==> h.frag[i] in Free(h.blocks) && Class(h.blocks, h.frag[i]) == i
  {
    assert IsHead(h, i);
    if h.frag[i].page != 0 { ListedIn(h, h.frag[i]); }
  }

  /** Without a free block an allocation takes a new page. */
  lemma NoneFits(h: Heap, size: nat)
    requires Good(h, {}) && Free(h.blocks) == map[]
    ensures |h.frag| == CLASSES && ListFor(h.frag, size) == CLASSES
  {
    hide Lists, Free;
    HeadIsFree(h, 0);
    var i := ListFor(h.frag, size);
    if i < CLASSES { HeadIsFree(h, i); }
  }

  /** If there is just one free block, and it is large enough, an allocation takes that. */
  lemma OneFits(h: Heap, c: Pos, end: nat, size: nat)
    requires Good(h, {}) && Free(h.blocks) == map[c := end] && 0 < size < PAGEMAXSPARE
    requires (end - c.off - HEADER) / FRAGMIN >= (size + FRAGMIN - 1) / FRAGMIN
    ensures |h.frag| == CLASSES && ListFor(h.frag, size) < CLASSES && h.frag[ListFor(h.frag, size)] == c
  {
    hide Lists, From;
    assert c in Free(h.blocks) && c in h.blocks && h.blocks[c].next == end;
    CapacityAtLeast(h.blocks, c);
    var k := Class(h.blocks, c);
    HeadIsFree(h, k);
    OnlyHead(h, c, k);
    var i := ListFor(h.frag, size);
    if i < CLASSES { HeadIsFree(h, i); }
  }

  lemma OnlyHead(h: Heap, c: Pos, k: nat)
    requires Good(h, {}) && c in h.blocks && h.blocks[c].size == 0 && k < CLASSES && Class(h.blocks, c) == k
    ensures |h.frag| == CLASSES && h.frag[k].page != 0
  {
    FreeIsOnItsList(h, c, k);
    assert IsHead(h, k);
  }
}
