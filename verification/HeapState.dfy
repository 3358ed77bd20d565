/** The data pages: blocks that tile them, and the lists of free blocks. */
module HeapState {
  import opened Places
  import opened Octets
  import opened IndexPage

  const HEADER := 12            // sizeof(data_hdr); a frag_hdr takes 16
  const PAGEMAXSPARE := 4076
  const FRAGMIN := 8
  const PAGEMINSPARE := 20
  const CLASSES := 511          // PAGEUSED / FRAGMIN

  /** A block header and what follows it. In a free block, link and prev are its neighbours in its list;
      in a slice of a record, link is the next slice. */
  datatype Block = Block(next: nat, size: nat, firstSlice: bool, link: Pos, prev: Pos, bytes: Octets)

  type Blocks = map<Pos, Block>

  /** The blocks, the heads of the lists; which blocks are on a list, and since when. */
  datatype Heap = Heap(blocks: Blocks, frag: seq<Pos>, listed: set<Pos>, rank: map<Pos, nat>, clock: nat)

  // ----- tiles -----

  function NextPos(b: Blocks, a: Pos): Pos
    requires a in b
  {
    Pos(a.page, b[a].next)
  }

  function Capacity(b: Blocks, a: Pos): int
    requires a in b
  {
    b[a].next - a.off - HEADER
  }

  /** The block lies in the page, aligned, with room for the header of a free block, and something follows it. */
  ghost predicate Tile(b: Blocks, a: Pos)
    requires a in b
  {
    && a.page != 0 && a.off % 16 == 0 && a.off + 16 <= b[a].next <= PAGEUSED
    && Pos(a.page, 0) in b
    && (b[a].next == PAGEUSED || NextPos(b, a) in b)
  }

  ghost predicate Before(b: Blocks, a: Pos, c: Pos)
    requires a in b
  {
    a.page == c.page && a.off < c.off ==> b[a].next <= c.off
  }

  ghost predicate Tiled(b: Blocks)
  {
    && (forall a | a in b :: Tile(b, a))
    && (forall a, c {:trigger Before(b, a, c)} | a in b && c in b :: Before(b, a, c))
  }

  /** Every byte of a data page belongs to exactly one block. */
  lemma {:induction false} TilesOnce(b: Blocks, p: PageIndex, o: nat) returns (a: Pos)
    requires Tiled(b) && Pos(p, 0) in b && o < PAGEUSED
    ensures a in b && a.page == p && a.off <= o < b[a].next
    ensures forall c | c in b && c.page == p && c.off <= o < b[c].next :: c == a
  {
    a := Pos(p, 0);
    while b[a].next <= o
      invariant a in b && a.page == p && a.off <= o
      decreases PAGEUSED - a.off
    {
      assert Tile(b, a);
      a := NextPos(b, a);
    }
    forall c | c in b && c.page == p && c.off <= o < b[c].next ensures c == a {
      assert Before(b, a, c) && Before(b, c, a);
    }
  }

  /** An aligned block has a capacity of 4, 20, 36, ... bytes, or 12, 28, ... at the end of the page. */
  lemma CapacityAtLeast(b: Blocks, a: Pos)
    requires Tiled(b) && a in b
    ensures 4 <= Capacity(b, a) <= PAGEMAXSPARE
    ensures Capacity(b, a) < FRAGMIN <==> b[a].next == a.off + 16
    ensures Capacity(b, a) == PAGEMAXSPARE <==> a.off == 0 && b[a].next == PAGEUSED
  {
    assert Tile(b, a);
    if b[a].next != PAGEUSED {
      assert Tile(b, NextPos(b, a));
    }
  }

  // ----- changes to the tiles -----

  /** The block a is cut at an aligned offset inside it. */
  function Cut(b: Blocks, a: Pos, at: nat, rest: Block): Blocks
    requires a in b
  {
    b[a := b[a].(next := at)][Pos(a.page, at) := rest]
  }

  lemma CutTiles(b: Blocks, a: Pos, at: nat, rest: Block)
    requires Tiled(b) && a in b && at % 16 == 0 && a.off + 16 <= at && at + 16 <= b[a].next && rest.next == b[a].next
    ensures Tiled(Cut(b, a, at, rest)) && Pos(a.page, at) !in b
  {
    var b', n := Cut(b, a, at, rest), Pos(a.page, at);
    assert Tile(b, a);
    forall c | c in b ensures c != n {
      assert Before(b, a, c);
    }
    forall c | c in b' ensures Tile(b', c) {
      assert c in b ==> Tile(b, c);
    }
    forall c, d | c in b' && d in b' ensures Before(b', c, d) {
      if c in b && d in b {
        assert Before(b, c, d);
      } else if c in b {
        assert Before(b, c, a) && Before(b, a, c);
      } else if d in b {
        assert Before(b, a, d);
      }
    }
  }

  /** The block after a becomes part of a. */
  function Merged(b: Blocks, a: Pos): Blocks
    requires a in b && NextPos(b, a) in b
  {
    b[a := b[a].(next := b[NextPos(b, a)].next)] - {NextPos(b, a)}
  }

  /** No two blocks end at the same place. */
  lemma NextOnce(b: Blocks, a: Pos, c: Pos)
    requires Tiled(b) && a in b && c in b && NextPos(b, c) == NextPos(b, a) && NextPos(b, a) in b
    ensures a == c
  {
    assert Tile(b, a) && Tile(b, c);
    assert Before(b, a, c) && Before(b, c, a);
  }

  lemma MergedTiles(b: Blocks, a: Pos)
    requires Tiled(b) && a in b && NextPos(b, a) in b
    ensures Tiled(Merged(b, a))
    ensures Merged(b, a).Keys == b.Keys - {NextPos(b, a)} && NextPos(b, a) != a
  {
    var b', n := Merged(b, a), NextPos(b, a);
    assert Tile(b, a) && Tile(b, n);
    forall c | c in b' ensures Tile(b', c) {
      assert Tile(b, c);
      if NextPos(b, c) == n {
        NextOnce(b, a, c);
      }
    }
    forall c, d | c in b' && d in b' ensures Before(b', c, d) {
      assert Before(b, c, d) && Before(b, n, d);
    }
  }

  lemma NewTiles(b: Blocks, p: PageIndex, only: Block)
    requires Tiled(b) && p != 0 && only.next == PAGEUSED && forall a | a in b :: a.page != p
    ensures Tiled(b[Pos(p, 0) := only])
  {
    var b' := b[Pos(p, 0) := only];
    forall c | c in b' ensures Tile(b', c) {
      assert c in b ==> Tile(b, c);
    }
    forall c, d | c in b' && d in b' ensures Before(b', c, d) {
      if c in b && d in b {
        assert Before(b, c, d);
      }
    }
  }

  /** A page that is a single block can go. */
  lemma DropTiles(b: Blocks, a: Pos)
    requires Tiled(b) && a in b && a.off == 0 && b[a].next == PAGEUSED
    ensures Tiled(b - {a}) && forall c | c in b && c.page == a.page :: c == a
  {
    var b' := b - {a};
    forall c | c in b && c.page == a.page ensures c == a {
      assert Tile(b, c) && Before(b, a, c);
    }
    forall c | c in b' ensures Tile(b', c) {
      assert Tile(b, c);
    }
    forall c, d | c in b' && d in b' ensures Before(b', c, d) {
      assert Before(b, c, d);
    }
  }

  /** Tiles depend on where blocks end, not on what is in them. */
  lemma SameTiles(b: Blocks, b': Blocks)
    requires Tiled(b) && b'.Keys == b.Keys && forall a | a in b :: b'[a].next == b[a].next
    ensures Tiled(b')
  {
    forall c | c in b' ensures Tile(b', c) {
      assert Tile(b, c);
    }
    forall c, d | c in b' && d in b' ensures Before(b', c, d) {
      assert Before(b, c, d);
    }
  }
}
