/** The fixed-size allocator over lists of chunks. */
module ChunkAllocator {
  import opened FreeSlots

  datatype Chunk = Chunk(buf: Address, header: nat, freeCount: nat)

  // ----- lists of chunks -----

  ghost predicate Fits(c: Chunk, chain: map<Address, seq<nat>>)
  {
    c.buf in chain && c.header == Head(chain[c.buf]) && c.freeCount == |chain[c.buf]|
  }

  ghost predicate Ascending(list: seq<Chunk>)
  {
    forall j, k | 0 <= j < k < |list| :: list[j].buf < list[k].buf
  }

  predicate In(list: seq<Chunk>, b: Address)
  {
    exists k :: 0 <= k < |list| && list[k].buf == b
  }

  ghost predicate AllFit(list: seq<Chunk>, chain: map<Address, seq<nat>>, full: bool)
  {
    forall k | 0 <= k < |list| :: Fits(list[k], chain) && (list[k].freeCount == 0 <==> full)
  }

  /** All but the last in order, the last another one. */
  ghost predicate Placed(bl: seq<Chunk>)
  {
    bl != [] ==> Ascending(bl[..|bl| - 1]) && forall k | 0 <= k < |bl| - 1 :: bl[k].buf != bl[|bl| - 1].buf
  }

  /** The chunks with a free slot, and the chunks without. */
  ghost predicate Lists(bl: seq<Chunk>, el: seq<Chunk>, chain: map<Address, seq<nat>>)
  {
    && AllFit(bl, chain, false) && Placed(bl)
    && AllFit(el, chain, true) && Ascending(el)
    && (forall b | b in chain :: In(bl, b) || In(el, b))
  }

  function FreeTotal(list: seq<Chunk>): nat
  {
    if list == [] then 0 else FreeTotal(list[..|list| - 1]) + list[|list| - 1].freeCount
  }

  lemma {:induction false} FreeTotalSplit(a: seq<Chunk>, b: seq<Chunk>)
    ensures FreeTotal(a + b) == FreeTotal(a) + FreeTotal(b)
  {
    if b == [] {
      assert a + b == a;
    } else {
      var n := |b| - 1;
      assert (a + b)[..|a| + n] == a + b[..n];
      FreeTotalSplit(a, b[..n]);
    }
  }

  lemma FreeTotalOne(c: Chunk)
    ensures FreeTotal([]) == 0 && FreeTotal([c]) == c.freeCount
  {
    assert [c][..0] == [];
  }

  lemma FreeTotalAt(list: seq<Chunk>, j: nat)
    requires j < |list|
    ensures FreeTotal(list) == FreeTotal(list[..j]) + list[j].freeCount + FreeTotal(list[j + 1..])
  {
    assert list == list[..j] + ([list[j]] + list[j + 1..]);
    FreeTotalSplit(list[..j], [list[j]] + list[j + 1..]);
    FreeTotalSplit([list[j]], list[j + 1..]);
    assert [list[j]][..0] == [];
  }

  lemma FreeTotalWith(list: seq<Chunk>, j: nat, c: Chunk)
    requires j < |list|
    ensures FreeTotal(list[j := c]) == FreeTotal(list) - list[j].freeCount + c.freeCount
  {
    FreeTotalAt(list, j);
    FreeTotalAt(list[j := c], j);
    assert list[j := c][..j] == list[..j] && list[j := c][j + 1..] == list[j + 1..];
  }

  lemma FreeTotalInsert(list: seq<Chunk>, j: nat, c: Chunk)
    requires j <= |list|
    ensures FreeTotal(list[..j] + [c] + list[j..]) == FreeTotal(list) + c.freeCount
  {
    var more := list[..j] + [c] + list[j..];
    FreeTotalAt(more, j);
    assert more[..j] == list[..j] && more[j + 1..] == list[j..] && list == list[..j] + list[j..];
    FreeTotalSplit(list[..j], list[j..]);
  }

  lemma FreeTotalRemove(list: seq<Chunk>, j: nat)
    requires j < |list|
    ensures FreeTotal(list[..j] + list[j + 1..]) == FreeTotal(list) - list[j].freeCount
  {
    FreeTotalAt(list, j);
    FreeTotalSplit(list[..j], list[j + 1..]);
  }

  lemma {:induction false} FreeTotalAtMost(list: seq<Chunk>)
    requires forall k | 0 <= k < |list| :: list[k].freeCount <= MAX_COUNT
    ensures FreeTotal(list) <= MAX_COUNT * |list|
  {
    if list != [] {
      FreeTotalAtMost(list[..|list| - 1]);
    }
  }

  // ----- searching -----

  /** std::lower_bound: the first key that is not below p. */
  function LowerBound(keys: seq<Address>, p: Address): (r: nat)
    ensures r <= |keys| && (forall k | 0 <= k < r :: keys[k] < p) && (r < |keys| ==> keys[r] >= p)
  {
    if keys == [] || keys[0] >= p then 0 else 1 + LowerBound(keys[1..], p)
  }

  lemma BoundIs(keys: seq<Address>, p: Address, j: nat)
    requires j < |keys| && keys[j] >= p && forall k | 0 <= k < j :: keys[k] < p
    ensures LowerBound(keys, p) == j
  {
  }

  function Bufs(list: seq<Chunk>): seq<Address>
  {
    seq(|list|, k requires 0 <= k < |list| => list[k].buf)
  }

  function Ends(size: nat, list: seq<Chunk>): seq<Address>
  {
    seq(|list|, k requires 0 <= k < |list| => list[k].buf + Span(size))
  }

  predicate IsInside(size: nat, c: Chunk, p: Address)
  {
    c.buf <= p < c.buf + Span(size)
  }

  /** In a list in order, a search by the chunks' ends finds the chunk that a pointer lies in. */
  lemma SearchFinds(size: nat, list: seq<Chunk>, j: nat, p: Address)
    requires size >= 1 && Ascending(list) && j < |list| && IsInside(size, list[j], p)
    requires forall k | 0 <= k < j :: list[k].buf + Span(size) < list[j].buf
    ensures LowerBound(Ends(size, list), p) == j
  {
    BoundIs(Ends(size, list), p, j);
  }

  /** For chunks in order that do not overlap: the search finds the owner of every slot exactly when
      no chunk begins where the one before it ends. */
  lemma SearchFindsExactly(size: nat, list: seq<Chunk>)
    requires size >= 1
    requires forall k | 0 <= k < |list| - 1 :: list[k].buf + Span(size) <= list[k + 1].buf
    ensures (forall j: nat, i: nat | j < |list| && i < MAX_COUNT ::
               LowerBound(Ends(size, list), Slot(size, list[j].buf, i)) == j)
            <==> (forall k | 0 <= k < |list| - 1 :: list[k].buf + Span(size) < list[k + 1].buf)
  {
    if forall k | 0 <= k < |list| - 1 :: list[k].buf + Span(size) < list[k + 1].buf {
      forall j: nat, i: nat | j < |list| && i < MAX_COUNT
        ensures LowerBound(Ends(size, list), Slot(size, list[j].buf, i)) == j
      {
        SlotInside(size, list[j].buf, i);
        forall k | 0 <= k < j ensures list[k].buf + Span(size) < list[j].buf {
          GapsAdd(size, list, k, j);
        }
        BoundIs(Ends(size, list), Slot(size, list[j].buf, i), j);
      }
    } else {
      var k :| 0 <= k < |list| - 1 && list[k].buf + Span(size) >= list[k + 1].buf;
      var p := Slot(size, list[k + 1].buf, 0);
      assert Ends(size, list)[k] == p;
      assert LowerBound(Ends(size, list), p) <= k;
    }
  }

  /** Two chunks of one-byte slots that touch: the search for the first slot of the second finds the first chunk. */
  lemma TouchingChunks(a: Chunk, b: Chunk)
    requires a.buf == 0 && b.buf == Span(1)
    ensures Slot(1, b.buf, 0) == Ends(1, [a, b])[0] && IsInside(1, b, Slot(1, b.buf, 0))
    ensures LowerBound(Ends(1, [a, b]), Slot(1, b.buf, 0)) == 0
  {
    BoundIs(Ends(1, [a, b]), Slot(1, b.buf, 0), 0);
  }

  lemma {:induction false} GapsAdd(size: nat, list: seq<Chunk>, k: nat, j: nat)
    requires k < j < |list|
    requires forall k | 0 <= k < |list| - 1 :: list[k].buf + Span(size) < list[k + 1].buf
    ensures list[k].buf + Span(size) < list[j].buf
  {
    if k + 1 < j {
      GapsAdd(size, list, k, j - 1);
      assert list[j - 1].buf + Span(size) < list[j - 1 + 1].buf;
    }
  }

  // ----- changes to the lists -----

  /** In order, a new chunk goes where the search for its start ends. */
  lemma InsertAscending(list: seq<Chunk>, c: Chunk)
    requires Ascending(list) && !In(list, c.buf)
    ensures
      var at := LowerBound(Bufs(list), c.buf);
      Ascending(list[..at] + [c] + list[at..])
  {
    var at := LowerBound(Bufs(list), c.buf);
    assert forall k | 0 <= k < at :: list[k].buf == Bufs(list)[k] < c.buf;
    assert at < |list| ==> list[at].buf == Bufs(list)[at] && list[at].buf != c.buf;
    assert forall k | at <= k < |list| :: list[k].buf > c.buf;
  }

  lemma InInsert(list: seq<Chunk>, at: nat, c: Chunk, b: Address)
    requires at <= |list|
    ensures In(list[..at] + [c] + list[at..], b) <==> b == c.buf || In(list, b)
  {
    var more := list[..at] + [c] + list[at..];
    if b == c.buf {
      assert more[at].buf == b;
    } else if In(list, b) {
      var k :| 0 <= k < |list| && list[k].buf == b;
      assert more[if k < at then k else k + 1].buf == b;
    }
  }

  lemma InRemove(list: seq<Chunk>, at: nat, b: Address)
    requires at < |list| && b != list[at].buf
    ensures In(list[..at] + list[at + 1..], b) <==> In(list, b)
  {
    var less := list[..at] + list[at + 1..];
    if In(list, b) {
      var k :| 0 <= k < |list| && list[k].buf == b;
      assert less[if k < at then k else k - 1].buf == b;
    }
  }

  lemma InWith(list: seq<Chunk>, j: nat, c: Chunk, b: Address)
    requires j < |list| && c.buf == list[j].buf
    ensures In(list[j := c], b) <==> In(list, b)
  {
    if In(list, b) {
      var k :| 0 <= k < |list| && list[k].buf == b;
      assert list[j := c][k].buf == b;
    }
  }

  ghost predicate SameBut(chain: map<Address, seq<nat>>, chain': map<Address, seq<nat>>, b: Address)
  {
    forall c | c != b :: (c in chain <==> c in chain') && (c in chain ==> chain'[c] == chain[c])
  }

  lemma FitElsewhere(list: seq<Chunk>, chain: map<Address, seq<nat>>, chain': map<Address, seq<nat>>, b: Address,
                     full: bool)
    requires AllFit(list, chain, full) && SameBut(chain, chain', b)
    requires !In(list, b)
    ensures AllFit(list, chain', full)
  {
    forall k | 0 <= k < |list| ensures Fits(list[k], chain') {
      assert Fits(list[k], chain);
    }
  }

  /** No chunk is in both lists. */
  lemma OneList(bl: seq<Chunk>, el: seq<Chunk>, chain: map<Address, seq<nat>>, b: Address)
    requires AllFit(bl, chain, false) && AllFit(el, chain, true)
    ensures !(In(bl, b) && In(el, b))
  {
  }

  lemma FitInsert(list: seq<Chunk>, chain: map<Address, seq<nat>>, full: bool, at: nat, c: Chunk)
    requires AllFit(list, chain, full) && at <= |list| && Fits(c, chain) && (c.freeCount == 0 <==> full)
    ensures AllFit(list[..at] + [c] + list[at..], chain, full)
  {
  }

  lemma FitRemove(list: seq<Chunk>, chain: map<Address, seq<nat>>, full: bool, j: nat)
    requires AllFit(list, chain, full) && j < |list|
    ensures AllFit(list[..j] + list[j + 1..], chain, full)
  {
  }

  lemma OnceEach(bl: seq<Chunk>, j: nat)
    requires j < |bl| && Placed(bl)
    ensures !In(bl[..j] + bl[j + 1..], bl[j].buf)
  {
    var init := bl[..|bl| - 1];
    forall k | 0 <= k < |bl| && k != j ensures bl[k].buf != bl[j].buf {
      if j < |init| && k < |init| {
        assert init[j] == bl[j] && init[k] == bl[k];
      }
    }
  }

  lemma AscendingOnce(el: seq<Chunk>, j: nat)
    requires j < |el| && Ascending(el)
    ensures !In(el[..j] + el[j + 1..], el[j].buf)
  {
  }

  lemma AscendingRemove(list: seq<Chunk>, j: nat)
    requires Ascending(list) && j < |list|
    ensures Ascending(list[..j] + list[j + 1..])
  {
  }

  lemma PlacedRemove(bl: seq<Chunk>, j: nat)
    requires Placed(bl) && j < |bl|
    ensures Placed(bl[..j] + bl[j + 1..])
  {
    var n := |bl| - 1;
    var bl' := bl[..j] + bl[j + 1..];
    if j < n {
      AscendingRemove(bl[..n], j);
      assert bl'[..n - 1] == bl[..n][..j] + bl[..n][j + 1..];
    } else if n > 0 {
      assert bl' == bl[..n] && bl'[..n - 1] == bl[..n][..n - 1];
    }
  }

  lemma PlacedWith(bl: seq<Chunk>, j: nat, c: Chunk)
    requires Placed(bl) && j < |bl| && c.buf == bl[j].buf
    ensures Placed(bl[j := c])
  {
    assert Ascending(bl[..|bl| - 1]);
  }

  lemma InAt(bl: seq<Chunk>, j: nat)
    requires j < |bl|
    ensures In(bl, bl[j].buf)
  {
  }

  lemma PlacedInsert(bl: seq<Chunk>, c: Chunk)
    requires Placed(bl) && bl != [] && !In(bl, c.buf)
    ensures
      var at := LowerBound(Bufs(bl[..|bl| - 1]), c.buf);
      at < |bl| && Placed(bl[..at] + [c] + bl[at..])
  {
    var n := |bl| - 1;
    var init := bl[..n];
    assert forall k | 0 <= k < n :: init[k] == bl[k];
    InsertAscending(init, c);
    var at := LowerBound(Bufs(init), c.buf);
    var bl' := bl[..at] + [c] + bl[at..];
    assert bl'[..n + 1] == init[..at] + [c] + init[at..];
    forall k | 0 <= k < n + 1 ensures bl'[k].buf != bl'[n + 1].buf {
      assert bl'[k].buf == if k < at then bl[k].buf else if k == at then c.buf else bl[k - 1].buf;
    }
  }

  /** A chunk of the list changes and still has a free slot. */
  lemma ListsChange(bl: seq<Chunk>, el: seq<Chunk>, chain: map<Address, seq<nat>>, j: nat, c: Chunk, list: seq<nat>)
    requires Lists(bl, el, chain) && j < |bl| && c.buf == bl[j].buf && list != []
    requires Fits(c, chain[c.buf := list])
    ensures Lists(bl[j := c], el, chain[c.buf := list])
  {
    hide AllFit, Ascending, Placed, In;
    var bl', chain', rest := bl[j := c], chain[c.buf := list], bl[..j] + bl[j + 1..];
    InAt(bl, j);
    forall b | b in chain' ensures In(bl', b) || In(el, b) {
      InWith(bl, j, c, b);
    }
    OneList(bl, el, chain, c.buf);
    FitElsewhere(el, chain, chain', c.buf, true);
    FitRemove(bl, chain, false, j);
    OnceEach(bl, j);
    FitElsewhere(rest, chain, chain', c.buf, false);
    FitInsert(rest, chain', false, j, c);
    assert bl' == rest[..j] + [c] + rest[j..];
    PlacedWith(bl, j, c);
  }

  /** The last chunk of the list has no free slot left: it moves to the other list. */
  lemma ListsRetire(bl: seq<Chunk>, el: seq<Chunk>, chain: map<Address, seq<nat>>, c: Chunk)
    requires Lists(bl, el, chain) && bl != [] && c.buf == bl[|bl| - 1].buf && Fits(c, chain[c.buf := []])
    ensures
      var at := LowerBound(Bufs(el), c.buf);
      Lists(bl[..|bl| - 1], el[..at] + [c] + el[at..], chain[c.buf := []])
  {
    hide AllFit, Ascending, Placed;
    var n, at, chain' := |bl| - 1, LowerBound(Bufs(el), c.buf), chain[c.buf := []];
    var bl', el' := bl[..n], el[..at] + [c] + el[at..];
    assert bl[n].buf == c.buf;
    OneList(bl, el, chain, c.buf);
    InsertAscending(el, c);
    FitElsewhere(el, chain, chain', c.buf, true);
    FitInsert(el, chain', true, at, c);
    assert bl' == bl[..n] + bl[n + 1..];
    FitRemove(bl, chain, false, n);
    PlacedRemove(bl, n);
    OnceEach(bl, n);
    FitElsewhere(bl', chain, chain', c.buf, false);
    forall b | b in chain' ensures In(bl', b) || In(el', b) {
      InInsert(el, at, c, b);
      if b != c.buf {
        InRemove(bl, n, b);
      }
    }
  }

  /** A chunk without a free slot gets one: it goes into its place before the last of the list. */
  lemma ListsReturn(bl: seq<Chunk>, el: seq<Chunk>, chain: map<Address, seq<nat>>, e: nat, c: Chunk, list: seq<nat>)
    requires Lists(bl, el, chain) && bl != [] && e < |el| && c.buf == el[e].buf && list != []
    requires Fits(c, chain[c.buf := list])
    ensures
      var at := LowerBound(Bufs(bl[..|bl| - 1]), c.buf);
      at < |bl| && Lists(bl[..at] + [c] + bl[at..], el[..e] + el[e + 1..], chain[c.buf := list])
  {
    hide AllFit, Ascending, Placed;
    var at, chain' := LowerBound(Bufs(bl[..|bl| - 1]), c.buf), chain[c.buf := list];
    OneList(bl, el, chain, c.buf);
    PlacedInsert(bl, c);
    var bl', el' := bl[..at] + [c] + bl[at..], el[..e] + el[e + 1..];
    FitElsewhere(bl, chain, chain', c.buf, false);
    FitInsert(bl, chain', false, at, c);
    FitRemove(el, chain, true, e);
    AscendingOnce(el, e);
    FitElsewhere(el', chain, chain', c.buf, true);
    AscendingRemove(el, e);
    forall b | b in chain' ensures In(bl', b) || In(el', b) {
      InInsert(bl, at, c, b);
      if b != c.buf {
        InRemove(el, e, b);
      }
    }
  }

  /** A chunk goes, from anywhere in the list. */
  lemma ListsDrop(bl: seq<Chunk>, el: seq<Chunk>, chain: map<Address, seq<nat>>, j: nat)
    requires Lists(bl, el, chain) && j < |bl|
    ensures Lists(bl[..j] + bl[j + 1..], el, chain - {bl[j].buf})
  {
    hide AllFit, Ascending, Placed;
    var bl', chain', b0 := bl[..j] + bl[j + 1..], chain - {bl[j].buf}, bl[j].buf;
    OneList(bl, el, chain, b0);
    FitElsewhere(el, chain, chain', b0, true);
    FitRemove(bl, chain, false, j);
    OnceEach(bl, j);
    FitElsewhere(bl', chain, chain', b0, false);
    PlacedRemove(bl, j);
    forall b | b in chain' ensures In(bl', b) || In(el, b) {
      InRemove(bl, j, b);
    }
  }

  lemma ListsFresh(el: seq<Chunk>, chain: map<Address, seq<nat>>, c: Chunk, list: seq<nat>)
    requires Lists([], el, chain) && c.buf !in chain && list != [] && Fits(c, chain[c.buf := list])
    ensures Lists([c], el, chain[c.buf := list])
  {
    var chain' := chain[c.buf := list];
    forall b | b in chain' ensures In([c], b) || In(el, b) {
      if b == c.buf {
        assert [c][0].buf == b;
      }
    }
    forall k | 0 <= k < |el| ensures Fits(el[k], chain') {
      assert Fits(el[k], chain);
    }
  }

  /** The slot taken lies apart from the blocks handed out before. */
  lemma TakenApart(size: nat, h: Heap, mem: Memory, b: Address)
    requires Sound(size, h, mem) && b in h.chain && h.chain[b] != []
    ensures
      var p := Slot(size, b, h.chain[b][0]);
      forall q | q in h.live :: p + size <= q || q + size <= p
  {
    TakenKeeps(size, h, mem, b);
    forall q | q in h.live
      ensures Slot(size, b, h.chain[b][0]) + size <= q || q + size <= Slot(size, b, h.chain[b][0])
    {
      LiveApart(size, Taken(size, h, b), Slot(size, b, h.chain[b][0]), q);
    }
  }

  /** A new chunk lies apart from the blocks handed out before. */
  lemma LiveInside(size: nat, h: Heap, mem: Memory, region: Address)
    requires Sound(size, h, mem) && region !in h.chain && Spaced(size, h.chain.Keys + {region})
    ensures forall q | q in h.live :: q + size <= region || region + Span(size) <= q
  {
    forall q | q in h.live ensures q + size <= region || region + Span(size) <= q {
      SlotInside(size, h.home[q].0, h.home[q].1);
    }
  }

  lemma SizeOfSound(size: nat, h: Heap, mem: Memory)
    requires Sound(size, h, mem)
    ensures size >= 1
  {
  }

  lemma FitAt(bl: seq<Chunk>, el: seq<Chunk>, chain: map<Address, seq<nat>>, k: nat)
    requires Lists(bl, el, chain) && k < |bl|
    ensures Fits(bl[k], chain) && bl[k].freeCount > 0
  {
  }

  /** The slots of n chunks. */
  function Slots(n: nat): nat
  {
    255 * n
  }

  lemma OneMore(n: nat)
    ensures Slots(n + 1) == Slots(n) + MAX_COUNT
  {
  }

  /** A block handed out lies in a chunk of one of the lists. */
  lemma InHome(size: nat, h: Heap, mem: Memory, p: Address)
    requires Sound(size, h, mem) && p in h.live
    ensures p in h.home && h.home[p].0 in h.chain && h.home[p].1 < MAX_COUNT
    ensures h.home[p].0 <= p && p + size <= h.home[p].0 + Span(size)
  {
    SlotInside(size, h.home[p].0, h.home[p].1);
  }

  /** The search among the chunks with a free slot. */
  lemma SearchHome(size: nat, bl: seq<Chunk>, el: seq<Chunk>, h: Heap, mem: Memory, p: Address)
    requires Sound(size, h, mem) && Lists(bl, el, h.chain) && bl != [] && p in h.live
    ensures forall k | 0 <= k < |bl| :: IsInside(size, bl[k], p) <==> bl[k].buf == h.home[p].0
    ensures
      var j := LowerBound(Ends(size, bl[..|bl| - 1]), p);
      forall k | 0 <= k < |bl| - 1 && bl[k].buf == h.home[p].0 :: j == k
  {
    var b, n := h.home[p].0, |bl| - 1;
    InHome(size, h, mem, p);
    forall k | 0 <= k < |bl| ensures IsInside(size, bl[k], p) <==> bl[k].buf == b {
      assert Fits(bl[k], h.chain);
    }
    forall k | 0 <= k < n && bl[k].buf == b ensures LowerBound(Ends(size, bl[..n]), p) == k {
      forall i | 0 <= i < k ensures bl[..n][i].buf + Span(size) < bl[..n][k].buf {
        assert Fits(bl[i], h.chain) && Fits(bl[k], h.chain) && bl[..n][i].buf < bl[..n][k].buf;
      }
      SearchFinds(size, bl[..n], k, p);
    }
  }

  /** The search among the chunks without. */
  lemma SearchEmpty(size: nat, bl: seq<Chunk>, el: seq<Chunk>, h: Heap, mem: Memory, p: Address)
    requires Sound(size, h, mem) && Lists(bl, el, h.chain) && p in h.live && !In(bl, h.home[p].0)
    ensures
      var j := LowerBound(Ends(size, el), p);
      j < |el| && el[j].buf == h.home[p].0 && IsInside(size, el[j], p) && Fits(el[j], h.chain) && el[j].freeCount == 0
  {
    var b := h.home[p].0;
    InHome(size, h, mem, p);
    assert In(el, b);
    var k :| 0 <= k < |el| && el[k].buf == b;
    forall i | 0 <= i < k ensures el[i].buf + Span(size) < el[k].buf {
      assert Fits(el[i], h.chain) && Fits(el[k], h.chain);
    }
    assert IsInside(size, el[k], p);
    SearchFinds(size, el, k, p);
  }

  /** A write to the block that is given back leaves the other blocks alone. */
  lemma LiveSame(size: nat, h: Heap, mem: Memory, p: Address, v: nat)
    requires Sound(size, h, mem) && p in h.live
    ensures forall q | q in h.live && q != p :: SameInside(mem, mem[p := v], q, q + size)
  {
    forall q | q in h.live && q != p ensures SameInside(mem, mem[p := v], q, q + size) {
      LiveApart(size, h, p, q);
    }
  }

  /** More free slots than two chunks have need a third chunk. */
  lemma AtLeastThree(size: nat, bl: seq<Chunk>, el: seq<Chunk>, h: Heap, mem: Memory)
    requires Sound(size, h, mem) && Lists(bl, el, h.chain) && FreeTotal(bl) > 2 * MAX_COUNT
    ensures |bl| >= 3
  {
    forall k | 0 <= k < |bl| ensures bl[k].freeCount <= MAX_COUNT {
      assert Fits(bl[k], h.chain) && Threaded(size, bl[k].buf, h.chain[bl[k].buf], mem);
      AtMostAll(h.chain[bl[k].buf], MAX_COUNT);
    }
    FreeTotalAtMost(bl);
  }

  // ----- the allocator -----

  class FixAllocator {
    const elementSize: nat
    var blockList: seq<Chunk>
    var emptyList: seq<Chunk>
    var count: int
    var mem: Memory            // the bytes of the chunks
    ghost var h: Heap

    ghost predicate Valid()
      reads this
    {
      && Sound(elementSize, h, mem)
      && Lists(blockList, emptyList, h.chain)
      && blockList != []
      && count == FreeTotal(blockList)
      && count + |h.live| == Slots(|blockList| + |emptyList|)
    }

    /** What is handed out. */
    ghost function Live(): set<Address>
      reads this
    {
      h.live
    }

    /** malloc gives a chunk that is not next to another. */
    ghost predicate Fresh(b: Address)
      reads this
    {
      b !in h.chain && Spaced(elementSize, h.chain.Keys + {b})
    }

    constructor (size: nat, region: Address)
      requires size >= 1
      ensures Valid() && elementSize == size && Live() == {}
    {
      elementSize := size;
      blockList, emptyList, count, mem := [], [], 0, map[];
      h := Heap(map[], {}, map[]);
      new;
      AllocNewChunk(region);
    }

    /** chunk::init: every slot names the next, the last one none. */
    method InitChunk(region: Address) returns (c: Chunk)
      requires elementSize >= 1
      modifies `mem
      ensures c == Chunk(region, 0, MAX_COUNT)
      ensures Primed(elementSize, region, mem)
      ensures SameOutside(old(mem), mem, region, region + Span(elementSize))
      ensures forall k | 0 <= k < MAX_COUNT :: mem[Slot(elementSize, region, k)] < 256
    {
      for i := 0 to MAX_COUNT
        invariant forall k | 0 <= k < i ::
                    Slot(elementSize, region, k) in mem && mem[Slot(elementSize, region, k)] == (k + 1) % 256
        invariant SameOutside(old(mem), mem, region, region + Span(elementSize))
      {
        SlotInside(elementSize, region, i);
        forall k | 0 <= k < i ensures Slot(elementSize, region, k) < Slot(elementSize, region, i) {
          SlotApart(elementSize, region, k, i);
        }
        hide Slot;
        mem := mem[Slot(elementSize, region, i) := (i + 1) % 256];
      }
      c := Chunk(region, 0, MAX_COUNT);
    }

    method AllocNewChunk(region: Address)
      requires Sound(elementSize, h, mem) && Lists([], emptyList, h.chain) && Fresh(region)
      requires blockList == [] && count == 0 && |h.live| == Slots(|emptyList|)
      modifies this
      ensures Valid() && Live() == old(Live()) && emptyList == old(emptyList)
      ensures SameOutside(old(mem), mem, region, region + Span(elementSize))
    {
      hide Slot, Sound, Lists, Spaced, AllSlots, Primed, Span, FreeTotal, Slots, SameOutside;
      SizeOfSound(elementSize, h, mem);
      var c := InitChunk(region);
      NewKeeps(elementSize, h, old(mem), mem, region);
      AllSlotsHead();
      ListsFresh(emptyList, h.chain, c, AllSlots());
      h := h.(chain := h.chain[region := AllSlots()]);
      blockList := blockList + [c];
      count := count + MAX_COUNT;
      assert blockList == [c];
      FreeTotalOne(c);
      OneMore(|emptyList|);
    }

    /** chunk::alloc */
    method ChunkAlloc(c: Chunk) returns (c': Chunk, p: Address)
      requires Sound(elementSize, h, mem) && Fits(c, h.chain) && c.freeCount > 0
      modifies `h
      ensures Sound(elementSize, h, mem) && h == Taken(elementSize, old(h), c.buf) && h.chain.Keys == old(h).chain.Keys
      ensures p == Slot(elementSize, c.buf, old(h).chain[c.buf][0]) && p !in old(h).live
      ensures forall q | q in old(h).live :: p + elementSize <= q || q + elementSize <= p
      ensures c'.buf == c.buf && Fits(c', h.chain) && c'.freeCount == c.freeCount - 1
    {
      p := Slot(elementSize, c.buf, c.header);
      TakenKeeps(elementSize, h, mem, c.buf);
      TakenApart(elementSize, h, mem, c.buf);
      c' := Chunk(c.buf, mem[p], c.freeCount - 1);
      h := Taken(elementSize, h, c.buf);
    }

    /** alloc */
    method Alloc(region: Address) returns (p: Address)
      requires Valid() && Fresh(region)
      modifies this
      ensures Valid() && p !in old(Live()) && Live() == old(Live()) + {p}
      ensures forall q | q in old(Live()) :: p + elementSize <= q || q + elementSize <= p
      ensures forall q | q in old(Live()) :: SameInside(old(mem), mem, q, q + elementSize)
    {
      hide Sound, Slot, Spaced, Handed, Lists, LowerBound, In;
      ghost var h0 := h;
      var n := |blockList| - 1;
      var ch := blockList[n];
      FitAt(blockList, emptyList, h.chain, n);
      LiveInside(elementSize, h, mem, region);
      ch, p := ChunkAlloc(ch);
      count := count - 1;
      assert h.chain == h0.chain[ch.buf := h.chain[ch.buf]];
      if ch.freeCount == 0 {
        ListsRetire(blockList, emptyList, h0.chain, ch);
        FreeTotalAt(blockList, n);
        PushToEmptyList(ch);
        blockList := blockList[..n];
        if blockList == [] {
          AllocNewChunk(region);
        }
      } else {
        ListsChange(blockList, emptyList, h0.chain, n, ch, h.chain[ch.buf]);
        FreeTotalWith(blockList, n, ch);
        blockList := blockList[n := ch];
      }
    }

    method PushToEmptyList(c: Chunk)
      modifies `emptyList
      ensures
        var at := LowerBound(Bufs(old(emptyList)), c.buf);
        emptyList == old(emptyList)[..at] + [c] + old(emptyList)[at..]
    {
      if emptyList == [] {
        emptyList := [c];
      } else {
        var at := LowerBound(Bufs(emptyList), c.buf);
        emptyList := emptyList[..at] + [c] + emptyList[at..];
      }
    }

    // ----- giving back -----

    /** chunk::free: the slot goes to the front of the chunk's list. */
    method ChunkFree(c: Chunk, p: Address) returns (c': Chunk)
      requires Sound(elementSize, h, mem) && Fits(c, h.chain) && p in h.live && h.home[p].0 == c.buf
      modifies `h, `mem
      ensures Sound(elementSize, h, mem) && h == Given(old(h), c.buf, old(h).home[p].1, p)
      ensures h.chain.Keys == old(h).chain.Keys && mem == old(mem)[p := c.header]
      ensures c'.buf == c.buf && Fits(c', h.chain) && c'.freeCount == c.freeCount + 1
      ensures forall q | q in h.live :: SameInside(old(mem), mem, q, q + elementSize)
    {
      LiveSame(elementSize, h, mem, p, c.header);
      ghost var i := h.home[p].1;
      SlotInside(elementSize, c.buf, i);
      GivenKeeps(elementSize, h, mem, c.buf, i);
      var offset := p - c.buf;
      assert offset % elementSize == 0;
      mem := mem[p := c.header];
      c' := Chunk(c.buf, offset / elementSize, c.freeCount + 1);
      h := Given(h, c.buf, i, p);
    }

    /** find_chunk: the chunk with a free slot that p lies in, if there is one. */
    method FindChunk(p: Address) returns (found: bool, j: nat)
      requires Valid() && p in Live()
      ensures found == In(blockList, h.home[p].0)
      ensures found ==> j < |blockList| && blockList[j].buf == h.home[p].0
    {
      hide Sound, Lists, IsInside, Slot, Span;
      var n := |blockList| - 1;
      InHome(elementSize, h, mem, p);
      SearchHome(elementSize, blockList, emptyList, h, mem, p);
      if IsInside(elementSize, blockList[n], p) {
        return true, n;
      }
      j := LowerBound(Ends(elementSize, blockList[..n]), p);
      if j == n {
        return false, 0;
      }
      if IsInside(elementSize, blockList[j], p) {
        return true, j;
      }
      found := false;
    }

    /** remove_chunk, for a chunk of the list */
    method RemoveChunk(j: nat)
      requires j < |blockList| && Placed(blockList)
      modifies `blockList
      ensures blockList == old(blockList)[..j] + old(blockList)[j + 1..]
    {
      var ch, n := blockList[j], |blockList| - 1;
      if ch.buf == blockList[n].buf {
        blockList := blockList[..n];
        return;
      }
      var init := blockList[..n];
      var at := LowerBound(Bufs(init), ch.buf);
      assert Bufs(init)[j] == ch.buf && forall k | 0 <= k < j :: Bufs(init)[k] == init[k].buf < init[j].buf;
      BoundIs(Bufs(init), ch.buf, j);
      if at != n && blockList[at].buf == ch.buf {
        blockList := blockList[..at] + blockList[at + 1..];
      } else {
        assert false;
      }
    }

    /** A chunk without a free slot gets one and moves to the other list. */
    method Reopen(at: nat, p: Address)
      requires Valid() && p in Live() && h.home[p].0 in h.chain
      requires at < |emptyList| && emptyList[at].buf == h.home[p].0
      requires Fits(emptyList[at], h.chain) && emptyList[at].freeCount == 0
      modifies this
      ensures Valid() && Live() == old(Live()) - {p}
      ensures forall q | q in Live() :: SameInside(old(mem), mem, q, q + elementSize)
      ensures |blockList| + |emptyList| == old(|blockList| + |emptyList|)
      ensures h == Given(old(h), old(h.home[p].0), old(h.home[p].1), p) && count == old(count) + 1
    {
      hide Sound, Slot, Spaced, Handed, Lists, LowerBound, In, FreeTotal;
      ghost var h0 := h;
      var ch := ChunkFree(emptyList[at], p);
      ListsReturn(blockList, emptyList, h0.chain, at, ch, h.chain[ch.buf]);
      var place := LowerBound(Bufs(blockList[..|blockList| - 1]), ch.buf);
      FreeTotalInsert(blockList, place, ch);
      emptyList := emptyList[..at] + emptyList[at + 1..];
      blockList := blockList[..place] + [ch] + blockList[place..];
      count := count + 1;
    }

    /**
     * free: any block handed out is taken back; no other block is touched. Its slot is the next to be handed out of its
     * chunk; but the chunk goes if all its 255 slots are free now, and more than two chunks' worth of slots in all.
     */
    method Free(p: Address)
      requires Valid() && p in Live()
      modifies this
      ensures Valid() && Live() == old(Live()) - {p}
      ensures forall q | q in Live() :: SameInside(old(mem), mem, q, q + elementSize)
      ensures |blockList| + |emptyList| <= old(|blockList| + |emptyList|)
      ensures var b, i := old(h.home[p].0), old(h.home[p].1);
        && b in old(h.chain)
        && var goes := |old(h.chain)[b]| == 254 && old(count) >= 510;
        && h.chain == (if goes then old(h.chain) - {b} else old(h.chain)[b := [i] + old(h.chain)[b]])
        && count == old(count) + (if goes then 1 - 255 else 1)
    {
      hide Sound, Slot, Spaced, Handed, Lists, LowerBound, In, FreeTotal;
      InHome(elementSize, h, mem, p);
      ghost var h0, b := h, h.home[p].0;
      var found, j := FindChunk(p);
      if !found {
        var at := LowerBound(Ends(elementSize, emptyList), p);
        SearchEmpty(elementSize, blockList, emptyList, h, mem, p);
        if at == |emptyList| || !IsInside(elementSize, emptyList[at], p) {
          assert false;
          return;
        }
        Reopen(at, p);
        return;
      }
      FitAt(blockList, emptyList, h.chain, j);
      var ch := ChunkFree(blockList[j], p);
      ListsChange(blockList, emptyList, h0.chain, j, ch, h.chain[b]);
      FreeTotalWith(blockList, j, ch);
      blockList := blockList[j := ch];
      count := count + 1;
      if blockList[j].freeCount == MAX_COUNT && count > 2 * MAX_COUNT {
        ReleaseChunk(j);
      }
    }

    /** A chunk that is all free goes when there are more than two chunks' worth of free slots. */
    method ReleaseChunk(j: nat)
      requires Valid() && j < |blockList| && blockList[j].freeCount == MAX_COUNT && count > 2 * MAX_COUNT
      modifies this
      ensures Valid() && Live() == old(Live()) && mem == old(mem) && emptyList == old(emptyList)
      ensures |blockList| == old(|blockList|) - 1
      ensures h.chain == old(h.chain) - {old(blockList)[j].buf} && count == old(count) - 255
    {
      hide Sound;
      FitAt(blockList, emptyList, h.chain, j);
      ListsDrop(blockList, emptyList, h.chain, j);
      DropKeeps(elementSize, h, mem, blockList[j].buf);
      FreeTotalRemove(blockList, j);
      AtLeastThree(elementSize, blockList, emptyList, h, mem);
      h := h.(chain := h.chain - {blockList[j].buf});
      RemoveChunk(j);
      count := count - MAX_COUNT;
      OneMore(|blockList| + |emptyList|);
    }

    // ----- runs -----

    /** The owner of a block writes into it. */
    method Write(p: Address, a: Address, v: nat)
      requires Valid() && p in Live() && p <= a < p + elementSize
      modifies `mem
      ensures Valid() && mem == old(mem)[a := v]
    {
      hide Slot, Span, Spaced, Handed;
      forall b | b in h.chain ensures Threaded(elementSize, b, h.chain[b], mem[a := v]) {
        ThreadedElsewhere(elementSize, h, mem, b, a, v);
      }
      mem := mem[a := v];
    }

    /** obj_count: what count says is handed out is what is handed out. */
    method ObjCount() returns (n: int)
      requires Valid()
      ensures n == |Live()|
    {
      n := (|blockList| + |emptyList|) * MAX_COUNT - count;
    }
  }
}
