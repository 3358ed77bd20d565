/** Chunks of 255 equal slots, each with a list of its free slots threaded through their first bytes. */
module FreeSlots {
  type Address = int
  type Memory = map<Address, nat>

  const MAX_COUNT := 255
  const NO_SLOT := 0xFF

  /** The bytes of a chunk. */
  function Span(size: nat): nat
  {
    255 * size
  }

  function Slot(size: nat, b: Address, i: nat): Address
  {
    b + i * size
  }

  lemma {:induction false} Times(a: nat, b: nat, size: nat)
    requires a <= b
    ensures a * size <= b * size
    ensures a >= 1 ==> a * size == (a - 1) * size + size
  {
    if a < b {
      Times(a, b - 1, size);
      assert b * size == (b - 1) * size + size;
    }
  }

  lemma SlotInside(size: nat, b: Address, i: nat)
    requires size >= 1 && i < MAX_COUNT
    ensures b <= Slot(size, b, i) && Slot(size, b, i) + size <= b + Span(size)
    ensures (Slot(size, b, i) - b) / size == i && (Slot(size, b, i) - b) % size == 0
  {
    Times(i + 1, 255, size);
    DivExact(i, size);
  }

  lemma DivExact(i: nat, size: nat)
    requires size >= 1
    ensures (i * size) / size == i && (i * size) % size == 0
  {
    var x := i * size;
    Quotient(x / size, i, x % size, size);
  }

  lemma Quotient(q: int, i: int, r: nat, size: nat)
    requires q * size + r == i * size && r < size
    ensures q == i && r == 0
  {
    var d := i - q;
    assert d * size == i * size - q * size == r;
    if d >= 1 {
      AtLeast(d, size);
    } else if d <= -1 {
      AtLeast(-d, size);
    }
  }

  lemma {:induction false} AtLeast(d: nat, size: nat)
    requires d >= 1
    ensures d * size >= size
  {
    if d > 1 {
      AtLeast(d - 1, size);
      assert d * size == (d - 1) * size + size;
    }
  }

  lemma SlotApart(size: nat, b: Address, i: nat, j: nat)
    requires size >= 1 && i < j
    ensures Slot(size, b, i) + size <= Slot(size, b, j)
  {
    assert (j - i - 1) * size >= 0;
    assert j * size == i * size + size + (j - i - 1) * size;
  }

  // ----- the free slots of one chunk -----

  function Head(list: seq<nat>): nat
  {
    if list == [] then NO_SLOT else list[0]
  }

  /** The list ends, visits no slot twice, and each free slot's first byte names the next. */
  ghost predicate Threaded(size: nat, b: Address, list: seq<nat>, mem: Memory)
  {
    && (forall k | 0 <= k < |list| :: list[k] < MAX_COUNT)
    && (forall j, k | 0 <= j < k < |list| :: list[j] != list[k])
    && (forall k | 0 <= k < |list| ::
          Slot(size, b, list[k]) in mem && mem[Slot(size, b, list[k])] == Head(list[k + 1..]))
  }

  /** A list without repetition of numbers below n has at most n of them, and n only if it has all. */
  lemma {:induction false} AtMostAll(list: seq<nat>, n: nat)
    requires forall k | 0 <= k < |list| :: list[k] < n
    requires forall j, k | 0 <= j < k < |list| :: list[j] != list[k]
    ensures |list| <= n
    ensures |list| == n ==> forall i: nat | i < n :: i in list
  {
    if list != [] {
      assert list[0] < n;
      if n - 1 in list {
        var k :| 0 <= k < |list| && list[k] == n - 1;
        var rest := list[..k] + list[k + 1..];
        AtMostAll(rest, n - 1);
        if |list| == n {
          forall i: nat | i < n ensures i in list {
            assert i == n - 1 || i in rest;
          }
        }
      } else {
        AtMostAll(list, n - 1);
      }
    }
  }

  // ----- the chunks and what has been handed out -----

  /** The chunks by start, the free slots of each; what is handed out, and where each pointer points. */
  datatype Heap = Heap(chain: map<Address, seq<nat>>, live: set<Address>, home: map<Address, (Address, nat)>)

  /** At least one byte lies between two chunks. */
  ghost predicate Spaced(size: nat, bs: set<Address>)
  {
    forall b, c | b in bs && c in bs && b < c :: b + Span(size) < c
  }

  /** A slot is either on its chunk's list or handed out, and nothing else is handed out. */
  ghost predicate Handed(size: nat, h: Heap)
  {
    && (forall b, i: nat {:trigger Slot(size, b, i)} | b in h.chain && i < MAX_COUNT ::
          i in h.chain[b] <==> Slot(size, b, i) !in h.live)
    && (forall p | p in h.live :: p in h.home && h.home[p].0 in h.chain && h.home[p].1 < MAX_COUNT &&
          p == Slot(size, h.home[p].0, h.home[p].1))
  }

  ghost predicate Sound(size: nat, h: Heap, mem: Memory)
  {
    && size >= 1
    && Spaced(size, h.chain.Keys)
    && Handed(size, h)
    && (forall b | b in h.chain :: Threaded(size, b, h.chain[b], mem))
  }

  /** Different slots, of one chunk or of two, do not overlap. */
  lemma SlotsApart(size: nat, bs: set<Address>, b: Address, i: nat, c: Address, j: nat)
    requires size >= 1 && Spaced(size, bs) && b in bs && c in bs && i < MAX_COUNT && j < MAX_COUNT
    requires b != c || i != j
    ensures Slot(size, b, i) + size <= Slot(size, c, j) || Slot(size, c, j) + size <= Slot(size, b, i)
  {
    SlotInside(size, b, i);
    SlotInside(size, c, j);
    if b == c {
      if i < j {
        SlotApart(size, b, i, j);
      } else {
        SlotApart(size, b, j, i);
      }
    }
  }

  /** The live blocks never overlap. */
  lemma LiveApart(size: nat, h: Heap, p: Address, q: Address)
    requires size >= 1 && Spaced(size, h.chain.Keys) && Handed(size, h) && p in h.live && q in h.live && p != q
    ensures p + size <= q || q + size <= p
  {
    SlotsApart(size, h.chain.Keys, h.home[p].0, h.home[p].1, h.home[q].0, h.home[q].1);
  }

  // ----- the bytes of the blocks -----

  ghost predicate SameOutside(m: Memory, m': Memory, lo: Address, hi: Address)
  {
    forall a | !(lo <= a < hi) :: (a in m <==> a in m') && (a in m ==> m[a] == m'[a])
  }

  ghost predicate SameInside(m: Memory, m': Memory, lo: Address, hi: Address)
  {
    forall a | lo <= a < hi :: (a in m <==> a in m') && (a in m ==> m[a] == m'[a])
  }

  // ----- taking a slot -----

  function Taken(size: nat, h: Heap, b: Address): Heap
    requires b in h.chain && h.chain[b] != []
  {
    var p := Slot(size, b, h.chain[b][0]);
    Heap(h.chain[b := h.chain[b][1..]], h.live + {p}, h.home[p := (b, h.chain[b][0])])
  }

  lemma TakenKeeps(size: nat, h: Heap, mem: Memory, b: Address)
    requires Sound(size, h, mem) && b in h.chain && h.chain[b] != []
    ensures
      var p := Slot(size, b, h.chain[b][0]);
      && Sound(size, Taken(size, h, b), mem) && p !in h.live
      && p in mem && mem[p] == Head(h.chain[b][1..]) && Taken(size, h, b).chain.Keys == h.chain.Keys
  {
    var list := h.chain[b];
    var i0, p, h' := list[0], Slot(size, b, list[0]), Taken(size, h, b);
    assert i0 in list && Threaded(size, b, list, mem);
    assert list == [i0] + list[1..];
    assert h'.chain.Keys == h.chain.Keys;
    forall c, i: nat {:trigger Slot(size, c, i)} | c in h'.chain && i < MAX_COUNT
      ensures i in h'.chain[c] <==> Slot(size, c, i) !in h'.live
    {
      if c != b || i != i0 {
        SlotsApart(size, h.chain.Keys, b, i0, c, i);
      }
    }
    forall c | c in h'.chain ensures Threaded(size, c, h'.chain[c], mem) {
      assert Threaded(size, c, h.chain[c], mem);
      if c == b {
        ThreadedRest(size, b, list, mem);
      }
    }
  }

  lemma ThreadedRest(size: nat, b: Address, list: seq<nat>, mem: Memory)
    requires Threaded(size, b, list, mem) && list != []
    ensures Threaded(size, b, list[1..], mem)
  {
    var rest := list[1..];
    forall k | 0 <= k < |rest|
      ensures Slot(size, b, rest[k]) in mem && mem[Slot(size, b, rest[k])] == Head(rest[k + 1..])
    {
      assert rest[k] == list[k + 1] && rest[k + 1..] == list[k + 2..];
    }
  }

  // ----- giving it back -----

  function Given(h: Heap, b: Address, i: nat, p: Address): Heap
    requires b in h.chain
  {
    Heap(h.chain[b := [i] + h.chain[b]], h.live - {p}, h.home)
  }

  lemma GivenKeeps(size: nat, h: Heap, mem: Memory, b: Address, i0: nat)
    requires Sound(size, h, mem) && b in h.chain && i0 < MAX_COUNT && Slot(size, b, i0) in h.live
    ensures
      var p := Slot(size, b, i0);
      Sound(size, Given(h, b, i0, p), mem[p := Head(h.chain[b])]) && Given(h, b, i0, p).chain.Keys == h.chain.Keys
  {
    var p, list := Slot(size, b, i0), h.chain[b];
    var h', mem' := Given(h, b, i0, p), mem[p := Head(list)];
    assert h'.chain.Keys == h.chain.Keys && i0 !in list;
    forall c, i: nat {:trigger Slot(size, c, i)} | c in h'.chain && i < MAX_COUNT
      ensures i in h'.chain[c] <==> Slot(size, c, i) !in h'.live
    {
      if c != b || i != i0 {
        SlotsApart(size, h.chain.Keys, b, i0, c, i);
      }
    }
    forall c | c in h'.chain ensures Threaded(size, c, h'.chain[c], mem') {
      assert Threaded(size, c, h.chain[c], mem);
      ThreadedElsewhere(size, h, mem, c, p, Head(list));
      if c == b {
        ThreadedMore(size, b, i0, list, mem');
      }
    }
  }

  /** A write to a handed out slot does not touch a list. */
  lemma ThreadedElsewhere(size: nat, h: Heap, mem: Memory, c: Address, a: Address, v: nat)
    requires Sound(size, h, mem) && c in h.chain
    requires exists p :: p in h.live && p <= a < p + size
    ensures Threaded(size, c, h.chain[c], mem[a := v])
  {
    var p :| p in h.live && p <= a < p + size;
    var list := h.chain[c];
    assert Threaded(size, c, list, mem);
    forall k | 0 <= k < |list|
      ensures Slot(size, c, list[k]) in mem[a := v] && mem[a := v][Slot(size, c, list[k])] == Head(list[k + 1..])
    {
      assert list[k] in list;
      SlotsApart(size, h.chain.Keys, c, list[k], h.home[p].0, h.home[p].1);
    }
  }

  lemma ThreadedMore(size: nat, b: Address, i: nat, list: seq<nat>, mem: Memory)
    requires Threaded(size, b, list, mem) && i < MAX_COUNT && i !in list
    requires Slot(size, b, i) in mem && mem[Slot(size, b, i)] == Head(list)
    ensures Threaded(size, b, [i] + list, mem)
  {
    var more := [i] + list;
    forall k | 0 <= k < |more|
      ensures Slot(size, b, more[k]) in mem && mem[Slot(size, b, more[k])] == Head(more[k + 1..])
    {
      if k > 0 {
        assert more[k] == list[k - 1] && more[k + 1..] == list[k..];
      } else {
        assert more[1..] == list;
      }
    }
  }

  // ----- a new chunk, and the end of one -----

  function AllSlots(): seq<nat>
  {
    seq(MAX_COUNT, i => i)
  }

  /** Every slot names the next, the last one none. */
  ghost predicate Primed(size: nat, b: Address, mem: Memory)
  {
    forall i | 0 <= i < MAX_COUNT :: Slot(size, b, i) in mem && mem[Slot(size, b, i)] == (i + 1) % 256
  }

  lemma AllSlotsHead()
    ensures |AllSlots()| == MAX_COUNT && AllSlots()[0] == 0 && Head(AllSlots()) == 0
  {
  }

  lemma NewKeeps(size: nat, h: Heap, mem: Memory, mem': Memory, b: Address)
    requires size >= 1 && Sound(size, h, mem) && b !in h.chain && Spaced(size, h.chain.Keys + {b})
    requires Primed(size, b, mem')
    requires SameOutside(mem, mem', b, b + Span(size))
    ensures Sound(size, h.(chain := h.chain[b := AllSlots()]), mem')
  {
    var h' := h.(chain := h.chain[b := AllSlots()]);
    assert h'.chain.Keys == h.chain.Keys + {b};
    forall c, i: nat {:trigger Slot(size, c, i)} | c in h'.chain && i < MAX_COUNT
      ensures i in h'.chain[c] <==> Slot(size, c, i) !in h'.live
    {
      if c == b {
        assert AllSlots()[i] == i;
        if Slot(size, b, i) in h.live {
          var p := Slot(size, b, i);
          SlotsApart(size, h'.chain.Keys, b, i, h.home[p].0, h.home[p].1);
        }
      }
    }
    forall c | c in h'.chain ensures Threaded(size, c, h'.chain[c], mem') {
      if c != b {
        assert Threaded(size, c, h.chain[c], mem);
        forall i: nat | i < MAX_COUNT ensures !(b <= Slot(size, c, i) < b + Span(size)) {
          SlotInside(size, c, i);
        }
      } else {
        ThreadedAll(size, b, mem');
      }
    }
  }

  lemma ThreadedAll(size: nat, b: Address, mem: Memory)
    requires Primed(size, b, mem)
    ensures Threaded(size, b, AllSlots(), mem)
  {
    var all := AllSlots();
    forall k | 0 <= k < MAX_COUNT
      ensures Slot(size, b, all[k]) in mem && mem[Slot(size, b, all[k])] == Head(all[k + 1..])
    {
      assert all[k] == k && (k + 1 < MAX_COUNT ==> all[k + 1..][0] == all[k + 1] == k + 1);
    }
  }

  /** A chunk whose slots are all free can go. */
  lemma DropKeeps(size: nat, h: Heap, mem: Memory, b: Address)
    requires Sound(size, h, mem) && b in h.chain && |h.chain[b]| == MAX_COUNT
    ensures Sound(size, h.(chain := h.chain - {b}), mem)
  {
    var h' := h.(chain := h.chain - {b});
    assert h'.chain.Keys == h.chain.Keys - {b};
    assert Threaded(size, b, h.chain[b], mem);
    AtMostAll(h.chain[b], MAX_COUNT);
    forall p | p in h.live ensures h.home[p].0 in h'.chain {
      assert p == Slot(size, h.home[p].0, h.home[p].1);
    }
  }
}
