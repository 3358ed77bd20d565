/** Records in the data heap: writing, rewriting, freeing and reading them. */
module Records {
  import opened Places
  import opened Octets
  import opened IndexPage
  import opened HeapState
  import opened FreeLists
  import opened HeapSteps
  import opened FreeBlocks
  import opened DataHeap
  import opened Slices
  import opened KeyOrder

  // ----- writing along a chain -----

  /** alloc_data_head, after the slice pdr */
  method AddSliceAfter(heap: DataHeap, pdr: Pos, size: nat, ghost chain: seq<Pos>) returns (a: Pos)
    requires heap.Sound({}) && Open(Live(heap.blocks), chain) && pdr == Last(chain) && size > 0
    requires pdr.page in heap.dirty
    modifies heap, heap.space
    ensures heap.Sound({}) && heap.Foreign() == old(heap.Foreign())
    ensures Open(Live(heap.blocks), chain + [a])
    ensures Others(Live(heap.blocks), chain + [a]) == Others(Live(old(heap.blocks)), chain)
    ensures Written(Live(heap.blocks), chain + [a], 0) == Content(Live(old(heap.blocks)), chain)
    ensures a in heap.blocks && a in Live(heap.blocks) && heap.blocks[a] == Live(heap.blocks)[a]
    ensures |heap.blocks[a].bytes| == if size < PAGEMAXSPARE then size else PAGEMAXSPARE
    ensures old(heap.dirty) <= heap.dirty && a.page in heap.dirty
    ensures old(Snug(heap.blocks, {})) ==> Snug(heap.blocks, {})
    ensures a !in Live(old(heap.blocks))
  {
    hide Snug, heap.Sound, heap.Foreign, Open, Others, Written, Content, Live;
    ghost var live := Live(heap.blocks);
    OpenLast(live, chain);
    a := heap.AllocDataHead(size, false);
    InLive(heap.blocks, pdr);
    InLive(heap.blocks, a);
    heap.BlockSizes(a);
    ghost var block := heap.blocks[a];
    AddSlice(live, chain, a, block);
    heap.SetNext(pdr, a);
    InLive(heap.blocks, a);
  }

  /** memcpy to the end of a slice, and the next slice. */
  method CopyAndAdd(heap: DataHeap, hdr: Pos, p: nat, data: Octets, size: nat, ghost chain: seq<Pos>) returns (a: Pos)
    requires heap.Sound({}) && Open(Live(heap.blocks), chain) && hdr == Last(chain) && size > 0
    requires p + |data| == |Live(heap.blocks)[hdr].bytes|
    requires hdr.page in heap.dirty
    modifies heap, heap.space
    ensures heap.Sound({}) && heap.Foreign() == old(heap.Foreign())
    ensures Open(Live(heap.blocks), chain + [a])
    ensures Others(Live(heap.blocks), chain + [a]) == Others(Live(old(heap.blocks)), chain)
    ensures Written(Live(heap.blocks), chain + [a], 0) == Written(Live(old(heap.blocks)), chain, p) + data
    ensures a in heap.blocks && a in Live(heap.blocks) && heap.blocks[a] == Live(heap.blocks)[a]
    ensures |heap.blocks[a].bytes| == if size < PAGEMAXSPARE then size else PAGEMAXSPARE
    ensures old(heap.dirty) <= heap.dirty && a.page in heap.dirty
    ensures old(Snug(heap.blocks, {})) ==> Snug(heap.blocks, {})
  {
    hide Snug, heap.Sound, heap.Foreign, Open, Others, Content, Live, Written;
    CopyInto(heap, hdr, p, data, chain);
    WrittenAll(Live(heap.blocks), chain);
    a := AddSliceAfter(heap, hdr, size, chain);
  }

  /** memcpy into the last slice of a chain, within its size */
  method CopyInto(heap: DataHeap, hdr: Pos, p: nat, data: Octets, ghost chain: seq<Pos>)
    requires heap.Sound({}) && Open(Live(heap.blocks), chain) && hdr == Last(chain)
    requires p + |data| <= |Live(heap.blocks)[hdr].bytes|
    requires hdr.page in heap.dirty
    modifies heap`blocks
    ensures heap.Sound({}) && heap.Foreign() == old(heap.Foreign())
    ensures Open(Live(heap.blocks), chain) && hdr in Live(heap.blocks)
    ensures |Live(heap.blocks)[hdr].bytes| == |old(Live(heap.blocks))[hdr].bytes|
    ensures Live(heap.blocks)[hdr].link == old(Live(heap.blocks))[hdr].link
    ensures hdr in heap.blocks && heap.blocks[hdr] == Live(heap.blocks)[hdr]
    ensures Others(Live(heap.blocks), chain) == Others(Live(old(heap.blocks)), chain)
    ensures Written(Live(heap.blocks), chain, p + |data|) == Written(Live(old(heap.blocks)), chain, p) + data
    ensures old(Snug(heap.blocks, {})) ==> Snug(heap.blocks, {})
  {
    hide Snug, heap.Sound, heap.Foreign, Open, Others, Written, Live;
    ghost var live := Live(heap.blocks);
    OpenLast(live, chain);
    InLive(heap.blocks, hdr);
    heap.BlockSizes(hdr);
    WriteLast(live, chain, p, data);
    heap.Store(hdr, p, data, |heap.blocks[hdr].bytes|);
    assert Stored(live[hdr], p, data, |live[hdr].bytes|) == live[hdr].(bytes := Poked(live[hdr].bytes, p, data));
  }

  /** The first slice of a new record. */
  method FirstSlice(heap: DataHeap, size: nat) returns (a: Pos)
    requires heap.Sound({}) && size >= 8
    modifies heap, heap.space
    ensures heap.Sound({}) && heap.Foreign() == old(heap.Foreign())
    ensures Open(Live(heap.blocks), [a]) && Others(Live(heap.blocks), [a]) == Live(old(heap.blocks))
    ensures Written(Live(heap.blocks), [a], 0) == []
    ensures |Live(heap.blocks)[a].bytes| == if size < PAGEMAXSPARE then size else PAGEMAXSPARE
    ensures old(heap.dirty) <= heap.dirty && a.page in heap.dirty
    ensures old(Snug(heap.blocks, {})) ==> Snug(heap.blocks, {})
  {
    hide Snug, heap.Sound, heap.Foreign, Live;
    a := heap.AllocDataHead(size, true);
    heap.BlockSizes(a);
  }

  /** The end of the chain; all of it is written. */
  method EndChain(heap: DataHeap, hdr: Pos, ghost chain: seq<Pos>)
    requires heap.Sound({}) && Open(Live(heap.blocks), chain) && hdr == Last(chain)
    requires hdr.page in heap.dirty
    modifies heap`blocks
    ensures heap.Sound({}) && heap.Foreign() == old(heap.Foreign())
    ensures Chain(Live(heap.blocks), chain) && Others(Live(heap.blocks), chain) == Others(Live(old(heap.blocks)), chain)
    ensures Content(Live(heap.blocks), chain) == Content(Live(old(heap.blocks)), chain)
    ensures SlicesOf(Live(heap.blocks), chain) == SlicesOf(Live(old(heap.blocks)), chain)
    ensures old(Snug(heap.blocks, {})) ==> Snug(heap.blocks, {})
  {
    hide Snug, heap.Sound, heap.Foreign, Open, Chain, Others, Content, Live;
    ghost var live := Live(heap.blocks);
    OpenLast(live, chain);
    InLive(heap.blocks, hdr);
    CloseChain(live, chain);
    heap.SetNext(hdr, NONE);
  }

  // ----- create_node -----

  /** The inline part of the key. */
  function InlineKey(k: IndexKey, key: Octets): IndexKey
    requires |k.key| == INLINE
  {
    if |key| > INLINE then IndexKey(key[..INLINE], 0) else IndexKey(key + k.key[|key|..], |key|)
  }

  method CreateNode(heap: DataHeap, index: IndexKey, key: Octets, val: Octets)
    returns (k: IndexKey, a: Pos, ghost chain: seq<Pos>)
    requires heap.Sound({}) && |index.key| == INLINE && 8 + |key| + |val| < WORD
    modifies heap, heap.space
    ensures heap.Sound({}) && heap.Foreign() == old(heap.Foreign())
    ensures Holds(Live(heap.blocks), chain, key, val) && chain[0] == a
    ensures Others(Live(heap.blocks), chain) == Live(old(heap.blocks))
    ensures k == InlineKey(index, key)
    ensures old(heap.dirty) <= heap.dirty
    ensures old(Snug(heap.blocks, {})) ==> Snug(heap.blocks, {})
  {
    hide Snug, heap.Sound, heap.Foreign, Open, Chain, Others, Content, Live, Written, RecordBytes;
    k := InlineKey(index, key);
    var rest, v := key, val;
    var size: nat := |key| + |val| + 8;
    a := FirstSlice(heap, size);
    chain := [a];
    var hdr := a;
    OpenLast(Live(heap.blocks), chain);
    InLive(heap.blocks, hdr);
    var capacity: nat := |heap.blocks[hdr].bytes|;
    CopyInto(heap, hdr, 0, Le(size), chain);
    CopyInto(heap, hdr, 4, Le(|key|), chain);
    BytesAre(key, val);
    var p: nat := 8;
    if capacity < size {
      size := size - 8;
      capacity := capacity - 8;
      while capacity < |rest|
        invariant heap.Sound({}) && heap.Foreign() == old(heap.Foreign())
        invariant old(Snug(heap.blocks, {})) ==> Snug(heap.blocks, {})
        invariant hdr.page in heap.dirty && old(heap.dirty) <= heap.dirty
        invariant Open(Live(heap.blocks), chain) && Others(Live(heap.blocks), chain) == Live(old(heap.blocks))
        invariant chain != [] && chain[0] == a && hdr == Last(chain) && hdr in Live(heap.blocks)
        invariant p + capacity == |Live(heap.blocks)[hdr].bytes| && 0 < capacity <= size == |rest| + |v|
        invariant Written(Live(heap.blocks), chain, p) + rest + v == RecordBytes(key, val)
        decreases |rest|
      {
        Advance(Written(Live(heap.blocks), chain, p), rest, v, capacity);
        size := size - capacity;
        hdr := CopyAndAdd(heap, hdr, p, rest[..capacity], size, chain);
        chain := chain + [hdr];
        rest := rest[capacity..];
        capacity := |heap.blocks[hdr].bytes|;
        p := 0;
      }
      CopyInto(heap, hdr, p, rest, chain);
      p, capacity := p + |rest|, capacity - |rest|;
      while capacity < |v|
        invariant heap.Sound({}) && heap.Foreign() == old(heap.Foreign())
        invariant old(Snug(heap.blocks, {})) ==> Snug(heap.blocks, {})
        invariant hdr.page in heap.dirty && old(heap.dirty) <= heap.dirty
        invariant Open(Live(heap.blocks), chain) && Others(Live(heap.blocks), chain) == Live(old(heap.blocks))
        invariant chain != [] && chain[0] == a && hdr == Last(chain) && hdr in Live(heap.blocks)
        invariant p + capacity == |Live(heap.blocks)[hdr].bytes| && capacity <= |v|
        invariant p == 0 ==> capacity > 0
        invariant Written(Live(heap.blocks), chain, p) + v == RecordBytes(key, val)
        decreases |v|, p
      {
        Advance(Written(Live(heap.blocks), chain, p), v, [], capacity);
        hdr := CopyAndAdd(heap, hdr, p, v[..capacity], |v| - capacity, chain);
        chain := chain + [hdr];
        v := v[capacity..];
        capacity := |heap.blocks[hdr].bytes|;
        p := 0;
      }
    } else {
      CopyInto(heap, hdr, p, rest, chain);
      p := p + |rest|;
    }
    CopyInto(heap, hdr, p, v, chain);
    WrittenAll(Live(heap.blocks), chain);
    EndChain(heap, hdr, chain);
    HoldsIs(Live(heap.blocks), chain, key, val);
  }

  lemma HoldsIs(live: Blocks, chain: seq<Pos>, key: Octets, val: Octets)
    requires 8 + |key| + |val| < WORD && Chain(live, chain) && Content(live, chain) == RecordBytes(key, val)
    ensures Holds(live, chain, key, val)
  {
  }

  lemma BytesAre(key: Octets, val: Octets)
    requires 8 + |key| + |val| < WORD
    ensures [] + Le(|key| + |val| + 8) + Le(|key|) + key + val == RecordBytes(key, val)
    ensures |RecordBytes(key, val)| == 8 + |key| + |val|
  {
  }

  lemma Advance(w: Octets, s: Octets, t: Octets, n: nat)
    requires n <= |s|
    ensures w + s[..n] + s[n..] + t == w + s + t && w + s[..n] + s[n..] == w + s
  {
    assert s == s[..n] + s[n..];
  }

  // ----- free_data -----

  /** Every block of the chain is given up, once. */
  method FreeData(heap: DataHeap, first: Pos, ghost chain: seq<Pos>)
    requires heap.Sound({}) && Ends(Live(heap.blocks), chain) && first == chain[0]
    requires first.page in heap.dirty
    modifies heap, heap.space
    ensures heap.Sound({}) && heap.Foreign() == old(heap.Foreign())
    ensures Live(heap.blocks) == Others(Live(old(heap.blocks)), chain)
    ensures old(heap.dirty) <= heap.dirty
    ensures old(Snug(heap.blocks, {})) ==> Snug(heap.blocks, {})
  {
    hide Snug, heap.Sound, heap.Foreign, Ends, Others, Live;
    ghost var path := chain;
    EndsFirst(Live(heap.blocks), chain);
    var hdr, more := first, true;
    while more
      invariant heap.Sound({}) && heap.Foreign() == old(heap.Foreign())
      invariant old(Snug(heap.blocks, {})) ==> Snug(heap.blocks, {})
      invariant (more ==> hdr.page in heap.dirty) && old(heap.dirty) <= heap.dirty
      invariant more ==> path != [] && hdr == path[0] && Ends(Live(heap.blocks), path)
      invariant !more ==> path == []
      invariant Others(Live(heap.blocks), path) == Others(Live(old(heap.blocks)), chain)
      decreases |path|, more
    {
      EndsFirst(Live(heap.blocks), path);
      InLive(heap.blocks, hdr);
      PathWithout(Live(heap.blocks), path);
      var next := heap.FreeBlock(hdr);
      path := path[1..];
      if next.page != 0 {
        hdr := next;
        heap.SetDirty(hdr.page);
      } else {
        more := false;
      }
    }
    NoOthers(Live(heap.blocks));
  }

  lemma EndsIsPath(live: Blocks, chain: seq<Pos>)
    requires Ends(live, chain)
    ensures Path(live, chain) && forall i | 0 <= i < |chain| :: chain[i] in live
  {
  }

  lemma EndsFirst(live: Blocks, path: seq<Pos>)
    requires Ends(live, path)
    ensures path != [] && path[0] in live
  {
  }

  lemma NoOthers(live: Blocks)
    ensures Others(live, []) == live
  {
  }

  // ----- reading -----

  /** extract_data: the whole record. The first word says how much room it takes. */
  method ExtractData(heap: DataHeap, first: Pos, ghost chain: seq<Pos>, ghost key: Octets, ghost val: Octets)
    returns (size: nat, data: Octets)
    requires heap.Sound({}) && Holds(Live(heap.blocks), chain, key, val) && first == chain[0]
    ensures data == RecordBytes(key, val) && |data| == size
  {
    hide heap.Sound, Live, Content, Path, Open, Ends, Holds, RecordBytes, Word, Le;
    ghost var live, i := Live(heap.blocks), 0;
    FirstWords(live, chain, key, val);
    HoldsPath(live, chain, key, val);
    RecordLength(key, val);
    InLive(heap.blocks, first);
    size := Word(heap.blocks[first].bytes);
    data := [];
    var hdr, more := first, true;
    SliceLast(live, chain);
    while more
      invariant i <= |chain| && (forall j | 0 <= j < |chain| :: chain[j] in live)
      invariant data == Content(live, chain[..i])
      invariant more ==> i < |chain| && hdr == chain[i]
      invariant !more ==> i == |chain|
      decreases |chain| - i, more
    {
      InLive(heap.blocks, hdr);
      SliceIn(live, chain, i);
      LinkOf(live, chain, i);
      data := data + heap.blocks[hdr].bytes;
      i := i + 1;
      if heap.blocks[hdr].link.page == 0 {
        more := false;
      } else {
        hdr := heap.blocks[hdr].link;
      }
    }
  }

  /** extract_key */
  method ExtractKey(heap: DataHeap, first: Pos, ghost chain: seq<Pos>, ghost key: Octets, ghost val: Octets)
    returns (data: Octets)
    requires heap.Sound({}) && Holds(Live(heap.blocks), chain, key, val) && first == chain[0]
    ensures data == key
  {
    hide heap.Sound, Live, Content, Path, Open, Ends, Holds, RecordBytes, Word, Le;
    ghost var live, i: nat := Live(heap.blocks), 0;
    FirstWords(live, chain, key, val);
    HoldsPath(live, chain, key, val);
    RecordLength(key, val);
    InLive(heap.blocks, first);
    var hdr := first;
    var bytes := heap.blocks[hdr].bytes;
    var copyLen: nat := Word(bytes[4..]);
    var min: nat := |bytes| - 8;
    SliceLast(live, chain);
    SliceIn(live, chain, 0);
    ghost var r := Content(live, chain);
    if copyLen <= min {
      PartOf(r, bytes, 0, 8, 8 + copyLen, key);
      return bytes[8..8 + copyLen];
    }
    PartOf(r, bytes, 0, 8, 8 + min, key);
    data := bytes[8..8 + min];
    copyLen := copyLen - min;
    while copyLen != 0
      invariant i < |chain| && hdr == chain[i] && hdr in live
      invariant |data| + copyLen == |key| && data == key[..|data|]
      invariant copyLen > 0 ==> |Content(live, chain[..i + 1])| == 8 + |data|
      decreases copyLen
    {
      NotTheLast(live, chain, i);
      InLive(heap.blocks, hdr);
      LinkOf(live, chain, i);
      i := i + 1;
      hdr := heap.blocks[hdr].link;
      LinkOf(live, chain, i);
      InLive(heap.blocks, hdr);
      SliceIn(live, chain, i);
      NotEmpty(live, chain, i);
      bytes := heap.blocks[hdr].bytes;
      min := if copyLen < |bytes| then copyLen else |bytes|;
      PartOf(r, bytes, 8 + |data|, 0, min, key);
      data := data + bytes[..min];
      copyLen := copyLen - min;
    }
  }

  /** A part of a slice is a part of the key. */
  lemma PartOf(r: Octets, bytes: Octets, at: nat, x: nat, y: nat, key: Octets)
    requires at + |bytes| <= |r| && r[at..at + |bytes|] == bytes && x <= y <= |bytes|
    requires 8 <= at + x && at + y <= 8 + |key| <= |r| && r[8..8 + |key|] == key
    ensures bytes[x..y] == key[at + x - 8..at + y - 8]
    ensures key[..at + x - 8] + bytes[x..y] == key[..at + y - 8]
    ensures x == 0 ==> bytes[x..y] == bytes[..y]
  {
    Part(r, at, |bytes|, x, y);
    Part(r, 8, |key|, at + x - 8, at + y - 8);
  }

  /** While the content is not used up there is a next slice. */
  lemma NotTheLast(live: Blocks, chain: seq<Pos>, i: nat)
    requires Ends(live, chain) && i < |chain| && |Content(live, chain[..i + 1])| < |Content(live, chain)|
    ensures i + 1 < |chain|
  {
    assert chain[..|chain|] == chain;
  }

  lemma NotEmpty(live: Blocks, chain: seq<Pos>, i: nat)
    requires Open(live, chain) && i < |chain|
    ensures |live[chain[i]].bytes| > 0
  {
  }

  /** The loop that passes over the words and the key: to the slice where they end. */
  method PassKey(heap: DataHeap, first: Pos, pass: nat, ghost chain: seq<Pos>)
    returns (hdr: Pos, passLen: nat, ghost i: nat)
    requires heap.Sound({}) && Ends(Live(heap.blocks), chain) && first == chain[0]
    requires 0 < pass <= |Content(Live(heap.blocks), chain)|
    ensures i < |chain| && hdr == chain[i] && hdr in Live(heap.blocks) && hdr in heap.blocks
    ensures 0 < passLen <= |Live(heap.blocks)[hdr].bytes| && heap.blocks[hdr] == Live(heap.blocks)[hdr]
    ensures |Content(Live(heap.blocks), chain[..i])| + passLen == pass
  {
    hide heap.Sound, Live, Content, Path, Ends;
    ghost var live := Live(heap.blocks);
    hdr, passLen, i := first, pass, 0;
    EndsIsPath(live, chain);
    SliceLast(live, chain);
    LinkOf(live, chain, 0);
    InLive(heap.blocks, hdr);
    while passLen > |heap.blocks[hdr].bytes|
      invariant i < |chain| && hdr == chain[i] && hdr in live && hdr in heap.blocks && heap.blocks[hdr] == live[hdr]
      invariant 0 < passLen && |Content(live, chain[..i])| + passLen == pass
      decreases |chain| - i
    {
      SliceIn(live, chain, i);
      NotTheLast(live, chain, i);
      LinkOf(live, chain, i);
      passLen := passLen - |heap.blocks[hdr].bytes|;
      hdr := heap.blocks[hdr].link;
      i := i + 1;
      LinkOf(live, chain, i);
      InLive(heap.blocks, hdr);
    }
  }

  /** extract_val */
  method ExtractVal(heap: DataHeap, first: Pos, ghost chain: seq<Pos>, ghost key: Octets, ghost val: Octets)
    returns (valLen: int, data: Octets)
    requires heap.Sound({}) && Holds(Live(heap.blocks), chain, key, val) && first == chain[0]
    ensures data == val && valLen == |val|
  {
    hide heap.Sound, Live, Content, Path, Open, Ends, Holds, RecordBytes, Word, Le;
    ghost var live := Live(heap.blocks);
    FirstWords(live, chain, key, val);
    HoldsPath(live, chain, key, val);
    RecordLength(key, val);
    InLive(heap.blocks, first);
    var size, keyLen := Word(heap.blocks[first].bytes), Word(heap.blocks[first].bytes[4..]);
    valLen := size - keyLen - 8;
    SliceLast(live, chain);
    ghost var r := Content(live, chain);
    ghost var i;
    var hdr, passLen;
    hdr, passLen, i := PassKey(heap, first, keyLen + 8, chain);
    SliceIn(live, chain, i);
    data := heap.blocks[hdr].bytes[passLen..];
    Rest(r, heap.blocks[hdr].bytes, |Content(live, chain[..i])|, passLen);
    LinkOf(live, chain, i);
    while heap.blocks[hdr].link.page != 0
      invariant i < |chain| && hdr == chain[i] && hdr in live && hdr in heap.blocks && heap.blocks[hdr] == live[hdr]
      invariant 8 + |key| + |data| == |Content(live, chain[..i + 1])| <= |r|
      invariant data == r[8 + |key|..8 + |key| + |data|]
      decreases |chain| - i
    {
      LinkOf(live, chain, i);
      hdr := heap.blocks[hdr].link;
      i := i + 1;
      LinkOf(live, chain, i);
      InLive(heap.blocks, hdr);
      SliceIn(live, chain, i);
      More(r, 8 + |key|, data, heap.blocks[hdr].bytes);
      data := data + heap.blocks[hdr].bytes;
    }
    LinkOf(live, chain, i);
  }

  lemma Rest(r: Octets, bytes: Octets, at: nat, pass: nat)
    requires at + |bytes| <= |r| && r[at..at + |bytes|] == bytes && pass <= |bytes|
    ensures bytes[pass..] == r[at + pass..at + |bytes|]
  {
  }

  lemma More(r: Octets, from: nat, data: Octets, bytes: Octets)
    requires from + |data| + |bytes| <= |r| && data == r[from..from + |data|]
    requires bytes == r[from + |data|..from + |data| + |bytes|]
    ensures data + bytes == r[from..from + |data| + |bytes|]
  {
  }

  // ----- put_replace -----

  /** memcpy at the end of the last slice, whose size is set to end there */
  method CopyEnd(heap: DataHeap, hdr: Pos, p: nat, data: Octets, ghost chain: seq<Pos>)
    requires heap.Sound({}) && Open(Live(heap.blocks), chain) && hdr == Last(chain) && hdr in heap.blocks
    requires p <= |Live(heap.blocks)[hdr].bytes| && 0 < p + |data| <= Capacity(heap.blocks, hdr)
    requires |chain| == 1 ==> p + |data| >= 8
    requires hdr.page in heap.dirty
    modifies heap`blocks
    ensures heap.Sound({}) && heap.Foreign() == old(heap.Foreign())
    ensures Open(Live(heap.blocks), chain) && Others(Live(heap.blocks), chain) == Others(Live(old(heap.blocks)), chain)
    ensures Content(Live(heap.blocks), chain) == Written(Live(old(heap.blocks)), chain, p) + data
    ensures hdr in heap.blocks && heap.blocks[hdr].size == p + |data|
    ensures hdr in Live(heap.blocks) && Live(heap.blocks)[hdr].link == Live(old(heap.blocks))[hdr].link
    ensures heap.blocks[hdr].link == Live(heap.blocks)[hdr].link
    ensures old(Snug(heap.blocks, {})) ==> Snug(heap.blocks, {hdr})
    ensures p + |data| == old(Capacity(heap.blocks, hdr)) ==> old(Snug(heap.blocks, {})) ==> Snug(heap.blocks, {})
  {
    hide Snug, heap.Sound, heap.Foreign, Open, Others, Content, Live, Written;
    ghost var live := Live(heap.blocks);
    OpenLast(live, chain);
    InLive(heap.blocks, hdr);
    heap.BlockSizes(hdr);
    WriteEnd(live, chain, p, data);
    heap.Store(hdr, p, data, p + |data|);
    assert Stored(live[hdr], p, data, p + |data|)
      == live[hdr].(size := p + |data|, bytes := live[hdr].bytes[..p] + data);
  }

  /** adjust_data_head on the last slice */
  method Trim(heap: DataHeap, hdr: Pos, ghost chain: seq<Pos>)
    requires heap.Sound({}) && Open(Live(heap.blocks), chain) && hdr == Last(chain) && hdr in heap.blocks
    requires hdr.page in heap.dirty
    modifies heap, heap.space
    ensures heap.Sound({}) && heap.Foreign() == old(heap.Foreign())
    ensures Open(Live(heap.blocks), chain) && Others(Live(heap.blocks), chain) == Others(Live(old(heap.blocks)), chain)
    ensures Content(Live(heap.blocks), chain) == Content(Live(old(heap.blocks)), chain)
    ensures old(heap.dirty) <= heap.dirty
    ensures old(Snug(heap.blocks, {hdr})) ==> Snug(heap.blocks, {})
  {
    hide Snug, heap.Sound, heap.Foreign, Open, Others, Content, Live;
    ghost var live := Live(heap.blocks);
    OpenLast(live, chain);
    InLive(heap.blocks, hdr);
    heap.BlockSizes(hdr);
    heap.AdjustHead(hdr, heap.blocks[hdr].size);
    SameBytes(live, chain, heap.blocks[hdr].next);
  }

  /** The old slices that are no longer needed are freed, and the chain is ended. */
  method DropAndEnd(heap: DataHeap, hdr: Pos, ndr: Pos, ghost chain: seq<Pos>, ghost rest: seq<Pos>)
    requires heap.Sound({}) && Open(Live(heap.blocks), chain) && hdr == Last(chain)
    requires if ndr.page == 0 then rest == [] else Ends(Others(Live(heap.blocks), chain), rest) && ndr == rest[0]
    requires hdr.page in heap.dirty && (ndr.page != 0 ==> ndr.page in heap.dirty)
    modifies heap, heap.space
    ensures heap.Sound({}) && heap.Foreign() == old(heap.Foreign())
    ensures Chain(Live(heap.blocks), chain)
      && Content(Live(heap.blocks), chain) == Content(Live(old(heap.blocks)), chain)
    ensures Others(Live(heap.blocks), chain) == Others(Others(Live(old(heap.blocks)), chain), rest)
    ensures old(heap.dirty) <= heap.dirty
    ensures old(Snug(heap.blocks, {})) ==> Snug(heap.blocks, {})
  {
    hide Snug, heap.Sound, heap.Foreign, Open, Others, Content, Live, Ends, Chain;
    ghost var live := Live(heap.blocks);
    NoOthers(Others(live, chain));
    if ndr.page != 0 {
      DropRest(live, chain, rest, Others(live, chain));
      FreeData(heap, ndr, rest);
    }
    EndChain(heap, hdr, chain);
  }

  /** The old slices are used again as far as they serve; then new ones are taken, and the others left over. */
  method RewriteRest(heap: DataHeap, last: Pos, val: Octets, ghost kept: seq<Pos>, ghost left: seq<Pos>)
    returns (hdr: Pos, ndr: Pos, ghost chain: seq<Pos>, ghost rest: seq<Pos>)
    requires heap.Sound({}) && Attached(Live(heap.blocks), kept, left) && last == Last(kept) && |val| > 0
    requires last.page in heap.dirty
    modifies heap, heap.space
    ensures heap.Sound({}) && heap.Foreign() == old(heap.Foreign())
    ensures Open(Live(heap.blocks), chain) && hdr == Last(chain) && chain[0] == kept[0]
    ensures Content(Live(heap.blocks), chain) == Content(Live(old(heap.blocks)), kept) + val
    ensures if ndr.page == 0 then rest == [] else Ends(Others(Live(heap.blocks), chain), rest) && ndr == rest[0]
    ensures Others(Others(Live(heap.blocks), chain), rest) == Others(Others(Live(old(heap.blocks)), kept), left)
    ensures old(heap.dirty) <= heap.dirty && hdr.page in heap.dirty && (ndr.page != 0 ==> ndr.page in heap.dirty)
    ensures old(Snug(heap.blocks, {})) ==> Snug(heap.blocks, {})
    ensures ReusedAs(Live(old(heap.blocks)), kept, left, |val|, chain, rest)
  {
    hide Snug, Reusing, ReusedAs, Reused, heap.Sound, heap.Foreign, Open, Others, Content, Live, Ends, Written,
      Attached;
    hdr, chain, rest := last, kept, left;
    var v := val;
    AttachedLast(Live(heap.blocks), chain, rest);
    OpenLast(Live(heap.blocks), chain);
    ghost var bytes := Content(Live(heap.blocks), kept) + val;
    InLive(heap.blocks, hdr);
    ndr := heap.blocks[hdr].link;
    if ndr.page != 0 {
      heap.SetDirty(ndr.page);
      InLive(heap.blocks, ndr);
      heap.BlockSizes(ndr);
    }
    ReusingFirst(Live(heap.blocks), kept, left, |val|);
    while ndr.page != 0 && heap.blocks[ndr].size < |v| && heap.blocks[ndr].size == PAGEMAXSPARE
      invariant heap.Sound({}) && heap.Foreign() == old(heap.Foreign())
      invariant old(Snug(heap.blocks, {})) ==> Snug(heap.blocks, {})
      invariant old(heap.dirty) <= heap.dirty && hdr.page in heap.dirty && (ndr.page != 0 ==> ndr.page in heap.dirty)
      invariant chain != [] && hdr == Last(chain) && chain[0] == kept[0] && Attached(Live(heap.blocks), chain, rest)
      invariant Open(Live(heap.blocks), chain)
      invariant if ndr.page == 0 then rest == []
                else rest != [] && ndr == rest[0] && ndr in Live(heap.blocks) && ndr in heap.blocks &&
                     heap.blocks[ndr] == Live(heap.blocks)[ndr] && |heap.blocks[ndr].bytes| == heap.blocks[ndr].size
      invariant forall i | 0 <= i < |chain| :: chain[i] in Live(heap.blocks)
      invariant Content(Live(heap.blocks), chain) + v == bytes
      invariant Others(Others(Live(heap.blocks), chain), rest) == Others(Others(Live(old(heap.blocks)), kept), left)
      invariant |v| > 0
      invariant Reusing(Live(old(heap.blocks)), Live(heap.blocks), kept, left, |val|, chain, rest, |v|)
      decreases |v|
    {
      var capacity := heap.blocks[ndr].size;
      ghost var was, chain0, rest0, n := Live(heap.blocks), chain, rest, |v|;
      TakeOver(Live(heap.blocks), chain, rest);
      AttachedOpen(Live(heap.blocks), chain + [ndr], rest[1..]);
      hdr, chain, rest := ndr, chain + [ndr], rest[1..];
      ghost var live := Live(heap.blocks);
      CopyInto(heap, hdr, 0, v[..capacity], chain);
      WrittenAll(Live(heap.blocks), chain);
      AttachedStays(live, Live(heap.blocks), chain, rest);
      OpenLast(Live(heap.blocks), chain);
      Advance(Written(live, chain, 0), v, [], capacity);
      v := v[capacity..];
      ReusingNext(Live(old(heap.blocks)), was, Live(heap.blocks), kept, left, |val|, chain0, rest0, n);
      AttachedLast(Live(heap.blocks), chain, rest);
      ndr := heap.blocks[hdr].link;
      if ndr.page != 0 {
        heap.SetDirty(ndr.page);
        InLive(heap.blocks, ndr);
        heap.BlockSizes(ndr);
      }
    }
    if ndr.page != 0 && Capacity(heap.blocks, ndr) >= |v| {
      ReusingLast(Live(old(heap.blocks)), Live(heap.blocks), kept, left, |val|, chain, rest, |v|);
      TakeOver(Live(heap.blocks), chain, rest);
      AttachedOpen(Live(heap.blocks), chain + [ndr], rest[1..]);
      hdr, chain, rest := ndr, chain + [ndr], rest[1..];
      AttachedLast(Live(heap.blocks), chain, rest);
      AttachedEnds(Live(heap.blocks), chain, rest);
      ndr := if heap.blocks[hdr].link.page != 0 then heap.blocks[hdr].link else NONE;
      if ndr.page != 0 { heap.SetDirty(ndr.page); }
      CopyEnd(heap, hdr, 0, v, chain);
      Trim(heap, hdr, chain);
    } else {
      AttachedEnds(Live(heap.blocks), chain, rest);
      ghost var was, chain0 := Live(heap.blocks), chain;
      hdr, chain := AddSlices(heap, hdr, v, chain);
      ReusingNone(Live(old(heap.blocks)), was, kept, left, |val|, chain0, rest, |v|, chain);
    }
  }

  /** New slices for what is left of the value. */
  method AddSlices(heap: DataHeap, last: Pos, val: Octets, ghost kept: seq<Pos>) returns (hdr: Pos,
                   ghost chain: seq<Pos>)
    requires heap.Sound({}) && Open(Live(heap.blocks), kept) && last == Last(kept)
    requires last.page in heap.dirty
    modifies heap, heap.space
    ensures heap.Sound({}) && heap.Foreign() == old(heap.Foreign())
    ensures Open(Live(heap.blocks), chain) && hdr == Last(chain) && chain[0] == kept[0]
    ensures Content(Live(heap.blocks), chain) == Content(Live(old(heap.blocks)), kept) + val
    ensures Others(Live(heap.blocks), chain) == Others(Live(old(heap.blocks)), kept)
    ensures old(heap.dirty) <= heap.dirty && hdr.page in heap.dirty
    ensures old(Snug(heap.blocks, {})) ==> Snug(heap.blocks, {})
    ensures kept <= chain && forall i | |kept| <= i < |chain| :: chain[i] !in Live(old(heap.blocks))
  {
    hide Snug, heap.Sound, heap.Foreign, Open, Others, Content, Live, Written;
    hdr, chain := last, kept;
    var v := val;
    OpenLast(Live(heap.blocks), chain);
    ghost var bytes := Content(Live(heap.blocks), kept) + val;
    while |v| > 0
      invariant heap.Sound({}) && heap.Foreign() == old(heap.Foreign())
      invariant old(Snug(heap.blocks, {})) ==> Snug(heap.blocks, {})
      invariant old(heap.dirty) <= heap.dirty && hdr.page in heap.dirty
      invariant Open(Live(heap.blocks), chain) && chain != [] && hdr == Last(chain) && chain[0] == kept[0]
      invariant forall i | 0 <= i < |chain| :: chain[i] in Live(heap.blocks)
      invariant Content(Live(heap.blocks), chain) + v == bytes
      invariant Others(Live(heap.blocks), chain) == Others(Live(old(heap.blocks)), kept)
      invariant kept <= chain && forall i | |kept| <= i < |chain| :: chain[i] !in Live(old(heap.blocks))
      decreases |v|
    {
      KeysGrow(Live(old(heap.blocks)), Live(heap.blocks), kept, chain);
      hdr := AddSliceAfter(heap, hdr, |v|, chain);
      chain := chain + [hdr];
      var capacity := |heap.blocks[hdr].bytes|;
      Advance(Written(Live(heap.blocks), chain, 0), v, [], capacity);
      CopyInto(heap, hdr, 0, v[..capacity], chain);
      WrittenAll(Live(heap.blocks), chain);
      OpenLast(Live(heap.blocks), chain);
      v := v[capacity..];
    }
  }

  lemma AttachedLast(live: Blocks, chain: seq<Pos>, rest: seq<Pos>)
    requires Attached(live, chain, rest)
    ensures chain != [] && Last(chain) in live && Open(live, chain)
    ensures live[Last(chain)].link.page == 0 <==> rest == []
    ensures rest != [] ==> live[Last(chain)].link == rest[0] && rest[0] in live
  {
    if rest != [] {
      assert rest[0] in Others(live, chain);
    }
  }

  lemma KeysGrow(live: Blocks, live': Blocks, kept: seq<Pos>, chain: seq<Pos>)
    requires Others(live', chain) == Others(live, kept) && kept <= chain
    requires forall i | 0 <= i < |chain| :: chain[i] in live'
    ensures forall c | c in live :: c in live'
  {
    forall c | c in live ensures c in live' {
      if c in kept {
        var i :| 0 <= i < |kept| && kept[i] == c;
        assert chain[i] == c;
      } else {
        assert c in Others(live, kept);
      }
    }
  }

  lemma AttachedOpen(live: Blocks, chain: seq<Pos>, rest: seq<Pos>)
    requires Attached(live, chain, rest)
    ensures Open(live, chain)
  {
  }

  lemma AttachedEnds(live: Blocks, chain: seq<Pos>, rest: seq<Pos>)
    requires Attached(live, chain, rest)
    ensures rest != [] ==> Ends(Others(live, chain), rest)
  {
  }

  method WriteWord(heap: DataHeap, first: Pos, w: Octets, ghost chain: seq<Pos>)
    requires heap.Sound({}) && Chain(Live(heap.blocks), chain) && first == chain[0] && |w| == 4
    requires first.page in heap.dirty
    modifies heap`blocks
    ensures heap.Sound({}) && heap.Foreign() == old(heap.Foreign())
    ensures Chain(Live(heap.blocks), chain) && Others(Live(heap.blocks), chain) == Others(Live(old(heap.blocks)), chain)
    ensures |Content(Live(old(heap.blocks)), chain)| >= 8
    ensures Content(Live(heap.blocks), chain) == w + Content(Live(old(heap.blocks)), chain)[4..]
    ensures old(Snug(heap.blocks, {})) ==> Snug(heap.blocks, {})
  {
    hide Snug, heap.Sound, heap.Foreign, Open, Others, Content, Live, Chain;
    ghost var live := Live(heap.blocks);
    RewriteWord(live, chain, w);
    ChainFirst(live, chain);
    InLive(heap.blocks, first);
    heap.BlockSizes(first);
    heap.Store(first, 0, w, |heap.blocks[first].bytes|);
    assert Stored(live[first], 0, w, |live[first].bytes|) == live[first].(bytes := Poked(live[first].bytes, 0, w));
  }

  lemma ChainFirst(live: Blocks, chain: seq<Pos>)
    requires Chain(live, chain)
    ensures chain != [] && chain[0] in live && |live[chain[0]].bytes| >= 8
    ensures Ends(live, chain) && Open(live, chain)
    ensures forall i | 0 <= i < |chain| :: chain[i] in live
  {
  }

  /** put_replace: the record gets a new value, and the old one is returned if it is wanted. */
  method PutReplace(heap: DataHeap, index: IndexKey, first: Pos, key: Octets, val: Octets, needOrigin: bool,
                    ghost chain: seq<Pos>, ghost was: Octets)
    returns (k: IndexKey, a: Pos, origin: Octets, made: bool, ghost chain': seq<Pos>)
    requires heap.Sound({}) && Holds(Live(heap.blocks), chain, key, was) && first == chain[0]
    requires |index.key| == INLINE && 8 + |key| + |val| < WORD
    modifies heap, heap.space
    ensures heap.Sound({}) && heap.Foreign() == old(heap.Foreign())
    ensures Holds(Live(heap.blocks), chain', key, val) && a == chain'[0]
    ensures Others(Live(heap.blocks), chain') == Others(Live(old(heap.blocks)), chain)
    ensures needOrigin ==> origin == was
    ensures if made then k == InlineKey(index, key) else k == index && a == first
    ensures old(heap.dirty) <= heap.dirty
    ensures old(Snug(heap.blocks, {})) ==> Snug(heap.blocks, {})
    ensures first in Live(old(heap.blocks))
    ensures var size, capacity := 8 + |key| + |val|, Capacity(Live(old(heap.blocks)), first);
      made <==> if size <= 4076 then capacity < size else capacity < 4076
    ensures !needOrigin ==> origin == []
  {
    hide Snug, heap.Sound, heap.Foreign, Open, Others, Content, Live, Chain, Ends, Written, Attached, Holds,
      RecordBytes;
    k, a, origin, made, chain' := index, first, [], false, chain;
    heap.SetDirty(first.page);
    HoldsChain(Live(heap.blocks), chain, key, was);
    if needOrigin {
      var _, data := ExtractVal(heap, first, chain, key, was);
      origin := data;
    }
    ChainFirst(Live(heap.blocks), chain);
    InLive(heap.blocks, first);
    var passLen: nat := |key| + 8;
    var size := passLen + |val|;
    var capacity := Capacity(heap.blocks, first);
    if (size <= PAGEMAXSPARE && capacity < size) || (size > PAGEMAXSPARE && capacity < PAGEMAXSPARE) {
      FreeData(heap, first, chain);
      k, a, chain' := CreateNode(heap, index, key, val);
      made := true;
      return;
    }
    WriteWord(heap, first, Le(size), chain);
    ChainFirst(Live(heap.blocks), chain);
    NewHeader(key, val, was, Content(Live(heap.blocks), chain));
    chain' := RewriteValue(heap, first, key, val, chain);
    HoldsIs(Live(heap.blocks), chain', key, val);
  }

  lemma HoldsChain(live: Blocks, chain: seq<Pos>, key: Octets, val: Octets)
    requires Holds(live, chain, key, val)
    ensures Chain(live, chain) && Ends(live, chain) && Open(live, chain) && 8 + |key| + |val| < WORD
    ensures Content(live, chain) == RecordBytes(key, val)
  {
  }

  /** The words and the key at the front of the record, before its value. */
  ghost predicate Begins(r: Octets, key: Octets, val: Octets)
    requires 8 + |key| + |val| < WORD
  {
    8 + |key| <= |r| && r[..8 + |key|] == RecordBytes(key, val)[..8 + |key|]
  }

  lemma NewHeader(key: Octets, val: Octets, was: Octets, r: Octets)
    requires 8 + |key| + |val| < WORD && 8 + |key| + |was| < WORD
    requires r == Le(8 + |key| + |val|) + RecordBytes(key, was)[4..]
    ensures Begins(r, key, val)
  {
    hide Le;
    assert RecordBytes(key, was)[4..][..4 + |key|] == Le(|key|) + key;
    assert r[..8 + |key|] == Le(8 + |key| + |val|) + Le(|key|) + key;
  }

  /** The value is written after the key: over what is there, and further. */
  method RewriteValue(heap: DataHeap, first: Pos, key: Octets, val: Octets, ghost chain: seq<Pos>)
    returns (ghost chain': seq<Pos>)
    requires heap.Sound({}) && Chain(Live(heap.blocks), chain) && first == chain[0]
    requires 8 + |key| + |val| < WORD && Begins(Content(Live(heap.blocks), chain), key, val)
    modifies heap, heap.space
    ensures heap.Sound({}) && heap.Foreign() == old(heap.Foreign())
    ensures Chain(Live(heap.blocks), chain') && Content(Live(heap.blocks), chain') == RecordBytes(key, val)
    ensures Others(Live(heap.blocks), chain') == Others(Live(old(heap.blocks)), chain)
    ensures chain'[0] == first
    ensures old(heap.dirty) <= heap.dirty
    ensures old(Snug(heap.blocks, {})) ==> Snug(heap.blocks, {})
  {
    hide Snug, heap.Sound, heap.Foreign, Open, Others, Content, Live, Chain, Ends, Written, Attached, RecordBytes;
    ghost var live := Live(heap.blocks);
    ChainFirst(live, chain);
    RecordLength(key, val);
    ghost var i;
    var hdr, passLen;
    hdr, passLen, i := PassKey(heap, first, |key| + 8, chain);
    heap.SetDirty(hdr.page);
    Beginning(live, chain, i, passLen);
    AttachedAt(live, chain, i + 1);
    heap.BlockSizes(hdr);
    OneSlice(live, chain, i);
    ghost var rest;
    chain', rest := chain[..i + 1], chain[i + 1..];
    AttachedLast(live, chain', rest);
    AttachedEnds(live, chain', rest);
    var capacity: nat := Capacity(heap.blocks, hdr) - passLen;
    var ndr := NONE;
    if |val| <= capacity {
      CopyEnd(heap, hdr, passLen, val, chain');
      if heap.blocks[hdr].link.page != 0 {
        ndr := heap.blocks[hdr].link;
        heap.SetDirty(ndr.page);
      }
      Trim(heap, hdr, chain');
      FullRecord(key, val, val, []);
    } else {
      CopyEnd(heap, hdr, passLen, val[..capacity], chain');
      AttachedStays(live, Live(heap.blocks), chain', rest);
      FullRecord(key, val, val[..capacity], val[capacity..]);
      hdr, ndr, chain', rest := RewriteRest(heap, hdr, val[capacity..], chain', rest);
    }
    DropAndEnd(heap, hdr, ndr, chain', rest);
  }

  lemma FullRecord(key: Octets, val: Octets, v: Octets, w: Octets)
    requires 8 + |key| + |val| < WORD && val == v + w
    ensures RecordBytes(key, val)[..8 + |key|] + v + w == RecordBytes(key, val)
    ensures w == [] ==> RecordBytes(key, val)[..8 + |key|] + v == RecordBytes(key, val)
  {
    hide Le;
  }

  lemma OneSlice(live: Blocks, chain: seq<Pos>, i: nat)
    requires Open(live, chain) && i < |chain|
    ensures |chain[..i + 1]| == 1 ==> |Content(live, chain[..i])| == 0
  {
  }

  // ----- records and the order of keys -----

  /** The index slot made with a record names its key: compare sees the key that was stored. */
  lemma RecordNames(live: Blocks, chain: seq<Pos>, index: IndexKey, key: Octets, val: Octets)
    requires Holds(live, chain, key, val) && key != [] && |index.key| == INLINE
    ensures Names(InlineKey(index, key), SlicesOf(live, chain), key)
  {
    hide RecordBytes, Word, Le;
    FirstWords(live, chain, key, val);
    RecordLength(key, val);
  }
}
