/** A table: the tree of index pages and the data heap in one file, as PageCache's put, find and del see it. */
module Table {
  import opened Places
  import opened Octets
  import opened KeyOrder
  import opened IndexPage
  import opened SavedFile
  import opened PageSpace
  import opened TreeState
  import opened TreeOrder
  import opened BTree
  import opened HeapState
  import opened HeapSteps
  import opened FreeBlocks
  import opened DataHeap
  import opened Slices
  import opened Records
  import TableUndo
  import F = FileImages

  type Chains = map<Octets, seq<Pos>>
  type Contents = map<Octets, Octets>

  // ----- which record lies where -----

  /** The record of key k lies in its chain, and the blocks of the chain belong to k. */
  ghost predicate RecordIn(live: Blocks, chains: Chains, owner: map<Pos, Octets>, table: Contents, k: Octets)
    requires k in table
  {
    && k in chains && Holds(live, chains[k], k, table[k])
    && forall c | c in chains[k] :: c in owner && owner[c] == k
  }

  /** Every record of the table is stored, and every live block is part of a record of the table. */
  ghost predicate AllStored(live: Blocks, chains: Chains, owner: map<Pos, Octets>, table: Contents)
  {
    && (forall k {:trigger RecordIn(live, chains, owner, table, k)} | k in table ::
          RecordIn(live, chains, owner, table, k))
    && (forall c | c in live :: c in owner && owner[c] in table && owner[c] in chains && c in chains[owner[c]])
  }

  function Owned(owner: map<Pos, Octets>, chain: seq<Pos>, k: Octets): map<Pos, Octets>
  {
    map c | c in owner.Keys + (set p | p in chain) :: if c in chain then k else owner[c]
  }

  /** A new record in new blocks. */
  lemma StoredMore(live: Blocks, chains: Chains, owner: map<Pos, Octets>, table: Contents,
                   live': Blocks, k: Octets, val: Octets, chain: seq<Pos>)
    requires AllStored(live, chains, owner, table) && k !in table
    requires Holds(live', chain, k, val) && Others(live', chain) == live
    ensures AllStored(live', chains[k := chain], Owned(owner, chain, k), table[k := val])
  {
    hide Holds;
    var chains', owner', table' := chains[k := chain], Owned(owner, chain, k), table[k := val];
    forall j | j in table' ensures RecordIn(live', chains', owner', table', j) {
      if j != k {
        assert RecordIn(live, chains, owner, table, j);
        KeepsRecord(live, live', chain, chains[j], j, table[j]);
      }
    }
    forall c | c in live'
      ensures c in owner' && owner'[c] in table' && owner'[c] in chains' && c in chains'[owner'[c]]
    {
      if c !in chain {
        assert c in Others(live', chain);
      }
    }
  }

  /** A record outside a chain is not touched by what happens to the chain. */
  lemma KeepsRecord(live: Blocks, live': Blocks, chain: seq<Pos>, other: seq<Pos>, k: Octets, val: Octets)
    requires Holds(live, other, k, val) && Others(live', chain) == live
    ensures Holds(live', other, k, val) && forall c | c in other :: c !in chain
  {
    forall i | 0 <= i < |other| ensures other[i] in live' && live'[other[i]] == live[other[i]] && other[i] !in chain {
      assert other[i] in live;
    }
    HoldsElsewhere(live, live', other, k, val);
  }

  /** A record goes with its blocks. */
  lemma StoredLess(live: Blocks, chains: Chains, owner: map<Pos, Octets>, table: Contents, k: Octets)
    requires AllStored(live, chains, owner, table) && k in table && k in chains
    ensures AllStored(Others(live, chains[k]), chains, owner, table - {k})
  {
    hide Holds;
    var live', table' := Others(live, chains[k]), table - {k};
    assert RecordIn(live, chains, owner, table, k);
    forall j | j in table' ensures RecordIn(live', chains, owner, table', j) {
      assert RecordIn(live, chains, owner, table, j);
      LosesOther(live, chains[k], chains[j], j, table[j]);
    }
  }

  lemma LosesOther(live: Blocks, chain: seq<Pos>, other: seq<Pos>, k: Octets, val: Octets)
    requires Holds(live, other, k, val) && forall c | c in other :: c !in chain
    ensures Holds(Others(live, chain), other, k, val)
  {
    var live' := Others(live, chain);
    forall i | 0 <= i < |other| ensures other[i] in live' && live'[other[i]] == live[other[i]] {
      assert other[i] in other;
    }
    HoldsElsewhere(live, live', other, k, val);
  }

  // ----- which slot leads where -----

  /** The slot of the key leads to its record. */
  ghost predicate LeadsTo(index: map<Key, Pos>, chains: Chains, k: Octets)
  {
    k in chains && chains[k] != [] && Rank(k) in index && index[Rank(k)] == chains[k][0]
  }

  /** The slot is that of a key of the table. */
  ghost predicate NamesKey(names: map<Key, Octets>, table: Contents, r: Key)
  {
    r in names && names[r] in table && Rank(names[r]) == r
  }

  /** The tree has just the ranks of the table's keys, and each leads to its record. */
  ghost predicate Indexed(index: map<Key, Pos>, names: map<Key, Octets>, chains: Chains, table: Contents)
  {
    && (forall k {:trigger LeadsTo(index, chains, k)} | k in table :: LeadsTo(index, chains, k))
    && (forall r {:trigger NamesKey(names, table, r)} | r in index :: NamesKey(names, table, r))
  }

  lemma IndexedFind(index: map<Key, Pos>, names: map<Key, Octets>, chains: Chains, table: Contents, k: Octets)
    requires Indexed(index, names, chains, table)
    ensures Rank(k) in index <==> k in table
    ensures k in table ==> k in chains && chains[k] != [] && index[Rank(k)] == chains[k][0]
  {
    if k in table { assert LeadsTo(index, chains, k); }
    if Rank(k) in index {
      assert NamesKey(names, table, Rank(k));
      RankIsOneToOne(k, names[Rank(k)]);
    }
  }

  lemma IndexedPut(index: map<Key, Pos>, names: map<Key, Octets>, chains: Chains, table: Contents,
                   k: Octets, val: Octets, chain: seq<Pos>)
    requires Indexed(index, names, chains, table) && chain != []
    ensures Indexed(index[Rank(k) := chain[0]], names[Rank(k) := k], chains[k := chain], table[k := val])
  {
    hide Rank;
    var index', chains', table' := index[Rank(k) := chain[0]], chains[k := chain], table[k := val];
    var names' := names[Rank(k) := k];
    forall j | j in table' ensures LeadsTo(index', chains', j) {
      RankIsOneToOne(j, k);
      if j != k { assert LeadsTo(index, chains, j); }
    }
    forall r | r in index' ensures NamesKey(names', table', r) {
      if r != Rank(k) { assert NamesKey(names, table, r); }
    }
  }

  lemma IndexedDel(index: map<Key, Pos>, names: map<Key, Octets>, chains: Chains, table: Contents, k: Octets)
    requires Indexed(index, names, chains, table)
    ensures Indexed(index - {Rank(k)}, names, chains, table - {k})
  {
    hide Rank;
    forall j | j in table - {k} ensures LeadsTo(index - {Rank(k)}, chains, j) {
      assert LeadsTo(index, chains, j);
      RankIsOneToOne(j, k);
    }
    forall r | r in index - {Rank(k)} ensures NamesKey(names, table - {k}, r) {
      assert NamesKey(names, table, r);
    }
  }

  /** The slot that leads to a record has the inline part of its key. */
  ghost predicate Inline(s: IndexKey, k: Octets)
  {
    && |s.key| == INLINE && k != []
    && if |k| > INLINE then s.keyLen == 0 && s.key == k[..INLINE] else s.keyLen == |k| && s.key[..|k|] == k
  }

  ghost predicate Slotted(slots: map<Octets, IndexKey>, table: Contents)
  {
    forall k | k in table :: k in slots && Inline(slots[k], k)
  }

  lemma InlineMade(s: IndexKey, k: Octets)
    requires |s.key| == INLINE && k != []
    ensures Inline(InlineKey(s, k), k)
  {
  }

  lemma InlineSome(s: IndexKey, k: Octets)
    requires Inline(s, k)
    ensures k != []
  {
  }

  lemma StoredAgain(live: Blocks, chains: Chains, owner: map<Pos, Octets>, table: Contents,
                    live': Blocks, k: Octets, val: Octets, chain: seq<Pos>)
    requires AllStored(live, chains, owner, table) && k in table && k in chains
    requires Holds(live', chain, k, val) && Others(live', chain) == Others(live, chains[k])
    ensures AllStored(live', chains[k := chain], Owned(owner, chain, k), table[k := val])
  {
    hide AllStored, Holds, Others, Owned;
    StoredLess(live, chains, owner, table, k);
    StoredMore(Others(live, chains[k]), chains, owner, table - {k}, live', k, val, chain);
    assert (table - {k})[k := val] == table[k := val];
  }

  class Table {
    const space: PageSpace
    const tree: BTree
    const heap: DataHeap
    var slots: map<Octets, IndexKey>       // the inline keys, by the key of the slot
    ghost var chains: Chains
    ghost var owner: map<Pos, Octets>
    ghost var names: map<Key, Octets>
    ghost var table: Contents

    /** The tree and the heap share the file: together they use just the pages in use. */
    ghost predicate Files()
      reads tree, heap, space, space.file
    {
      && tree.space == space && heap.space == space
      && tree.Valid() && heap.Sound({})
      && space.used == tree.pages.Keys + heap.pages && tree.pages.Keys !! heap.pages
    }

    ghost predicate Valid()
      reads this, tree, heap, space, space.file
    {
      && Files()
      && AllStored(Live(heap.blocks), chains, owner, table)
      && Indexed(tree.Contents(), names, chains, table)
      && Slotted(slots, table) && Snug(heap.blocks, {})
    }

    /** Every slice of a record is cut to size: behind its bytes there is less room than a block and its header need. */
    lemma CutToSize(a: Pos)
      requires Valid() && a in Live(heap.blocks)
      ensures a in heap.blocks && Capacity(heap.blocks, a) < heap.blocks[a].size + 32
    {
      hide AllStored, Indexed, Slotted, Files;
    }

    /** Every page of the file up to the last is an index page, a data page with a live block, or on the free list. */
    lemma PagesOf(p: PageIndex)
      requires Valid() && 1 <= p <= space.maxIndex
      ensures p in tree.pages || p in heap.pages || p in space.chain
      ensures !(p in tree.pages && p in heap.pages) && !(p in tree.pages && p in space.chain)
      ensures !(p in heap.pages && p in space.chain)
      ensures p in heap.pages ==> exists a :: a in Live(heap.blocks) && a.page == p
    {
      hide AllStored, Indexed, Slotted, Live, heap.Sound;
      HeapOf(heap);
      if p in heap.pages {
        PageOf(heap, p);
        var a := PageHasLive(heap.St(), p);
      }
    }

    /** The pages marked since the file was saved. */
    ghost function Dirty(): set<PageIndex>
      reads tree, heap, space
    {
      tree.dirty + heap.dirty + space.dirty
    }

    /** The file as it is now, with all that is in memory. */
    ghost function Now(): F.Parts
      requires Files()
      reads tree, heap, space, space.file
    {
      ChainLinked(space);
      F.Parts(tree.pages, heap.blocks, map p | p in space.chain :: space.link[p],
              F.Magic(tree.root, heap.frag, space.freeHead, space.maxIndex), space.maxIndex)
    }

    /** The file as it was last saved. */
    ghost function Saved(): F.Parts
      reads space.file
    {
      var f := space.file;
      F.Parts(f.tree, f.blocks, f.free, F.Magic(f.root, f.frag, f.freeHead, f.maxIndex), f.maxIndex)
    }

    /** What put and del do to the file is all in the pages they mark: those, over the saved file, give the file. */
    lemma DirtySuffice()
      requires Files()
      ensures F.SameParts(Saved(), Now(), Dirty())
      ensures F.Images(Saved()) + F.Marked(Now(), Dirty()) == F.Images(Now())
    {
      hide Good, Paged, Tidy, Sorted, Whole, F.Images, F.Marked;
      var f, g, d := Saved(), Now(), Dirty();
      SameTree(tree, heap, space);
      F.MarkedSuffice(f, g, d);
    }

    /** The marked pages are written, and the marks are taken away. */
    ghost method Save()
      requires Valid()
      modifies tree, heap, space, space.file
      ensures Valid() && table == old(table) && Dirty() == {} && Now() == old(Now()) && Saved() == Now()
      ensures F.Images(Saved()) == old(F.Images(Saved()) + F.Marked(Now(), Dirty()))
    {
      hide AllStored, Indexed, Slotted, Good, Paged, Tidy, Sorted, Whole, Live, Entries;
      hide F.Images, F.Marked, F.SameParts, space.Valid, tree.Marked, heap.Marked, heap.Sound, tree.Valid,
        tree.Contents;
      hide tree.Foreign, heap.Foreign;
      DirtySuffice();
      ghost var ts, hs := tree.St(), heap.St();
      TreeOf(tree);
      HeapOf(heap);
      space.Saved();
      tree.Saved();
      heap.Saved();
      TreeAgain(tree, ts);
      HeapAgain(heap, hs);
    }

    /** An empty table in an empty file. */
    constructor ()
      ensures Valid() && table == map[] && fresh(space) && fresh(tree) && fresh(heap)
    {
      var sp := new PageSpace();
      var t := new BTree(sp);
      var h := new DataHeap(sp);
      space, tree, heap := sp, t, h;
      slots, chains, owner, names, table := map[], map[], map[], map[], map[];
      new;
      EmptyContents(tree);
    }

    /** find */
    method Find(key: Octets) returns (found: bool, val: Octets)
      requires Valid()
      ensures found == (key in table) && (found ==> val == table[key])
    {
      hide AllStored, Indexed, Slotted, Live, heap.Sound, tree.Valid, Holds;
      IndexedFind(tree.Contents(), names, chains, table, key);
      var r;
      found, r := tree.Find(Rank(key));
      val := [];
      if found {
        RecordOfKey(Live(heap.blocks), chains, owner, table, key);
        var _, data := ExtractVal(heap, r, chains[key], key, table[key]);
        val := data;
      }
    }

    /** put: with replace, the key gets the value; without, only if it is new. */
    method Put(key: Octets, val: Octets, replace: bool) returns (stored: bool)
      requires Valid() && key != [] && 8 + |key| + |val| < WORD
      modifies this, tree, heap, space
      ensures Valid()
      ensures stored == (replace || key !in old(table))
      ensures table == if stored then old(table)[key := val] else old(table)
    {
      hide AllStored, Indexed, Slotted, Live, heap.Sound, tree.Valid, Holds, heap.Foreign, tree.Foreign;
      IndexedFind(tree.Contents(), names, chains, table, key);
      var found, r := tree.Find(Rank(key));
      if !found {
        PutNew(key, val);
        return true;
      }
      if !replace {
        return false;
      }
      var _ := Replace(key, val, r, false);
      stored := true;
    }

    /** put, returning the value that is replaced */
    method PutGet(key: Octets, val: Octets) returns (found: bool, origin: Octets)
      requires Valid() && key != [] && 8 + |key| + |val| < WORD
      modifies this, tree, heap, space
      ensures Valid() && table == old(table)[key := val]
      ensures found == (key in old(table)) && (found ==> origin == old(table)[key])
    {
      hide AllStored, Indexed, Slotted, Live, heap.Sound, tree.Valid, Holds, heap.Foreign, tree.Foreign;
      IndexedFind(tree.Contents(), names, chains, table, key);
      var r;
      found, r := tree.Find(Rank(key));
      origin := [];
      if found {
        origin := Replace(key, val, r, true);
      } else {
        PutNew(key, val);
      }
    }

    // ----- steps in one of the two parts -----

    method MakeRecord(index: IndexKey, key: Octets, val: Octets) returns (k: IndexKey, a: Pos, ghost chain: seq<Pos>)
      requires Files() && |index.key| == INLINE && 8 + |key| + |val| < WORD
      modifies heap, space
      ensures Files() && tree.Contents() == old(tree.Contents())
      ensures Holds(Live(heap.blocks), chain, key, val) && chain != [] && chain[0] == a
      ensures Others(Live(heap.blocks), chain) == Live(old(heap.blocks)) && k == InlineKey(index, key)
      ensures old(Snug(heap.blocks, {})) ==> Snug(heap.blocks, {})
    {
      hide Snug, Live, heap.Sound, tree.Valid, Holds, heap.Foreign, tree.Foreign, tree.Contents, Good, Tidy, Sorted,
        Whole,
        Entries;
      hide space.Valid, tree.Marked, heap.Marked;
      ghost var ts := tree.St();
      TreeOf(tree);
      HeapOf(heap);
      k, a, chain := CreateNode(heap, index, key, val);
      HoldsSome(Live(heap.blocks), chain, key, val);
      HeapOf(heap);
      TreeAgain(tree, ts);
    }

    method ChangeRecord(index: IndexKey, first: Pos, key: Octets, val: Octets, needOrigin: bool,
                        ghost chain: seq<Pos>, ghost was: Octets)
      returns (k: IndexKey, a: Pos, origin: Octets, made: bool, ghost chain': seq<Pos>)
      requires Files() && |index.key| == INLINE && 8 + |key| + |val| < WORD
      requires Holds(Live(heap.blocks), chain, key, was) && first == chain[0]
      modifies heap, space
      ensures Files() && tree.Contents() == old(tree.Contents())
      ensures Holds(Live(heap.blocks), chain', key, val) && chain' != [] && chain'[0] == a
      ensures Others(Live(heap.blocks), chain') == Others(Live(old(heap.blocks)), chain)
      ensures if made then k == InlineKey(index, key) else k == index && a == first
      ensures needOrigin ==> origin == was
      ensures old(Snug(heap.blocks, {})) ==> Snug(heap.blocks, {})
    {
      hide Snug, Live, heap.Sound, tree.Valid, Holds, heap.Foreign, tree.Foreign, tree.Contents, Good, Tidy, Sorted,
        Whole,
        Entries;
      hide space.Valid, tree.Marked, heap.Marked;
      ghost var ts := tree.St();
      TreeOf(tree);
      HeapOf(heap);
      HoldsSome(Live(heap.blocks), chain, key, was);
      k, a, origin, made, chain' := PutReplace(heap, index, first, key, val, needOrigin, chain, was);
      HoldsSome(Live(heap.blocks), chain', key, val);
      HeapOf(heap);
      TreeAgain(tree, ts);
    }

    method DropRecord(first: Pos, ghost chain: seq<Pos>)
      requires Files() && Ends(Live(heap.blocks), chain) && chain != [] && first == chain[0]
      modifies heap, space
      ensures Files() && tree.Contents() == old(tree.Contents())
      ensures Live(heap.blocks) == Others(Live(old(heap.blocks)), chain)
      ensures old(Snug(heap.blocks, {})) ==> Snug(heap.blocks, {})
    {
      hide Snug, Live, heap.Sound, tree.Valid, Ends, heap.Foreign, tree.Foreign, tree.Contents, Good, Tidy, Sorted,
        Whole,
        Entries;
      hide space.Valid, tree.Marked, heap.Marked;
      ghost var ts := tree.St();
      TreeOf(tree);
      heap.SetDirty(first.page);
      HeapOf(heap);
      FreeData(heap, first, chain);
      HeapOf(heap);
      TreeAgain(tree, ts);
    }

    method SetSlot(key: Octets, a: Pos)
      requires Files()
      modifies tree, space
      ensures Files() && tree.Contents() == old(tree.Contents())[Rank(key) := a]
    {
      hide heap.Sound, tree.Valid, heap.Foreign, tree.Foreign, tree.Contents, Good, Tidy, Sorted, Whole, Entries, Rank;
      hide space.Valid, tree.Marked, heap.Marked;
      ghost var hs := heap.St();
      TreeOf(tree);
      HeapOf(heap);
      var _ := tree.Put(Rank(key), a, true);
      TreeOf(tree);
      HeapAgain(heap, hs);
    }

    /** The slot of a record that was made anew is written; that of a record rewritten in place stays as it is. */
    method LeadTo(key: Octets, a: Pos, made: bool)
      requires Files() && tree.Valid() && Rank(key) in tree.Contents() && (!made ==> tree.Contents()[Rank(key)] == a)
      modifies tree, space
      ensures Files() && tree.Contents() == old(tree.Contents())[Rank(key) := a]
    {
      hide heap.Sound, tree.Valid, tree.Contents, Rank;
      if made {
        SetSlot(key, a);
      }
    }

    method ClearSlot(key: Octets)
      requires Files()
      modifies tree, space
      ensures Files() && tree.Contents() == old(tree.Contents()) - {Rank(key)}
    {
      hide heap.Sound, tree.Valid, heap.Foreign, tree.Foreign, tree.Contents, Good, Tidy, Sorted, Whole, Entries, Rank;
      hide space.Valid, tree.Marked, heap.Marked;
      ghost var hs := heap.St();
      TreeOf(tree);
      HeapOf(heap);
      var _ := tree.Del(Rank(key));
      TreeOf(tree);
      HeapAgain(heap, hs);
    }

    // ----- put and del -----

    /** put_new_node, for a key that is new */
    method PutNew(key: Octets, val: Octets)
      requires Valid() && key !in table && key != [] && 8 + |key| + |val| < WORD
      modifies this, tree, heap, space
      ensures Valid() && table == old(table)[key := val]
    {
      hide Snug, AllStored, Indexed, Slotted, Live, Holds, tree.Contents, tree.Valid, heap.Sound, InlineKey, Inline,
        Owned,
        Rank;
      FilesValid();
      ghost var live, index := Live(heap.blocks), tree.Contents();
      var blank := IndexKey([0, 0, 0, 0, 0], 0);
      ghost var chain;
      var k, a;
      k, a, chain := MakeRecord(blank, key, val);
      SetSlot(key, a);
      StoredMore(live, chains, owner, table, Live(heap.blocks), key, val, chain);
      IndexedPut(index, names, chains, table, key, val, chain);
      InlineMade(blank, key);
      SlottedPut(slots, table, key, val, k);
      slots := slots[key := k];
      owner, chains := Owned(owner, chain, key), chains[key := chain];
      names, table := names[Rank(key) := key], table[key := val];
    }

    lemma FilesValid()
      requires Files()
      ensures tree.Valid()
    {
    }

    /** put_replace, and the slot led to the record where it now is, if the record had to be made anew */
    method ReplaceRecord(index: IndexKey, r: Pos, key: Octets, val: Octets, needOrigin: bool,
                         ghost chain: seq<Pos>, ghost was: Octets)
      returns (k: IndexKey, origin: Octets, ghost chain': seq<Pos>)
      requires Files() && |index.key| == INLINE && Inline(index, key) && 8 + |key| + |val| < WORD
      requires Holds(Live(heap.blocks), chain, key, was) && r == chain[0]
      requires tree.Valid() && Rank(key) in tree.Contents() && tree.Contents()[Rank(key)] == r
      modifies tree, heap, space
      ensures Files() && chain' != [] && tree.Contents() == old(tree.Contents())[Rank(key) := chain'[0]]
      ensures Holds(Live(heap.blocks), chain', key, val) && Inline(k, key)
      ensures Others(Live(heap.blocks), chain') == Others(Live(old(heap.blocks)), chain)
      ensures needOrigin ==> origin == was
      ensures old(Snug(heap.blocks, {})) ==> Snug(heap.blocks, {})
    {
      hide Snug, Live, Holds, tree.Contents, tree.Valid, heap.Sound, InlineKey, Others, Files, Rank;
      var a, made;
      k, a, origin, made, chain' := ChangeRecord(index, r, key, val, needOrigin, chain, was);
      FilesValid();
      InlineSome(index, key);
      InlineMade(index, key);
      LeadTo(key, a, made);
    }

    /** put, for a key that is present */
    method Replace(key: Octets, val: Octets, r: Pos, needOrigin: bool) returns (origin: Octets)
      requires Valid() && key in table && key != [] && 8 + |key| + |val| < WORD
      requires Rank(key) in tree.Contents() && r == tree.Contents()[Rank(key)]
      modifies this, tree, heap, space
      ensures Valid() && table == old(table)[key := val]
      ensures needOrigin ==> origin == old(table)[key]
    {
      hide Snug, AllStored, Indexed, Slotted, Live, Holds, tree.Contents, tree.Valid, heap.Sound, InlineKey, Inline,
        Owned,
        Rank;
      hide Others, Files;
      FilesValid();
      ghost var live, index := Live(heap.blocks), tree.Contents();
      IndexedFind(index, names, chains, table, key);
      RecordOfKey(live, chains, owner, table, key);
      SlotOf(slots, table, key);
      ghost var chain;
      var k;
      k, origin, chain := ReplaceRecord(slots[key], r, key, val, needOrigin, chains[key], table[key]);
      FilesValid();
      StoredAgain(live, chains, owner, table, Live(heap.blocks), key, val, chain);
      IndexedPut(index, names, chains, table, key, val, chain);
      SlottedPut(slots, table, key, val, k);
      slots := slots[key := k];
      owner, chains := Owned(owner, chain, key), chains[key := chain];
      names, table := names[Rank(key) := key], table[key := val];
    }

    /** del, returning the value that is deleted */
    method Del(key: Octets) returns (found: bool, origin: Octets)
      requires Valid()
      modifies this, tree, heap, space
      ensures Valid() && table == old(table) - {key}
      ensures found == (key in old(table)) && (found ==> origin == old(table)[key])
    {
      hide AllStored, Indexed, Slotted, Live, Holds, tree.Contents, tree.Valid, heap.Sound, Rank, Others;
      FilesValid();
      ghost var live, index := Live(heap.blocks), tree.Contents();
      IndexedFind(index, names, chains, table, key);
      var r;
      found, r := tree.Find(Rank(key));
      origin := [];
      if !found {
        assert table - {key} == table;
        return;
      }
      RecordOfKey(live, chains, owner, table, key);
      StoredLess(live, chains, owner, table, key);
      HoldsChain(live, chains[key], key, table[key]);
      var _, data := ExtractVal(heap, r, chains[key], key, table[key]);
      origin := data;
      DropRecord(r, chains[key]);
      ClearSlot(key);
      IndexedDel(index, names, chains, table, key);
      SlottedDel(slots, table, key);
      table := table - {key};
    }

    // ----- runs -----

    /** Any run of inserts, with and without overwriting, and deletes leaves the table that the operations say. */
    method Run(ops: seq<TableUndo.Op>)
      requires Valid() && forall op | op in ops && op.Insert? :: 8 + |op.key| + |op.val| < WORD
      modifies this, tree, heap, space
      ensures Valid() && table == TableUndo.Final(old(table), ops)
    {
      hide AllStored, Indexed, Slotted, Live, Files;
      assert ops[..0] == [];
      for i := 0 to |ops|
        invariant Valid() && table == TableUndo.Final(old(table), ops[..i])
      {
        assert ops[..i + 1][..i] == ops[..i] && ops[i] in ops;
        match ops[i] {
          case Insert(key, val, noOverwrite) =>
            if |key| != 0 {
              var _ := Put(key, val, !noOverwrite);
            }
          case Delete(key) =>
            var _, _ := Del(key);
        }
      }
      assert ops[..|ops|] == ops;
    }

    /** compare, at the slot of a key of the table, tells the order of the ranks by which the tree is searched. */
    method CompareAt(slotKey: Octets, key: Octets, slices: seq<Octets>) returns (comp: int)
      requires Valid() && slotKey in table && slotKey in chains && slotKey in slots
      requires forall i | 0 <= i < |chains[slotKey]| :: chains[slotKey][i] in Live(heap.blocks)
      requires slices == SlicesOf(Live(heap.blocks), chains[slotKey])
      ensures Sign(comp) == if Rank(key) < Rank(slotKey) then -1 else if Rank(key) > Rank(slotKey) then 1 else 0
    {
      hide AllStored, Indexed, Live, heap.Sound, tree.Valid, Holds, tree.Contents;
      RecordOfKey(Live(heap.blocks), chains, owner, table, slotKey);
      RecordNames(Live(heap.blocks), chains[slotKey], slots[slotKey], slotKey, table[slotKey]);
      InlineIs(slots[slotKey], slotKey);
      comp := Compare(slots[slotKey], slices, key, slotKey);
      RankOrders(key, slotKey);
    }
  }

  // ----- the parts of a valid table -----

  /** Each free page has a link. */
  lemma ChainLinked(s: PageSpace)
    requires s.Valid()
    ensures forall p | p in s.chain :: p in s.link
  {
  }

  lemma SameTree(t: BTree, h: DataHeap, s: PageSpace)
    requires t.space == s && h.space == s && t.Sound() && h.Sound({})
    ensures s.Valid()
    ensures t.Marked() && h.Marked() && s.Marked() && forall p | p in s.chain :: p in s.link
  {
  }

  lemma TreeOf(t: BTree)
    requires t.Valid()
    ensures Tidy(t.St(), 0) && Sorted(Whole(t.St())) && t.Contents() == Entries(Whole(t.St()))
    ensures t.space.Valid() && t.pages.Keys <= t.space.used && t.Foreign() == t.space.used - t.pages.Keys && t.Marked()
  {
  }

  /** The tree does not see what else happens in the page space. */
  lemma TreeAgain(t: BTree, ts: State)
    requires t.St() == ts && Tidy(ts, 0) && Sorted(Whole(ts)) && t.space.Valid() && t.pages.Keys <= t.space.used
      && t.Marked()
    ensures t.Valid() && t.Contents() == Entries(Whole(ts)) && t.Foreign() == t.space.used - t.pages.Keys
  {
  }

  lemma HeapOf(h: DataHeap)
    requires h.Sound({})
    ensures Good(h.St(), {}) && Paged(h.blocks, h.pages) && h.pages <= h.space.used && h.space.Valid()
    ensures h.Foreign() == h.space.used - h.pages && h.Marked()
  {
  }

  lemma HeapAgain(h: DataHeap, hs: Heap)
    requires h.St() == hs && Good(hs, {}) && Paged(h.blocks, h.pages) && h.pages <= h.space.used
      && h.space.Valid() && h.Marked()
    ensures h.Sound({})
  {
  }

  lemma PageOf(h: DataHeap, p: PageIndex)
    requires h.Sound({}) && p in h.pages
    ensures Good(h.St(), {}) && Pos(p, 0) in h.blocks
  {
  }

  lemma EmptyContents(t: BTree)
    requires t.Valid() && Whole(t.St()) == []
    ensures t.Contents() == map[]
  {
  }

  lemma RecordOfKey(live: Blocks, chains: Chains, owner: map<Pos, Octets>, table: Contents, k: Octets)
    requires AllStored(live, chains, owner, table) && k in table
    ensures k in chains && Holds(live, chains[k], k, table[k]) && chains[k] != []
  {
    assert RecordIn(live, chains, owner, table, k);
  }

  lemma HoldsSome(live: Blocks, chain: seq<Pos>, k: Octets, val: Octets)
    requires Holds(live, chain, k, val)
    ensures chain != []
  {
  }

  lemma SlotOf(slots: map<Octets, IndexKey>, table: Contents, k: Octets)
    requires Slotted(slots, table) && k in table
    ensures k in slots && Inline(slots[k], k) && |slots[k].key| == INLINE
  {
  }

  lemma SlottedPut(slots: map<Octets, IndexKey>, table: Contents, k: Octets, val: Octets, s: IndexKey)
    requires Slotted(slots, table) && Inline(s, k)
    ensures Slotted(slots[k := s], table[k := val])
  {
  }

  lemma SlottedDel(slots: map<Octets, IndexKey>, table: Contents, k: Octets)
    requires Slotted(slots, table)
    ensures Slotted(slots, table - {k})
  {
  }

  /** A slot with the inline part of a key is the slot that is made for it. */
  lemma InlineIs(s: IndexKey, k: Octets)
    requires Inline(s, k)
    ensures InlineKey(s, k) == s
  {
    if |k| <= INLINE {
      assert s.key == s.key[..|k|] + s.key[|k|..];
    }
  }
}
