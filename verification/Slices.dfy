/** Records as chains of slices in live blocks. */
module Slices {
  import opened Places
  import opened Octets
  import opened IndexPage
  import opened HeapState
  import opened HeapSteps

  // ----- chains -----

  /** The blocks are live, different, and linked in this order. The last may lead on. */
  ghost predicate Path(live: Blocks, chain: seq<Pos>)
  {
    && |chain| > 0
    && (forall i | 0 <= i < |chain| :: chain[i] in live && chain[i].page != 0)
    && (forall i, j | 0 <= i < j < |chain| :: chain[i] != chain[j])
    && (forall i | 0 <= i < |chain| - 1 :: live[chain[i]].link == chain[i + 1])
  }

  /** The slices of a record: none is empty, the first has room for two words, and it alone is marked as first. */
  ghost predicate Open(live: Blocks, chain: seq<Pos>)
  {
    && Path(live, chain)
    && (forall i | 0 <= i < |chain| :: |live[chain[i]].bytes| > 0)
    && |live[chain[0]].bytes| >= 8
    && (forall i | 0 <= i < |chain| :: live[chain[i]].firstSlice <==> i == 0)
  }

  /** The path ends with its last block. */
  ghost predicate Ends(live: Blocks, chain: seq<Pos>)
  {
    Path(live, chain) && live[chain[|chain| - 1]].link.page == 0
  }

  ghost predicate Chain(live: Blocks, chain: seq<Pos>)
  {
    Open(live, chain) && Ends(live, chain)
  }

  function Last(chain: seq<Pos>): Pos
    requires chain != []
  {
    chain[|chain| - 1]
  }

  function Front(chain: seq<Pos>): seq<Pos>
    requires chain != []
  {
    chain[..|chain| - 1]
  }

  ghost function SlicesOf(live: Blocks, chain: seq<Pos>): seq<Octets>
    requires forall i | 0 <= i < |chain| :: chain[i] in live
  {
    seq(|chain|, i requires 0 <= i < |chain| => live[chain[i]].bytes)
  }

  /** All the bytes of a chain. */
  ghost function Content(live: Blocks, chain: seq<Pos>): Octets
    requires forall i | 0 <= i < |chain| :: chain[i] in live
  {
    Joined(SlicesOf(live, chain))
  }

  /** The bytes of a chain up to p bytes into its last slice. */
  ghost function Written(live: Blocks, chain: seq<Pos>, p: nat): Octets
    requires Open(live, chain) && p <= |live[Last(chain)].bytes|
  {
    Content(live, Front(chain)) + live[Last(chain)].bytes[..p]
  }

  /** The live blocks that are not in the chain. */
  ghost function Others(live: Blocks, chain: seq<Pos>): Blocks
  {
    map c | c in live && c !in chain :: live[c]
  }

  lemma OpenLast(live: Blocks, chain: seq<Pos>)
    requires Open(live, chain)
    ensures chain != [] && Last(chain) in live && |live[Last(chain)].bytes| > 0 && Last(chain).page != 0
    ensures forall i | 0 <= i < |chain| :: chain[i] in live
  {
  }

  lemma WrittenAll(live: Blocks, chain: seq<Pos>)
    requires Open(live, chain)
    ensures Content(live, chain) == Written(live, chain, |live[Last(chain)].bytes|)
  {
    var s := SlicesOf(live, chain);
    assert s[..|s| - 1] == SlicesOf(live, Front(chain));
    var last := live[Last(chain)].bytes;
    assert last[..|last|] == last;
  }

  // ----- how a chain is written -----

  function Poked(bytes: Octets, at: nat, data: Octets): Octets
    requires at + |data| <= |bytes|
  {
    bytes[..at] + data + bytes[at + |data|..]
  }

  /** Bytes written into the last slice, after those that are there. */
  lemma WriteLast(live: Blocks, chain: seq<Pos>, p: nat, data: Octets)
    requires Open(live, chain) && p + |data| <= |live[Last(chain)].bytes|
    ensures
      var a := Last(chain);
      var live' := live[a := live[a].(bytes := Poked(live[a].bytes, p, data))];
      && Open(live', chain) && Others(live', chain) == Others(live, chain)
      && Written(live', chain, p + |data|) == Written(live, chain, p) + data
  {
    var a := Last(chain);
    var live' := live[a := live[a].(bytes := Poked(live[a].bytes, p, data))];
    assert Open(live', chain);
    assert SlicesOf(live', Front(chain)) == SlicesOf(live, Front(chain));
    assert live'[a].bytes[..p + |data|] == live[a].bytes[..p] + data;
  }

  /** A new slice after a last slice that is full. */
  function Extended(live: Blocks, z: Pos, a: Pos, block: Block): Blocks
    requires z in live && z != a
  {
    live[a := block][z := live[z].(link := a)]
  }

  lemma ExtendedOpen(live: Blocks, chain: seq<Pos>, a: Pos, block: Block)
    requires Open(live, chain) && a !in live && a.page != 0 && |block.bytes| > 0 && !block.firstSlice
    ensures Open(Extended(live, Last(chain), a, block), chain + [a])
  {
    var live', more := Extended(live, Last(chain), a, block), chain + [a];
    forall i | 0 <= i < |more|
      ensures more[i] in live' && more[i].page != 0 && |live'[more[i]].bytes| > 0
      ensures live'[more[i]].firstSlice <==> i == 0
    {
      assert i < |chain| ==> more[i] == chain[i];
    }
    forall i | 0 <= i < |more| - 1 ensures live'[more[i]].link == more[i + 1] {
      if i < |chain| - 1 {
        assert live[chain[i]].link == chain[i + 1] && chain[i] != Last(chain);
      }
    }
  }

  lemma AddSlice(live: Blocks, chain: seq<Pos>, a: Pos, block: Block)
    requires Open(live, chain) && a !in live && a.page != 0 && |block.bytes| > 0 && !block.firstSlice
    ensures
      var live' := Extended(live, Last(chain), a, block);
      && Open(live', chain + [a]) && Others(live', chain + [a]) == Others(live, chain)
      && Written(live', chain + [a], 0) == Content(live, chain)
  {
    ExtendedOpen(live, chain, a, block);
    var live' := Extended(live, Last(chain), a, block);
    assert Front(chain + [a]) == chain;
    assert forall i | 0 <= i < |chain| :: chain[i] in live && live'[chain[i]].bytes == live[chain[i]].bytes;
    hide Open;
    assert SlicesOf(live', chain) == SlicesOf(live, chain);
    OthersMore(live, chain, a, block);
  }

  lemma OthersMore(live: Blocks, chain: seq<Pos>, a: Pos, block: Block)
    requires chain != [] && Last(chain) in live && a !in live
    ensures Others(Extended(live, Last(chain), a, block), chain + [a]) == Others(live, chain)
  {
  }

  /** The last slice leads nowhere. */
  lemma CloseChain(live: Blocks, chain: seq<Pos>)
    requires Open(live, chain)
    ensures
      var z := Last(chain);
      var live' := live[z := live[z].(link := NONE)];
      && Chain(live', chain) && Others(live', chain) == Others(live, chain)
      && Content(live', chain) == Content(live, chain)
  {
    var z := Last(chain);
    var live' := live[z := live[z].(link := NONE)];
    assert SlicesOf(live', chain) == SlicesOf(live, chain);
  }

  // ----- records -----

  /** What a record's slices hold together. */
  function RecordBytes(key: Octets, val: Octets): Octets
    requires 8 + |key| + |val| < WORD
  {
    Le(8 + |key| + |val|) + Le(|key|) + key + val
  }

  ghost predicate Holds(live: Blocks, chain: seq<Pos>, key: Octets, val: Octets)
  {
    && 8 + |key| + |val| < WORD
    && Chain(live, chain) && Content(live, chain) == RecordBytes(key, val)
  }

  lemma HoldsPath(live: Blocks, chain: seq<Pos>, key: Octets, val: Octets)
    requires Holds(live, chain, key, val)
    ensures Path(live, chain) && Ends(live, chain) && Open(live, chain) && 8 + |key| + |val| < WORD
    ensures Content(live, chain) == RecordBytes(key, val)
  {
  }

  /** The link of a slice leads to the next, the last one nowhere. */
  lemma LinkOf(live: Blocks, chain: seq<Pos>, i: nat)
    requires Ends(live, chain) && i < |chain|
    ensures chain[i] in live
    ensures if i + 1 < |chain| then live[chain[i]].link == chain[i + 1] && chain[i + 1].page != 0
            else live[chain[i]].link.page == 0
  {
  }

  /** The two words at the front of a record are in its first slice. */
  lemma FirstWords(live: Blocks, chain: seq<Pos>, key: Octets, val: Octets)
    requires Holds(live, chain, key, val)
    ensures chain != [] && chain[0] in live && |live[chain[0]].bytes| >= 8
    ensures Word(live[chain[0]].bytes) == 8 + |key| + |val| && Word(live[chain[0]].bytes[4..]) == |key|
  {
    hide Le, Word;
    SliceIn(live, chain, 0);
    assert chain[..0] == [] && Content(live, []) == [];
    var b, r := live[chain[0]].bytes, RecordBytes(key, val);
    assert b[..4] == r[..4] == Le(8 + |key| + |val|) && b[4..8] == r[4..8] == Le(|key|);
    WordOfLe(8 + |key| + |val|);
    WordOfLe(|key|);
    WordPrefix(b);
    WordPrefix(b[4..]);
    assert b[4..][..4] == b[4..8];
  }

  lemma WordPrefix(s: Octets)
    requires |s| >= 4
    ensures Word(s[..4]) == Word(s)
  {
  }

  lemma RecordLength(key: Octets, val: Octets)
    requires 8 + |key| + |val| < WORD
    ensures |RecordBytes(key, val)| == 8 + |key| + |val|
    ensures RecordBytes(key, val)[8..8 + |key|] == key && RecordBytes(key, val)[8 + |key|..] == val
  {
  }

  /** A record is what its bytes say, and nothing else. */
  lemma RecordIsOneToOne(key: Octets, val: Octets, key': Octets, val': Octets)
    requires 8 + |key| + |val| < WORD && 8 + |key'| + |val'| < WORD
    ensures RecordBytes(key, val) == RecordBytes(key', val') ==> key == key' && val == val'
  {
    var r, r' := RecordBytes(key, val), RecordBytes(key', val');
    if r == r' {
      assert r[4..8] == Le(|key|) && r'[4..8] == Le(|key'|);
      WordOfLe(|key|);
      WordOfLe(|key'|);
      assert r[8..8 + |key|] == key && r'[8..8 + |key'|] == key';
      assert r[8 + |key|..] == val && r'[8 + |key'|..] == val';
    }
  }

  /** Records in different chains do not see each other. */
  lemma HoldsElsewhere(live: Blocks, live': Blocks, chain: seq<Pos>, key: Octets, val: Octets)
    requires Holds(live, chain, key, val)
    requires forall i | 0 <= i < |chain| :: chain[i] in live' && live'[chain[i]] == live[chain[i]]
    ensures Holds(live', chain, key, val)
  {
    assert SlicesOf(live', chain) == SlicesOf(live, chain);
  }

  // ----- reading along a chain -----

  /** Where slice i begins in the content, and what it holds. */
  lemma SliceIn(live: Blocks, chain: seq<Pos>, i: nat)
    requires Path(live, chain) && i < |chain|
    ensures
      var at, b := |Content(live, chain[..i])|, live[chain[i]].bytes;
      && at + |b| <= |Content(live, chain)|
      && Content(live, chain)[at..at + |b|] == b
      && Content(live, chain)[..at] == Content(live, chain[..i])
      && Content(live, chain[..i + 1]) == Content(live, chain[..i]) + b
  {
    var s := SlicesOf(live, chain);
    assert s[..i] == SlicesOf(live, chain[..i]) && s[..i + 1] == SlicesOf(live, chain[..i + 1]);
    SliceAt(s, i);
  }

  /** The content ends with the last slice. */
  lemma SliceLast(live: Blocks, chain: seq<Pos>)
    requires Path(live, chain)
    ensures Content(live, chain[..|chain|]) == Content(live, chain) && Content(live, chain[..0]) == []
  {
    assert chain[..|chain|] == chain;
  }

  /** Giving up the first block of a path leaves the path of the others. */
  lemma PathWithout(live: Blocks, path: seq<Pos>)
    requires Ends(live, path)
    ensures |path| > 1 ==> Ends(live - {path[0]}, path[1..]) && live[path[0]].link == path[1] && path[1].page != 0
    ensures |path| == 1 ==> live[path[0]].link.page == 0
    ensures Others(live - {path[0]}, path[1..]) == Others(live, path)
  {
    var rest := live - {path[0]};
    if |path| > 1 {
      assert Path(rest, path[1..]);
    }
    assert forall c :: c in path <==> c == path[0] || c in path[1..];
  }

  // ----- rewriting a chain -----

  /** Bytes written at the end of the last slice, which then ends with them. */
  lemma WriteEnd(live: Blocks, chain: seq<Pos>, p: nat, data: Octets)
    requires Open(live, chain) && p <= |live[Last(chain)].bytes| && p + |data| > 0 && (|chain| == 1 ==> p + |data| >= 8)
    ensures
      var a := Last(chain);
      var live' := live[a := live[a].(size := p + |data|, bytes := live[a].bytes[..p] + data)];
      && Open(live', chain) && Others(live', chain) == Others(live, chain)
      && Content(live', chain) == Written(live, chain, p) + data
  {
    var a := Last(chain);
    var live' := live[a := live[a].(size := p + |data|, bytes := live[a].bytes[..p] + data)];
    assert Open(live', chain);
    assert SlicesOf(live', Front(chain)) == SlicesOf(live, Front(chain));
    WrittenAll(live', chain);
    assert live'[a].bytes[..p + |data|] == live[a].bytes[..p] + data;
  }

  /** Where a block ends does not matter to the chain it is in. */
  lemma SameBytes(live: Blocks, chain: seq<Pos>, next: nat)
    requires Open(live, chain)
    ensures
      var a := Last(chain);
      var live' := live[a := live[a].(next := next)];
      && Open(live', chain) && Others(live', chain) == Others(live, chain)
      && Content(live', chain) == Content(live, chain)
  {
    var a := Last(chain);
    var live' := live[a := live[a].(next := next)];
    assert SlicesOf(live', chain) == SlicesOf(live, chain);
  }

  /** The first word of the record is replaced. */
  function Reworded(live: Blocks, a: Pos, w: Octets): Blocks
    requires a in live && |w| <= |live[a].bytes|
  {
    live[a := live[a].(bytes := Poked(live[a].bytes, 0, w))]
  }

  lemma RewordedChain(live: Blocks, chain: seq<Pos>, w: Octets)
    requires Chain(live, chain) && |w| == 4
    ensures Chain(Reworded(live, chain[0], w), chain)
    ensures Others(Reworded(live, chain[0], w), chain) == Others(live, chain)
  {
  }

  lemma RewriteWord(live: Blocks, chain: seq<Pos>, w: Octets)
    requires Chain(live, chain) && |w| == 4
    ensures
      var live' := Reworded(live, chain[0], w);
      && Chain(live', chain) && Others(live', chain) == Others(live, chain)
      && |Content(live, chain)| >= 8 && Content(live', chain) == w + Content(live, chain)[4..]
  {
    RewordedChain(live, chain, w);
    var live' := Reworded(live, chain[0], w);
    FirstAndRest(live, chain);
    FirstAndRest(live', chain);
    SameRest(live, chain, w);
    hide Open, Others, Reworded;
    var b, rest := live[chain[0]].bytes, Joined(SlicesOf(live, chain)[1..]);
    assert (b + rest)[4..] == b[4..] + rest;
  }

  lemma SameRest(live: Blocks, chain: seq<Pos>, w: Octets)
    requires Path(live, chain) && |w| <= |live[chain[0]].bytes|
    ensures forall i | 0 <= i < |chain| :: chain[i] in Reworded(live, chain[0], w)
    ensures SlicesOf(live, chain)[1..] == SlicesOf(Reworded(live, chain[0], w), chain)[1..]
    ensures Reworded(live, chain[0], w)[chain[0]].bytes == w + live[chain[0]].bytes[|w|..]
  {
  }

  lemma FirstAndRest(live: Blocks, chain: seq<Pos>)
    requires Open(live, chain)
    ensures Content(live, chain) == live[chain[0]].bytes + Joined(SlicesOf(live, chain)[1..])
    ensures |live[chain[0]].bytes| >= 8
  {
    var s := SlicesOf(live, chain);
    assert s == [s[0]] + s[1..];
    JoinedSplit([s[0]], s[1..]);
    JoinedOne(s[0]);
  }

  /** The beginning of a chain, up to p bytes into slice i. */
  lemma Beginning(live: Blocks, chain: seq<Pos>, i: nat, p: nat)
    requires Chain(live, chain) && i < |chain| && p <= |live[chain[i]].bytes|
    ensures Open(live, chain[..i + 1]) && Last(chain[..i + 1]) == chain[i]
    ensures |Content(live, chain[..i])| + p <= |Content(live, chain)|
    ensures Written(live, chain[..i + 1], p) == Content(live, chain)[..|Content(live, chain[..i])| + p]
  {
    var begin := chain[..i + 1];
    assert Front(begin) == chain[..i];
    SliceIn(live, chain, i);
    var c, at := Content(live, chain), |Content(live, chain[..i])|;
    Part(c, at, |live[chain[i]].bytes|, 0, p);
    assert c[..at + p] == c[..at] + c[at..at + p];
  }

  /** A chain that is being rewritten up to here, and the old slices after it, still linked to it. */
  ghost predicate Attached(live: Blocks, chain: seq<Pos>, rest: seq<Pos>)
  {
    && Open(live, chain)
    && (rest == [] ==> live[Last(chain)].link.page == 0)
    && (rest != [] ==>
      && live[Last(chain)].link == rest[0] && Ends(Others(live, chain), rest)
      && forall i | 0 <= i < |rest| :: rest[i] in live && |live[rest[i]].bytes| > 0 && !live[rest[i]].firstSlice)
  }

  lemma AttachedAt(live: Blocks, chain: seq<Pos>, i: nat)
    requires Chain(live, chain) && 0 < i <= |chain|
    ensures Attached(live, chain[..i], chain[i..]) && Last(chain[..i]) == chain[i - 1]
    ensures Others(Others(live, chain[..i]), chain[i..]) == Others(live, chain)
  {
    OthersSplit(live, chain, i);
    if i < |chain| {
      RestEnds(live, chain, i);
    }
  }

  lemma OthersSplit(live: Blocks, chain: seq<Pos>, i: nat)
    requires i <= |chain|
    ensures Others(Others(live, chain[..i]), chain[i..]) == Others(live, chain)
  {
    assert chain == chain[..i] + chain[i..];
    assert forall c :: c in chain <==> c in chain[..i] || c in chain[i..];
  }

  lemma RestEnds(live: Blocks, chain: seq<Pos>, i: nat)
    requires Ends(live, chain) && i < |chain|
    ensures Ends(Others(live, chain[..i]), chain[i..])
  {
    var others := Others(live, chain[..i]);
    forall j | i <= j < |chain| ensures chain[j] in others && others[chain[j]] == live[chain[j]] {
      assert chain[j] !in chain[..i];
    }
    assert Path(others, chain[i..]);
  }

  /** The next of the old slices is taken over. */
  lemma TakeOver(live: Blocks, chain: seq<Pos>, rest: seq<Pos>)
    requires Attached(live, chain, rest) && rest != []
    ensures Attached(live, chain + [rest[0]], rest[1..])
    ensures Written(live, chain + [rest[0]], 0) == Content(live, chain)
    ensures Others(Others(live, chain + [rest[0]]), rest[1..]) == Others(Others(live, chain), rest)
  {
    var more := chain + [rest[0]];
    var others, fewer := Others(live, chain), Others(live, more);
    assert Front(more) == chain && rest[0] in others;
    PathWithout(others, rest);
    assert fewer == others - {rest[0]};
    TakeOverOpen(live, chain, rest[0]);
  }

  // ----- which slices are used again -----

  /** How many of the slices left are used again for n bytes: full pages while n fills them, then one that n fits in. */
  function Reused(live: Blocks, left: seq<Pos>, n: nat): (m: nat)
    ensures m <= |left|
  {
    if left == [] || left[0] !in live then 0
    else if live[left[0]].size < n && live[left[0]].size == PAGEMAXSPARE then
      1 + Reused(live, left[1..], n - live[left[0]].size)
    else if Capacity(live, left[0]) >= n then 1 else 0
  }

  /** The slices kept, then those of the slices left that are used again, and then new ones. */
  ghost predicate ReusedAs(live: Blocks, kept: seq<Pos>, left: seq<Pos>, n: nat, chain: seq<Pos>, rest: seq<Pos>)
  {
    var m := Reused(live, left, n);
    && |kept| + m <= |chain| && chain[..|kept| + m] == kept + left[..m] && rest == left[m..]
    && forall i | |kept| + m <= i < |chain| :: chain[i] !in live
  }

  /** On the way: some of the slices left are in the chain, the others are as they were. */
  ghost predicate Reusing(live0: Blocks, live: Blocks, kept: seq<Pos>, left: seq<Pos>, n0: nat, chain: seq<Pos>,
                          rest: seq<Pos>, n: nat)
  {
    && |rest| <= |left| && chain == kept + left[..|left| - |rest|] && rest == left[|left| - |rest|..]
    && live.Keys == live0.Keys && (forall c | c in rest :: c in live && live[c] == live0[c])
    && Reused(live0, left, n0) == |left| - |rest| + Reused(live0, rest, n)
  }

  lemma ReusingFirst(live: Blocks, kept: seq<Pos>, left: seq<Pos>, n: nat)
    requires Attached(live, kept, left)
    ensures Reusing(live, live, kept, left, n, kept, left, n)
  {
  }

  lemma ReusingNext(live0: Blocks, live: Blocks, live': Blocks, kept: seq<Pos>, left: seq<Pos>, n0: nat,
                    chain: seq<Pos>,
                    rest: seq<Pos>, n: nat)
    requires Reusing(live0, live, kept, left, n0, chain, rest, n) && Attached(live, chain, rest) && rest != []
    requires live[rest[0]].size < n && live[rest[0]].size == PAGEMAXSPARE
    requires Open(live', chain + [rest[0]]) && Others(live', chain + [rest[0]]) == Others(live, chain + [rest[0]])
    ensures Reusing(live0, live', kept, left, n0, chain + [rest[0]], rest[1..], n - live[rest[0]].size)
  {
    var more := chain + [rest[0]];
    forall c ensures c in live' <==> c in live {
      if c !in more { assert c in Others(live', more) <==> c in Others(live, more); }
    }
    forall c | c in rest[1..] ensures c in live' && live'[c] == live0[c] {
      assert c in Others(live, chain) && c != rest[0];
      assert c in Others(live, more) && Others(live', more)[c] == live'[c];
    }
    assert left[..|left| - |rest| + 1] == left[..|left| - |rest|] + [rest[0]];
  }

  /** The slice that the last bytes fit in. */
  lemma ReusingLast(live0: Blocks, live: Blocks, kept: seq<Pos>, left: seq<Pos>, n0: nat, chain: seq<Pos>,
                    rest: seq<Pos>, n: nat)
    requires Reusing(live0, live, kept, left, n0, chain, rest, n) && rest != [] && rest[0] in live
    requires !(live[rest[0]].size < n && live[rest[0]].size == PAGEMAXSPARE) && Capacity(live, rest[0]) >= n
    ensures ReusedAs(live0, kept, left, n0, chain + [rest[0]], rest[1..])
  {
    assert left[..|left| - |rest| + 1] == left[..|left| - |rest|] + [rest[0]];
  }

  /** No more of them will do. */
  lemma ReusingNone(live0: Blocks, live: Blocks, kept: seq<Pos>, left: seq<Pos>, n0: nat, chain: seq<Pos>,
                    rest: seq<Pos>, n: nat, chain': seq<Pos>)
    requires Reusing(live0, live, kept, left, n0, chain, rest, n)
    requires rest == [] || (rest[0] in live && Capacity(live, rest[0]) < n
                            && !(live[rest[0]].size < n && live[rest[0]].size == PAGEMAXSPARE))
    requires chain <= chain' && forall i | |chain| <= i < |chain'| :: chain'[i] !in live
    ensures ReusedAs(live0, kept, left, n0, chain', rest)
  {
  }

  lemma TakeOverOpen(live: Blocks, chain: seq<Pos>, a: Pos)
    requires Open(live, chain) && a in live && a !in chain && a.page != 0 && live[Last(chain)].link == a
    requires |live[a].bytes| > 0 && !live[a].firstSlice
    ensures Open(live, chain + [a])
  {
    var more := chain + [a];
    forall i | 0 <= i < |more| - 1 ensures live[more[i]].link == more[i + 1] {
      if i < |chain| - 1 {
        assert more[i] == chain[i] && more[i + 1] == chain[i + 1];
      }
    }
  }

  /** Writing into the last slice leaves the old slices attached. */
  lemma AttachedStays(live: Blocks, live': Blocks, chain: seq<Pos>, rest: seq<Pos>)
    requires Attached(live, chain, rest) && Open(live', chain) && Others(live', chain) == Others(live, chain)
    requires live'[Last(chain)].link == live[Last(chain)].link
    ensures Attached(live', chain, rest)
  {
    forall i | 0 <= i < |rest|
      ensures rest[i] in live' && |live'[rest[i]].bytes| > 0 && !live'[rest[i]].firstSlice
    {
      assert rest[i] in Others(live, chain) && rest[i] in Others(live', chain);
      assert Others(live, chain)[rest[i]] == live[rest[i]];
    }
  }

  /** The rest of the old chain is given up: the new chain is not touched. */
  lemma DropRest(live: Blocks, chain: seq<Pos>, rest: seq<Pos>, others: Blocks)
    requires Open(live, chain) && Others(live, chain) == others && Ends(others, rest)
    ensures Ends(live, rest) && Open(Others(live, rest), chain)
    ensures Others(Others(live, rest), chain) == Others(others, rest)
    ensures Content(Others(live, rest), chain) == Content(live, chain)
  {
    var live' := Others(live, rest);
    forall i | 0 <= i < |chain| ensures chain[i] in live' && live'[chain[i]] == live[chain[i]] {
      assert chain[i] !in others;
    }
    assert SlicesOf(live', chain) == SlicesOf(live, chain);
  }
}
