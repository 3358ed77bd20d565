/** The layout of an index page and the in-order reading of a node. */
module IndexPage {
  import opened Places

  /** A key stands for its place in the order of all byte strings (see module KeyOrder). */
  type Key = real

  /** A slot leads to the place where the record of the key starts in the data heap. */
  datatype Slot = Slot(key: Key, record: Pos)

  const CHILDBYTES := 4         // child_index
  const SLOTBYTES := 12         // the place of the record, five bytes of the key and its length; or the page header

  // the last place for a slot holds the page header
  const INDEXCOUNT: int := PAGEUSED / (CHILDBYTES + SLOTBYTES) - 1
  const INDEXMINL: int := INDEXCOUNT / 2
  const INDEXMINR: int := INDEXCOUNT - INDEXMINL - 1
  const INDEXSLIPR: int := (INDEXCOUNT - INDEXMINR) / 2 + 1
  const INDEXSLIPL: int := (INDEXCOUNT - INDEXMINR) / 2

  /** Where child i stands in the page, and slot i behind it. */
  function ChildAt(i: nat): nat {
    i * (CHILDBYTES + SLOTBYTES)
  }

  function SlotAt(i: nat): nat {
    ChildAt(i) + CHILDBYTES
  }

  /** 254 slots, 255 children and the header fill the page without overlap; there is no room for one more. */
  lemma SlotsFit(i: nat)
    ensures SlotAt(i) == ChildAt(i) + CHILDBYTES && SlotAt(i) + SLOTBYTES == ChildAt(i + 1)
    ensures i < INDEXCOUNT ==> SlotAt(i) + SLOTBYTES <= ChildAt(INDEXCOUNT)
    ensures SlotAt(INDEXCOUNT) + SLOTBYTES <= PAGEUSED < SlotAt(INDEXCOUNT + 1) + SLOTBYTES
    ensures INDEXCOUNT == 254 && INDEXMINL == 127 && INDEXMINR == 126 && INDEXSLIPR == 65 && INDEXSLIPL == 64
  {
  }

  /**
   * An index page. The live slots are key[l..r]; the live children are child[l..r+1].
   * A child index sits in front of each slot, so there is one more child than slots.
   */
  datatype Node = Node(
    child: seq<PageIndex>, key: seq<Slot>, l: int, r: int,
    parent: PageIndex, ppos: int)

  predicate Shape(n: Node) {
    |n.child| == INDEXCOUNT + 1 && |n.key| == INDEXCOUNT && 0 <= n.l <= n.r <= INDEXCOUNT
  }

  function Size(n: Node): int { n.r - n.l }

  /** The live slots. */
  function Keys(n: Node): (k: seq<Slot>)
    requires Shape(n)
    ensures |k| == Size(n)
  {
    n.key[n.l..n.r]
  }

  /** The live children. */
  function Kids(n: Node): (c: seq<PageIndex>)
    requires Shape(n)
    ensures |c| == Size(n) + 1
  {
    n.child[n.l..n.r + 1]
  }

  /** A page just returned by the page allocator: all bytes zero. */
  predicate Blank(n: Node) {
    && Shape(n) && n.l == 0 && n.r == 0 && n.parent == 0 && n.ppos == 0
    && forall i | 0 <= i <= INDEXCOUNT :: n.child[i] == 0
  }

  function Zeroed(): (n: Node)
    ensures Blank(n)
  {
    Node(seq(INDEXCOUNT + 1, i => 0), seq(INDEXCOUNT, i => Slot(0.0, NONE)), 0, 0, 0, 0)
  }

  // ----- Moving a range of slots inside a page -----

  /** s with s[a..b] copied d places further; what lay there before is overwritten. */
  function Slide<T>(s: seq<T>, a: int, b: int, d: int): (t: seq<T>)
    requires 0 <= a <= b <= |s| && 0 <= a + d && b + d <= |s|
    ensures |t| == |s|
  {
    seq(|s|, j requires 0 <= j < |s| => if a + d <= j < b + d then s[j - d] else s[j])
  }

  // ----- In-order reading of a node, given the reading of every child -----

  type Reading = map<PageIndex, seq<Slot>>

  ghost function At(ord: Reading, p: PageIndex): seq<Slot> {
    if p in ord then ord[p] else []
  }

  /** Children that come before a child, each followed by its separator. */
  ghost function Pre(ord: Reading, c: seq<PageIndex>, k: seq<Slot>): seq<Slot>
    requires |c| == |k|
  {
    if |c| == 0 then [] else
    var n := |c| - 1;
    Pre(ord, c[..n], k[..n]) + (At(ord, c[n]) + [k[n]])
  }

  /** Children that come after a child, each preceded by its separator. */
  ghost function Suf(ord: Reading, c: seq<PageIndex>, k: seq<Slot>): seq<Slot>
    requires |c| == |k|
  {
    if |c| == 0 then [] else
    [k[0]] + At(ord, c[0]) + Suf(ord, c[1..], k[1..])
  }

  /** The in-order reading of an internal node. */
  ghost function Flat(ord: Reading, c: seq<PageIndex>, k: seq<Slot>): seq<Slot>
    requires |c| == |k| + 1
  {
    Pre(ord, c[..|k|], k) + At(ord, c[|k|])
  }

  /** Concatenation may be regrouped. */
  lemma Regroup<T>(a: seq<T>, b: seq<T>, c: seq<T>, d: seq<T>, e: seq<T>)
    ensures a + (b + c) + d + e == a + b + (c + d + e)
    ensures a + (b + c) + d + e == a + (b + c + d) + e
    ensures a + (b + c + d) + e == (a + b) + c + (d + e)
  {
  }

  lemma {:induction false} Around(ord: Reading, c: seq<PageIndex>, k: seq<Slot>, i: int)
    requires |c| == |k| + 1 && 0 <= i <= |k|
    ensures Flat(ord, c, k) == Pre(ord, c[..i], k[..i]) + At(ord, c[i]) + Suf(ord, c[i + 1..], k[i..])
    decreases |k| - i
  {
    if i == |k| {
      assert k[..i] == k;
    } else {
      Around(ord, c, k, i + 1);
      PreNext(ord, c, k, i);
      SufNext(ord, c, k, i);
      Regroup(Pre(ord, c[..i], k[..i]), At(ord, c[i]), [k[i]], At(ord, c[i + 1]), Suf(ord, c[i + 2..], k[i + 1..]));
    }
  }

  lemma PreNext(ord: Reading, c: seq<PageIndex>, k: seq<Slot>, i: int)
    requires |c| >= |k| && 0 <= i < |k|
    ensures Pre(ord, c[..i + 1], k[..i + 1]) == Pre(ord, c[..i], k[..i]) + (At(ord, c[i]) + [k[i]])
  {
    assert c[..i + 1][..i] == c[..i] && k[..i + 1][..i] == k[..i];
  }

  lemma SufNext(ord: Reading, c: seq<PageIndex>, k: seq<Slot>, i: int)
    requires |c| == |k| + 1 && 0 <= i < |k|
    ensures Suf(ord, c[i + 1..], k[i..]) == [k[i]] + At(ord, c[i + 1]) + Suf(ord, c[i + 2..], k[i + 1..])
  {
    assert c[i + 1..][1..] == c[i + 2..] && k[i..][1..] == k[i + 1..];
  }

  /** A child, its right separator and its right neighbour, in context. */
  lemma Around2(ord: Reading, c: seq<PageIndex>, k: seq<Slot>, i: int)
    requires |c| == |k| + 1 && 0 <= i < |k|
    ensures Flat(ord, c, k) == Pre(ord, c[..i], k[..i])
                               + (At(ord, c[i]) + [k[i]] + At(ord, c[i + 1]))
                               + Suf(ord, c[i + 2..], k[i + 1..])
  {
    Around(ord, c, k, i);
    SufNext(ord, c, k, i);
    Regroup(Pre(ord, c[..i], k[..i]), At(ord, c[i]), [k[i]], At(ord, c[i + 1]), Suf(ord, c[i + 2..], k[i + 1..]));
  }

  /** A node falls apart at any of its separators into the readings of two smaller nodes. */
  lemma FlatSplit(ord: Reading, c: seq<PageIndex>, k: seq<Slot>, i: int)
    requires |c| == |k| + 1 && 0 <= i < |k|
    ensures Flat(ord, c, k) == Flat(ord, c[..i + 1], k[..i]) + [k[i]] + Flat(ord, c[i + 1..], k[i + 1..])
  {
    Around2(ord, c, k, i);
    assert c[..i + 1][..i] == c[..i] && k[..i][..i] == k[..i];
    assert Flat(ord, c[..i + 1], k[..i]) == Pre(ord, c[..i], k[..i]) + At(ord, c[i]);
    FlatFirst(ord, c[i + 1..], k[i + 1..]);
    assert c[i + 1..][1..] == c[i + 2..];
    Regroup(Pre(ord, c[..i], k[..i]), At(ord, c[i]), [k[i]], At(ord, c[i + 1]), Suf(ord, c[i + 2..], k[i + 1..]));
  }

  lemma FlatFirst(ord: Reading, c: seq<PageIndex>, k: seq<Slot>)
    requires |c| == |k| + 1
    ensures Flat(ord, c, k) == At(ord, c[0]) + Suf(ord, c[1..], k)
  {
    Around(ord, c, k, 0);
    assert k[0..] == k && Pre(ord, c[..0], k[..0]) == [];
  }

  lemma {:induction false} PreSame(ord: Reading, ord': Reading, c: seq<PageIndex>, k: seq<Slot>)
    requires |c| == |k|
    requires forall i | 0 <= i < |c| :: At(ord, c[i]) == At(ord', c[i])
    ensures Pre(ord, c, k) == Pre(ord', c, k)
  {
    if |c| > 0 { PreSame(ord, ord', c[..|c| - 1], k[..|c| - 1]); }
  }

  lemma {:induction false} SufSame(ord: Reading, ord': Reading, c: seq<PageIndex>, k: seq<Slot>)
    requires |c| == |k|
    requires forall i | 0 <= i < |c| :: At(ord, c[i]) == At(ord', c[i])
    ensures Suf(ord, c, k) == Suf(ord', c, k)
  {
    if |c| > 0 { SufSame(ord, ord', c[1..], k[1..]); }
  }

  lemma FlatSame(ord: Reading, ord': Reading, c: seq<PageIndex>, k: seq<Slot>)
    requires |c| == |k| + 1
    requires forall i | 0 <= i < |c| :: At(ord, c[i]) == At(ord', c[i])
    ensures Flat(ord, c, k) == Flat(ord', c, k)
  {
    PreSame(ord, ord', c[..|k|], k);
  }
}
