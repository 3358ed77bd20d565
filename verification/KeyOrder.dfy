/** The order of keys: byte by byte, as compared in index slots, and as ranks. */
module KeyOrder {
  import opened Octets

  // ----- the order -----

  /** Lexicographic order of byte strings: -1, 0 or 1. */
  function Lex(a: Octets, b: Octets): (r: int)
    ensures -1 <= r <= 1 && (r == 0 <==> a == b)
  {
    if a == [] then (if b == [] then 0 else -1)
    else if b == [] then 1
    else if a[0] < b[0] then -1
    else if a[0] > b[0] then 1
    else Lex(a[1..], b[1..])
  }

  function Sign(x: int): int
  {
    if x < 0 then -1 else if x > 0 then 1 else 0
  }

  lemma {:induction false} LexSkip(a: Octets, b: Octets, n: nat)
    requires n <= |a| && n <= |b| && a[..n] == b[..n]
    ensures Lex(a, b) == Lex(a[n..], b[n..])
  {
    if n > 0 {
      assert a[0] == a[..n][0] == b[..n][0] == b[0];
      assert a[1..][..n - 1] == a[..n][1..] && b[1..][..n - 1] == b[..n][1..];
      LexSkip(a[1..], b[1..], n - 1);
      assert a[1..][n - 1..] == a[n..] && b[1..][n - 1..] == b[n..];
    }
  }

  /** The first difference decides, wherever the strings are cut after it. */
  lemma LexAt(a: Octets, b: Octets, n: nat)
    requires n < |a| && n < |b| && a[..n] == b[..n] && a[n] != b[n]
    ensures Lex(a, b) == Sign(a[n] as int - b[n] as int)
  {
    LexSkip(a, b, n);
  }

  /** What differs within the first n bytes decides; if nothing does, and one string ends there, the lengths do. */
  lemma LexCut(a: Octets, b: Octets, n: nat)
    requires n <= |a| && n <= |b|
    ensures Lex(a[..n], b[..n]) != 0 ==> Lex(a, b) == Lex(a[..n], b[..n])
    ensures Lex(a[..n], b[..n]) == 0 && (n == |a| || n == |b|) ==> Lex(a, b) == Sign(|a| - |b|)
  {
    if a[..n] != b[..n] {
      var i := FirstDifference(a[..n], b[..n]);
      assert a[..i] == a[..n][..i] && b[..i] == b[..n][..i];
      LexAt(a, b, i);
      LexAt(a[..n], b[..n], i);
    } else {
      LexSkip(a, b, n);
    }
  }

  lemma {:induction false} FirstDifference(a: Octets, b: Octets) returns (i: nat)
    requires |a| == |b| && a != b
    ensures i < |a| && a[i] != b[i] && a[..i] == b[..i]
  {
    if a[0] != b[0] {
      i := 0;
    } else {
      assert a == [a[0]] + a[1..] && b == [b[0]] + b[1..];
      var j := FirstDifference(a[1..], b[1..]);
      i := j + 1;
      assert a[..i] == [a[0]] + a[1..][..j] && b[..i] == [b[0]] + b[1..][..j];
    }
  }

  // ----- comparing word by word -----

  /** The unsigned difference. */
  function Minus(k1: int, k2: int): int
  {
    (k1 - k2) % WORD
  }

  /** An unsigned result returned as a signed int. */
  function ToInt(w: int): int
  {
    if w < 0x8000_0000 then w else w - WORD
  }

  lemma SmallDifference(x: int, y: int)
    requires 0 <= x < 0x100_0000 && 0 <= y < 0x100_0000
    ensures ToInt(Minus(x, y)) == x - y
  {
  }

  lemma DifferenceBytes(d0: int, d1: int, d2: int, d3: int)
    requires -0x100 < d0 < 0x100 && -0x100 < d1 < 0x100 && -0x100 < d2 < 0x100 && -0x100 < d3 < 0x100
    ensures
      var d := Minus(Weighed(d0, d1, d2, d3), 0);
      && (d == 0 <==> d0 == d1 == d2 == d3 == 0)
      && (ByteOf(d, 0) != 0 <==> d0 != 0)
      && (d0 == 0 ==> (ByteOf(d, 1) != 0 <==> d1 != 0))
      && (d0 == d1 == 0 ==> (ByteOf(d, 2) != 0 <==> d2 != 0))
  {
    hide ByteOf, Minus;
    var d, q := Reduced(Weighed(d0, d1, d2, d3));
    Low(d, d0, d1 + 0x100 * d2 + 0x1_0000 * d3 - q * 0x100_0000);
    if d0 == 0 {
      var e := d1 + 0x100 * d2 + 0x1_0000 * d3 - q * 0x100_0000;
      Shifted(d, e);
      Low(e, d1, d2 + 0x100 * d3 - q * 0x1_0000);
      if d1 == 0 {
        var f := d2 + 0x100 * d3 - q * 0x1_0000;
        Shifted(e, f);
        Low(f, d2, d3 - q * 0x100);
        if d2 == 0 {
          HighByte(d, d3, q);
        }
      }
    }
    ZeroByte();
  }

  /** The remainder modulo 2^32. */
  lemma Reduced(x: int) returns (d: int, q: int)
    ensures d == Minus(x, 0) && d == x - q * 0x1_0000_0000 && 0 <= d < 0x1_0000_0000
  {
    d, q := x % 0x1_0000_0000, x / 0x1_0000_0000;
  }

  lemma Low(d: int, low: int, rest: int)
    requires d == low + 0x100 * rest && -0x100 < low < 0x100
    ensures ByteOf(d, 0) != 0 <==> low != 0
  {
  }

  lemma Shifted(d: int, e: int)
    requires d == 0x100 * e
    ensures ByteOf(d, 1) == ByteOf(e, 0) && ByteOf(d, 2) == ByteOf(e, 1)
  {
    assert d / 0x100 == e;
  }

  lemma HighByte(d: int, d3: int, q: int)
    requires -0x100 < d3 < 0x100 && d == 0x100_0000 * (d3 - q * 0x100) && 0 <= d < 0x1_0000_0000
    ensures d == 0 <==> d3 == 0
  {
  }

  lemma ZeroByte()
    ensures ByteOf(0, 0) == 0 && ByteOf(0, 1) == 0 && ByteOf(0, 2) == 0
  {
    FourBytes(0);
  }

  /** The difference of two words is not zero first in the byte where the words first differ. */
  lemma WordDifference(a: Octets, b: Octets)
    requires |a| >= 4 && |b| >= 4
    ensures
      var d := Minus(Word(a), Word(b));
      && (d == 0 <==> a[0] == b[0] && a[1] == b[1] && a[2] == b[2] && a[3] == b[3])
      && (ByteOf(d, 0) != 0 <==> a[0] != b[0])
      && (a[0] == b[0] ==> (ByteOf(d, 1) != 0 <==> a[1] != b[1]))
      && (a[0] == b[0] && a[1] == b[1] ==> (ByteOf(d, 2) != 0 <==> a[2] != b[2]))
  {
    hide ByteOf, Minus, Weighed, Word;
    var d0, d1, d2, d3 := a[0] as int - b[0] as int, a[1] as int - b[1] as int, a[2] as int - b[2] as int,
                          a[3] as int - b[3] as int;
    WordMinus(a, b);
    MinusZero(Word(a), Word(b));
    DifferenceBytes(d0, d1, d2, d3);
  }

  lemma WordMinus(a: Octets, b: Octets)
    requires |a| >= 4 && |b| >= 4
    ensures Word(a) - Word(b) == Weighed(a[0] as int - b[0] as int, a[1] as int - b[1] as int,
                                         a[2] as int - b[2] as int, a[3] as int - b[3] as int)
  {
  }

  lemma MinusZero(x: int, y: int)
    ensures Minus(x, y) == Minus(x - y, 0)
  {
  }

  /** The bytes at a place where the strings are still equal. */
  lemma Decides(a: Octets, b: Octets, at: nat, i: nat)
    requires at + i < |a| && at + i < |b| && a[..at] == b[..at]
    requires forall k | at <= k < at + i :: a[k] == b[k]
    ensures a[at + i] != b[at + i] ==> Lex(a, b) == Sign(a[at + i] as int - b[at + i] as int)
    ensures a[at + i] == b[at + i] ==> a[..at + i + 1] == b[..at + i + 1]
  {
    assert a[..at + i] == b[..at + i] by {
      forall k | 0 <= k < at + i ensures a[k] == b[k] {
        if k < at {
          assert a[..at][k] == b[..at][k];
        }
      }
    }
    if a[at + i] != b[at + i] {
      LexAt(a, b, at + i);
    }
  }

  /** What memcmp_fast returns for two words that differ. */
  function WordResult(k1: int, k2: int): int
  {
    var d := Minus(k1, k2);
    if ByteOf(d, 0) != 0 then ToInt(Minus(ByteOf(k1, 0), ByteOf(k2, 0)))
    else if ByteOf(d, 1) != 0 then ToInt(Minus(ByteOf(k1, 1) * 0x100, ByteOf(k2, 1) * 0x100))
    else if ByteOf(d, 2) != 0 then ToInt(Minus(ByteOf(k1, 2) * 0x1_0000, ByteOf(k2, 2) * 0x1_0000))
    else ToInt(Minus(ByteOf(k1, 3), ByteOf(k2, 3)))
  }

  lemma WordDecides(a: Octets, b: Octets, at: nat)
    requires at + 4 <= |a| == |b| && a[..at] == b[..at]
    ensures Minus(Word(a[at..]), Word(b[at..])) == 0 ==> a[..at + 4] == b[..at + 4]
    ensures Minus(Word(a[at..]), Word(b[at..])) != 0 ==>
              Lex(a, b) == Sign(WordResult(Word(a[at..]), Word(b[at..])))
  {
    hide Word, ByteOf, ToInt, Minus;
    var s, t := a[at..], b[at..];
    WordDifference(s, t);
    WordBytes(s);
    WordBytes(t);
    SmallDifference(s[0], t[0]);
    SmallDifference(s[1] as int * 0x100, t[1] as int * 0x100);
    SmallDifference(s[2] as int * 0x1_0000, t[2] as int * 0x1_0000);
    SmallDifference(s[3], t[3]);
    Decides(a, b, at, 0);
    if s[0] == t[0] {
      Decides(a, b, at, 1);
      if s[1] == t[1] {
        Decides(a, b, at, 2);
        if s[2] == t[2] {
          Decides(a, b, at, 3);
        }
      }
    }
  }

  /** memcmp_fast */
  method MemcmpFast(s1: Octets, s2: Octets, size: nat) returns (comp: int)
    requires size <= |s1| && size <= |s2|
    ensures Sign(comp) == Lex(s1[..size], s2[..size])
  {
    hide Word, ByteOf, ToInt, Minus, Lex;
    var at, n := 0, size;
    while n >= 4
      invariant at + n == size && s1[..at] == s2[..at]
    {
      var k1, k2 := Word(s1[at..]), Word(s2[at..]);
      var d := Minus(k1, k2);
      FirstWord(s1, s2, size, at);
      if d != 0 {
        if ByteOf(d, 0) != 0 {
          return ToInt(Minus(ByteOf(k1, 0), ByteOf(k2, 0)));
        }
        if ByteOf(d, 1) != 0 {
          return ToInt(Minus(ByteOf(k1, 1) * 0x100, ByteOf(k2, 1) * 0x100));
        }
        if ByteOf(d, 2) != 0 {
          return ToInt(Minus(ByteOf(k1, 2) * 0x1_0000, ByteOf(k2, 2) * 0x1_0000));
        }
        return ToInt(Minus(ByteOf(k1, 3), ByteOf(k2, 3)));
      }
      at, n := at + 4, n - 4;
    }
    while n != 0
      invariant at + n == size && s1[..at] == s2[..at]
    {
      comp := s1[at] as int - s2[at] as int;
      Decides(s1[..size], s2[..size], at, 0);
      if comp != 0 {
        return;
      }
      at, n := at + 1, n - 1;
    }
    LexSame(s1[..size], s2[..size]);
    comp := 0;
  }

  lemma LexSame(a: Octets, b: Octets)
    requires a == b
    ensures Lex(a, b) == 0
  {
  }

  /** The word at a place does not depend on what comes after it. */
  lemma FirstWord(s1: Octets, s2: Octets, size: nat, at: nat)
    requires at + 4 <= size <= |s1| && size <= |s2| && s1[..at] == s2[..at]
    ensures
      var k1, k2 := Word(s1[at..]), Word(s2[at..]);
      && (Minus(k1, k2) == 0 ==> s1[..at + 4] == s2[..at + 4])
      && (Minus(k1, k2) != 0 ==> Sign(WordResult(k1, k2)) == Lex(s1[..size], s2[..size]))
  {
    hide ByteOf, ToInt, Minus, Lex, WordResult;
    assert Word(s1[..size][at..]) == Word(s1[at..]) && Word(s2[..size][at..]) == Word(s2[at..]);
    assert s1[..size][..at] == s1[..at] && s2[..size][..at] == s2[..at];
    assert s1[..size][..at + 4] == s1[..at + 4] && s2[..size][..at + 4] == s2[..at + 4];
    WordDecides(s1[..size], s2[..size], at);
  }

  // ----- comparing with an index slot -----

  const INLINE := 5   // sizeof(index_hdr::key)

  /** The key part of an index slot: the first bytes of the key, and its length, or 0 for a longer key. */
  datatype IndexKey = IndexKey(key: Octets, keyLen: Byte)

  /** The slices of a record hold its size, its key's length, the key, and the value. */
  ghost predicate Stores(slices: seq<Octets>, key: Octets)
  {
    && |slices| > 0 && |slices[0]| >= 8 && (forall i | 0 <= i < |slices| :: |slices[i]| > 0)
    && |key| < WORD && 8 + |key| <= |Joined(slices)|
    && Word(slices[0][4..]) == |key|
    && Joined(slices)[8..8 + |key|] == key
  }

  ghost predicate Names(k: IndexKey, slices: seq<Octets>, key: Octets)
  {
    && |k.key| == INLINE && |key| > 0
    && (if |key| <= INLINE then k.keyLen == |key| && k.key[..|key|] == key
        else k.keyLen == 0 && k.key == key[..INLINE] && Stores(slices, key))
  }

  function Min(a: nat, b: nat): nat
  {
    if a < b then a else b
  }

  /** compare: the order of the whole keys, although the slot has only the beginning of a long one. */
  method Compare(k: IndexKey, slices: seq<Octets>, key: Octets, ghost whole: Octets) returns (comp: int)
    requires Names(k, slices, whole)
    ensures Sign(comp) == Lex(key, whole)
  {
    var iKeyLen := k.keyLen as nat;
    if iKeyLen != 0 {
      comp := MemcmpFast(key, k.key, Min(|key|, iKeyLen));
      ShortKey(k.key, key, whole);
      if comp != 0 {
        return;
      }
      return |key| - iKeyLen;
    }
    if |key| <= INLINE {
      comp := MemcmpFast(key, k.key, |key|);
      LexCut(key, whole, |key|);
      assert k.key[..|key|] == whole[..|key|];
      if comp != 0 {
        return;
      }
      return -1;
    }
    comp := MemcmpFast(key, k.key, INLINE);
    LexCut(key, whole, INLINE);
    assert k.key[..INLINE] == k.key;
    if comp != 0 {
      return;
    }
    comp := CompareSlices(slices, key, whole);
  }

  lemma ShortKey(prefix: Octets, key: Octets, whole: Octets)
    requires |whole| <= |prefix| && prefix[..|whole|] == whole
    ensures prefix[..Min(|key|, |whole|)] == whole[..Min(|key|, |whole|)]
    ensures Lex(key[..Min(|key|, |whole|)], whole[..Min(|key|, |whole|)]) != 0 ==>
              Lex(key, whole) == Lex(key[..Min(|key|, |whole|)], whole[..Min(|key|, |whole|)])
    ensures Lex(key[..Min(|key|, |whole|)], whole[..Min(|key|, |whole|)]) == 0 ==>
              Lex(key, whole) == Sign(|key| - |whole|)
  {
    LexCut(key, whole, Min(|key|, |whole|));
  }

  /** The part of compare that follows the slices of the record. */
  method CompareSlices(slices: seq<Octets>, key: Octets, ghost whole: Octets) returns (comp: int)
    requires Stores(slices, whole)
    ensures Sign(comp) == Lex(key, whole)
  {
    var d: nat := 0;
    var iKeyLen := Word(slices[0][4..]);
    var cmpLen: nat := Min(|key|, iKeyLen);
    var min: nat := |slices[0]| - 8;
    FirstSlice(slices, whole, key);
    if cmpLen <= min {
      comp := MemcmpFast(key, slices[0][8..], cmpLen);
      LexCut(key, whole, cmpLen);
      if comp != 0 {
        return;
      }
      return |key| - iKeyLen;
    }
    comp := MemcmpFast(key, slices[0][8..], min);
    LexCut(key, whole, min);
    if comp != 0 {
      return;
    }
    ghost var total := cmpLen;
    var at: nat := 0;
    cmpLen := cmpLen - min;
    while cmpLen != 0
      invariant at + min + cmpLen == total == Min(|key|, |whole|)
      invariant key[..at + min] == whole[..at + min]
      invariant d < |slices| && (cmpLen > 0 ==> |Joined(slices[..d + 1])| == 8 + at + min)
      decreases cmpLen
    {
      at := at + min;
      MoreSlices(slices, whole, d, at);
      d := d + 1;
      min := if cmpLen < |slices[d]| then cmpLen else |slices[d]|;
      SliceBytes(slices, whole, d, at, min);
      comp := MemcmpFast(key[at..], slices[d], min);
      LexPart(key, whole, at, min);
      if comp != 0 {
        return;
      }
      cmpLen := cmpLen - min;
    }
    LexCut(key, whole, total);
    return |key| - iKeyLen;
  }

  lemma FirstSlice(slices: seq<Octets>, whole: Octets, key: Octets)
    requires Stores(slices, whole)
    ensures |Joined(slices[..1])| == |slices[0]|
    ensures forall n | 0 <= n <= |slices[0]| - 8 && n <= |whole| :: slices[0][8..][..n] == whole[..n]
  {
    SliceAt(slices, 0);
    forall n | 0 <= n <= |slices[0]| - 8 && n <= |whole| ensures slices[0][8..][..n] == whole[..n] {
      assert slices[0][8..][..n] == Joined(slices)[8..8 + n] == Joined(slices)[8..8 + |whole|][..n];
    }
  }

  /** While bytes of the key are left there is a next slice. */
  lemma MoreSlices(slices: seq<Octets>, whole: Octets, d: nat, at: nat)
    requires Stores(slices, whole) && d < |slices| && |Joined(slices[..d + 1])| == 8 + at && at < |whole|
    ensures d + 1 < |slices|
  {
    assert slices[..|slices|] == slices;
  }

  lemma SliceBytes(slices: seq<Octets>, whole: Octets, d: nat, at: nat, min: nat)
    requires Stores(slices, whole) && d < |slices| && |Joined(slices[..d])| == 8 + at
    requires min <= |slices[d]| && at + min <= |whole|
    ensures slices[d][..min] == whole[at..at + min]
    ensures |Joined(slices[..d + 1])| == 8 + at + |slices[d]|
  {
    SliceAt(slices, d);
    var j := Joined(slices);
    assert slices[d][..min] == j[8 + at..8 + at + |slices[d]|][..min] == j[8 + at..8 + at + min];
    Part(j, 8, |whole|, at, at + min);
  }

  lemma LexPart(key: Octets, whole: Octets, at: nat, min: nat)
    requires at + min <= |key| && at + min <= |whole| && key[..at] == whole[..at]
    ensures Lex(key[at..][..min], whole[at..at + min]) != 0 ==>
              Lex(key, whole) == Lex(key[at..][..min], whole[at..at + min])
    ensures Lex(key[at..][..min], whole[at..at + min]) == 0 ==> key[..at + min] == whole[..at + min]
  {
    LexSkip(key, whole, at);
    assert whole[at..][..min] == whole[at..at + min];
    LexCut(key[at..], whole[at..], min);
    assert key[..at + min] == key[..at] + key[at..][..min];
    assert whole[..at + min] == whole[..at] + whole[at..at + min];
  }

  // ----- ranks -----

  /** A place among the real numbers for each byte string. */
  function Rank(a: Octets): (r: real)
    ensures 0.0 <= r < 1.0
  {
    if a == [] then 0.0 else (1.0 + a[0] as real + Rank(a[1..])) / 257.0
  }

  /** Ranks are ordered as the keys are: a tree ordered by ranks is a tree ordered by keys. */
  lemma {:induction false} RankOrders(a: Octets, b: Octets)
    ensures Lex(a, b) == if Rank(a) < Rank(b) then -1 else if Rank(a) > Rank(b) then 1 else 0
  {
    if a != [] && b != [] {
      RankOrders(a[1..], b[1..]);
    }
  }

  lemma RankIsOneToOne(a: Octets, b: Octets)
    ensures Rank(a) == Rank(b) <==> a == b
  {
    RankOrders(a, b);
  }
}
