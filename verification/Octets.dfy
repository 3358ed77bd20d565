/** Byte strings: whole, as four-byte words, and cut into slices. */
module Octets {
  type Byte = b: int | 0 <= b < 256
  type Octets = seq<Byte>

  const WORD := 0x1_0000_0000

  // ----- four-byte words, low byte first -----

  function Word(s: Octets): (w: nat)
    requires |s| >= 4
    ensures w < WORD
  {
    Weighed(s[0], s[1], s[2], s[3])
  }

  function Weighed(b0: int, b1: int, b2: int, b3: int): int
  {
    b0 + 0x100 * b1 + 0x1_0000 * b2 + 0x100_0000 * b3
  }

  /** Byte i of a word, as a shift and a mask give it. */
  function ByteOf(w: int, i: nat): (b: int)
    ensures 0 <= b < 256
    decreases i
  {
    if i == 0 then w % 0x100 else ByteOf(w / 0x100, i - 1)
  }

  lemma LowByte(w: int, low: int, rest: int)
    requires w == low + 0x100 * rest && 0 <= low < 0x100
    ensures w % 0x100 == low && w / 0x100 == rest
  {
  }

  lemma WordBytes(s: Octets)
    requires |s| >= 4
    ensures ByteOf(Word(s), 0) == s[0] && ByteOf(Word(s), 1) == s[1]
    ensures ByteOf(Word(s), 2) == s[2] && ByteOf(Word(s), 3) == s[3]
  {
    BytesOfWeighed(s[0], s[1], s[2], s[3]);
  }

  lemma BytesOfWeighed(b0: Byte, b1: Byte, b2: Byte, b3: Byte)
    ensures
      var w := Weighed(b0, b1, b2, b3);
      ByteOf(w, 0) == b0 && ByteOf(w, 1) == b1 && ByteOf(w, 2) == b2 && ByteOf(w, 3) == b3
  {
    var w1, w2 := b1 as int + 0x100 * b2 as int + 0x1_0000 * b3 as int, b2 as int + 0x100 * b3 as int;
    LowByte(Weighed(b0, b1, b2, b3), b0, w1);
    LowByte(w1, b1, w2);
    LowByte(w2, b2, b3);
    LowByte(b3, b3, 0);
    FourBytes(Weighed(b0, b1, b2, b3));
  }

  lemma FourBytes(w: int)
    ensures ByteOf(w, 0) == w % 0x100 && ByteOf(w, 1) == w / 0x100 % 0x100
    ensures ByteOf(w, 2) == w / 0x100 / 0x100 % 0x100 && ByteOf(w, 3) == w / 0x100 / 0x100 / 0x100 % 0x100
  {
    assert ByteOf(w, 2) == ByteOf(w / 0x100, 1) == ByteOf(w / 0x100 / 0x100, 0);
    assert ByteOf(w, 3) == ByteOf(w / 0x100, 2) == ByteOf(w / 0x100 / 0x100, 1) ==
           ByteOf(w / 0x100 / 0x100 / 0x100, 0);
  }

  function Le(n: nat): (s: Octets)
    requires n < WORD
    ensures |s| == 4
  {
    [ByteOf(n, 0), ByteOf(n, 1), ByteOf(n, 2), ByteOf(n, 3)]
  }

  lemma WordOfLe(n: nat)
    requires n < WORD
    ensures Word(Le(n)) == n
  {
    hide ByteOf;
    FourBytes(n);
    var n1 := n / 0x100;
    var n2 := n1 / 0x100;
    var n3 := n2 / 0x100;
    assert n == n % 0x100 + 0x100 * n1 && n1 == n1 % 0x100 + 0x100 * n2 && n2 == n2 % 0x100 + 0x100 * n3;
    assert 0 <= n3 < 0x100;
  }

  // ----- slices -----

  function Joined(slices: seq<Octets>): Octets
  {
    if slices == [] then [] else Joined(slices[..|slices| - 1]) + slices[|slices| - 1]
  }

  lemma {:induction false} JoinedSplit(a: seq<Octets>, b: seq<Octets>)
    ensures Joined(a + b) == Joined(a) + Joined(b)
  {
    if b == [] {
      assert a + b == a;
    } else {
      var n := |b| - 1;
      assert (a + b)[..|a| + n] == a + b[..n];
      JoinedSplit(a, b[..n]);
    }
  }

  lemma JoinedOne(s: Octets)
    ensures Joined([]) == [] && Joined([s]) == s
  {
    assert [s][..0] == [];
  }

  /** A slice is found in the whole where the slices before it end. */
  lemma SliceAt(slices: seq<Octets>, k: nat)
    requires k < |slices|
    ensures
      var at := |Joined(slices[..k])|;
      at + |slices[k]| <= |Joined(slices)| && Joined(slices)[at..at + |slices[k]|] == slices[k]
    ensures Joined(slices[..k + 1]) == Joined(slices[..k]) + slices[k]
    ensures Joined(slices)[..|Joined(slices[..k])|] == Joined(slices[..k])
  {
    assert slices[..k + 1][..k] == slices[..k];
    assert slices == slices[..k + 1] + slices[k + 1..];
    JoinedSplit(slices[..k + 1], slices[k + 1..]);
  }

  /** A part of a part. */
  lemma Part(s: Octets, from: nat, n: nat, x: nat, y: nat)
    requires x <= y <= n && from + n <= |s|
    ensures s[from + x..from + y] == s[from..from + n][x..y]
  {
    var p := s[from..from + n];
    assert |s[from + x..from + y]| == |p[x..y]|;
    forall k | 0 <= k < y - x ensures s[from + x..from + y][k] == p[x..y][k] {
      assert p[x..y][k] == p[x + k] == s[from + (x + k)];
    }
  }
}
