/** Pages in the order in which they were last used. */
module LruOrder {
  import opened Places

  ghost predicate Distinct(s: seq<PageIndex>)
  {
    forall i, j | 0 <= i < j < |s| :: s[i] != s[j]
  }

  ghost predicate SameElements(s: seq<PageIndex>, t: seq<PageIndex>)
  {
    forall x :: x in s <==> x in t
  }

  ghost predicate Ascending(s: seq<PageIndex>, lru: map<PageIndex, nat>)
  {
    && (forall x | x in s :: x in lru)
    && (forall i, j | 0 <= i < j < |s| :: lru[s[i]] < lru[s[j]])
  }

  // ----- sort_lru -----

  function Placed(s: seq<PageIndex>, x: PageIndex, lru: map<PageIndex, nat>): seq<PageIndex>
    requires x in lru && forall y | y in s :: y in lru
  {
    if s == [] || lru[x] < lru[s[0]] then [x] + s else [s[0]] + Placed(s[1..], x, lru)
  }

  function SortLru(s: seq<PageIndex>, lru: map<PageIndex, nat>): (t: seq<PageIndex>)
    requires forall x | x in s :: x in lru
    ensures forall x :: x in t ==> x in s
  {
    if s == [] then [] else
      var t := SortLru(s[1..], lru);
      PlacedElements(t, s[0], lru);
      Placed(t, s[0], lru)
  }

  lemma {:induction false} PlacedElements(s: seq<PageIndex>, x: PageIndex, lru: map<PageIndex, nat>)
    requires x in lru && forall y | y in s :: y in lru
    ensures forall y :: y in Placed(s, x, lru) <==> y in s || y == x
  {
    if s != [] && lru[x] >= lru[s[0]] {
      PlacedElements(s[1..], x, lru);
      assert s == [s[0]] + s[1..];
    }
  }

  lemma FirstLowest(s: seq<PageIndex>, lru: map<PageIndex, nat>, x: PageIndex)
    requires Ascending(s, lru) && s != [] && x in s[1..]
    ensures lru[s[0]] < lru[x]
  {
    var k :| 0 <= k < |s[1..]| && s[1..][k] == x;
    assert s[k + 1] == x;
  }

  lemma {:induction false} PlacedAscending(s: seq<PageIndex>, x: PageIndex, lru: map<PageIndex, nat>)
    requires x in lru && Ascending(s, lru) && forall y | y in s :: lru[y] != lru[x]
    ensures Ascending(Placed(s, x, lru), lru)
  {
    PlacedElements(s, x, lru);
    if s != [] && lru[x] >= lru[s[0]] {
      PlacedAscending(s[1..], x, lru);
      PlacedElements(s[1..], x, lru);
      var t := Placed(s[1..], x, lru);
      forall j | 0 <= j < |t| ensures lru[s[0]] < lru[t[j]] {
        assert t[j] in t;
        if t[j] != x {
          FirstLowest(s, lru, t[j]);
        }
      }
    }
  }

  /** Sorting pages with different stamps puts the one used longest ago first. */
  lemma {:induction false} SortIs(s: seq<PageIndex>, lru: map<PageIndex, nat>)
    requires Distinct(s) && (forall x | x in s :: x in lru)
    requires forall x, y | x in s && y in s && x != y :: lru[x] != lru[y]
    ensures Ascending(SortLru(s, lru), lru) && SameElements(SortLru(s, lru), s)
  {
    if s != [] {
      SortIs(s[1..], lru);
      var t := SortLru(s[1..], lru);
      PlacedElements(t, s[0], lru);
      assert s[0] !in s[1..];
      PlacedAscending(t, s[0], lru);
      assert s == [s[0]] + s[1..];
    }
  }

  /** There is one order by stamps. */
  lemma {:induction false} OneOrder(s: seq<PageIndex>, t: seq<PageIndex>, lru: map<PageIndex, nat>)
    requires Ascending(s, lru) && Ascending(t, lru) && SameElements(s, t)
    ensures s == t
  {
    if s != [] {
      assert s[0] in t;
    }
    if t != [] {
      assert t[0] in s;
    }
    if s != [] {
      assert s[0] == t[0];
      forall x ensures x in s[1..] <==> x in t[1..] {
        assert x in s[1..] <==> x in s && x != s[0] by { TailElements(s, lru, x); }
        assert x in t[1..] <==> x in t && x != t[0] by { TailElements(t, lru, x); }
      }
      OneOrder(s[1..], t[1..], lru);
    }
  }

  lemma TailElements(s: seq<PageIndex>, lru: map<PageIndex, nat>, x: PageIndex)
    requires Ascending(s, lru) && s != []
    ensures x in s[1..] <==> x in s && x != s[0]
  {
    assert s == [s[0]] + s[1..];
  }

  // ----- use -----

  function Without(s: seq<PageIndex>, x: PageIndex): seq<PageIndex>
  {
    if s == [] then [] else if s[0] == x then Without(s[1..], x) else [s[0]] + Without(s[1..], x)
  }

  lemma {:induction false} WithoutElements(s: seq<PageIndex>, x: PageIndex)
    ensures forall y :: y in Without(s, x) <==> y in s && y != x
  {
    if s != [] {
      WithoutElements(s[1..], x);
      assert s == [s[0]] + s[1..];
    }
  }

  /** A page with a new stamp, above all others, comes last. */
  lemma {:induction false} UseLast(s: seq<PageIndex>, x: PageIndex, lru: map<PageIndex, nat>, stamp: nat)
    requires Ascending(s, lru) && forall y | y in s :: lru[y] < stamp
    ensures Ascending(Without(s, x) + [x], lru[x := stamp])
  {
    WithoutElements(s, x);
    WithoutAscending(s, x, lru);
    var t := Without(s, x);
    forall i, j | 0 <= i < j < |t + [x]| ensures lru[x := stamp][(t + [x])[i]] < lru[x := stamp][(t + [x])[j]] {
      assert t[i] in t;
      if j < |t| {
        assert t[j] in t;
      }
    }
  }

  lemma {:induction false} WithoutAscending(s: seq<PageIndex>, x: PageIndex, lru: map<PageIndex, nat>)
    requires Ascending(s, lru)
    ensures Ascending(Without(s, x), lru)
  {
    WithoutElements(s, x);
    if s != [] {
      WithoutAscending(s[1..], x, lru);
      WithoutElements(s[1..], x);
      var t := Without(s[1..], x);
      forall j | 0 <= j < |t| ensures lru[s[0]] < lru[t[j]] {
        assert t[j] in t;
        FirstLowest(s, lru, t[j]);
      }
    }
  }

  // ----- what cleanup leaves -----

  /** From the oldest on, clean pages go until no more than low are left or the pages end. */
  function Survivors(s: seq<PageIndex>, clean: set<PageIndex>, size: int, low: nat): seq<PageIndex>
  {
    if s == [] || size <= low then s
    else if s[0] in clean then Survivors(s[1..], clean, size - 1, low)
    else [s[0]] + Survivors(s[1..], clean, size, low)
  }

  /**
   * Only clean pages go; if one goes, all older clean ones go; and it stops at the low mark, or with no clean page
   * left.
   */
  lemma {:induction false} SurvivorsAre(s: seq<PageIndex>, clean: set<PageIndex>, size: int, low: nat)
    requires Distinct(s)
    ensures
      var t := Survivors(s, clean, size, low);
      && (forall x :: x in t ==> x in s)
      && (forall x | x in s && x !in t :: x in clean)
      && (forall i, j | 0 <= i < j < |s| && s[j] !in t && s[i] in clean :: s[i] !in t)
      && |t| <= |s|
      && (size > low && size - (|s| - |t|) > low ==> forall x | x in t :: x !in clean)
      && (size >= low ==> size - (|s| - |t|) >= low)
  {
    var t := Survivors(s, clean, size, low);
    if s != [] && size > low {
      var rest, size' := s[1..], if s[0] in clean then size - 1 else size;
      var u := Survivors(rest, clean, size', low);
      SurvivorsAre(rest, clean, size', low);
      assert s == [s[0]] + rest && s[0] !in rest;
      forall i, j | 0 <= i < j < |s| && s[j] !in t && s[i] in clean ensures s[i] !in t {
        assert s[j] == rest[j - 1];
        if i > 0 {
          assert s[i] == rest[i - 1];
        } else {
          assert s[0] !in u;
        }
      }
    }
  }
}
