/** The copying loops of an index page, as functions on the pages. */
module TreeMoves {
  import opened Places
  import opened IndexPage
  import opened TreeState
  import opened TreeSteps

  /** The children of p at positions [a, b) are linked to p there, and nothing else is. */
  ghost predicate Linking(pages: map<PageIndex, Node>, p: PageIndex, a: int, b: int) {
    && p in pages && Shape(pages[p]) && 0 <= a <= b <= INDEXCOUNT + 1 && pages[p].parent != p
    && (forall i | a <= i < b ::
          var c := pages[p].child[i]; c in pages && pages[c].parent == p && pages[c].ppos == i)
    && (forall q | q in pages && pages[q].parent == p && a <= pages[q].ppos < b ::
          pages[p].child[pages[q].ppos] == q)
  }

  ghost predicate Fits(a: int, b: int, d: int) {
    0 <= a <= b <= INDEXCOUNT && 0 <= a + d && b + d <= INDEXCOUNT
  }

  /** Keys [a, b) and children [a + off, b + off) have moved by d. */
  ghost function Shifted(pages: map<PageIndex, Node>, p: PageIndex, a: int, b: int, d: int, off: int): map<PageIndex,
                         Node>
    requires p in pages && Shape(pages[p]) && Fits(a, b, d) && 0 <= off <= 1
  {
    var n := pages[p];
    Relink(pages, p, a + off, b + off, p, d)
      [p := n.(key := Slide<Slot>(n.key, a, b, d), child := Slide<PageIndex>(n.child, a + off, b + off, d))]
  }

  lemma SlideNextDown<T>(s: seq<T>, a: int, i: int, d: int)
    requires 0 <= a <= i < |s| && d > 0 && d <= a
    ensures Slide(s, a, i, -d)[i - d := Slide(s, a, i, -d)[i]] == Slide(s, a, i + 1, -d)
  {
  }

  lemma SlideNextUp<T>(s: seq<T>, i: int, b: int, d: int)
    requires 0 <= i < b && d > 0 && b + d <= |s|
    ensures Slide(s, i + 1, b, d)[i + d := Slide(s, i + 1, b, d)[i]] == Slide(s, i, b, d)
  {
  }

  lemma SlideNone<T>(s: seq<T>, a: int, d: int)
    requires 0 <= a <= |s| && 0 <= a + d <= |s|
    ensures Slide(s, a, a, d) == s
  {
  }

  lemma RelinkNone(pages: map<PageIndex, Node>, p: PageIndex, a: int, p2: PageIndex, d: int)
    ensures Relink(pages, p, a, a, p2, d) == pages
  {
  }

  /** One more child at the upper end. */
  lemma RelinkNextUpper(pages: map<PageIndex, Node>, p: PageIndex, a: int, i: int, p2: PageIndex, d: int, c: PageIndex)
    requires a <= i && c in pages && pages[c].parent == p && pages[c].ppos == i
    requires forall q | q in pages && pages[q].parent == p && pages[q].ppos == i :: q == c
    ensures Relink(pages, p, a, i + 1, p2, d)
      == Relink(pages, p, a, i, p2, d)[c := pages[c].(parent := p2, ppos := i + d)]
  {
  }

  lemma RelinkNextLower(pages: map<PageIndex, Node>, p: PageIndex, i: int, b: int, d: int, c: PageIndex)
    requires i < b && c in pages && pages[c].parent == p && pages[c].ppos == i
    requires forall q | q in pages && pages[q].parent == p && pages[q].ppos == i :: q == c
    ensures Relink(pages, p, i, b, p, d) == Relink(pages, p, i + 1, b, p, d)[c := pages[c].(ppos := i + d)]
  {
  }

  ghost predicate Adoptable(pages: map<PageIndex, Node>, t: PageIndex, a: int, b: int, p: PageIndex, d: int)
    requires t in pages && Shape(pages[t]) && 0 <= a <= b <= INDEXCOUNT + 1
  {
    && (forall i | a <= i < b ::
          var c := pages[t].child[i]; c in pages && pages[c].parent == p && pages[c].ppos == i - d)
    && (forall q | q in pages && pages[q].parent == p && a <= pages[q].ppos + d < b ::
          pages[t].child[pages[q].ppos + d] == q)
  }

  /** The i-th child is where it was, and is the next to be relinked. */
  lemma AdoptNext(o: map<PageIndex, Node>, t: PageIndex, a: int, i: int, b: int, p: PageIndex, d: int)
    requires t in o && Shape(o[t]) && 0 <= a <= i < b <= INDEXCOUNT + 1 && Adoptable(o, t, a, b, p, d)
    ensures var pages := Relink(o, p, a - d, i - d, t, d);
      && t in pages && Shape(pages[t]) && pages[t].child[i] in pages
      && var c := pages[t].child[i];
        Relink(o, p, a - d, i + 1 - d, t, d) == pages[c := pages[c].(parent := t, ppos := i)]
  {
    RelinkNextUpper(o, p, a - d, i - d, t, d, o[t].child[i]);
  }

  lemma ShiftedAt(o: map<PageIndex, Node>, p: PageIndex, a: int, b: int, d: int, off: int)
    requires p in o && Shape(o[p]) && Fits(a, b, d) && 0 <= off <= 1
    ensures var n, s := o[p], Shifted(o, p, a, b, d, off);
      && p in s && s.Keys == o.Keys
      && s[p] == n.(key := Slide<Slot>(n.key, a, b, d), child := Slide<PageIndex>(n.child, a + off, b + off, d))
  {
  }

  lemma ShiftedOther(o: map<PageIndex, Node>, p: PageIndex, a: int, b: int, d: int, off: int, c: PageIndex,
                     x: PageIndex, i: int)
    requires p in o && Shape(o[p]) && Fits(a, b, d) && 0 <= off <= 1 && c in o && c != p
    ensures c in Shifted(o, p, a, b, d, off)
    ensures Shifted(o, p, a, b, d, off)[c].(parent := x, ppos := i) == o[c].(parent := x, ppos := i)
  {
  }

  lemma ShiftedNone(o: map<PageIndex, Node>, p: PageIndex, a: int, d: int, off: int)
    requires p in o && Shape(o[p]) && Fits(a, a, d) && 0 <= off <= 1
    ensures Shifted(o, p, a, a, d, off) == o
  {
    RelinkNone(o, p, a + off, p, d);
    SlideNone(o[p].key, a, d);
    SlideNone(o[p].child, a + off, d);
  }

  lemma ShiftedNextDown(o: map<PageIndex, Node>, p: PageIndex, a: int, i: int, b: int, d: int, off: int)
    requires p in o && 0 <= off <= 1 && d > 0 && Fits(a, b, -d) && Linking(o, p, a + off, b + off) && a <= i < b
    ensures p in Shifted(o, p, a, i, -d, off) && Shape(Shifted(o, p, a, i, -d, off)[p])
    ensures var s, m := Shifted(o, p, a, i, -d, off), Shifted(o, p, a, i, -d, off)[p];
      var c := m.child[i + off];
      && c == o[p].child[i + off] && c != p && c in s && s[c] == o[c] && s[c].ppos == i + off
      && Shifted(o, p, a, i + 1, -d, off) ==
         s[p := m.(key := m.key[i - d := m.key[i]], child := m.child[i + off - d := c])]
          [c := s[c].(ppos := s[c].ppos - d)]
  {
    hide Slide;
    var n := o[p];
    SlideKeeps(n.child, a + off, i + off, -d, i + off);
    SlideNextDown(n.key, a, i, d);
    SlideNextDown(n.child, a + off, i + off, d);
    var c := n.child[i + off];
    assert c in o && o[c].parent == p && o[c].ppos == i + off;
    RelinkNextUpper(o, p, a + off, i + off, p, -d, c);
  }

  lemma ShiftedNextUp(o: map<PageIndex, Node>, p: PageIndex, a: int, i: int, b: int, d: int)
    requires p in o && d > 0 && Fits(a, b, d) && Linking(o, p, a + 1, b + 1) && a <= i < b
    ensures p in Shifted(o, p, i + 1, b, d, 1) && Shape(Shifted(o, p, i + 1, b, d, 1)[p])
    ensures var s, m := Shifted(o, p, i + 1, b, d, 1), Shifted(o, p, i + 1, b, d, 1)[p];
      var c := m.child[i + 1];
      && c == o[p].child[i + 1] && c != p && c in s && s[c] == o[c] && s[c].ppos == i + 1
      && Shifted(o, p, i, b, d, 1) ==
         s[p := m.(key := m.key[i + d := m.key[i]], child := m.child[i + 1 + d := c])]
          [c := s[c].(ppos := s[c].ppos + d)]
  {
    hide Slide;
    var n := o[p];
    SlideKeeps(n.child, i + 2, b + 1, d, i + 1);
    SlideNextUp(n.key, i, b, d);
    SlideNextUp(n.child, i + 1, b + 1, d);
    var c := n.child[i + 1];
    assert c in o && o[c].parent == p && o[c].ppos == i + 1;
    RelinkNextLower(o, p, i + 1, b + 1, d, c);
  }

  lemma SlideKeeps<T>(s: seq<T>, a: int, b: int, d: int, i: int)
    requires 0 <= a <= b <= |s| && 0 <= a + d && b + d <= |s|
    requires 0 <= i < |s| && !(a + d <= i < b + d)
    ensures Slide(s, a, b, d)[i] == s[i]
  {
  }
}
