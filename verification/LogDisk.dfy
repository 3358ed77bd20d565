/** The files a multi-table checkpoint writes, page by page, and what recovery reads out of them. */
module LogDisk {
  import opened Places

  type Body = seq<bv8>

  /** Page 0 of a table file; the two logger fields are kept apart from the rest of the page. */
  datatype Magic = Magic(body: Body, loggerId: int, lastCheck: int)

  datatype Table = Table(magic: Magic, pages: map<PageIndex, Body>)

  datatype Outcome = Null | Prepared | Commit | Abort

  datatype Item = Item(first: nat, last: nat, stamp: int, outcome: Outcome)

  datatype Range = Range(first: nat, last: nat)

  /**
   * A page of a log file: page 0 is the key page, pages 1..T belong to the T tables,
   * the others carry a page image and the index it came from.
   */
  datatype LogPage =
    | KeyPage(pageFirst: nat, pageLast: nat, recMax: nat, recCur: nat, chain: int, items: map<nat, Item>)
    | TablePage(ranges: map<nat, Range>)
    | DataPage(index: PageIndex, body: Body)

  type LogFile = map<nat, LogPage>

  /** What checkpoint logs for one table: page images, the magic page last. */
  type Snap = seq<(PageIndex, Body)>

  datatype Disk = Disk(tables: seq<Table>, logs: map<int, LogFile>)

  // A record slot that was never written reads as zero.
  function ItemAt(k: LogPage, r: nat): Item
    requires k.KeyPage?
  {
    if r in k.items then k.items[r] else NO_ITEM
  }

  function RangeAt(p: LogPage, r: nat): Range
    requires p.TablePage?
  {
    if r in p.ranges then p.ranges[r] else Range(0, 0)
  }

  // ----- single page writes -----

  function PutLog(d: Disk, id: int, i: nat, page: LogPage): Disk {
    d.(logs := d.logs[id := (if id in d.logs then d.logs[id] else map[])[i := page]])
  }

  function PutMagic(d: Disk, t: nat, m: Magic): Disk
    requires t < |d.tables|
  {
    d.(tables := d.tables[t := d.tables[t].(magic := m)])
  }

  function PutPage(d: Disk, t: nat, i: PageIndex, b: Body): Disk
    requires t < |d.tables|
  {
    d.(tables := d.tables[t := d.tables[t].(pages := d.tables[t].pages[i := b])])
  }

  // ----- images -----

  /** What a table holds, logger fields aside. */
  datatype Image = Image(magic: Body, pages: map<PageIndex, Body>)

  function ImageOf(t: Table): Image {
    Image(t.magic.body, t.pages)
  }

  function Images(d: Disk): (s: seq<Image>)
    ensures |s| == |d.tables|
  {
    seq(|d.tables|, t requires 0 <= t < |d.tables| => ImageOf(d.tables[t]))
  }

  function Replaced(m: map<PageIndex, Body>, s: Snap): map<PageIndex, Body> {
    if |s| == 0 then m else Replaced(m, s[..|s| - 1])[s[|s| - 1].0 := s[|s| - 1].1]
  }

  /** The image after the snapshot's pages have replaced the old ones. */
  function Overlay(img: Image, s: Snap): Image {
    if |s| == 0 then img
    else Image(s[|s| - 1].1, Replaced(img.pages, s[..|s| - 1]))
  }

  lemma {:induction false} ReplacedTwice(m: map<PageIndex, Body>, s: Snap, n: nat)
    requires n <= |s|
    ensures Replaced(Replaced(m, s[..n]), s) == Replaced(m, s)
    decreases |s|
  {
    ReplacedKnown(m, Replaced(m, s[..n]), s, n);
  }

  /** Two page maps that agree outside the first n pages written agree after all are written. */
  lemma {:induction false} ReplacedKnown(m: map<PageIndex, Body>, m': map<PageIndex, Body>, s: Snap, n: nat)
    requires n <= |s| && m' == Replaced(m, s[..n])
    ensures Replaced(m', s) == Replaced(m, s)
  {
    forall p ensures p in Replaced(m', s) <==> p in Replaced(m, s) { ReplacedAt(m, m', s, n, p); }
    forall p | p in Replaced(m, s) ensures Replaced(m', s)[p] == Replaced(m, s)[p] { ReplacedAt(m, m', s, n, p); }
  }

  lemma {:induction false} ReplacedAt(m: map<PageIndex, Body>, m': map<PageIndex, Body>, s: Snap, n: nat, p: PageIndex)
    requires n <= |s| && m' == Replaced(m, s[..n])
    ensures p in Replaced(m', s) <==> p in Replaced(m, s)
    ensures p in Replaced(m, s) ==> Replaced(m', s)[p] == Replaced(m, s)[p]
  {
    ReplacedLookup(m, s, p);
    ReplacedLookup(m', s, p);
    ReplacedLookup(m, s[..n], p);
  }

  /** The last write to p decides. */
  function LastWrite(s: Snap, p: PageIndex): int {
    if |s| == 0 then -1 else if s[|s| - 1].0 == p then |s| - 1 else LastWrite(s[..|s| - 1], p)
  }

  lemma {:induction false} ReplacedLookup(m: map<PageIndex, Body>, s: Snap, p: PageIndex)
    ensures -1 <= LastWrite(s, p) < |s|
    ensures LastWrite(s, p) == -1 ==> forall i | 0 <= i < |s| :: s[i].0 != p
    ensures var w := LastWrite(s, p);
      if w == -1 then (p in Replaced(m, s) <==> p in m) && (p in m ==> Replaced(m, s)[p] == m[p])
      else p in Replaced(m, s) && Replaced(m, s)[p] == s[w].1
    ensures LastWrite(s, p) >= 0 ==> s[LastWrite(s, p)].0 == p
  {
    if |s| > 0 && s[|s| - 1].0 != p { ReplacedLookup(m, s[..|s| - 1], p); }
  }

  // ----- recovery -----

  function MaxId(ts: seq<Table>): int {
    if |ts| == 0 then 0 else
    var m := MaxId(ts[..|ts| - 1]);
    var id := ts[|ts| - 1].magic.loggerId;
    if id > m then id else m
  }

  /** The snapshot a log file holds in the given pages. */
  function Logged(f: LogFile, a: nat, b: nat): (s: Snap)
    requires a <= b && forall i | a <= i < b :: i in f && f[i].DataPage?
    ensures |s| == b - a
  {
    seq(b - a, i requires 0 <= i < b - a => (f[a + i].index, f[a + i].body))
  }

  const NO_ITEM := Item(0, 0, 0, Null)

  /** A key page of a log for n tables; the current record is open at most, those behind it were never touched. */
  predicate KeyOk(k: LogPage, n: nat) {
    && k.KeyPage? && k.pageFirst == n + 1 <= k.pageLast
    && k.recCur <= k.recMax && (forall r | r in k.items :: r < k.recMax)
    && (forall r | r in k.items && r > k.recCur :: k.items[r] == NO_ITEM)
    && var it := ItemAt(k, k.recCur); it.stamp == 0 && (it.outcome == Prepared || (it.outcome == Null && it.last == 0))
  }

  /** A log file with its key page and the pages of n tables. */
  predicate Readable(f: LogFile, n: nat) {
    && 0 in f && KeyOk(f[0], n)
    && forall i | 1 <= i <= n :: i in f && f[i].TablePage?
  }

  /** The record r names existing data pages for every table, all below the place the next record starts at. */
  predicate Complete(f: LogFile, n: nat, r: nat)
    requires Readable(f, n)
  {
    forall i | 1 <= i <= n :: HoldsRange(f, n, RangeAt(f[i], r)) && RangeAt(f[i], r).last <= f[0].pageLast
  }

  /** The pages of the range are page images behind the table pages; only the last may be the magic page. */
  predicate HoldsRange(f: LogFile, n: nat, g: Range) {
    && n < g.first <= g.last
    && forall i | g.first <= i < g.last :: i in f && f[i].DataPage? && (i < g.last - 1 ==> f[i].index != 0)
  }

  function SnapOf(f: LogFile, n: nat, r: nat, t: nat): Snap
    requires Readable(f, n) && t < n && Complete(f, n, r)
  {
    var g := RangeAt(f[t + 1], r);
    Logged(f, g.first, g.last)
  }

  /** The log file recovery will open, found through the table files alone. */
  predicate Openable(d: Disk) {
    && |d.tables| > 0 && MaxId(d.tables) in d.logs
    && Readable(d.logs[MaxId(d.tables)], |d.tables|)
    && (Pending(d) ==> Complete(d.logs[MaxId(d.tables)], |d.tables|, d.logs[MaxId(d.tables)][0].recCur))
    && forall t | 0 <= t < |d.tables| :: d.tables[t].magic.loggerId > 0
  }

  /** The current record of that log file is prepared. */
  predicate Pending(d: Disk)
    requires MaxId(d.tables) in d.logs && Readable(d.logs[MaxId(d.tables)], |d.tables|)
  {
    var k := d.logs[MaxId(d.tables)][0];
    ItemAt(k, k.recCur).outcome == Prepared
  }

  /** The images recovery has to produce. */
  function Recovered(d: Disk): (s: seq<Image>)
    requires Openable(d)
    ensures |s| == |d.tables|
  {
    if Pending(d) then
      var f := d.logs[MaxId(d.tables)];
      seq(|d.tables|, t requires 0 <= t < |d.tables| =>
        Overlay(ImageOf(d.tables[t]), SnapOf(f, |d.tables|, f[0].recCur, t)))
    else Images(d)
  }
}
