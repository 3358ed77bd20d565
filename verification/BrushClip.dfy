/** Sweeping a box, or a point, against a convex brush. */
module BrushClip {
  datatype Vec = Vec(x: real, y: real, z: real)

  function Dot(a: Vec, b: Vec): real
  {
    a.x * b.x + a.y * b.y + a.z * b.z
  }

  function Add(a: Vec, b: Vec): Vec
  {
    Vec(a.x + b.x, a.y + b.y, a.z + b.z)
  }

  function Scaled(t: real, a: Vec): Vec
  {
    Vec(t * a.x, t * a.y, t * a.z)
  }

  datatype HalfSpace = HalfSpace(normal: Vec, dist: real)

  datatype Side = Side(plane: HalfSpace, bevel: bool)

  // ----- the plane seen from the box -----

  /** The corner of the box that goes furthest against the normal. */
  function Offset(n: Vec, e: Vec): Vec
  {
    Vec(if n.x < 0.0 then e.x else -e.x, if n.y < 0.0 then e.y else -e.y, if n.z < 0.0 then e.z else -e.z)
  }

  /** How far a box with centre c is in front of the plane; not positive when it reaches behind it. */
  function Gap(p: HalfSpace, e: Vec, c: Vec): real
  {
    Dot(c, p.normal) - (p.dist - Dot(Offset(p.normal, e), p.normal))
  }

  ghost predicate InBox(c: Vec, e: Vec, q: Vec)
  {
    c.x - e.x <= q.x <= c.x + e.x && c.y - e.y <= q.y <= c.y + e.y && c.z - e.z <= q.z <= c.z + e.z
  }

  /** The plane pushed out by the box: the gap is not positive exactly when a point of the box is not in front. */
  lemma GapMeansReach(p: HalfSpace, e: Vec, c: Vec)
    requires e.x >= 0.0 && e.y >= 0.0 && e.z >= 0.0
    ensures Gap(p, e, c) <= 0.0 <==> exists q :: InBox(c, e, q) && Dot(q, p.normal) <= p.dist
  {
    var n := p.normal;
    var corner := Add(c, Offset(n, e));
    assert InBox(c, e, corner);
    DotAdd(c, Offset(n, e), n);
    forall q | InBox(c, e, q) ensures Dot(q, n) >= Dot(corner, n) {
      CornerFurthest(n, e, c, q);
    }
    hide Dot, Offset, Add;
    assert Gap(p, e, c) == Dot(corner, n) - p.dist;
  }

  lemma DotAdd(a: Vec, b: Vec, n: Vec)
    ensures Dot(Add(a, b), n) == Dot(a, n) + Dot(b, n)
  {
  }

  lemma CornerFurthest(n: Vec, e: Vec, c: Vec, q: Vec)
    requires e.x >= 0.0 && e.y >= 0.0 && e.z >= 0.0 && InBox(c, e, q)
    ensures Dot(q, n) >= Dot(Add(c, Offset(n, e)), n)
  {
    var k := Add(c, Offset(n, e));
    Furthest(n.x, e.x, c.x, q.x, k.x);
    Furthest(n.y, e.y, c.y, q.y, k.y);
    Furthest(n.z, e.z, c.z, q.z, k.z);
    SumGe(q, k, n);
  }

  lemma SumGe(q: Vec, k: Vec, n: Vec)
    requires q.x * n.x >= k.x * n.x && q.y * n.y >= k.y * n.y && q.z * n.z >= k.z * n.z
    ensures Dot(q, n) >= Dot(k, n)
  {
  }

  lemma Furthest(n: real, e: real, c: real, q: real, k: real)
    requires e >= 0.0 && c - e <= q <= c + e && k == c + (if n < 0.0 then e else -e)
    ensures q * n >= k * n
  {
    if n < 0.0 {
      Product(q, k, -n);
      assert q * -n == -(q * n) && k * -n == -(k * n);
    } else if n > 0.0 {
      Product(k, q, n);
    }
  }

  // ----- a side along the sweep -----

  /** The gap of a side at the start and at the end; a skipped side has no say. */
  datatype Ends = Ends(d1: real, d2: real, used: bool)

  function GapAt(p: Ends, t: real): real
  {
    p.d1 + t * (p.d2 - p.d1)
  }

  lemma GapIsLinear(p: HalfSpace, e: Vec, start: Vec, delta: Vec, t: real, used: bool)
    ensures Gap(p, e, Add(start, Scaled(t, delta))) ==
              GapAt(Ends(Gap(p, e, start), Gap(p, e, Add(start, delta)), used), t)
  {
    var n := p.normal;
    assert Dot(Add(start, Scaled(t, delta)), n) == Dot(start, n) + t * Dot(delta, n) by {
      assert (t * delta.x) * n.x == t * (delta.x * n.x);
      assert (t * delta.y) * n.y == t * (delta.y * n.y);
      assert (t * delta.z) * n.z == t * (delta.z * n.z);
    }
    assert Dot(Add(start, delta), n) == Dot(start, n) + Dot(delta, n);
  }

  /** In front for the whole sweep: the box's test, and the ray's weaker one. */
  predicate Front(p: Ends, ray: bool)
  {
    p.used && p.d1 > 0.0 && if ray then p.d2 >= p.d1 else p.d2 > 0.0
  }

  predicate Entering(p: Ends, ray: bool)
  {
    p.used && p.d1 > 0.0 && !Front(p, ray)
  }

  predicate Leaving(p: Ends)
  {
    p.used && p.d1 <= 0.0 && p.d2 > 0.0
  }

  function EnterAt(p: Ends, eps: real): real
    requires p.d1 > p.d2
  {
    (if p.d1 - eps < 0.0 then 0.0 else p.d1 - eps) / (p.d1 - p.d2)
  }

  function LeaveAt(p: Ends, eps: real): real
    requires p.d1 < p.d2
  {
    (p.d1 + eps) / (p.d1 - p.d2)
  }

  /** At time t: within eps of a side it enters by, at least eps behind a side it leaves by. */
  ghost predicate Behind(p: Ends, ray: bool, eps: real, t: real)
  {
    && !Front(p, ray)
    && (Entering(p, ray) ==> GapAt(p, t) <= eps)
    && (Leaving(p) ==> GapAt(p, t) <= -eps)
  }

  lemma Product(a: real, b: real, w: real)
    requires w > 0.0
    ensures a <= b <==> a * w <= b * w
  {
    if a <= b {
      assert (b - a) * w >= 0.0;
    } else {
      assert (a - b) * w > 0.0;
    }
  }

  lemma BehindIs(p: Ends, ray: bool, eps: real, t: real)
    requires 0.0 <= t
    ensures Entering(p, ray) ==> (GapAt(p, t) <= eps <==> EnterAt(p, eps) <= t)
    ensures Entering(p, ray) ==> 0.0 <= EnterAt(p, eps)
    ensures Leaving(p) ==> (GapAt(p, t) <= -eps <==> t <= LeaveAt(p, eps))
  {
    if Entering(p, ray) {
      EntryIs(p, eps, t, p.d1 - p.d2);
    } else if Leaving(p) {
      ExitIs(p, eps, t, p.d2 - p.d1);
    }
  }

  lemma EntryIs(p: Ends, eps: real, t: real, w: real)
    requires w == p.d1 - p.d2 > 0.0 && p.d1 > 0.0 && 0.0 <= t
    ensures (GapAt(p, t) <= eps <==> EnterAt(p, eps) <= t) && 0.0 <= EnterAt(p, eps)
  {
    var c := if p.d1 - eps < 0.0 then 0.0 else p.d1 - eps;
    var f := EnterAt(p, eps);
    assert f == c / w && f * w == c;
    assert GapAt(p, t) == p.d1 - t * w;
    Product(f, t, w);
    Product(0.0, f, w);
    Product(0.0, t, w);
  }

  lemma ExitIs(p: Ends, eps: real, t: real, w: real)
    requires w == p.d2 - p.d1 > 0.0
    ensures GapAt(p, t) <= -eps <==> t <= LeaveAt(p, eps)
  {
    var f := LeaveAt(p, eps);
    assert f == (p.d1 + eps) / -w && f * w == -(p.d1 + eps);
    assert GapAt(p, t) == p.d1 + t * w;
    Product(t, f, w);
  }

  /** Where the clip side stands at the time it is reached: eps away, or still where it started. */
  lemma ClipGap(p: Ends, ray: bool, eps: real)
    requires Entering(p, ray)
    ensures GapAt(p, EnterAt(p, eps)) == if p.d1 < eps then p.d1 else eps
  {
    var w, c := p.d1 - p.d2, if p.d1 - eps < 0.0 then 0.0 else p.d1 - eps;
    assert EnterAt(p, eps) * w == c;
    assert EnterAt(p, eps) * (p.d2 - p.d1) == -c;
  }

  // ----- all sides -----

  ghost predicate AllBehind(g: seq<Ends>, ray: bool, eps: real, t: real)
  {
    forall i | 0 <= i < |g| :: Behind(g[i], ray, eps, t)
  }

  /** Inside the brush, pushed out by the box. */
  ghost predicate Inside(g: seq<Ends>, t: real)
  {
    forall i | 0 <= i < |g| && g[i].used :: GapAt(g[i], t) <= 0.0
  }

  /** With no tolerance, to be behind all sides is to be inside. */
  lemma BehindIsInside(g: seq<Ends>, ray: bool, t: real)
    requires 0.0 <= t <= 1.0
    ensures AllBehind(g, ray, 0.0, t) <==> Inside(g, t)
  {
    forall i | 0 <= i < |g| && g[i].used ensures Behind(g[i], ray, 0.0, t) <==> GapAt(g[i], t) <= 0.0 {
      Between(g[i], t);
      if Front(g[i], ray) {
        assert GapAt(g[i], t) > 0.0;
      }
    }
  }

  lemma Between(p: Ends, t: real)
    requires 0.0 <= t <= 1.0
    ensures p.d1 <= p.d2 ==> p.d1 <= GapAt(p, t) <= p.d2
    ensures p.d2 <= p.d1 ==> p.d2 <= GapAt(p, t) <= p.d1
    ensures p.d1 > 0.0 && p.d2 > 0.0 ==> GapAt(p, t) > 0.0
    ensures p.d1 <= 0.0 && p.d2 <= 0.0 ==> GapAt(p, t) <= 0.0
  {
    var w := p.d2 - p.d1;
    assert GapAt(p, t) == p.d1 + t * w;
    if w > 0.0 {
      Product(0.0, t, w);
      Product(t, 1.0, w);
    } else if w < 0.0 {
      Product(0.0, t, -w);
      Product(t, 1.0, -w);
      assert t * -w == -(t * w);
    } else {
      assert t * w == 0.0;
    }
  }

  /** The whole sweep is inside exactly when its two ends are. */
  lemma SweepInside(g: seq<Ends>)
    ensures (forall t | 0.0 <= t <= 1.0 :: Inside(g, t)) <==> Inside(g, 0.0) && Inside(g, 1.0)
  {
    if Inside(g, 0.0) && Inside(g, 1.0) {
      forall t | 0.0 <= t <= 1.0 ensures Inside(g, t) {
        forall i | 0 <= i < |g| && g[i].used ensures GapAt(g[i], t) <= 0.0 {
          assert GapAt(g[i], 0.0) <= 0.0 && GapAt(g[i], 1.0) <= 0.0;
          Between(g[i], t);
        }
      }
    }
  }

  // ----- the loop's bounds -----

  /** enter is the latest entry among the sides seen, and clip a side that is entered then. */
  ghost predicate EnterBound(g: seq<Ends>, n: nat, ray: bool, eps: real, enter: real, none: real, clip: nat)
    requires n <= |g|
  {
    && (forall i | 0 <= i < n && Entering(g[i], ray) :: EnterAt(g[i], eps) <= enter)
    && (enter == none || (clip < n && Entering(g[clip], ray) && enter == EnterAt(g[clip], eps) && enter >= 0.0))
    && (enter == none ==> forall i | 0 <= i < n :: !Entering(g[i], ray))
  }

  /** leave is the earliest exit among them, or the end of the sweep. */
  ghost predicate LeaveBound(g: seq<Ends>, n: nat, eps: real, leave: real)
    requires n <= |g|
  {
    && leave <= 1.0
    && (forall i | 0 <= i < n && Leaving(g[i]) :: leave <= LeaveAt(g[i], eps))
    && (leave == 1.0 || exists i | 0 <= i < n :: Leaving(g[i]) && leave == LeaveAt(g[i], eps))
  }

  /** Behind all sides: from the latest entry to the earliest exit. */
  lemma BehindBetween(g: seq<Ends>, ray: bool, eps: real, enter: real, none: real, clip: nat, leave: real, t: real)
    requires none < 0.0 && enter != none && 0.0 <= t <= 1.0
    requires EnterBound(g, |g|, ray, eps, enter, none, clip) && LeaveBound(g, |g|, eps, leave)
    requires forall i | 0 <= i < |g| :: !Front(g[i], ray)
    ensures AllBehind(g, ray, eps, t) <==> enter <= t <= leave
  {
    forall i | 0 <= i < |g| ensures enter <= t <= leave ==> Behind(g[i], ray, eps, t) {
      BehindIs(g[i], ray, eps, t);
    }
    if AllBehind(g, ray, eps, t) {
      assert Behind(g[clip], ray, eps, t);
      BehindIs(g[clip], ray, eps, t);
      if leave != 1.0 {
        var i :| 0 <= i < |g| && Leaving(g[i]) && leave == LeaveAt(g[i], eps);
        assert Behind(g[i], ray, eps, t);
        BehindIs(g[i], ray, eps, t);
      }
    }
  }

  /** The sweep is behind all sides for more than an instant. */
  ghost predicate PassesThrough(g: seq<Ends>, ray: bool, eps: real)
  {
    exists a: real, b: real ::
      0.0 <= a < b <= 1.0 && AllBehind(g, ray, eps, a) && AllBehind(g, ray, eps, b)
  }

  lemma PassesThroughIs(g: seq<Ends>, ray: bool, eps: real, enter: real, none: real, clip: nat, leave: real)
    requires none < 0.0 && enter != none
    requires EnterBound(g, |g|, ray, eps, enter, none, clip) && LeaveBound(g, |g|, eps, leave)
    requires forall i | 0 <= i < |g| :: !Front(g[i], ray)
    ensures PassesThrough(g, ray, eps) <==> enter < leave
  {
    if PassesThrough(g, ray, eps) {
      var a: real, b: real :| 0.0 <= a < b <= 1.0 && AllBehind(g, ray, eps, a) && AllBehind(g, ray, eps, b);
      BehindBetween(g, ray, eps, enter, none, clip, leave, a);
      BehindBetween(g, ray, eps, enter, none, clip, leave, b);
    }
    if enter < leave {
      BehindBetween(g, ray, eps, enter, none, clip, leave, enter);
      BehindBetween(g, ray, eps, enter, none, clip, leave, leave);
    }
  }

  // ----- the turns of the loop, and its end -----

  lemma TurnEnter(g: seq<Ends>, i: nat, ray: bool, eps: real, enter: real, none: real, clip: nat)
    requires i < |g| && none < 0.0 && EnterBound(g, i, ray, eps, enter, none, clip)
    ensures !Entering(g[i], ray) ==> EnterBound(g, i + 1, ray, eps, enter, none, clip)
    ensures Entering(g[i], ray) && EnterAt(g[i], eps) > enter ==>
              EnterBound(g, i + 1, ray, eps, EnterAt(g[i], eps), none, i) && EnterAt(g[i], eps) != none
    ensures Entering(g[i], ray) && EnterAt(g[i], eps) <= enter ==>
              EnterBound(g, i + 1, ray, eps, enter, none, clip)
  {
    BehindIs(g[i], ray, eps, 0.0);
  }

  lemma TurnLeave(g: seq<Ends>, i: nat, eps: real, leave: real)
    requires i < |g| && LeaveBound(g, i, eps, leave)
    ensures !Leaving(g[i]) ==> LeaveBound(g, i + 1, eps, leave)
    ensures Leaving(g[i]) ==>
      LeaveBound(g, i + 1, eps, if LeaveAt(g[i], eps) < leave then LeaveAt(g[i], eps) else leave)
  {
  }

  /** The sides seen so far: some start in front of the box; some end there although they start behind. */
  ghost predicate Sides(g: seq<Ends>, n: nat, ray: bool, startOut: bool, getOut: bool)
    requires n <= |g|
  {
    && (forall k | 0 <= k < n :: !Front(g[k], ray))
    && (startOut <==> exists k | 0 <= k < n && g[k].used :: g[k].d1 > 0.0)
    && (!startOut ==> (getOut <==> exists k | 0 <= k < n && g[k].used :: g[k].d2 > 0.0))
  }

  lemma TurnSides(g: seq<Ends>, i: nat, ray: bool, startOut: bool, getOut: bool)
    requires i < |g| && Sides(g, i, ray, startOut, getOut) && !Front(g[i], ray)
    ensures g[i].used && g[i].d1 > 0.0 ==> Sides(g, i + 1, ray, true, getOut) && Sides(g, i + 1, ray, true, true)
    ensures g[i].used && g[i].d1 <= 0.0 && g[i].d2 > 0.0 ==> Sides(g, i + 1, ray, startOut, true)
    ensures !g[i].used || (g[i].d1 <= 0.0 && g[i].d2 <= 0.0) ==> Sides(g, i + 1, ray, startOut, getOut)
  {
  }

  /** From inside: the sweep is inside to its end unless it gets out. */
  lemma FromInside(g: seq<Ends>, ray: bool, getOut: bool)
    requires Sides(g, |g|, ray, false, getOut)
    ensures Inside(g, 0.0)
    ensures !getOut <==> forall t | 0.0 <= t <= 1.0 :: Inside(g, t)
  {
    SweepInside(g);
    forall i | 0 <= i < |g| && g[i].used ensures GapAt(g[i], 0.0) == g[i].d1 && GapAt(g[i], 1.0) == g[i].d2 {
    }
  }

  /** From outside: a hit is a sweep that passes through, and the clip side is reached first then. */
  lemma FromOutside(g: seq<Ends>, ray: bool, eps: real, getOut: bool, enter: real, none: real, clip: nat, leave: real)
    requires none < 0.0 && Sides(g, |g|, ray, true, getOut)
    requires EnterBound(g, |g|, ray, eps, enter, none, clip) && LeaveBound(g, |g|, eps, leave)
    ensures !Inside(g, 0.0) && enter != none && 0.0 <= enter && enter > none
    ensures PassesThrough(g, ray, eps) <==> enter < leave
    ensures enter < leave ==> enter < 1.0 && AllBehind(g, ray, eps, enter)
    ensures enter < leave ==> forall t | 0.0 <= t < enter :: !AllBehind(g, ray, eps, t)
    ensures clip < |g| && GapAt(g[clip], enter) == if g[clip].d1 < eps then g[clip].d1 else eps
  {
    var k :| 0 <= k < |g| && g[k].used && g[k].d1 > 0.0;
    assert Entering(g[k], ray) && GapAt(g[k], 0.0) > 0.0;
    PassesThroughIs(g, ray, eps, enter, none, clip, leave);
    ClipGap(g[clip], ray, eps);
    if enter < leave {
      BehindBetween(g, ray, eps, enter, none, clip, leave, enter);
      forall t | 0.0 <= t < enter ensures !AllBehind(g, ray, eps, t) {
        BehindBetween(g, ray, eps, enter, none, clip, leave, t);
      }
    }
  }

  lemma FrontMisses(g: seq<Ends>, i: nat, ray: bool, eps: real)
    requires i < |g| && Front(g[i], ray)
    ensures !Inside(g, 0.0) && !PassesThrough(g, ray, eps)
  {
    assert GapAt(g[i], 0.0) > 0.0;
    forall t ensures !AllBehind(g, ray, eps, t) {
      assert !Behind(g[i], ray, eps, t);
    }
  }

  // ----- the trace -----

  class BrushTraceInfo {
    const start: Vec
    const delta: Vec
    const extents: Vec
    const distEpsilon: real
    const isPoint: bool
    var startSolid: bool
    var allSolid: bool
    var clipPlane: HalfSpace
    var iClipPlane: int
    var fraction: real

    constructor (start: Vec, delta: Vec, ext: Vec, ray: bool, epsilon: real)
      ensures this.start == start && this.delta == delta && this.extents == ext && isPoint == ray
      ensures distEpsilon == if ray then 0.00001 else epsilon
      ensures !startSolid && !allSolid && fraction == 100.0
    {
      this.start, this.delta, this.extents, isPoint := start, delta, ext, ray;
      distEpsilon := if ray then 0.00001 else epsilon;
      startSolid, allSolid, fraction := false, false, 100.0;
      clipPlane, iClipPlane := HalfSpace(Vec(0.0, 0.0, 0.0), 0.0), 0;
    }

    /** A ray has no extent, and ignores the bevel sides. */
    function EndsOf(s: Side): Ends
    {
      var e := if isPoint then Vec(0.0, 0.0, 0.0) else extents;
      Ends(Gap(s.plane, e, start), Gap(s.plane, e, Add(start, delta)), !(isPoint && s.bevel))
    }

    function AllEnds(sides: seq<Side>): seq<Ends>
    {
      seq(|sides|, i requires 0 <= i < |sides| => EndsOf(sides[i]))
    }

    /** What a trace reports. */
    twostate predicate Reports(sides: seq<Side>, hit: bool)
      reads this
    {
      var g := AllEnds(sides);
      && (hit <==> Inside(g, 0.0) || PassesThrough(g, isPoint, distEpsilon))
      && (!hit ==> fraction == old(fraction) && startSolid == old(startSolid) && allSolid == old(allSolid) &&
                   clipPlane == old(clipPlane))
      && (hit && Inside(g, 0.0) ==>
            && fraction == 0.0 && startSolid && clipPlane == old(clipPlane)
            && (allSolid <==> old(allSolid) || forall t | 0.0 <= t <= 1.0 :: Inside(g, t)))
      && (hit && !Inside(g, 0.0) ==>
            && startSolid == old(startSolid) && allSolid == old(allSolid)
            && 0.0 <= fraction < 1.0
            && AllBehind(g, isPoint, distEpsilon, fraction)
            && (forall t | 0.0 <= t < fraction :: !AllBehind(g, isPoint, distEpsilon, t))
            && 0 <= iClipPlane < |sides| && clipPlane == sides[iClipPlane].plane
            && GapAt(g[iClipPlane], fraction) ==
                 if g[iClipPlane].d1 < distEpsilon then g[iClipPlane].d1 else distEpsilon)
    }

    lemma EndsAt(sides: seq<Side>, i: nat)
      requires i < |sides|
      ensures |AllEnds(sides)| == |sides|
      ensures
        var p, e := sides[i].plane, if isPoint then Vec(0.0, 0.0, 0.0) else extents;
        var dist := p.dist - Dot(Offset(p.normal, e), p.normal);
        AllEnds(sides)[i] == Ends(Dot(start, p.normal) - dist, Dot(Add(start, delta), p.normal) - dist,
                                  !(isPoint && sides[i].bevel))
    {
    }

    /** ClipBrush */
    method ClipBrush(sides: seq<Side>) returns (hit: bool)
      requires |sides| > 0 && !isPoint
      modifies this
      ensures Reports(sides, hit)
    {
      hide Dot, Add, Offset, AllEnds, EnterBound, LeaveBound, Sides, Inside, PassesThrough, AllBehind, GapAt;
      ghost var g := AllEnds(sides);
      EndsAt(sides, 0);
      var enterFrac, leaveFrac := -9999.0, 1.0;
      var clip: HalfSpace := clipPlane;
      var getOut, startOut := false, false;
      ghost var clipSide := 0;
      FirstTurn(g, false, distEpsilon, enterFrac);
      for i := 0 to |sides|
        invariant fraction == old(fraction) && startSolid == old(startSolid) && allSolid == old(allSolid)
        invariant clipPlane == old(clipPlane)
        invariant Sides(g, i, false, startOut, getOut)
        invariant EnterBound(g, i, false, distEpsilon, enterFrac, -9999.0, clipSide)
        invariant enterFrac != -9999.0 ==> iClipPlane == clipSide < i && clip == sides[clipSide].plane
        invariant LeaveBound(g, i, distEpsilon, leaveFrac)
      {
        var plane := sides[i].plane;
        var dist := plane.dist - Dot(Offset(plane.normal, extents), plane.normal);
        var d1 := Dot(start, plane.normal) - dist;
        var d2 := Dot(Add(start, delta), plane.normal) - dist;
        EndsAt(sides, i);
        assert g[i] == Ends(d1, d2, true);
        TurnEnter(g, i, false, distEpsilon, enterFrac, -9999.0, clipSide);
        TurnLeave(g, i, distEpsilon, leaveFrac);
        if !Front(g[i], false) {
          TurnSides(g, i, false, startOut, getOut);
        }
        if d1 > 0.0 {
          startOut := true;
          if d2 > 0.0 {
            FrontMisses(g, i, false, distEpsilon);
            return false;
          }
        } else {
          if d2 <= 0.0 {
            continue;
          }
          getOut := true;
        }
        if d1 > d2 {
          var f := d1 - distEpsilon;
          if f < 0.0 {
            f := 0.0;
          }
          f := f / (d1 - d2);
          if f > enterFrac {
            enterFrac := f;
            clip := plane;
            iClipPlane := i;
            clipSide := i;
          }
        } else {
          var f := (d1 + distEpsilon) / (d1 - d2);
          if f < leaveFrac {
            leaveFrac := f;
          }
        }
      }
      if !startOut {
        FromInside(g, false, getOut);
        startSolid := true;
        if !getOut {
          allSolid := true;
        }
        fraction := 0.0;
        return true;
      }
      FromOutside(g, false, distEpsilon, getOut, enterFrac, -9999.0, clipSide, leaveFrac);
      if enterFrac < leaveFrac {
        if enterFrac > -9999.0 && enterFrac < 1.0 {
          if enterFrac < 0.0 {
            enterFrac := 0.0;
          }
          fraction := enterFrac;
          clipPlane := clip;
          return true;
        }
      }
      return false;
    }

    /** RayTraceBrush */
    method RayTraceBrush(sides: seq<Side>) returns (hit: bool)
      requires |sides| > 0 && isPoint
      modifies this
      ensures Reports(sides, hit)
    {
      hide Dot, Add, Offset, AllEnds, EnterBound, LeaveBound, Sides, Inside, PassesThrough, AllBehind, GapAt;
      ghost var g := AllEnds(sides);
      EndsAt(sides, 0);
      var enterFrac, leaveFrac := -1.0, 1.0;
      var clip: HalfSpace := clipPlane;
      var getOut, startOut := false, false;
      ghost var clipSide := 0;
      FirstTurn(g, true, distEpsilon, enterFrac);
      for i := 0 to |sides|
        invariant fraction == old(fraction) && startSolid == old(startSolid) && allSolid == old(allSolid)
        invariant clipPlane == old(clipPlane)
        invariant Sides(g, i, true, startOut, getOut)
        invariant EnterBound(g, i, true, distEpsilon, enterFrac, -1.0, clipSide)
        invariant enterFrac != -1.0 ==> iClipPlane == clipSide < i && clip == sides[clipSide].plane
        invariant LeaveBound(g, i, distEpsilon, leaveFrac)
      {
        EndsAt(sides, i);
        PointOffset(sides[i].plane.normal);
        TurnEnter(g, i, true, distEpsilon, enterFrac, -1.0, clipSide);
        TurnLeave(g, i, distEpsilon, leaveFrac);
        if !Front(g[i], true) {
          TurnSides(g, i, true, startOut, getOut);
        }
        if sides[i].bevel {
          continue;
        }
        var plane := sides[i].plane;
        var dist := plane.dist;
        var d1 := Dot(start, plane.normal) - dist;
        var d2 := Dot(Add(start, delta), plane.normal) - dist;
        assert g[i] == Ends(d1, d2, true);
        if d2 > 0.0 {
          getOut := true;
        }
        if d1 > 0.0 {
          startOut := true;
        }
        if d1 > 0.0 && d2 >= d1 {
          FrontMisses(g, i, true, distEpsilon);
          return false;
        }
        if d1 <= 0.0 && d2 <= 0.0 {
          continue;
        }
        if d1 > d2 {
          var f := (d1 - distEpsilon) / (d1 - d2);
          EntryClamp(g[i], distEpsilon, f);
          if f < 0.0 {
            f := 0.0;
          }
          if f > enterFrac {
            enterFrac := f;
            clip := plane;
            iClipPlane := i;
            clipSide := i;
          }
        } else {
          var f := (d1 + distEpsilon) / (d1 - d2);
          if f > 1.0 {
            f := 1.0;
          }
          if f < leaveFrac {
            leaveFrac := f;
          }
        }
      }
      if !startOut {
        FromInside(g, true, getOut);
        startSolid := true;
        if !getOut {
          allSolid := true;
        }
        fraction := 0.0;
        return true;
      }
      FromOutside(g, true, distEpsilon, getOut, enterFrac, -1.0, clipSide, leaveFrac);
      if enterFrac < leaveFrac {
        if enterFrac > -1.0 && enterFrac < 1.0 {
          if enterFrac < 0.0 {
            enterFrac := 0.0;
          }
          fraction := enterFrac;
          clipPlane := clip;
          return true;
        }
      }
      return false;
    }
  }

  lemma FirstTurn(g: seq<Ends>, ray: bool, eps: real, none: real)
    ensures Sides(g, 0, ray, false, false) && EnterBound(g, 0, ray, eps, none, none, 0) && LeaveBound(g, 0, eps, 1.0)
  {
  }

  lemma PointOffset(n: Vec)
    ensures Dot(Offset(n, Vec(0.0, 0.0, 0.0)), n) == 0.0
  {
  }

  lemma EntryClamp(p: Ends, eps: real, f: real)
    requires p.d1 > p.d2 && f == (p.d1 - eps) / (p.d1 - p.d2)
    ensures EnterAt(p, eps) == if f < 0.0 then 0.0 else f
  {
    Product(0.0, f, p.d1 - p.d2);
    assert f * (p.d1 - p.d2) == p.d1 - eps;
  }

  // ----- what a report means -----

  /** Where the box is at time t of its sweep. */
  function MovedTo(info: BrushTraceInfo, t: real): Vec
  {
    Add(info.start, Scaled(t, info.delta))
  }

  /** The box, at time t, reaches behind every side of the brush. */
  ghost predicate BoxInside(info: BrushTraceInfo, sides: seq<Side>, t: real)
  {
    forall i | 0 <= i < |sides| :: Gap(sides[i].plane, info.extents, MovedTo(info, t)) <= 0.0
  }

  lemma InsideIsBoxInside(info: BrushTraceInfo, sides: seq<Side>, t: real)
    requires !info.isPoint
    ensures Inside(info.AllEnds(sides), t) <==> BoxInside(info, sides, t)
  {
    var g := info.AllEnds(sides);
    forall i | 0 <= i < |sides|
      ensures g[i].used && GapAt(g[i], t) == Gap(sides[i].plane, info.extents, MovedTo(info, t))
    {
      GapIsLinear(sides[i].plane, info.extents, info.start, info.delta, t, true);
    }
  }

  /** The box is inside from time a to a later time b. */
  ghost predicate BoxThrough(info: BrushTraceInfo, sides: seq<Side>, a: real, b: real)
  {
    0.0 <= a < b <= 1.0 && forall t | a <= t <= b :: BoxInside(info, sides, t)
  }

  /** Without a tolerance, a box that starts outside is reported to hit exactly when its sweep
      spends a positive length of time inside the pushed out brush. */
  lemma HitExactly(info: BrushTraceInfo, sides: seq<Side>)
    requires !info.isPoint
    ensures PassesThrough(info.AllEnds(sides), false, 0.0) <==> exists a: real, b: real :: BoxThrough(info, sides, a, b)
  {
    hide Inside, AllBehind, BoxInside;
    var g := info.AllEnds(sides);
    forall t: real ensures Inside(g, t) <==> BoxInside(info, sides, t) {
      InsideIsBoxInside(info, sides, t);
    }
    if PassesThrough(g, false, 0.0) {
      var a: real, b: real :| 0.0 <= a < b <= 1.0 && AllBehind(g, false, 0.0, a) && AllBehind(g, false, 0.0, b);
      BehindIsInside(g, false, a);
      BehindIsInside(g, false, b);
      forall t | a <= t <= b ensures BoxInside(info, sides, t) {
        InsideBetween(g, a, b, t);
      }
      assert BoxThrough(info, sides, a, b);
    }
    if a: real, b: real :| BoxThrough(info, sides, a, b) {
      assert BoxInside(info, sides, a) && BoxInside(info, sides, b);
      BehindIsInside(g, false, a);
      BehindIsInside(g, false, b);
    }
  }

  /** The brush is convex. */
  lemma InsideBetween(g: seq<Ends>, a: real, b: real, t: real)
    requires a < b && a <= t <= b && Inside(g, a) && Inside(g, b)
    ensures Inside(g, t)
  {
    forall i | 0 <= i < |g| && g[i].used ensures GapAt(g[i], t) <= 0.0 {
      assert GapAt(g[i], a) <= 0.0 && GapAt(g[i], b) <= 0.0;
      var w := g[i].d2 - g[i].d1;
      if w > 0.0 {
        Product(t, b, w);
      } else if w < 0.0 {
        Product(a, t, -w);
        assert a * -w == -(a * w) && t * -w == -(t * w);
      }
    }
  }
}
