/**
 The convex hull by monotone chain (internal/dashboard/static/assets/topology.js),
 on exact coordinates.
 */
module Hull {
  datatype Point = Point(x: int, y: int)

  const ZERO := Point(0, 0)

  function Sub(a: Point, b: Point): Point { Point(a.x - b.x, a.y - b.y) }

  /** The cross product of two vectors. */
  function X(u: Point, v: Point): int { u.x * v.y - u.y * v.x }

  /** Positive when o, a, b turn left, zero when they are in line. */
  function Cross(o: Point, a: Point, b: Point): int {
    (a.x - o.x) * (b.y - o.y) - (a.y - o.y) * (b.x - o.x)
  }

  /** a comes no later than b in the order a chain is built: by x then y, or the reverse of that. */
  predicate Le(fwd: bool, a: Point, b: Point) {
    if fwd then a.x < b.x || (a.x == b.x && a.y <= b.y)
    else b.x < a.x || (a.x == b.x && b.y <= a.y)
  }

  predicate Sorted(fwd: bool, p: seq<Point>) {
    forall i, j :: 0 <= i <= j < |p| ==> Le(fwd, p[i], p[j])
  }

  // ---- vectors that point on in the order

  predicate On(fwd: bool, v: Point) { Le(fwd, ZERO, v) }

  lemma Jacobi(u: Point, v: Point, w: Point)
    ensures v.x * X(u, w) == u.x * X(v, w) + w.x * X(u, v)
    ensures v.y * X(u, w) == u.y * X(v, w) + w.y * X(u, v)
  {
  }

  lemma TurnForward(u: Point, v: Point, w: Point)
    requires On(true, u) && On(true, v) && On(true, w) && v != ZERO
    requires X(u, v) >= 0 && X(v, w) >= 0
    ensures X(u, w) >= 0
  {
    Jacobi(u, v, w);
    assert v.x * X(u, w) >= 0;
    if v.x == 0 {
      assert u.x * v.y >= 0 && -v.y * w.x >= 0;
      assert w.x == 0;
      assert v.y * X(u, w) >= 0;
    }
  }

  /** Left-of is transitive among vectors that point on. */
  lemma Turn(fwd: bool, u: Point, v: Point, w: Point)
    requires On(fwd, u) && On(fwd, v) && On(fwd, w) && v != ZERO
    requires X(u, v) >= 0 && X(v, w) >= 0
    ensures X(u, w) >= 0
  {
    if fwd {
      TurnForward(u, v, w);
    } else {
      var u', v', w' := Sub(ZERO, u), Sub(ZERO, v), Sub(ZERO, w);
      assert X(u', v') == X(u, v) && X(v', w') == X(v, w) && X(u', w') == X(u, w);
      TurnForward(u', v', w');
    }
  }

  // ---- one half of the hull

  ghost predicate Bends(st: seq<Point>) {
    forall k :: 0 <= k && k + 2 < |st| ==> Cross(st[k], st[k + 1], st[k + 2]) > 0
  }

  /** No point seen lies right of the edge above which it falls. */
  ghost predicate Above(fwd: bool, st: seq<Point>, done: seq<Point>) {
    forall k, r :: 0 <= k && k + 1 < |st| && r in done && Le(fwd, st[k], r) && Le(fwd, r, st[k + 1]) ==> Cross(st[k], st[k + 1], r) >= 0
  }

  ghost predicate Partial(fwd: bool, st: seq<Point>, done: seq<Point>) {
    && |done| >= 1 && |st| >= 1
    && st[0] == done[0]
    && Sorted(fwd, st)
    && (forall s :: s in st ==> s in done)
    && Bends(st)
    && Above(fwd, st, done)
  }

  /** A half hull of the points seen. */
  ghost predicate Chain(fwd: bool, st: seq<Point>, done: seq<Point>) {
    && Partial(fwd, st, done)
    && st[|st| - 1] == done[|done| - 1]
    && (|done| >= 2 ==> |st| >= 2)
  }

  /** While q is waiting: no point seen lies right of the edge from the top to q. */
  ghost predicate Waiting(fwd: bool, st: seq<Point>, done: seq<Point>, q: Point) {
    && Partial(fwd, st, done)
    && (forall r :: r in done ==> Le(fwd, r, q))
    && (forall r :: r in done && Le(fwd, st[|st| - 1], r) ==> Cross(st[|st| - 1], q, r) >= 0)
  }

  lemma CrossOfVectors(o: Point, a: Point, b: Point)
    ensures Cross(o, a, b) == X(Sub(a, o), Sub(b, o))
    ensures Cross(o, a, b) == X(Sub(b, a), Sub(o, a)) == X(Sub(a, o), Sub(b, a))
  {
  }

  /** r before the popped m: left of s-m, so left of s-q. */
  lemma PopBefore(fwd: bool, s: Point, m: Point, q: Point, r: Point)
    requires Le(fwd, s, m) && Le(fwd, s, q) && Le(fwd, s, r) && Le(fwd, r, m)
    requires Cross(s, m, q) <= 0 && Cross(s, m, r) >= 0
    ensures Cross(s, q, r) >= 0
  {
    var m', q', r' := Sub(m, s), Sub(q, s), Sub(r, s);
    CrossOfVectors(s, m, r);
    CrossOfVectors(s, m, q);
    CrossOfVectors(s, q, r);
    assert X(q', m') == -X(m', q');
    if m' == ZERO {
      assert r == s;
    } else {
      Turn(fwd, q', m', r');
    }
  }

  /** r after the popped m: left of m-q, so left of s-q. */
  lemma PopAfter(fwd: bool, s: Point, m: Point, q: Point, r: Point)
    requires Le(fwd, s, m) && Le(fwd, m, q) && Le(fwd, m, r) && Le(fwd, r, q) && m != q
    requires Cross(s, m, q) <= 0 && Cross(m, q, r) >= 0
    ensures Cross(s, q, r) >= 0
  {
    var d, e, f := Sub(q, r), Sub(q, m), Sub(m, s);
    assert X(d, e) == Cross(m, q, r);
    CrossOfVectors(s, m, q);
    assert X(e, f) == -X(f, e);
    Turn(fwd, d, e, f);
    assert Cross(s, q, r) == X(d, e) + X(d, f);
  }

  lemma PopPoint(fwd: bool, s: Point, m: Point, q: Point, r: Point)
    requires Le(fwd, s, m) && Le(fwd, m, q) && Le(fwd, s, r) && Le(fwd, r, q)
    requires Cross(s, m, q) <= 0
    requires Le(fwd, r, m) ==> Cross(s, m, r) >= 0
    requires Le(fwd, m, r) ==> Cross(m, q, r) >= 0
    ensures Cross(s, q, r) >= 0
  {
    if Le(fwd, r, m) { PopBefore(fwd, s, m, q, r); } else { PopAfter(fwd, s, m, q, r); }
  }

  lemma PopPartial(fwd: bool, st: seq<Point>, done: seq<Point>)
    requires Partial(fwd, st, done) && |st| >= 2
    ensures Partial(fwd, st[..|st| - 1], done)
  {
    var st' := st[..|st| - 1];
    assert forall s :: s in st' ==> s in st;
  }

  lemma Pop(fwd: bool, st: seq<Point>, done: seq<Point>, q: Point)
    requires Waiting(fwd, st, done, q) && |st| >= 2
    requires Cross(st[|st| - 2], st[|st| - 1], q) <= 0
    ensures Waiting(fwd, st[..|st| - 1], done, q)
  {
    var k := |st| - 2;
    var s, m := st[k], st[k + 1];
    assert Le(fwd, s, m) && m in st;
    PopPartial(fwd, st, done);
    forall r | r in done && Le(fwd, s, r) ensures Cross(s, q, r) >= 0 {
      assert Le(fwd, r, m) ==> Cross(st[k], st[k + 1], r) >= 0;
      PopPoint(fwd, s, m, q, r);
    }
  }

  lemma NoTurnToEnd(a: Point, b: Point)
    ensures Cross(a, b, b) == 0
  {
  }

  lemma PushAbove(fwd: bool, st: seq<Point>, done: seq<Point>, q: Point)
    requires Waiting(fwd, st, done, q)
    ensures Above(fwd, st + [q], done + [q])
  {
    var st', done' := st + [q], done + [q];
    forall k, r | 0 <= k && k + 1 < |st'| && r in done' && Le(fwd, st'[k], r) && Le(fwd, r, st'[k + 1])
      ensures Cross(st'[k], st'[k + 1], r) >= 0
    {
      NoTurnToEnd(st'[k], st'[k + 1]);
      if k + 1 < |st| { assert st[k + 1] in st; }
    }
  }

  lemma PushBends(st: seq<Point>, q: Point)
    requires Bends(st) && (|st| >= 2 ==> Cross(st[|st| - 2], st[|st| - 1], q) > 0)
    ensures Bends(st + [q])
  {
    var st' := st + [q];
    forall k | 0 <= k && k + 2 < |st'| ensures Cross(st'[k], st'[k + 1], st'[k + 2]) > 0 {
      if k + 2 < |st| {
        assert Cross(st[k], st[k + 1], st[k + 2]) > 0;
      }
    }
  }

  lemma PushSorted(fwd: bool, st: seq<Point>, done: seq<Point>, q: Point)
    requires Sorted(fwd, st) && (forall s :: s in st ==> s in done) && (forall r :: r in done ==> Le(fwd, r, q))
    ensures Sorted(fwd, st + [q])
    ensures forall s :: s in st + [q] ==> s in done + [q]
  {
    assert forall i :: 0 <= i < |st| ==> st[i] in st && Le(fwd, st[i], q);
  }

  lemma Push(fwd: bool, st: seq<Point>, done: seq<Point>, q: Point)
    requires Waiting(fwd, st, done, q)
    requires |st| >= 2 ==> Cross(st[|st| - 2], st[|st| - 1], q) > 0
    ensures Chain(fwd, st + [q], done + [q])
  {
    PushSorted(fwd, st, done, q);
    PushBends(st, q);
    PushAbove(fwd, st, done, q);
  }

  lemma Arrive(fwd: bool, st: seq<Point>, p: seq<Point>, i: int)
    requires 1 <= i < |p| && Sorted(fwd, p) && Chain(fwd, st, p[..i])
    ensures Waiting(fwd, st, p[..i], p[i])
  {
    var done, top := p[..i], st[|st| - 1];
    forall r | r in done ensures Le(fwd, r, p[i]) && Le(fwd, r, top) {
      var j :| 0 <= j < i && done[j] == r;
      assert Le(fwd, p[j], p[i]) && Le(fwd, p[j], p[i - 1]);
    }
    forall r | r in done && Le(fwd, top, r) ensures Cross(top, p[i], r) >= 0 {
      assert r == top;
    }
  }

  lemma Begin(fwd: bool, a: Point)
    ensures Chain(fwd, [a], [a])
  {
  }

  /** Takes points off until the chain turns left towards q. */
  method PopRight(fwd: bool, st: seq<Point>, ghost done: seq<Point>, q: Point) returns (out: seq<Point>)
    requires Waiting(fwd, st, done, q)
    ensures Waiting(fwd, out, done, q)
    ensures |out| >= 2 ==> Cross(out[|out| - 2], out[|out| - 1], q) > 0
  {
    out := st;
    while |out| >= 2 && Cross(out[|out| - 2], out[|out| - 1], q) <= 0
      invariant Waiting(fwd, out, done, q)
    {
      Pop(fwd, out, done, q);
      out := out[..|out| - 1];
    }
  }

  /** One of the two loops: each point in turn is put on the chain. */
  method Half(fwd: bool, p: seq<Point>) returns (st: seq<Point>)
    requires |p| >= 1 && Sorted(fwd, p)
    ensures Chain(fwd, st, p)
  {
    st := [p[0]];
    assert p[..1] == [p[0]];
    Begin(fwd, p[0]);
    for i := 1 to |p|
      invariant Chain(fwd, st, p[..i])
    {
      Arrive(fwd, st, p, i);
      st := PopRight(fwd, st, p[..i], p[i]);
      Push(fwd, st, p[..i], p[i]);
      st := st + [p[i]];
      assert p[..i + 1] == p[..i] + [p[i]];
    }
    assert p[..|p|] == p;
  }

  // ---- a half hull bounds every point

  lemma StepBack(fwd: bool, a: Point, b: Point, c: Point, r: Point)
    requires Le(fwd, a, b) && Le(fwd, b, c) && Le(fwd, b, r)
    requires Cross(a, b, c) > 0 && Cross(b, c, r) >= 0
    ensures Cross(a, b, r) >= 0
  {
    var u, v, w := Sub(b, a), Sub(c, b), Sub(r, b);
    assert X(u, v) == Cross(a, b, c) && X(v, w) == Cross(b, c, r) && X(u, w) == Cross(a, b, r);
    Turn(fwd, u, v, w);
  }

  lemma StepOn(fwd: bool, a: Point, b: Point, c: Point, r: Point)
    requires Le(fwd, a, b) && Le(fwd, b, c) && Le(fwd, r, b)
    requires Cross(a, b, c) > 0 && Cross(a, b, r) >= 0
    ensures Cross(b, c, r) >= 0
  {
    var d, u, v := Sub(b, r), Sub(b, a), Sub(c, b);
    assert X(d, u) == Cross(a, b, r) && X(u, v) == Cross(a, b, c) && X(d, v) == Cross(b, c, r);
    Turn(fwd, d, u, v);
  }

  lemma {:induction false} LeftAfter(fwd: bool, st: seq<Point>, done: seq<Point>, k: nat, r: Point)
    requires Partial(fwd, st, done) && k + 1 < |st|
    requires r in done && Le(fwd, st[k], r) && Le(fwd, r, st[|st| - 1])
    ensures Cross(st[k], st[k + 1], r) >= 0
    decreases |st| - k
  {
    if Le(fwd, r, st[k + 1]) {
    } else {
      LeftAfter(fwd, st, done, k + 1, r);
      StepBack(fwd, st[k], st[k + 1], st[k + 2], r);
    }
  }

  lemma {:induction false} LeftBefore(fwd: bool, st: seq<Point>, done: seq<Point>, k: nat, r: Point)
    requires Partial(fwd, st, done) && k + 1 < |st|
    requires r in done && Le(fwd, st[0], r) && Le(fwd, r, st[k + 1])
    ensures Cross(st[k], st[k + 1], r) >= 0
    decreases k
  {
    if Le(fwd, st[k], r) {
    } else {
      LeftBefore(fwd, st, done, k - 1, r);
      StepOn(fwd, st[k - 1], st[k], st[k + 1], r);
    }
  }

  lemma ChainBounds(fwd: bool, st: seq<Point>, p: seq<Point>)
    requires Chain(fwd, st, p) && Sorted(fwd, p)
    ensures forall k, r :: 0 <= k && k + 1 < |st| && r in p ==> Cross(st[k], st[k + 1], r) >= 0
  {
    forall k, r | 0 <= k && k + 1 < |st| && r in p ensures Cross(st[k], st[k + 1], r) >= 0 {
      if Le(fwd, st[k], r) {
        LeftAfter(fwd, st, p, k, r);
      } else {
        LeftBefore(fwd, st, p, k, r);
      }
    }
  }

  // ---- the two halves together

  ghost predicate Bounded(edge: (Point, Point), p: seq<Point>) {
    forall r :: r in p ==> Cross(edge.0, edge.1, r) >= 0
  }

  ghost predicate Collinear(p: seq<Point>) {
    forall a, b, c :: a in p && b in p && c in p ==> Cross(a, b, c) == 0
  }

  /** The vertex after i on the closed polygon. */
  function Following(poly: seq<Point>, i: int): int
    requires 0 <= i < |poly|
  {
    if i + 1 < |poly| then i + 1 else 0
  }

  lemma ParallelForward(u: Point, d: Point, e: Point)
    requires u != ZERO && X(d, u) == 0 && X(e, u) == 0
    ensures X(d, e) == 0
  {
    assert u.x * X(d, e) == d.x * X(u, e) + e.x * X(d, u);
    assert u.y * X(d, e) == d.y * X(u, e) + e.y * X(d, u);
    assert X(u, e) == -X(e, u);
  }

  lemma CrossAround(z: Point, i: Point, j: Point, k: Point)
    ensures Cross(i, j, k) == X(Sub(z, i), Sub(z, j)) + X(Sub(z, j), Sub(z, k)) - X(Sub(z, i), Sub(z, k))
  {
  }

  lemma SeenFromEnd(a: Point, z: Point, r: Point)
    ensures X(Sub(z, r), Sub(z, a)) == Cross(a, z, r)
  {
  }

  /** All points on one line through z: every three are in line. */
  lemma OnOneLine(p: seq<Point>, a: Point, z: Point)
    requires a != z && forall r :: r in p ==> Cross(a, z, r) == 0
    ensures Collinear(p)
  {
    var u := Sub(z, a);
    forall i, j, k | i in p && j in p && k in p ensures Cross(i, j, k) == 0 {
      SeenFromEnd(a, z, i);
      SeenFromEnd(a, z, j);
      SeenFromEnd(a, z, k);
      ParallelForward(u, Sub(z, i), Sub(z, j));
      ParallelForward(u, Sub(z, i), Sub(z, k));
      ParallelForward(u, Sub(z, j), Sub(z, k));
      CrossAround(z, i, j, k);
    }
  }

  /** Two bounding edges that meet at the last point without a left turn: all points are on one line. */
  lemma Straight(fwd: bool, a: Point, z: Point, b: Point, p: seq<Point>)
    requires a != z && z != b && a in p && b in p && z in p
    requires forall r :: r in p ==> Le(fwd, r, z)
    requires Bounded((a, z), p) && Bounded((z, b), p)
    requires Cross(a, z, b) <= 0
    ensures Collinear(p)
  {
    var u, w := Sub(z, a), Sub(z, b);
    assert X(w, u) == Cross(a, z, b) == 0;
    forall r | r in p ensures Cross(a, z, r) == 0 {
      var d := Sub(z, r);
      assert X(d, u) == Cross(a, z, r) && X(w, d) == Cross(z, b, r);
      assert X(u, w) == -X(w, u);
      Turn(fwd, u, w, d);
      assert X(u, d) == -X(d, u);
    }
    OnOneLine(p, a, z);
  }

  /** Two points of a chain in a row are the same only when all points are. */
  lemma Repeated(fwd: bool, st: seq<Point>, p: seq<Point>, k: nat)
    requires Chain(fwd, st, p) && Sorted(fwd, p) && k + 1 < |st| && st[k] == st[k + 1]
    ensures Collinear(p)
  {
    assert k + 2 < |st| ==> Cross(st[k], st[k + 1], st[k + 2]) > 0;
    assert k > 0 ==> Cross(st[k - 1], st[k], st[k + 1]) > 0;
    assert forall r :: r in p ==> r == st[0];
  }

  /** Where one half ends and the other begins, the polygon turns left unless all points are in line. */
  lemma Joint(fwd: bool, one: seq<Point>, two: seq<Point>, p: seq<Point>, q: seq<Point>)
    requires |p| >= 2 && |q| == |p| && (forall r :: r in p <==> r in q)
    requires Sorted(fwd, p) && Sorted(!fwd, q) && p[|p| - 1] == q[0]
    requires Chain(fwd, one, p) && Chain(!fwd, two, q) && !Collinear(p)
    ensures Cross(one[|one| - 2], one[|one| - 1], two[1]) > 0
  {
    var a, z, b := one[|one| - 2], one[|one| - 1], two[1];
    assert a in one && z in one && b in two && two[0] == z;
    if a == z { Repeated(fwd, one, p, |one| - 2); }
    if z == b { Repeated(!fwd, two, q, 0); }
    ChainBounds(fwd, one, p);
    ChainBounds(!fwd, two, q);
    if Cross(a, z, b) <= 0 {
      Straight(fwd, a, z, b, p);
    }
  }

  /** A chain of three or more points bends: its points are not on one line. */
  lemma BentIsNotInLine(fwd: bool, st: seq<Point>, p: seq<Point>)
    requires Chain(fwd, st, p) && |st| > 2
    ensures !Collinear(p)
  {
    assert st[0] in st && st[1] in st && st[2] in st;
    assert Cross(st[0], st[0 + 1], st[0 + 2]) > 0;
  }

  lemma ChainDistinct(fwd: bool, st: seq<Point>, p: seq<Point>)
    requires Chain(fwd, st, p) && Sorted(fwd, p) && !Collinear(p)
    ensures Distinct(st)
  {
    forall i, j | 0 <= i < j < |st| ensures st[i] != st[j] {
      if st[i] == st[j] {
        assert Le(fwd, st[i], st[i + 1]) && Le(fwd, st[i + 1], st[j]);
        Repeated(fwd, st, p, i);
      }
    }
  }

  /** Where a forward chain a, v, e turns left, a backward chain f, v, g around the same points cannot. */
  lemma NoCrossing(a: Point, v: Point, e: Point, f: Point, g: Point)
    requires Le(true, a, v) && Le(true, v, e) && Le(true, v, f) && Le(true, g, v)
    requires Cross(a, v, e) > 0 && Cross(a, v, g) >= 0 && Cross(v, e, f) >= 0
    ensures Cross(f, v, g) <= 0
  {
    var u, w, b, c := Sub(v, a), Sub(e, v), Sub(v, g), Sub(f, v);
    assert X(u, w) == Cross(a, v, e);
    assert X(b, u) == Cross(a, v, g);
    assert X(w, c) == Cross(v, e, f);
    assert X(b, c) == -Cross(f, v, g);
    Turn(true, b, u, w);
    Turn(true, b, w, c);
  }

  /** Inside, the two halves have no vertex in common. */
  lemma HalvesApart(lo: seq<Point>, up: seq<Point>, p: seq<Point>, q: seq<Point>, i: nat, j: nat)
    requires Halves(lo, up, p, q)
    requires 0 < i < |lo| - 1 && 0 < j < |up| - 1
    ensures lo[i] != up[j]
  {
    var a, v, e := lo[i - 1], lo[i], lo[i + 1];
    var f, u, g := up[j - 1], up[j], up[j + 1];
    assert Cross(a, v, e) > 0 by { assert Cross(lo[i - 1], lo[i - 1 + 1], lo[i - 1 + 2]) > 0; }
    assert Cross(f, u, g) > 0 by { assert Cross(up[j - 1], up[j - 1 + 1], up[j - 1 + 2]) > 0; }
    ChainBounds(true, lo, p);
    assert f in up && g in up;
    assert Cross(lo[i - 1], lo[i - 1 + 1], g) >= 0 && Cross(v, e, f) >= 0;
    if v == u { NoCrossing(a, v, e, f, g); }
  }

  lemma PolyDistinct(lo: seq<Point>, up: seq<Point>, p: seq<Point>, q: seq<Point>)
    requires Halves(lo, up, p, q) && !Collinear(p)
    ensures Distinct(lo[..|lo| - 1] + up[..|up| - 1])
  {
    var poly := lo[..|lo| - 1] + up[..|up| - 1];
    var n := |lo| - 1;
    assert !Collinear(q);
    ChainDistinct(true, lo, p);
    ChainDistinct(false, up, q);
    forall i, j | 0 <= i < j < |poly| ensures poly[i] != poly[j] {
      if i < n <= j {
        assert poly[i] == lo[i] && poly[j] == up[j - n];
        if 0 < i && n < j { HalvesApart(lo, up, p, q, i, j - n); }
      }
    }
  }

  function Reversed(p: seq<Point>): (q: seq<Point>)
    ensures |q| == |p| && forall i :: 0 <= i < |p| ==> q[i] == p[|p| - 1 - i]
  {
    seq(|p|, i requires 0 <= i < |p| => p[|p| - 1 - i])
  }

  // ---- the whole

  /** A point put in its place among sorted ones. */
  method Place(p: seq<Point>, q: Point) returns (out: seq<Point>)
    requires Sorted(true, p)
    ensures Sorted(true, out) && multiset(out) == multiset(p) + multiset{q}
  {
    var k := |p|;
    while k > 0 && !Le(true, p[k - 1], q)
      invariant 0 <= k <= |p| && forall i :: k <= i < |p| ==> Le(true, q, p[i])
    {
      k := k - 1;
    }
    assert p == p[..k] + p[k..];
    out := p[..k] + [q] + p[k..];
    Placed(p, k, q, out);
  }

  lemma Placed(p: seq<Point>, k: nat, q: Point, out: seq<Point>)
    requires Sorted(true, p) && k <= |p| && (k == 0 || Le(true, p[k - 1], q)) && forall i :: k <= i < |p| ==> Le(true, q, p[i])
    requires out == p[..k] + [q] + p[k..]
    ensures Sorted(true, out)
  {
    forall i, j | 0 <= i <= j < |out| ensures Le(true, out[i], out[j]) {
      assert i < k ==> Le(true, p[i], p[k - 1]);
      assert i < k && j > k ==> Le(true, p[i], p[j - 1]);
      assert i > k ==> Le(true, p[i - 1], p[j - 1]);
    }
  }

  /** pts.slice().sort(...) */
  method SortPoints(pts: seq<Point>) returns (p: seq<Point>)
    ensures Sorted(true, p) && multiset(p) == multiset(pts)
  {
    p := [];
    for i := 0 to |pts|
      invariant Sorted(true, p) && multiset(p) == multiset(pts[..i])
    {
      assert pts[..i + 1] == pts[..i] + [pts[i]];
      p := Place(p, pts[i]);
    }
    assert pts[..|pts|] == pts;
  }

  ghost predicate Between(a: Point, b: Point, pts: seq<Point>) {
    forall r :: r in pts ==> Le(true, a, r) && Le(true, r, b)
  }

  predicate Distinct(poly: seq<Point>) {
    forall i, j :: 0 <= i < j < |poly| ==> poly[i] != poly[j]
  }

  /**
   A convex polygon of input points around all of them, once around and
   without needless vertices; for points on one line, the two outermost.
   */
  ghost predicate IsHull(poly: seq<Point>, pts: seq<Point>) {
    && |poly| >= 2
    && (forall v :: v in poly ==> v in pts)
    && (if Collinear(pts) then |poly| == 2 && Between(poly[0], poly[1], pts) else Distinct(poly))
    && AllBounded(poly, pts)
    && (!Collinear(pts) ==> TurnsLeft(poly))
  }

  ghost predicate AllBounded(poly: seq<Point>, pts: seq<Point>) {
    forall i :: 0 <= i < |poly| ==> Bounded((poly[i], poly[Following(poly, i)]), pts)
  }

  /** Strictly left, at every vertex. */
  predicate TurnsLeft(poly: seq<Point>) {
    forall i :: 0 <= i < |poly| ==> Cross(poly[i], poly[Following(poly, i)], poly[Following(poly, Following(poly, i))]) > 0
  }

  /** Half hulls of the sorted points and of the same points backwards. */
  ghost predicate Halves(lo: seq<Point>, up: seq<Point>, p: seq<Point>, q: seq<Point>) {
    && |p| >= 2 && |q| == |p|
    && Sorted(true, p) && Sorted(false, q) && Chain(true, lo, p) && Chain(false, up, q)
    && (forall r :: r in p <==> r in q)
    && lo[|lo| - 1] == up[0] && up[|up| - 1] == lo[0] && p[|p| - 1] == q[0] && q[|q| - 1] == p[0]
  }

  lemma HalvesOf(lo: seq<Point>, up: seq<Point>, p: seq<Point>)
    requires |p| >= 2 && Sorted(true, p) && Chain(true, lo, p) && Chain(false, up, Reversed(p))
    ensures Halves(lo, up, p, Reversed(p))
  {
    ReversedMembers(p);
  }

  lemma HalvesBound(lo: seq<Point>, up: seq<Point>, p: seq<Point>, q: seq<Point>)
    requires Halves(lo, up, p, q)
    ensures AllBounded(lo[..|lo| - 1] + up[..|up| - 1], p)
  {
    var poly := lo[..|lo| - 1] + up[..|up| - 1];
    forall i | 0 <= i < |poly| ensures Bounded((poly[i], poly[Following(poly, i)]), p) {
      PolyEdge(lo, up, p, q, i);
    }
  }

  lemma HalvesTurn(lo: seq<Point>, up: seq<Point>, p: seq<Point>, q: seq<Point>)
    requires Halves(lo, up, p, q) && !Collinear(p)
    ensures TurnsLeft(lo[..|lo| - 1] + up[..|up| - 1])
  {
    var poly := lo[..|lo| - 1] + up[..|up| - 1];
    assert !Collinear(q);
    Joint(true, lo, up, p, q);
    Joint(false, up, lo, q, p);
    forall i | 0 <= i < |poly|
      ensures Cross(poly[i], poly[Following(poly, i)], poly[Following(poly, Following(poly, i))]) > 0
    {
      PolyTurn(lo, up, i);
    }
  }

  lemma HalvesInLine(lo: seq<Point>, up: seq<Point>, p: seq<Point>, q: seq<Point>)
    requires Halves(lo, up, p, q) && Collinear(p)
    ensures var poly := lo[..|lo| - 1] + up[..|up| - 1]; |poly| == 2 && Between(poly[0], poly[1], p)
  {
    if |lo| > 2 { BentIsNotInLine(true, lo, p); }
    if |up| > 2 { BentIsNotInLine(false, up, q); }
    assert lo[..|lo| - 1] + up[..|up| - 1] == [lo[0], up[0]];
  }

  lemma HalvesMakeHull(lo: seq<Point>, up: seq<Point>, p: seq<Point>, q: seq<Point>)
    requires Halves(lo, up, p, q)
    ensures IsHull(lo[..|lo| - 1] + up[..|up| - 1], p)
  {
    var poly := lo[..|lo| - 1] + up[..|up| - 1];
    assert forall v :: v in poly ==> v in lo || v in up;
    HalvesBound(lo, up, p, q);
    if Collinear(p) {
      HalvesInLine(lo, up, p, q);
    } else {
      PolyDistinct(lo, up, p, q);
      HalvesTurn(lo, up, p, q);
    }
  }

  lemma ReversedMembers(p: seq<Point>)
    ensures forall r :: r in p <==> r in Reversed(p)
  {
    forall r ensures r in p <==> r in Reversed(p) {
      if r in p { var i :| 0 <= i < |p| && p[i] == r; assert Reversed(p)[|p| - 1 - i] == r; }
    }
  }

  lemma PolyEdge(lo: seq<Point>, up: seq<Point>, p: seq<Point>, q: seq<Point>, i: nat)
    requires Halves(lo, up, p, q) && i < |lo| - 1 + |up| - 1
    ensures var poly := lo[..|lo| - 1] + up[..|up| - 1]; Bounded((poly[i], poly[Following(poly, i)]), p)
  {
    var poly := lo[..|lo| - 1] + up[..|up| - 1];
    var n := |lo| - 1;
    if i < n {
      ChainBounds(true, lo, p);
      assert poly[i] == lo[i] && poly[Following(poly, i)] == lo[i + 1];
    } else {
      ChainBounds(false, up, q);
      assert poly[i] == up[i - n] && poly[Following(poly, i)] == up[i - n + 1];
    }
  }

  lemma PolyTurn(lo: seq<Point>, up: seq<Point>, i: nat)
    requires |lo| >= 2 && |up| >= 2 && lo[|lo| - 1] == up[0] && up[|up| - 1] == lo[0]
    requires Bends(lo) && Bends(up)
    requires Cross(lo[|lo| - 2], lo[|lo| - 1], up[1]) > 0 && Cross(up[|up| - 2], up[|up| - 1], lo[1]) > 0
    requires i < |lo| - 1 + |up| - 1
    ensures var poly := lo[..|lo| - 1] + up[..|up| - 1];
      Cross(poly[i], poly[Following(poly, i)], poly[Following(poly, Following(poly, i))]) > 0
  {
    var poly := lo[..|lo| - 1] + up[..|up| - 1];
    var n := |lo| - 1;
    var j := Following(poly, i);
    var k := Following(poly, j);
    if i < n {
      assert poly[i] == lo[i] && poly[j] == lo[i + 1];
      assert poly[k] == if i + 2 <= n then lo[i + 2] else up[1];
    } else {
      assert poly[i] == up[i - n] && poly[j] == up[i - n + 1];
      assert poly[k] == if i - n + 2 < |up| then up[i - n + 2] else lo[1];
    }
  }

  /** The hull: its vertices are input points, every input point is on or left of every edge, and it turns left throughout. */
  method ConvexHull(pts: seq<Point>) returns (poly: seq<Point>)
    ensures |pts| < 3 ==> poly == pts
    ensures |pts| >= 3 ==> IsHull(poly, pts)
  {
    if |pts| < 3 {
      return pts;
    }
    var p := SortPoints(pts);
    assert |p| == |multiset(p)| == |multiset(pts)| == |pts|;
    assert forall r :: r in p <==> r in multiset(p);
    assert forall r :: r in pts <==> r in multiset(pts);
    var lo := Half(true, p);
    var q := Reversed(p);
    var up := Half(false, q);
    HalvesOf(lo, up, p);
    HalvesMakeHull(lo, up, p, q);
    poly := lo[..|lo| - 1] + up[..|up| - 1];
  }
}
