/** Andrew's monotone chain (apps/sionna_bridge/build_osm_scene.py), over real
    coordinates. */
module Hull {

  datatype Point = Point(x: real, y: real)

  /** Twice the signed area of the triangle: positive for a left turn at b. */
  function Cross(a: Point, b: Point, p: Point): real
  {
    (b.x - a.x) * (p.y - a.y) - (b.y - a.y) * (p.x - a.x)
  }

  predicate Lex(a: Point, b: Point) { a.x < b.x || (a.x == b.x && a.y < b.y) }

  /** The order a half scans its points in: ascending or descending. */
  ghost predicate Before(up: bool, a: Point, b: Point) { if up then Lex(a, b) else Lex(b, a) }

  ghost predicate Monotone(up: bool, s: seq<Point>)
  {
    forall i: nat, j: nat :: i < j < |s| ==> Before(up, s[i], s[j])
  }

  // ------------------------------------------------------------------------
  // Turning
  // ------------------------------------------------------------------------

  /** A product with a positive number has the sign of the other factor. */
  lemma {:induction false} FactorSign(a: real, v: real)
    requires v > 0.0
    ensures a * v >= 0.0 ==> a >= 0.0
    ensures a * v > 0.0 ==> a > 0.0
  {
    assert a < 0.0 ==> a * v < 0.0;
  }

  /** Among vectors of one half plane, "not to the right of" is transitive. */
  lemma {:induction false} TurnTransitive(ux: real, uy: real, vx: real, vy: real, wx: real, wy: real)
    requires ux > 0.0 || (ux == 0.0 && uy > 0.0)
    requires vx > 0.0 || (vx == 0.0 && vy > 0.0)
    requires wx > 0.0 || (wx == 0.0 && wy > 0.0)
    requires ux * vy - uy * vx >= 0.0 && vx * wy - vy * wx >= 0.0
    ensures ux * wy - uy * wx >= 0.0
  {
    var uv, vw, uw := ux * vy - uy * vx, vx * wy - vy * wx, ux * wy - uy * wx;
    if vx > 0.0 {
      assert uw * vx == uv * wx + vw * ux;
      assert uv * wx >= 0.0 && vw * ux >= 0.0;
      FactorSign(uw, vx);
    } else {
      assert vy * wx <= 0.0;
      FactorSign(-wx, vy);
      assert ux * wy >= 0.0;
    }
  }

  lemma {:induction false} TurnTransitiveFrom(up: bool, o: Point, u: Point, v: Point, w: Point)
    requires Before(up, o, u) && Before(up, o, v) && Before(up, o, w)
    requires Cross(o, u, v) >= 0.0 && Cross(o, v, w) >= 0.0
    ensures Cross(o, u, w) >= 0.0
  {
    if up {
      TurnTransitive(u.x - o.x, u.y - o.y, v.x - o.x, v.y - o.y, w.x - o.x, w.y - o.y);
    } else {
      var ux, uy, vx, vy, wx, wy := o.x - u.x, o.y - u.y, o.x - v.x, o.y - v.y, o.x - w.x, o.y - w.y;
      NegateBoth(ux, uy, vx, vy);
      NegateBoth(vx, vy, wx, wy);
      NegateBoth(ux, uy, wx, wy);
      TurnTransitive(ux, uy, vx, vy, wx, wy);
    }
  }

  lemma {:induction false} NegateBoth(ux: real, uy: real, vx: real, vy: real)
    ensures (-ux) * (-vy) - (-uy) * (-vx) == ux * vy - uy * vx
  {
  }

  /** The corner b moved to the origin: shifting the edge a -> b past b. */
  lemma {:induction false} ShiftEdge(a: Point, b: Point, p: Point)
    ensures Cross(a, b, p) == Cross(b, Point(b.x + (b.x - a.x), b.y + (b.y - a.y)), p)
  {
    var ux, uy, wx, wy := b.x - a.x, b.y - a.y, p.x - b.x, p.y - b.y;
    assert Cross(a, b, p) == ux * (wy + uy) - uy * (wx + ux);
    assert ux * (wy + uy) == ux * wy + ux * uy && uy * (wx + ux) == uy * wx + uy * ux;
  }

  lemma {:induction false} CrossFlip(a: Point, b: Point, p: Point)
    ensures Cross(a, b, p) == -Cross(a, p, b)
  {
  }

  lemma {:induction false} CrossSelf(a: Point, b: Point)
    ensures Cross(a, b, a) == 0.0 && Cross(a, b, b) == 0.0 && Cross(a, a, b) == 0.0
  {
  }

  /** A point left of the next edge is left of this one. */
  lemma {:induction false} NextEdge(up: bool, a: Point, b: Point, c: Point, p: Point)
    requires Before(up, a, b) && Before(up, b, c) && Before(up, b, p)
    requires Cross(a, b, c) >= 0.0 && Cross(b, c, p) >= 0.0
    ensures Cross(a, b, p) >= 0.0
  {
    var beyond := Point(b.x + (b.x - a.x), b.y + (b.y - a.y));
    ShiftEdge(a, b, c);
    ShiftEdge(a, b, p);
    TurnTransitiveFrom(up, b, beyond, c, p);
  }

  /** When p is not left of a -> b, what was left of that edge is left of a -> p. */
  lemma {:induction false} AfterPop(up: bool, a: Point, b: Point, p: Point, q: Point)
    requires Before(up, a, b) && Before(up, a, p) && Before(up, a, q)
    requires Cross(a, b, p) <= 0.0 && Cross(a, b, q) >= 0.0
    ensures Cross(a, p, q) >= 0.0
  {
    CrossFlip(a, b, p);
    TurnTransitiveFrom(up, a, p, b, q);
  }

  /** A point behind b and left of a -> b is left of b -> p too. */
  lemma {:induction false} BehindTop(up: bool, a: Point, b: Point, p: Point, q: Point)
    requires Before(up, a, b) && Before(up, b, p) && Before(up, q, b)
    requires Cross(a, b, p) >= 0.0 && Cross(a, b, q) >= 0.0
    ensures Cross(b, p, q) >= 0.0
  {
    var fromA := Point(b.x + (b.x - a.x), b.y + (b.y - a.y));
    var fromQ := Point(b.x + (b.x - q.x), b.y + (b.y - q.y));
    ShiftEdge(a, b, p);
    ShiftEdge(a, b, q);
    Mirror(b, fromA, q);
    TurnTransitiveFrom(up, b, fromQ, fromA, p);
    Mirror(b, p, q);
  }

  /** Reflecting the second point through o. */
  lemma {:induction false} Mirror(o: Point, v: Point, q: Point)
    ensures Cross(o, Point(o.x + (o.x - q.x), o.y + (o.y - q.y)), v) == Cross(o, v, q)
  {
    var vx, vy, qx, qy := v.x - o.x, v.y - o.y, q.x - o.x, q.y - o.y;
    assert (-qx) * vy - (-qy) * vx == vx * qy - vy * qx;
  }

  // ------------------------------------------------------------------------
  // One half
  // ------------------------------------------------------------------------

  /** c runs through points of s from the first one, turning strictly left, with
      all of s on or left of every edge. */
  ghost predicate Hugging(up: bool, s: seq<Point>, c: seq<Point>)
  {
    |s| >= 1 && |c| >= 1 && c[0] == s[0] && Monotone(up, c) &&
    (forall i: nat :: i < |c| ==> c[i] in s) &&
    (forall i: nat :: i + 2 < |c| ==> LeftTurn(c, i)) &&
    (forall i: nat :: i + 1 < |c| ==> AllLeft(s, c[i], c[i + 1]))
  }

  ghost predicate LeftTurn(c: seq<Point>, i: nat)
    requires i + 2 < |c|
  {
    Cross(c[i], c[i + 1], c[i + 2]) > 0.0
  }

  ghost predicate AllLeft(s: seq<Point>, a: Point, b: Point)
  {
    forall q :: q in s ==> Cross(a, b, q) >= 0.0
  }

  ghost predicate HalfHull(up: bool, s: seq<Point>, c: seq<Point>)
  {
    Hugging(up, s, c) && c[|c| - 1] == s[|s| - 1]
  }

  /** p is scanned after all of s. */
  ghost predicate After(up: bool, s: seq<Point>, p: Point)
  {
    forall q :: q in s ==> Before(up, q, p)
  }

  /** The points scanned after the top t are left of t -> p. */
  ghost predicate TopSees(up: bool, s: seq<Point>, t: Point, p: Point)
  {
    forall q :: q in s && Before(up, t, q) ==> Cross(t, p, q) >= 0.0
  }

  lemma {:induction false} PopStep(up: bool, s: seq<Point>, c: seq<Point>, p: Point)
    requires Hugging(up, s, c) && After(up, s, p) && |c| >= 2
    requires Cross(c[|c| - 2], c[|c| - 1], p) <= 0.0
    ensures Hugging(up, s, c[..|c| - 1]) && TopSees(up, s, c[|c| - 2], p)
  {
    hide Cross;
    var a, b := c[|c| - 2], c[|c| - 1];
    var d := c[..|c| - 1];
    forall i: nat | i + 2 < |d|
      ensures LeftTurn(d, i)
    {
      assert LeftTurn(c, i);
    }
    assert AllLeft(s, a, b) && a in s;
    forall q | q in s && Before(up, a, q)
      ensures Cross(a, p, q) >= 0.0
    {
      AfterPop(up, a, b, p, q);
    }
  }

  /** p is left of every edge of the chain it extends. */
  lemma {:induction false} LeftOfChain(up: bool, s: seq<Point>, c: seq<Point>, p: Point, i: nat)
    requires Hugging(up, s, c) && After(up, s, p) && i + 1 < |c|
    requires Cross(c[|c| - 2], c[|c| - 1], p) > 0.0
    ensures Cross(c[i], c[i + 1], p) >= 0.0
    decreases |c| - i
  {
    hide Cross;
    if i + 2 < |c| {
      LeftOfChain(up, s, c, p, i + 1);
      assert LeftTurn(c, i);
      NextEdge(up, c[i], c[i + 1], c[i + 2], p);
    }
  }

  lemma {:induction false} NewEdge(up: bool, s: seq<Point>, c: seq<Point>, p: Point, q: Point)
    requires Hugging(up, s, c) && Monotone(up, s) && After(up, s, p) && q in s
    requires TopSees(up, s, c[|c| - 1], p)
    requires |c| == 1 || Cross(c[|c| - 2], c[|c| - 1], p) > 0.0
    ensures Cross(c[|c| - 1], p, q) >= 0.0
  {
    hide Cross;
    var b := c[|c| - 1];
    if q == b {
      CrossSelf(b, p);
    } else if !Before(up, b, q) {
      assert Before(up, q, b);
      if |c| >= 2 {
        assert AllLeft(s, c[|c| - 2], b);
        BehindTop(up, c[|c| - 2], b, p, q);
      }
    }
  }

  lemma {:induction false} PushStep(up: bool, s: seq<Point>, c: seq<Point>, p: Point)
    requires Hugging(up, s, c) && Monotone(up, s) && After(up, s, p)
    requires TopSees(up, s, c[|c| - 1], p)
    requires |c| == 1 || Cross(c[|c| - 2], c[|c| - 1], p) > 0.0
    ensures HalfHull(up, s + [p], c + [p])
  {
    hide Cross, Before;
    var t, d := s + [p], c + [p];
    forall i: nat | i + 2 < |d|
      ensures LeftTurn(d, i)
    {
      assert i + 2 < |c| ==> LeftTurn(c, i);
    }
    forall i: nat | i + 1 < |d|
      ensures AllLeft(t, d[i], d[i + 1])
    {
      if i + 1 < |c| {
        LeftOfChain(up, s, c, p, i);
        assert AllLeft(s, c[i], c[i + 1]);
      } else {
        forall q | q in s
          ensures Cross(d[i], p, q) >= 0.0
        {
          NewEdge(up, s, c, p, q);
        }
        CrossSelf(d[i], p);
      }
    }
  }

  lemma {:induction false} Lone(up: bool, p: Point)
    ensures HalfHull(up, [p], [p])
  {
  }

  lemma {:induction false} NothingAhead(up: bool, s: seq<Point>, t: Point, p: Point)
    requires |s| >= 1 && Monotone(up, s) && t == s[|s| - 1]
    ensures TopSees(up, s, t, p)
  {
    hide Cross;
  }

  /** The inner function of convex_hull: scan, pop while not turning left, push. */
  method Half(ghost up: bool, sequence: seq<Point>) returns (chain: seq<Point>)
    requires |sequence| >= 1 && Monotone(up, sequence)
    ensures HalfHull(up, sequence, chain)
  {
    hide Cross, Before, LeftTurn, AllLeft;
    chain := [];
    for k := 0 to |sequence|
      invariant if k == 0 then chain == [] else HalfHull(up, sequence[..k], chain)
    {
      var point := sequence[k];
      ghost var s := sequence[..k];
      assert After(up, s, point);
      if k == 0 {
        Lone(up, point);
        chain := [point];
        assert sequence[..1] == [point];
        continue;
      }
      NothingAhead(up, s, chain[|chain| - 1], point);
      while |chain| >= 2
        invariant Hugging(up, s, chain) && TopSees(up, s, chain[|chain| - 1], point)
      {
        var a, b := chain[|chain| - 2], chain[|chain| - 1];
        if Cross(a, b, point) > 0.0 {
          break;
        }
        PopStep(up, s, chain, point);
        chain := chain[..|chain| - 1];
      }
      PushStep(up, s, chain, point);
      chain := chain + [point];
      assert sequence[..k + 1] == s + [point];
    }
    assert sequence[..|sequence|] == sequence;
  }

  // ------------------------------------------------------------------------
  // The ring
  // ------------------------------------------------------------------------

  /** sorted(set(points)). */
  function Insert(p: Point, s: seq<Point>): seq<Point>
  {
    if s == [] || Lex(p, s[0]) then [p] + s
    else if p == s[0] then s
    else [s[0]] + Insert(p, s[1..])
  }

  function SortedSet(points: seq<Point>): seq<Point>
  {
    if points == [] then [] else Insert(points[0], SortedSet(points[1..]))
  }

  lemma {:induction false} InsertMembers(p: Point, s: seq<Point>, q: Point)
    ensures q in Insert(p, s) <==> q == p || q in s
  {
    if s != [] && !Lex(p, s[0]) && p != s[0] {
      InsertMembers(p, s[1..], q);
    }
  }

  lemma {:induction false} InsertMonotone(p: Point, s: seq<Point>)
    requires Monotone(true, s)
    ensures Monotone(true, Insert(p, s))
  {
    if s != [] && !Lex(p, s[0]) && p != s[0] {
      InsertMonotone(p, s[1..]);
      var r := Insert(p, s[1..]);
      forall j: nat | j < |r|
        ensures Lex(s[0], r[j])
      {
        InsertMembers(p, s[1..], r[j]);
      }
    }
  }

  lemma {:induction false} SortedSetMonotone(points: seq<Point>)
    ensures Monotone(true, SortedSet(points))
  {
    if points != [] {
      SortedSetMonotone(points[1..]);
      InsertMonotone(points[0], SortedSet(points[1..]));
    }
  }

  lemma {:induction false} SortedSetMembers(points: seq<Point>, q: Point)
    ensures q in SortedSet(points) <==> q in points
  {
    if points != [] {
      SortedSetMembers(points[1..], q);
      InsertMembers(points[0], SortedSet(points[1..]), q);
    }
  }

  function Reversed(s: seq<Point>): (r: seq<Point>)
    ensures |r| == |s| && forall i: nat :: i < |s| ==> r[i] == s[|s| - 1 - i]
  {
    seq(|s|, (i: nat) requires i < |s| => s[|s| - 1 - i])
  }

  lemma {:induction false} ReversedFacts(s: seq<Point>)
    requires Monotone(true, s)
    ensures Monotone(false, Reversed(s))
    ensures forall q :: q in s <==> q in Reversed(s)
  {
    hide Lex;
    var r := Reversed(s);
    forall q | q in s
      ensures q in r
    {
      var i :| 0 <= i < |s| && s[i] == q;
      assert r[|s| - 1 - i] == q;
    }
  }

  function Next(h: seq<Point>, i: nat): nat { if i + 1 < |h| then i + 1 else 0 }

  ghost predicate Collinear(s: seq<Point>)
  {
    forall p, q, r :: p in s && q in s && r in s ==> Cross(p, q, r) == 0.0
  }

  /** Every input point lies on or left of every directed edge of the ring. */
  ghost predicate Encloses(h: seq<Point>, points: seq<Point>)
  {
    forall i: nat :: i < |h| ==> AllLeft(points, h[i], h[Next(h, i)])
  }

  /** A strictly convex counter-clockwise ring without a repeated corner. */
  ghost predicate StrictlyConvex(h: seq<Point>)
  {
    |h| >= 3 &&
    (forall i: nat :: i < |h| ==> Cross(h[i], h[Next(h, i)], h[Next(h, Next(h, i))]) > 0.0) &&
    (forall i: nat, j: nat :: i < j < |h| ==> h[i] != h[j])
  }

  /** Two opposite half hulls of one point list. */
  ghost predicate Halves(s: seq<Point>, l: seq<Point>, u: seq<Point>)
  {
    |s| >= 2 && Monotone(true, s) && HalfHull(true, s, l) && HalfHull(false, Reversed(s), u)
  }

  function Ring(l: seq<Point>, u: seq<Point>): seq<Point>
    requires |l| >= 1 && |u| >= 1
  {
    l[..|l| - 1] + u[..|u| - 1]
  }

  lemma {:induction false} HalvesLongEnough(s: seq<Point>, l: seq<Point>, u: seq<Point>)
    requires Halves(s, l, u)
    ensures |l| >= 2 && |u| >= 2
    ensures l[0] == s[0] == u[|u| - 1] && l[|l| - 1] == s[|s| - 1] == u[0]
  {
    assert Before(true, s[0], s[|s| - 1]);
  }

  /** An edge of the ring is an edge of a half. */
  lemma {:induction false} RingEdge(s: seq<Point>, l: seq<Point>, u: seq<Point>, i: nat)
    requires Halves(s, l, u) && i < |l| + |u| - 2
    ensures |l| >= 2 && |u| >= 2
    ensures var h := Ring(l, u);
            if i + 1 < |l| then h[i] == l[i] && h[Next(h, i)] == l[i + 1]
            else h[i] == u[i + 1 - |l|] && h[Next(h, i)] == u[i + 2 - |l|]
  {
    hide Hugging, Before, Monotone;
    HalvesLongEnough(s, l, u);
  }

  lemma {:induction false} RingEncloses(s: seq<Point>, l: seq<Point>, u: seq<Point>)
    requires Halves(s, l, u)
    ensures Encloses(Ring(l, u), s)
  {
    hide Cross, Lex;
    var h := Ring(l, u);
    forall i: nat | i < |h|
      ensures AllLeft(s, h[i], h[Next(h, i)])
    {
      RingEdge(s, l, u, i);
      ReversedFacts(s);
      if i + 1 < |l| {
        assert AllLeft(s, l[i], l[i + 1]);
      } else {
        assert AllLeft(Reversed(s), u[i + 1 - |l|], u[i + 2 - |l|]);
      }
    }
  }

  // ------------------------------------------------------------------------
  // The two corners where the halves meet
  // ------------------------------------------------------------------------

  /** Parallel vectors of one half plane see a third one from the same side. */
  lemma {:induction false} Squeezed(ux: real, uy: real, wx: real, wy: real, rx: real, ry: real)
    requires ux > 0.0 || (ux == 0.0 && uy > 0.0)
    requires wx > 0.0 || (wx == 0.0 && wy > 0.0)
    requires ux * wy - uy * wx == 0.0 && ux * ry - uy * rx >= 0.0 && wx * ry - wy * rx <= 0.0
    ensures ux * ry - uy * rx == 0.0
  {
    var ur, wr := ux * ry - uy * rx, wx * ry - wy * rx;
    if wx > 0.0 {
      assert ur * wx == wr * ux + rx * (ux * wy - uy * wx);
      assert rx * (ux * wy - uy * wx) == 0.0;
      assert wr * ux <= 0.0;
      assert (-ur) * wx >= 0.0;
      FactorSign(-ur, wx);
    } else {
      assert ux * wy == 0.0 && (-ux) * wy >= 0.0;
      FactorSign(-ux, wy);
      assert (-rx) * uy >= 0.0 && rx * wy >= 0.0;
      FactorSign(-rx, uy);
      FactorSign(rx, wy);
    }
  }

  /** A straight joint at z puts every point on one line. */
  lemma {:induction false} StraightJoint(up: bool, s: seq<Point>, a: Point, z: Point, b: Point, q: Point)
    requires Before(up, a, z) && Before(up, b, z) && AllLeft(s, a, z) && AllLeft(s, z, b) && q in s
    requires Cross(a, z, b) == 0.0
    ensures Cross(a, z, q) == 0.0
  {
    var ux, uy, wx, wy, rx, ry := z.x - a.x, z.y - a.y, z.x - b.x, z.y - b.y, q.x - z.x, q.y - z.y;
    assert Cross(a, z, q) == ux * ry - uy * rx by {
      ShiftEdge(a, z, q);
    }
    assert Cross(a, z, b) == -(ux * wy - uy * wx) by {
      ShiftEdge(a, z, b);
      assert ux * (-wy) - uy * (-wx) == -(ux * wy - uy * wx);
    }
    assert Cross(z, b, q) == -(wx * ry - wy * rx) by {
      assert (-wx) * ry - (-wy) * rx == -(wx * ry - wy * rx);
    }
    if up {
      Squeezed(ux, uy, wx, wy, rx, ry);
    } else {
      SqueezedDown(ux, uy, wx, wy, rx, ry);
    }
  }

  lemma {:induction false} SqueezedDown(ux: real, uy: real, wx: real, wy: real, rx: real, ry: real)
    requires ux < 0.0 || (ux == 0.0 && uy < 0.0)
    requires wx < 0.0 || (wx == 0.0 && wy < 0.0)
    requires ux * wy - uy * wx == 0.0 && ux * ry - uy * rx >= 0.0 && wx * ry - wy * rx <= 0.0
    ensures ux * ry - uy * rx == 0.0
  {
    var ax, ay, bx, by', cx, cy := -ux, -uy, -wx, -wy, -rx, -ry;
    assert ax * by' - ay * bx == ux * wy - uy * wx by { NegateBoth(ux, uy, wx, wy); }
    assert ax * cy - ay * cx == ux * ry - uy * rx by { NegateBoth(ux, uy, rx, ry); }
    assert bx * cy - by' * cx == wx * ry - wy * rx by { NegateBoth(wx, wy, rx, ry); }
    Squeezed(ax, ay, bx, by', cx, cy);
  }

  lemma {:induction false} Parallel(ex: real, ey: real, ux: real, uy: real, vx: real, vy: real)
    requires ex != 0.0 || ey != 0.0
    requires ex * uy - ey * ux == 0.0 && ex * vy - ey * vx == 0.0
    ensures ux * vy - uy * vx == 0.0
  {
    var uv := ux * vy - uy * vx;
    assert ex * uv == ux * (ex * vy - ey * vx) - vx * (ex * uy - ey * ux);
    assert ey * uv == uy * (ex * vy - ey * vx) - vy * (ex * uy - ey * ux);
    assert ex * uv == 0.0 && ey * uv == 0.0;
  }

  /** All points on the line through two different ones. */
  lemma {:induction false} LineIsCollinear(s: seq<Point>, a: Point, z: Point)
    requires a != z && forall q :: q in s ==> Cross(a, z, q) == 0.0
    ensures Collinear(s)
  {
    forall p, q, r | p in s && q in s && r in s
      ensures Cross(p, q, r) == 0.0
    {
      LineThrough(a, z, p, q, r);
    }
  }

  lemma {:induction false} LineThrough(a: Point, z: Point, p: Point, q: Point, r: Point)
    requires a != z && Cross(a, z, p) == 0.0 && Cross(a, z, q) == 0.0 && Cross(a, z, r) == 0.0
    ensures Cross(p, q, r) == 0.0
  {
    var ex, ey := z.x - a.x, z.y - a.y;
    var px, py, qx, qy, rx, ry := p.x - a.x, p.y - a.y, q.x - a.x, q.y - a.y, r.x - a.x, r.y - a.y;
    assert ex * (qy - py) - ey * (qx - px) == (ex * qy - ey * qx) - (ex * py - ey * px);
    assert ex * (ry - py) - ey * (rx - px) == (ex * ry - ey * rx) - (ex * py - ey * px);
    Parallel(ex, ey, qx - px, qy - py, rx - px, ry - py);
  }

  lemma {:induction false} JointTurns(up: bool, s: seq<Point>, a: Point, z: Point, b: Point)
    requires Before(up, a, z) && Before(up, b, z) && AllLeft(s, a, z) && AllLeft(s, z, b) && b in s
    requires !Collinear(s)
    ensures Cross(a, z, b) > 0.0
  {
    hide Cross;
    if Cross(a, z, b) == 0.0 {
      forall q | q in s
        ensures Cross(a, z, q) == 0.0
      {
        StraightJoint(up, s, a, z, b, q);
      }
      LineIsCollinear(s, a, z);
    }
  }

  lemma {:induction false} RingTurns(s: seq<Point>, l: seq<Point>, u: seq<Point>, i: nat)
    requires Halves(s, l, u) && !Collinear(s) && i < |l| + |u| - 2
    ensures |l| >= 1 && |u| >= 1
    ensures var h := Ring(l, u); Cross(h[i], h[Next(h, i)], h[Next(h, Next(h, i))]) > 0.0
  {
    hide Cross, Before, Collinear;
    var h := Ring(l, u);
    var j := Next(h, i);
    HalvesLongEnough(s, l, u);
    RingEdge(s, l, u, i);
    RingEdge(s, l, u, j);
    RingEncloses(s, l, u);
    ReversedFacts(s);
    if i + 2 < |l| {
      assert LeftTurn(l, i);
    } else if i + 2 == |l| {
      assert Before(true, l[i], l[i + 1]) && Before(false, u[0], u[1]);
      assert Before(true, u[1], l[i + 1]) by { Opposite(u[0], u[1]); }
      JointTurns(true, s, l[i], l[i + 1], u[1]);
    } else if i + 3 - |l| < |u| {
      assert LeftTurn(u, i + 1 - |l|);
    } else {
      var k := i + 1 - |l|;
      assert Before(false, u[k], u[k + 1]) && Before(true, l[0], l[1]);
      assert Before(false, l[1], u[k + 1]) by { Opposite(l[1], l[0]); }
      JointTurns(false, s, u[k], u[k + 1], l[1]);
    }
  }

  lemma {:induction false} Opposite(a: Point, b: Point)
    ensures Before(true, b, a) <==> Before(false, a, b)
  {
  }

  // ------------------------------------------------------------------------
  // No corner twice
  // ------------------------------------------------------------------------

  lemma {:induction false} StrictTurn(ux: real, uy: real, vx: real, vy: real, wx: real, wy: real)
    requires ux > 0.0 || (ux == 0.0 && uy > 0.0)
    requires vx > 0.0 || (vx == 0.0 && vy > 0.0)
    requires wx > 0.0 || (wx == 0.0 && wy > 0.0)
    requires ux * vy - uy * vx > 0.0 && vx * wy - vy * wx == 0.0
    ensures ux * wy - uy * wx > 0.0
  {
    var uv, vw, uw := ux * vy - uy * vx, vx * wy - vy * wx, ux * wy - uy * wx;
    if vx > 0.0 {
      assert wx == 0.0 ==> vx * wy > 0.0;
      assert uw * vx == uv * wx + vw * ux;
      assert uv * wx > 0.0 && vw * ux == 0.0;
      FactorSign(uw, vx);
    } else {
      assert (-wx) * vy >= 0.0;
      FactorSign(-wx, vy);
      FactorSign(ux, vy);
      assert ux * wy > 0.0;
    }
  }

  /** No point is inside both halves. */
  lemma {:induction false} NotInBoth(a: Point, q: Point, b: Point, d: Point)
    requires Lex(a, q) && Lex(q, b) && Lex(d, q)
    requires Cross(a, q, b) > 0.0 && Cross(a, q, d) >= 0.0 && Cross(q, b, d) >= 0.0
    ensures Cross(q, d, b) < 0.0
  {
    var ux, uy, vx, vy, wx, wy := q.x - a.x, q.y - a.y, b.x - q.x, b.y - q.y, q.x - d.x, q.y - d.y;
    ShiftEdge(a, q, b);
    assert Cross(a, q, b) == ux * vy - uy * vx;
    ShiftEdge(a, q, d);
    assert Cross(a, q, d) == ux * (-wy) - uy * (-wx) == -(ux * wy - uy * wx);
    CrossFlip(q, b, d);
    assert Cross(q, b, d) == vx * (-wy) - vy * (-wx) == -(vx * wy - vy * wx);
    if vx * wy - vy * wx == 0.0 {
      StrictTurn(ux, uy, vx, vy, wx, wy);
    }
  }

  lemma {:induction false} HalvesDisjoint(s: seq<Point>, l: seq<Point>, u: seq<Point>, i: nat, j: nat)
    requires Halves(s, l, u) && i + 1 < |l| && j + 1 < |u|
    ensures l[i] != u[j]
  {
    hide Cross, Lex;
    HalvesLongEnough(s, l, u);
    ReversedFacts(s);
    LexIrreflexive(u[|u| - 1], u[j]);
    LexIrreflexive(l[i], l[|l| - 1]);
    assert Before(false, u[j], u[|u| - 1]) && Before(true, l[i], l[|l| - 1]);
    if i > 0 && j > 0 && l[i] == u[j] {
      var q := l[i];
      var a, b, d := l[i - 1], l[i + 1], u[j + 1];
      assert Before(true, a, q) && Before(true, q, b) && Before(false, q, d);
      assert LeftTurn(l, i - 1);
      assert AllLeft(s, l[i - 1], l[i]) && AllLeft(s, l[i], l[i + 1]) && AllLeft(Reversed(s), u[j], u[j + 1]);
      assert b in s && d in s && b in Reversed(s);
      NotInBoth(a, q, b, d);
    }
  }

  lemma {:induction false} LexIrreflexive(a: Point, b: Point)
    ensures Lex(a, b) ==> a != b
  {
  }

  lemma {:induction false} RingDistinct(s: seq<Point>, l: seq<Point>, u: seq<Point>, i: nat, j: nat)
    requires Halves(s, l, u) && i < j < |l| + |u| - 2
    ensures |l| >= 1 && |u| >= 1 && Ring(l, u)[i] != Ring(l, u)[j]
  {
    hide Cross, AllLeft, LeftTurn;
    HalvesLongEnough(s, l, u);
    RingEdge(s, l, u, i);
    RingEdge(s, l, u, j);
    if j + 1 < |l| {
      assert Before(true, l[i], l[j]);
    } else if i + 1 < |l| {
      HalvesDisjoint(s, l, u, i, j + 1 - |l|);
    } else {
      assert Before(false, u[i + 1 - |l|], u[j + 1 - |l|]);
    }
  }

  /** Three points not on one line: the ring is strictly convex. */
  lemma {:induction false} RingIsStrictlyConvex(s: seq<Point>, l: seq<Point>, u: seq<Point>)
    requires Halves(s, l, u) && !Collinear(s)
    ensures |l| >= 1 && |u| >= 1 && StrictlyConvex(Ring(l, u))
  {
    hide Cross, Before, Collinear;
    HalvesLongEnough(s, l, u);
    var h := Ring(l, u);
    forall i: nat | i < |h|
      ensures Cross(h[i], h[Next(h, i)], h[Next(h, Next(h, i))]) > 0.0
    {
      RingTurns(s, l, u, i);
    }
    forall i: nat, j: nat | i < j < |h|
      ensures h[i] != h[j]
    {
      RingDistinct(s, l, u, i, j);
    }
    if |h| == 2 {
      RingTurns(s, l, u, 0);
      CrossSelf(h[0], h[1]);
    }
  }

  /** All points on one line: only the two extremes remain. */
  lemma {:induction false} RingOfLine(s: seq<Point>, l: seq<Point>, u: seq<Point>)
    requires Halves(s, l, u) && Collinear(s)
    ensures |l| >= 1 && |u| >= 1 && Ring(l, u) == [s[0], s[|s| - 1]]
  {
    hide Cross, Before;
    HalvesLongEnough(s, l, u);
    ReversedFacts(s);
    assert |l| > 2 ==> LeftTurn(l, 0);
    assert |u| > 2 ==> LeftTurn(u, 0);
  }

  method ConvexHull(points: seq<Point>) returns (hull: seq<Point>)
    ensures forall p :: p in hull ==> p in points
    ensures |SortedSet(points)| < 3 ==> hull == SortedSet(points)
    ensures |SortedSet(points)| >= 3 ==> Encloses(hull, points)
    ensures |SortedSet(points)| >= 3 && Collinear(points) ==>
              hull == [SortedSet(points)[0], SortedSet(points)[|SortedSet(points)| - 1]]
    ensures !Collinear(points) ==> |SortedSet(points)| >= 3 && StrictlyConvex(hull)
  {
    hide Cross, Lex, Before;
    var ordered := SortedSet(points);
    SortedSetMonotone(points);
    forall q
      ensures q in ordered <==> q in points
    {
      SortedSetMembers(points, q);
    }
    if |ordered| < 3 {
      FewAreCollinear(ordered, points);
      return ordered;
    }
    var lower := Half(true, ordered);
    ReversedFacts(ordered);
    var upper := Half(false, Reversed(ordered));
    hull := lower[..|lower| - 1] + upper[..|upper| - 1];
    RingEncloses(ordered, lower, upper);
    assert Collinear(ordered) <==> Collinear(points);
    if Collinear(points) {
      RingOfLine(ordered, lower, upper);
    } else {
      RingIsStrictlyConvex(ordered, lower, upper);
    }
  }

  lemma {:induction false} FewAreCollinear(s: seq<Point>, points: seq<Point>)
    requires |s| < 3 && forall q :: q in s <==> q in points
    ensures Collinear(points)
  {
    hide Cross;
    forall p, q, r | p in points && q in points && r in points
      ensures Cross(p, q, r) == 0.0
    {
      assert p in s && q in s && r in s;
      CrossSelf(p, q);
      CrossSelf(p, r);
    }
  }
}
