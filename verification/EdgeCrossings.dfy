/** What recycle edges meet besides edges into their own phase: no entry or advance edge,
    but edges into other phases, and phase nodes. */
module EdgeCrossings {
  import opened EdgeRouting
  import opened EdgeNesting

  /** The height of the middle of every phase node. */
  function Middle(l: Layout): real {
    PHASE_Y + MaxHeight(l.heights) / 2.0
  }

  lemma MiddleOfNode(l: Layout, col: nat, percent: real)
    requires Valid(l) && col < |l.phases|
    ensures var y := HandleY(NodeY(l, col), l.heights[col], percent);
            && (percent == 50.0 ==> y == Middle(l)) && (percent < 50.0 ==> y < Middle(l)) && (percent > 50.0 ==> y > Middle(l))
  {
    var top, height := NodeY(l, col), l.heights[col];
    assert HandleY(top, height, 50.0) == Middle(l);
    if percent < 50.0 { HandlesBelow(top, height, percent, 50.0); }
    if percent > 50.0 { HandlesBelow(top, height, 50.0, percent); }
  }

  lemma SlotPercent(l: Layout, target: string, routes: seq<Route>, i: nat)
    requires Routed(l, target, routes) && i < |routes|
    ensures 54.0 <= RecycleHandleTopPercent(routes[i].slot, |routes|) <= 86.0
  {
    var n := |routes|;
    HandlesAreOrdered(0, n - 1 - i, n);
    HandlesAreOrdered(n - 1 - i, n - 1 - i, n);
  }

  /** Recycle edges keep below the middle of the nodes. */
  lemma RecycleBelowMiddle(l: Layout, target: string, routes: seq<Route>, i: nat, x: real, y: real)
    requires Valid(l) && Routed(l, target, routes) && i < |routes|
    ensures On(PathOf(l, |routes|, routes[i]), x, y) ==> y > Middle(l)
  {
    var r, p := routes[i], PathOf(l, |routes|, routes[i]);
    PathShape(l, target, routes, i);
    SlotPercent(l, target, routes, i);
    MiddleOfNode(l, r.targetCol, RecycleHandleTopPercent(r.slot, |routes|));
    assert p.sourceY == NodeY(l, r.sourceCol) + l.heights[r.sourceCol] > Middle(l);
  }

  // ----- Entry edges

  /** From the left edge of the graph to the bend, up, and right to the advance handle. */
  datatype EntryPath = EntryPath(sourceX: real, sourceY: real, bendX: real, targetX: real, targetY: real)

  function EntryTo(l: Layout, col: nat, recycleTargets: nat): EntryPath
    requires Valid(l) && col < |l.phases|
  {
    var x, y, height := NodeX(l, col), NodeY(l, col), l.heights[col];
    EntryPath(HANDLE_SIZE, y + height / 2.0, EntryBendX(HANDLE_SIZE, x, recycleTargets), x,
              HandleY(y, height, AdvanceHandlePercent(recycleTargets)))
  }

  predicate OnEntry(e: EntryPath, x: real, y: real) {
    || (y == e.sourceY && Between(e.sourceX, x, e.bendX))
    || (x == e.bendX && Between(e.sourceY, y, e.targetY))
    || (y == e.targetY && Between(e.bendX, x, e.targetX))
  }

  /** The entry edge bends upwards where the phase has recycle edges, and is level where it
      has none. */
  lemma EntryBends(l: Layout, col: nat, recycleTargets: nat)
    requires Valid(l) && col < |l.phases|
    ensures var e := EntryTo(l, col, recycleTargets);
            && e.sourceY == Middle(l)
            && if recycleTargets > 0 then e.targetY <= e.sourceY - 20.0 else e.targetY == e.sourceY
  {
    var top, height := NodeY(l, col), l.heights[col];
    assert HandleY(top, height, 34.0) == top + height * 0.34;
    assert HandleY(top, height, 50.0) == top + height * 0.5;
  }

  /** Entry edges meet no recycle edge, wherever both lead. */
  lemma EntryMeetsNoRecycle(l: Layout, col: nat, recycleTargets: nat, target: string, routes: seq<Route>, i: nat, x: real, y: real)
    requires Valid(l) && col < |l.phases| && Routed(l, target, routes) && i < |routes|
    ensures !(OnEntry(EntryTo(l, col, recycleTargets), x, y) && On(PathOf(l, |routes|, routes[i]), x, y))
  {
    if OnEntry(EntryTo(l, col, recycleTargets), x, y) && On(PathOf(l, |routes|, routes[i]), x, y) {
      EntryBends(l, col, recycleTargets);
      RecycleBelowMiddle(l, target, routes, i, x, y);
    }
  }

  // ----- Advance edges

  /** The point of a cubic Bezier curve at t, one coordinate of it. */
  function Bezier(a: real, b: real, c: real, d: real, t: real): real {
    var u := 1.0 - t;
    u * u * u * a + 3.0 * u * u * t * b + 3.0 * u * t * t * c + t * t * t * d
  }

  /** The height at t of the advance edge from a column to the next, whose control points
      lie beside its ends. */
  function AdvanceY(l: Layout, col: nat, recycleTargets: nat, t: real): real
    requires Valid(l) && col + 1 < |l.phases|
  {
    var y := HandleY(NodeY(l, col), l.heights[col], 50.0);
    var targetY := HandleY(NodeY(l, col + 1), l.heights[col + 1], AdvanceHandlePercent(recycleTargets));
    Bezier(y, y, targetY, targetY, t)
  }

  lemma BezierBetween(a: real, d: real, t: real)
    requires 0.0 <= t <= 1.0 && d <= a
    ensures Bezier(a, a, d, d, t) <= a
  {
    var u := 1.0 - t;
    var part := 3.0 * u * t * t + t * t * t;
    assert u * u * u + 3.0 * u * u * t + part == 1.0;
    assert Bezier(a, a, d, d, t) == (1.0 - part) * a + part * d;
    assert part >= 0.0 by {
      Scale(t * t, 0.0, u);
      Scale(t * t, 0.0, t);
    }
    assert part * (a - d) >= 0.0;
  }

  /** Advance edges meet no recycle edge. */
  lemma AdvanceMeetsNoRecycle(l: Layout, col: nat, recycleTargets: nat, t: real, target: string, routes: seq<Route>, i: nat, x: real)
    requires Valid(l) && col + 1 < |l.phases| && 0.0 <= t <= 1.0 && Routed(l, target, routes) && i < |routes|
    ensures !On(PathOf(l, |routes|, routes[i]), x, AdvanceY(l, col, recycleTargets, t))
  {
    var y := AdvanceY(l, col, recycleTargets, t);
    var percent := AdvanceHandlePercent(recycleTargets);
    MiddleOfNode(l, col, 50.0);
    MiddleOfNode(l, col + 1, percent);
    BezierBetween(Middle(l), HandleY(NodeY(l, col + 1), l.heights[col + 1], percent), t);
    if On(PathOf(l, |routes|, routes[i]), x, y) {
      RecycleBelowMiddle(l, target, routes, i, x, y);
    }
  }

  // ----- Edges into different phases

  /** Where a column lies beside another. */
  lemma Beside(l: Layout, a: nat, col: nat)
    requires Valid(l) && a < |l.phases| && col < |l.phases|
    ensures col < a ==> NodeX(l, col) + l.widths[col] < NodeX(l, a)
    ensures a < col ==> NodeX(l, a) + l.widths[a] < NodeX(l, col)
  {
    if col < a { ColumnsApart(l.widths, LeftGutter(l), col, a); }
    if a < col { ColumnsApart(l.widths, LeftGutter(l), a, col); }
  }

  /** The stretches of two edges along one lane have a point in common. */
  predicate LanesOverlap(p: Path, q: Path) {
    Max(Min(p.sourceX, p.approachX), Min(q.sourceX, q.approachX)) <= Min(Max(p.sourceX, p.approachX), Max(q.sourceX, q.approachX))
  }

  /** p's last stretch, to its handle, meets q on the way down or up. */
  predicate Reaches(p: Path, q: Path) {
    || (q.sourceX <= p.targetX && q.sourceY <= p.targetY)
    || (q.approachX <= p.targetX && q.targetY <= p.targetY)
  }

  /** Two paths of one lane, the second of which leads further right. */
  predicate SameLane(p: Path, q: Path) {
    && p.laneY == q.laneY && p.targetX - p.approachX == q.targetX - q.approachX > 0.0 && p.targetX < q.targetX
    && p.sourceY < p.laneY && q.sourceY < p.laneY && p.targetY < p.laneY && q.targetY < p.laneY
  }

  lemma SameLaneMeets(p: Path, q: Path) returns (x: real, y: real)
    requires SameLane(p, q) && (LanesOverlap(p, q) || Reaches(p, q))
    ensures On(p, x, y) && On(q, x, y)
  {
    if LanesOverlap(p, q) {
      x, y := Max(Min(p.sourceX, p.approachX), Min(q.sourceX, q.approachX)), p.laneY;
    } else if q.sourceX <= p.targetX && q.sourceY <= p.targetY {
      x, y := q.sourceX, p.targetY;
    } else {
      x, y := q.approachX, p.targetY;
    }
  }

  lemma SameLaneApart(p: Path, q: Path)
    requires SameLane(p, q) && !LanesOverlap(p, q) && !Reaches(p, q)
    ensures !Cross(p, q)
  {}

  lemma LaneOfRoute(l: Layout, a: string, p: seq<Route>, b: string, q: seq<Route>, i: nat)
    requires Valid(l) && Routed(l, a, p) && Routed(l, b, q) && i < |p| && i < |q| && p[i].targetCol < q[i].targetCol
    ensures SameLane(PathOf(l, |p|, p[i]), PathOf(l, |q|, q[i]))
  {
    PathShape(l, a, p, i);
    PathShape(l, b, q, i);
    ColumnsApart(l.widths, LeftGutter(l), p[i].targetCol, q[i].targetCol);
  }

  /** Lanes are counted for each target: two edges of one lane into different phases meet
      exactly when their stretches along it overlap, or the last stretch of the one further
      left reaches the other. */
  lemma SameLaneExactly(l: Layout, a: string, p: seq<Route>, b: string, q: seq<Route>, i: nat)
    requires Valid(l) && Routed(l, a, p) && Routed(l, b, q) && i < |p| && i < |q| && p[i].targetCol < q[i].targetCol
    ensures var v, w := PathOf(l, |p|, p[i]), PathOf(l, |q|, q[i]);
            Cross(v, w) <==> LanesOverlap(v, w) || Reaches(v, w)
  {
    hide Cross, On;
    var v, w := PathOf(l, |p|, p[i]), PathOf(l, |q|, q[i]);
    LaneOfRoute(l, a, p, b, q, i);
    if LanesOverlap(v, w) || Reaches(v, w) {
      var x, y := SameLaneMeets(v, w);
      Meets(v, w, x, y);
    } else {
      SameLaneApart(v, w);
    }
  }

  /** Among the first eight lanes, an approach lies between the centre of the column before
      its target and the target. */
  lemma ApproachColumn(l: Layout, target: string, routes: seq<Route>, i: nat, col: nat)
    requires Valid(l) && Routed(l, target, routes) && i < |routes| && i < 8 && col < |l.phases|
    ensures var p, centre := PathOf(l, |routes|, routes[i]), NodeX(l, col) + l.widths[col] / 2.0;
            if col < routes[i].targetCol then centre < p.approachX else p.targetX < centre
  {
    var t := routes[i].targetCol;
    PathShape(l, target, routes, i);
    if col < t {
      ColumnsApart(l.widths, LeftGutter(l), col, t);
    } else if t < col {
      ColumnsApart(l.widths, LeftGutter(l), t, col);
    }
  }

  /** Two paths from sources at or right of their targets, the second of which leads further
      right. */
  predicate TwoPhases(p: Path, q: Path) {
    && p.approachX < p.targetX < p.sourceX && q.approachX < q.targetX < q.sourceX && p.targetX < q.targetX
    && p.sourceY < p.laneY && q.sourceY < q.laneY && p.targetY < p.laneY && q.targetY < q.laneY
    && p.sourceY < q.laneY && q.sourceY < p.laneY && p.targetY < q.laneY && q.targetY < p.laneY
    && (q.laneY <= p.laneY ==> p.approachX < q.approachX)
  }

  /** Where the lane of p is not lower, q must not rise through it, nor enclose what it
      crosses; where it is, p must not rise from q's lane, nor reach q with its last part. */
  predicate Entangled(p: Path, q: Path) {
    if p.laneY <= q.laneY then
      || p.approachX <= q.approachX <= p.sourceX
      || (q.approachX < p.approachX
          && (p.targetY <= q.targetY || q.sourceX <= p.sourceX || (p.sourceX <= q.targetX && p.sourceY <= q.targetY)))
    else
      || q.approachX <= p.sourceX <= q.sourceX
      || (q.approachX <= p.targetX && q.targetY <= p.targetY)
  }

  lemma TwoPhasesMeet(p: Path, q: Path) returns (x: real, y: real)
    requires TwoPhases(p, q) && Entangled(p, q)
    ensures On(p, x, y) && On(q, x, y)
  {
    if p.laneY <= q.laneY {
      if p.approachX <= q.approachX {
        x, y := q.approachX, p.laneY;
      } else if p.targetY <= q.targetY {
        x, y := p.approachX, q.targetY;
      } else if q.sourceX <= p.sourceX {
        x, y := q.sourceX, p.laneY;
      } else {
        x, y := p.sourceX, q.targetY;
      }
    } else if q.approachX <= p.sourceX <= q.sourceX {
      x, y := p.sourceX, q.laneY;
    } else {
      x, y := q.approachX, p.targetY;
    }
  }

  lemma TwoPhasesApart(p: Path, q: Path)
    requires TwoPhases(p, q) && !Entangled(p, q)
    ensures !Cross(p, q)
  {}

  lemma AreTwoPhases(l: Layout, a: string, p: seq<Route>, i: nat, b: string, q: seq<Route>, j: nat)
    requires Valid(l) && Routed(l, a, p) && Routed(l, b, q) && i < |p| && j < |q|
    requires p[i].targetCol < q[j].targetCol && p[i].targetCol <= p[i].sourceCol && q[j].targetCol <= q[j].sourceCol
    ensures TwoPhases(PathOf(l, |p|, p[i]), PathOf(l, |q|, q[j]))
    ensures PathOf(l, |p|, p[i]).laneY <= PathOf(l, |q|, q[j]).laneY <==> i <= j
  {
    PathShape(l, a, p, i);
    PathShape(l, b, q, j);
    Beside(l, p[i].targetCol, p[i].sourceCol);
    Beside(l, q[j].targetCol, q[j].sourceCol);
    Beside(l, p[i].targetCol, q[j].targetCol);
  }

  /** For any lanes: edges into different phases, from sources at or right of them, meet
      exactly when they are entangled. */
  lemma DifferentPhasesExactly(l: Layout, a: string, p: seq<Route>, i: nat, b: string, q: seq<Route>, j: nat)
    requires Valid(l) && Routed(l, a, p) && Routed(l, b, q) && i < |p| && j < |q|
    requires p[i].targetCol < q[j].targetCol && p[i].targetCol <= p[i].sourceCol && q[j].targetCol <= q[j].sourceCol
    ensures var v, w := PathOf(l, |p|, p[i]), PathOf(l, |q|, q[j]);
            Cross(v, w) <==> Entangled(v, w)
  {
    hide Cross, On, TwoPhases, Entangled;
    var v, w := PathOf(l, |p|, p[i]), PathOf(l, |q|, q[j]);
    AreTwoPhases(l, a, p, i, b, q, j);
    if Entangled(v, w) {
      var x, y := TwoPhasesMeet(v, w);
      Meets(v, w, x, y);
    } else {
      TwoPhasesApart(v, w);
    }
  }

  /** In any of the first eight lanes this is a condition on columns: the edge into the
      earlier phase starts at or right of the later phase, and does not run around the other
      edge, from further right and on a lower lane. */
  lemma DifferentPhases(l: Layout, a: string, p: seq<Route>, i: nat, b: string, q: seq<Route>, j: nat)
    requires Valid(l) && Routed(l, a, p) && Routed(l, b, q) && i < |p| && j < |q| && i < 8 && j < 8
    requires p[i].targetCol < q[j].targetCol && p[i].targetCol <= p[i].sourceCol && q[j].targetCol <= q[j].sourceCol
    ensures Cross(PathOf(l, |p|, p[i]), PathOf(l, |q|, q[j]))
       <==> q[j].targetCol <= p[i].sourceCol && (i <= j || p[i].sourceCol <= q[j].sourceCol)
  {
    hide Cross, On, PathOf;
    var c, d := p[i].sourceCol, q[j].sourceCol;
    DifferentPhasesExactly(l, a, p, i, b, q, j);
    AreTwoPhases(l, a, p, i, b, q, j);
    PathShape(l, a, p, i);
    PathShape(l, b, q, j);
    ApproachColumn(l, a, p, i, p[i].targetCol);
    ApproachColumn(l, b, q, j, c);
    ApproachColumn(l, b, q, j, p[i].targetCol);
    Centres(l, c, d);
  }

  lemma Centres(l: Layout, a: nat, b: nat)
    requires Valid(l) && a < |l.phases| && b < |l.phases|
    ensures NodeX(l, a) + l.widths[a] / 2.0 <= NodeX(l, b) + l.widths[b] / 2.0 <==> a <= b
  {
    Beside(l, a, b);
  }

  // ----- Phase nodes

  predicate Inside(l: Layout, col: nat, x: real, y: real)
    requires Valid(l) && col < |l.phases|
  {
    NodeX(l, col) < x < NodeX(l, col) + l.widths[col] && NodeY(l, col) < y < NodeY(l, col) + l.heights[col]
  }

  ghost predicate RunsThrough(l: Layout, p: Path, col: nat)
    requires Valid(l) && col < |l.phases|
  {
    exists x, y :: On(p, x, y) && Inside(l, col, x, y)
  }

  /** A recycle edge runs through a phase node exactly when the node lies left of its target,
      the approach does not, and the handle is above the node's lower side. */
  lemma RunsThroughExactly(l: Layout, target: string, routes: seq<Route>, i: nat, col: nat)
    requires Valid(l) && Routed(l, target, routes) && i < |routes| && col < |l.phases|
    ensures var p := PathOf(l, |routes|, routes[i]);
            RunsThrough(l, p, col)
            <==> && col < routes[i].targetCol && p.approachX < NodeX(l, col) + l.widths[col]
                 && p.targetY < NodeY(l, col) + l.heights[col]
  {
    var r, p := routes[i], PathOf(l, |routes|, routes[i]);
    hide On, PathOf;
    PathShape(l, target, routes, i);
    Beside(l, r.targetCol, col);
    Beside(l, r.sourceCol, col);
    BelowTop(l, target, routes, i, col);
    NodeBottom(l, col);
    PathAndBox(p, NodeX(l, col), NodeX(l, col) + l.widths[col], NodeY(l, col), NodeY(l, col) + l.heights[col]);
  }

  lemma NodeBottom(l: Layout, col: nat)
    requires Valid(l) && col < |l.phases|
    ensures NodeY(l, col) + l.heights[col] <= PHASE_Y + MaxHeight(l.heights)
  {}

  lemma BelowTop(l: Layout, target: string, routes: seq<Route>, i: nat, col: nat)
    requires Valid(l) && Routed(l, target, routes) && i < |routes| && col < |l.phases|
    ensures var p := PathOf(l, |routes|, routes[i]);
            && NodeY(l, col) < p.targetY && p.laneY > PHASE_Y + MaxHeight(l.heights)
            && p.sourceY == NodeY(l, routes[i].sourceCol) + l.heights[routes[i].sourceCol]
  {
    var p := PathOf(l, |routes|, routes[i]);
    RecycleBelowMiddle(l, target, routes, i, p.targetX, p.targetY);
    PathShape(l, target, routes, i);
  }

  lemma PathAndBox(p: Path, left: real, right: real, top: real, bottom: real)
    requires left < right && top < p.targetY < p.laneY && bottom < p.laneY && p.approachX < p.targetX
    requires right < p.targetX || p.targetX <= left
    requires p.sourceX <= left || right <= p.sourceX || bottom <= p.sourceY <= p.laneY
    ensures (exists x, y :: On(p, x, y) && left < x < right && top < y < bottom)
       <==> right < p.targetX && p.approachX < right && p.targetY < bottom
  {
    if right < p.targetX && p.approachX < right && p.targetY < bottom {
      var x := (Max(left, p.approachX) + right) / 2.0;
      assert On(p, x, p.targetY) && left < x < right;
    }
  }

  /** The first three edges into a phase run through no node; the others run through the
      node before the phase, if that is at least as high as the phase's own. */
  lemma FourthEdgeRunsThrough(l: Layout, target: string, routes: seq<Route>, i: nat)
    requires Valid(l) && Routed(l, target, routes) && i < |routes|
    ensures i < 3 ==> forall col: nat | col < |l.phases| :: !RunsThrough(l, PathOf(l, |routes|, routes[i]), col)
    ensures var t := routes[i].targetCol;
            i >= 3 && t > 0 && l.heights[t] <= l.heights[t - 1] ==> RunsThrough(l, PathOf(l, |routes|, routes[i]), t - 1)
  {
    hide RunsThrough;
    var t := routes[i].targetCol;
    forall col: nat | col < |l.phases| && i < 3
      ensures !RunsThrough(l, PathOf(l, |routes|, routes[i]), col)
    {
      RunsThroughExactly(l, target, routes, i, col);
      if col < t { ColumnsApart(l.widths, LeftGutter(l), col, t); }
    }
    if i >= 3 && t > 0 && l.heights[t] <= l.heights[t - 1] {
      RunsThroughExactly(l, target, routes, i, t - 1);
      SlotPercent(l, target, routes, i);
      HandlesBelow(NodeY(l, t), l.heights[t], RecycleHandleTopPercent(routes[i].slot, |routes|), 100.0);
    }
  }
}
