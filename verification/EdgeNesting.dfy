/** The routes of recycle and entry edges: which of them meet, and how much room they
    leave. */
module EdgeNesting {
  import opened EdgeRouting

  // ----- The shape of a route

  /** Where the parts of a path lie, whatever its route. */
  lemma PathShape(l: Layout, target: string, routes: seq<Route>, i: nat)
    requires Valid(l) && Routed(l, target, routes) && i < |routes|
    ensures Shaped(l, routes[i], PathOf(l, |routes|, routes[i]))
  {
    PathToShape(l, routes[i], RecycleHandleTopPercent(routes[i].slot, |routes|));
  }

  predicate Shaped(l: Layout, r: Route, p: Path)
    requires Valid(l) && 0 <= r.sourceCol < |l.phases| && 0 <= r.targetCol < |l.phases|
  {
    && p.approachX < p.targetX && p.sourceY < p.laneY && p.targetY < p.laneY
    && p.sourceX == NodeX(l, r.sourceCol) + l.widths[r.sourceCol] / 2.0
    && p.sourceY <= PHASE_Y + MaxHeight(l.heights) && p.targetY <= PHASE_Y + MaxHeight(l.heights)
  }

  lemma PathToShape(l: Layout, r: Route, percent: real)
    requires Valid(l) && 0 <= r.sourceCol < |l.phases| && 0 <= r.targetCol < |l.phases|
    requires 54.0 <= percent <= 86.0
    ensures Shaped(l, r, PathTo(l, r, percent))
  {
    HandleWithin(NodeY(l, r.targetCol), l.heights[r.targetCol], percent);
    assert r.lane as real >= 0.0;
  }

  /** Between two routes: lanes, approaches and target handles are staggered. */
  lemma Staggered(l: Layout, target: string, routes: seq<Route>, i: nat, j: nat)
    requires Valid(l) && Routed(l, target, routes) && i < j < |routes|
    ensures var p, q := PathOf(l, |routes|, routes[i]), PathOf(l, |routes|, routes[j]);
            p.laneY < q.laneY && q.approachX < p.approachX && q.targetY < p.targetY && p.targetX == q.targetX
  {
    var n := |routes|;
    HandlesAreOrdered(n - 1 - j, n - 1 - i, n);
    StaggeredTo(l, routes[i], routes[j], RecycleHandleTopPercent(n - 1 - i, n), RecycleHandleTopPercent(n - 1 - j, n));
  }

  lemma StaggeredTo(l: Layout, r: Route, s: Route, a: real, b: real)
    requires Valid(l) && 0 <= r.sourceCol < |l.phases| && 0 <= s.sourceCol < |l.phases|
    requires 0 <= r.targetCol < |l.phases| && r.targetCol == s.targetCol && r.lane < s.lane && b < a
    ensures var p, q := PathTo(l, r, a), PathTo(l, s, b);
            p.laneY < q.laneY && q.approachX < p.approachX && q.targetY < p.targetY && p.targetX == q.targetX
  {
    HandlesBelow(NodeY(l, r.targetCol), l.heights[r.targetCol], b, a);
  }

  /** Recycle edges into one phase, from different phases at or right of it, never
      meet: sorting by source and reversing the slots nests their paths. */
  lemma RecycleEdgesNest(l: Layout, target: string, routes: seq<Route>, i: nat, j: nat)
    requires Valid(l) && Routed(l, target, routes) && i < j < |routes|
    requires routes[i].targetCol <= routes[i].sourceCol < routes[j].sourceCol
    ensures !Cross(PathOf(l, |routes|, routes[i]), PathOf(l, |routes|, routes[j]))
  {
    var p, q := PathOf(l, |routes|, routes[i]), PathOf(l, |routes|, routes[j]);
    PathShape(l, target, routes, i);
    PathShape(l, target, routes, j);
    Staggered(l, target, routes, i, j);
    ColumnsApart(l.widths, LeftGutter(l), routes[i].sourceCol, routes[j].sourceCol);
    if routes[i].targetCol < routes[i].sourceCol {
      ColumnsApart(l.widths, LeftGutter(l), routes[i].targetCol, routes[i].sourceCol);
    }
    AroundApart(p, q);
  }

  /** Edges from one phase share their first part; so, among sources at or right of
      the target, the paths stay apart exactly when the sources differ. */
  lemma ApartIffSourcesDiffer(l: Layout, target: string, routes: seq<Route>, i: nat, j: nat)
    requires Valid(l) && Routed(l, target, routes) && i < j < |routes|
    requires routes[i].targetCol <= routes[i].sourceCol
    ensures !Cross(PathOf(l, |routes|, routes[i]), PathOf(l, |routes|, routes[j]))
       <==> routes[i].sourceCol != routes[j].sourceCol
  {
    if routes[i].sourceCol < routes[j].sourceCol {
      RecycleEdgesNest(l, target, routes, i, j);
    } else {
      var p := PathOf(l, |routes|, routes[i]);
      assert On(p, p.sourceX, p.sourceY);
      assert On(PathOf(l, |routes|, routes[j]), p.sourceX, p.sourceY);
    }
  }

  /** Up to eight lanes, the approaches stay right of the centre of the column before
      the target. There an edge from a source left of the target always meets the
      edges from sources further right: nesting needs sources at or right of it. */
  lemma ApartIffNested(l: Layout, target: string, routes: seq<Route>, i: nat, j: nat)
    requires Valid(l) && Routed(l, target, routes) && i < j < |routes| && j < 8
    ensures !Cross(PathOf(l, |routes|, routes[i]), PathOf(l, |routes|, routes[j]))
       <==> routes[i].targetCol <= routes[i].sourceCol < routes[j].sourceCol
  {
    if routes[i].targetCol <= routes[i].sourceCol {
      ApartIffSourcesDiffer(l, target, routes, i, j);
    } else {
      LeftSourceMeets(l, target, routes, i, j);
    }
  }

  lemma LeftSourceMeets(l: Layout, target: string, routes: seq<Route>, i: nat, j: nat)
    requires Valid(l) && Routed(l, target, routes) && i < j < |routes| && j < 8
    requires routes[i].sourceCol < routes[i].targetCol
    ensures Cross(PathOf(l, |routes|, routes[i]), PathOf(l, |routes|, routes[j]))
  {
    var p, q := PathOf(l, |routes|, routes[i]), PathOf(l, |routes|, routes[j]);
    var c, d, t := routes[i].sourceCol, routes[j].sourceCol, routes[i].targetCol;
    PathShape(l, target, routes, i);
    PathShape(l, target, routes, j);
    Staggered(l, target, routes, i, j);
    ColumnsApart(l.widths, LeftGutter(l), c, t);
    if d < t {
      ColumnsApart(l.widths, LeftGutter(l), d, t);
      if c < d { ColumnsApart(l.widths, LeftGutter(l), c, d); }
      assert On(p, q.sourceX, p.laneY) && On(q, q.sourceX, p.laneY);
    } else {
      assert On(p, q.approachX, p.laneY) && On(q, q.approachX, p.laneY);
    }
  }

  // ----- Sources left of the target

  /** Two staggered paths, the inner one from the left of the target, the outer one from
      further right. */
  predicate FromLeft(p: Path, q: Path) {
    && p.laneY < q.laneY && q.approachX < p.approachX < p.targetX == q.targetX && q.targetY < p.targetY < p.laneY
    && p.sourceY < p.laneY && q.sourceY < p.laneY && p.sourceX < q.sourceX && p.sourceX < p.targetX
  }

  /** They thread through each other: both sources lie right of the other's approach, and
      a source left of the target below the other's handle. */
  predicate Threads(p: Path, q: Path) {
    && q.approachX < p.sourceX && q.targetY < p.sourceY
    && p.approachX < q.sourceX && (q.sourceX <= q.targetX ==> p.targetY < q.sourceY)
  }

  lemma ThreadingApart(p: Path, q: Path)
    requires FromLeft(p, q) && Threads(p, q)
    ensures !Cross(p, q)
  {}

  /** Where two paths that do not thread meet. */
  lemma MeetingPoint(p: Path, q: Path) returns (x: real, y: real)
    requires FromLeft(p, q) && !Threads(p, q)
    ensures On(p, x, y) && On(q, x, y)
  {
    if p.sourceX <= q.approachX {
      x, y := q.approachX, p.laneY;
    } else if p.sourceY <= q.targetY {
      x, y := p.sourceX, q.targetY;
    } else if q.sourceX <= p.approachX {
      x, y := q.sourceX, p.laneY;
    } else {
      x, y := q.sourceX, p.targetY;
    }
  }

  /** For any number of lanes: two edges into a phase stay apart exactly when their sources
      differ and, if the inner one comes from the left, they thread through each other. */
  lemma ApartExactly(l: Layout, target: string, routes: seq<Route>, i: nat, j: nat)
    requires Valid(l) && Routed(l, target, routes) && i < j < |routes|
    ensures var p, q := PathOf(l, |routes|, routes[i]), PathOf(l, |routes|, routes[j]);
            !Cross(p, q)
            <==> routes[i].sourceCol != routes[j].sourceCol && (routes[i].sourceCol < routes[i].targetCol ==> Threads(p, q))
  {
    hide Cross, On;
    var p, q := PathOf(l, |routes|, routes[i]), PathOf(l, |routes|, routes[j]);
    var c, d, t := routes[i].sourceCol, routes[j].sourceCol, routes[i].targetCol;
    if t <= c {
      ApartIffSourcesDiffer(l, target, routes, i, j);
    } else if c == d {
      Meets(p, q, p.sourceX, p.sourceY) by { StartsThere(p); StartsThere(q); }
    } else {
      PathShape(l, target, routes, i);
      PathShape(l, target, routes, j);
      Staggered(l, target, routes, i, j);
      ColumnsApart(l.widths, LeftGutter(l), c, t);
      ColumnsApart(l.widths, LeftGutter(l), c, d);
      if Threads(p, q) {
        ThreadingApart(p, q);
      } else {
        var x, y := MeetingPoint(p, q);
        Meets(p, q, x, y);
      }
    }
  }

  lemma StartsThere(p: Path)
    ensures On(p, p.sourceX, p.sourceY)
  {}

  lemma Meets(p: Path, q: Path, x: real, y: real)
    requires On(p, x, y) && On(q, x, y)
    ensures Cross(p, q)
  {}

  // ----- Room for the lanes

  /** Every lane keeps its padding above the lower edge of the graph. */
  lemma LanesFitBelow(l: Layout, target: string, routes: seq<Route>, i: nat)
    requires Valid(l) && Routed(l, target, routes) && i < |routes|
    ensures PathOf(l, |routes|, routes[i]).laneY + RECYCLE_LANE_BOTTOM_PADDING <= GraphHeight(l)
  {
    hide Into, Column;
    ColumnIs(l.phases, target);
    var c := routes[i].targetCol;
    assert c == Column(l.phases, target) && l.phases[c] == target;
    assert |Into(l.phases, l.arrows, l.phases[c])| == |routes| <= MaxLanes(l, |l.phases|);
  }

  /** Approaches to the first column stay right of the graph's edge. */
  lemma FirstColumnApproachesFit(l: Layout, target: string, routes: seq<Route>, i: nat)
    requires Valid(l) && Routed(l, target, routes) && i < |routes| && Column(l.phases, target) == 0
    ensures PathOf(l, |routes|, routes[i]).approachX >= RECYCLE_FIRST_COLUMN_GUTTER - RECYCLE_APPROACH_OFFSET > 0.0
  {
    ColumnIs(l.phases, target);
    assert i <= |routes| - 1;
  }

  /** Where a route runs: from the middle of the lower side of its source, on its lane, the
      first of which is 24 pixels below the highest node and the others 24 apart, up its
      approach, the first of which is 30 pixels left of the target and the others 16 apart. */
  lemma RouteStands(l: Layout, target: string, routes: seq<Route>, i: nat)
    requires Valid(l) && Routed(l, target, routes) && i < |routes|
    ensures var p, r := PathOf(l, |routes|, routes[i]), routes[i];
            && p.sourceX == NodeX(l, r.sourceCol) + l.widths[r.sourceCol] / 2.0
            && p.sourceY == NodeY(l, r.sourceCol) + l.heights[r.sourceCol]
            && p.laneY == PHASE_Y + MaxHeight(l.heights) + 24.0 + 24.0 * i as real
            && p.approachX == p.targetX - 30.0 - 16.0 * i as real && p.targetX == NodeX(l, r.targetCol)
  {}

  /** The graph is as high as the phase with the most lanes needs, and not higher. */
  lemma DeepestLane(l: Layout, target: string, routes: seq<Route>)
    requires Valid(l) && Routed(l, target, routes) && routes != []
    requires forall i | 0 <= i < |l.phases| :: |Into(l.phases, l.arrows, l.phases[i])| <= |routes|
    ensures PathOf(l, |routes|, routes[|routes| - 1]).laneY + RECYCLE_LANE_BOTTOM_PADDING == GraphHeight(l)
  {
    hide Into, Column;
    ColumnIs(l.phases, target);
    var c := routes[0].targetCol;
    assert c == Column(l.phases, target) && l.phases[c] == target;
    assert |Into(l.phases, l.arrows, l.phases[c])| == |routes|;
    assert MaxLanes(l, |l.phases|) == |routes|;
    RouteStands(l, target, routes, |routes| - 1);
  }

  /** The gutter has room for the entry edges, if there are any, and for the approaches to the
      first column; without entry edges the outermost of these is 42 pixels from the edge. */
  lemma GutterFits(l: Layout, target: string, routes: seq<Route>)
    requires Valid(l) && Routed(l, target, routes) && routes != [] && Column(l.phases, target) == 0
    ensures (exists e :: e in l.entries && e in l.phases) ==> LeftGutter(l) >= ENTRY_LEFT_GUTTER
    ensures (exists e :: e in l.entries && e in l.phases) || PathOf(l, |routes|, routes[|routes| - 1]).approachX == 42.0
  {
    ColumnIs(l.phases, target);
    RouteStands(l, target, routes, |routes| - 1);
  }

  /** Where the entry edge turns: left of the outermost approach, if there is room. */
  function EntryBendX(sourceX: real, targetX: real, recycleTargets: nat): real {
    var outerLane := if recycleTargets > 1 then recycleTargets - 1 else 0;
    var outerApproachX := targetX - RECYCLE_APPROACH_OFFSET - outerLane as real * RECYCLE_APPROACH_STAGGER;
    Max(sourceX, outerApproachX - RECYCLE_APPROACH_STAGGER)
  }

  /** The entry edge turns left of every approach exactly when the outermost approach
      lies right of the entry's source. */
  lemma EntryBendsOutside(l: Layout, target: string, routes: seq<Route>, sourceX: real)
    requires Valid(l) && Routed(l, target, routes) && routes != []
    ensures var bend := EntryBendX(sourceX, NodeX(l, routes[0].targetCol), |routes|);
            var outer := PathOf(l, |routes|, routes[|routes| - 1]).approachX;
            (forall i | 0 <= i < |routes| :: bend < PathOf(l, |routes|, routes[i]).approachX) <==> sourceX < outer
  {
    var n := |routes| - 1;
    forall i | 0 <= i < |routes|
      ensures PathOf(l, |routes|, routes[n]).approachX <= PathOf(l, |routes|, routes[i]).approachX
    {
      if i < n { Staggered(l, target, routes, i, n); }
    }
  }

  /** It turns 16 pixels left of the outermost approach, but not left of its source. */
  lemma EntryBendStands(l: Layout, target: string, routes: seq<Route>, sourceX: real)
    requires Valid(l) && Routed(l, target, routes) && routes != []
    ensures var outer := PathOf(l, |routes|, routes[|routes| - 1]).approachX;
            EntryBendX(sourceX, NodeX(l, routes[0].targetCol), |routes|) == if sourceX < outer - 16.0 then outer - 16.0 else sourceX
  {
    RouteStands(l, target, routes, |routes| - 1);
  }

  /** In the first column there always is room, and the bend is right of the edge. */
  lemma FirstColumnEntryFits(l: Layout, target: string, routes: seq<Route>)
    requires Valid(l) && Routed(l, target, routes) && routes != [] && Column(l.phases, target) == 0
    ensures var bend := EntryBendX(HANDLE_SIZE, NodeX(l, 0), |routes|);
            0.0 < bend && forall i | 0 <= i < |routes| :: bend < PathOf(l, |routes|, routes[i]).approachX
  {
    EntryBendsOutside(l, target, routes, HANDLE_SIZE);
    FirstColumnApproachesFit(l, target, routes, |routes| - 1);
  }
}
