/** The layout of the phase graph: columns of phases, and recycle edges routed below
    them and back up to the left of their target. Paths are taken without their
    rounded corners. */
module EdgeRouting {
  import opened Selections

  const PHASE_WIDTH := 172.0
  const PHASE_X_GAP := 64.0
  const PHASE_Y := 12.0
  const JOB_HEIGHT := 70.0
  const PHASE_BASE_HEIGHT := 60.0
  const HANDLE_SIZE := 1.0
  const ADVANCE_HANDLE_WITH_RECYCLE_PERCENT := 34.0
  const RECYCLE_HANDLE_START_PERCENT := 54.0
  const RECYCLE_HANDLE_END_PERCENT := 86.0
  const RECYCLE_LANE_TOP_OFFSET := 24.0
  const RECYCLE_LANE_GAP := 24.0
  const RECYCLE_LANE_BOTTOM_PADDING := 42.0
  const RECYCLE_APPROACH_OFFSET := 30.0
  const RECYCLE_APPROACH_STAGGER := 16.0
  const RECYCLE_FIRST_COLUMN_GUTTER := 72.0
  const ENTRY_LEFT_GUTTER := 156.0

  datatype Arrow = Arrow(source: string, target: string, trigger: string)

  /** Phase names, one column each, with their measured or estimated sizes; the
      recycle arrows and the targets of the entry arrows. */
  datatype Layout = Layout(phases: seq<string>, widths: seq<real>, heights: seq<real>, arrows: seq<Arrow>, entries: seq<string>)

  /** Sizes are never below their estimates. */
  predicate Valid(l: Layout) {
    && |l.widths| == |l.phases| == |l.heights|
    && (forall i | 0 <= i < |l.widths| :: l.widths[i] >= PHASE_WIDTH)
    && (forall i | 0 <= i < |l.heights| :: l.heights[i] >= PHASE_BASE_HEIGHT + JOB_HEIGHT)
  }

  // ----- Columns

  /** The column of a phase; of two phases with one name the later counts. */
  function Column(phases: seq<string>, name: string): int {
    if phases == [] then -1
    else if phases[|phases| - 1] == name then |phases| - 1
    else Column(phases[..|phases| - 1], name)
  }

  lemma {:induction false} ColumnIs(phases: seq<string>, name: string)
    ensures var c := Column(phases, name);
            && -1 <= c < |phases| && (c >= 0 ==> phases[c] == name)
            && (c == -1 <==> name !in phases)
            && forall j | c < j < |phases| :: phases[j] != name
  {
    if phases != [] && phases[|phases| - 1] != name {
      ColumnIs(phases[..|phases| - 1], name);
    }
  }

  function XPosition(widths: seq<real>, gutter: real, i: nat): real
    requires i <= |widths|
  {
    if i == 0 then gutter else XPosition(widths, gutter, i - 1) + (widths[i - 1] + PHASE_X_GAP)
  }

  method PhaseXPositions(widths: seq<real>, leftGutter: real) returns (out: seq<real>)
    ensures |out| == |widths| && forall i | 0 <= i < |out| :: out[i] == XPosition(widths, leftGutter, i)
    ensures out != [] ==> out[0] == leftGutter
    ensures forall i | 0 <= i < |out| - 1 :: out[i + 1] == out[i] + widths[i] + PHASE_X_GAP
  {
    out := [];
    var x := leftGutter;
    for i := 0 to |widths|
      invariant |out| == i && x == XPosition(widths, leftGutter, i)
      invariant forall k | 0 <= k < i :: out[k] == XPosition(widths, leftGutter, k)
    {
      out := out + [x];
      x := x + (widths[i] + PHASE_X_GAP);
    }
  }

  /** Columns do not overlap: each starts a gap to the right of the one before. */
  lemma {:induction false} ColumnsApart(widths: seq<real>, gutter: real, i: nat, j: nat)
    requires i < j < |widths| && forall k | 0 <= k < |widths| :: widths[k] >= PHASE_WIDTH
    ensures XPosition(widths, gutter, i) + widths[i] + PHASE_X_GAP <= XPosition(widths, gutter, j)
    decreases j
  {
    if i + 1 < j {
      ColumnsApart(widths, gutter, i, j - 1);
    }
  }

  // ----- Lanes and slots

  predicate Visible(phases: seq<string>, a: Arrow) {
    a.source in phases && a.target in phases
  }

  /** The visible arrows into a phase, in the order given. */
  function Into(phases: seq<string>, arrows: seq<Arrow>, target: string): (r: seq<Arrow>)
    ensures |r| <= |arrows| && forall a | a in r :: Visible(phases, a) && a.target == target
  {
    if arrows == [] then []
    else
      var a, rest := arrows[0], Into(phases, arrows[1..], target);
      if Visible(phases, a) && a.target == target then [a] + rest else rest
  }

  /** They are the arrows that lead from a phase to this one, each as often as it is given. */
  lemma {:induction false} IntoAre(phases: seq<string>, arrows: seq<Arrow>, target: string) returns (at: seq<nat>)
    ensures Picked(arrows, Into(phases, arrows, target), at)
    ensures forall i | 0 <= i < |arrows| :: i in at <==> arrows[i].source in phases && target in phases && arrows[i].target == target
  {
    hide Picked;
    if arrows == [] {
      at := [];
      NonePicked<Arrow>();
    } else {
      var a, rest := arrows[0], arrows[1..];
      var before := IntoAre(phases, rest, target);
      at := PickFront(a, rest, Into(phases, rest, target), before, Visible(phases, a) && a.target == target);
      assert arrows == [a] + rest;
    }
  }

  /** Array.sort with a comparator on source columns: a stable sort. */
  function Insert(phases: seq<string>, a: Arrow, sorted: seq<Arrow>): seq<Arrow> {
    if sorted == [] || Column(phases, a.source) < Column(phases, sorted[0].source) then [a] + sorted
    else [sorted[0]] + Insert(phases, a, sorted[1..])
  }

  function SortBySource(phases: seq<string>, arrows: seq<Arrow>): seq<Arrow> {
    if arrows == [] then []
    else Insert(phases, arrows[|arrows| - 1], SortBySource(phases, arrows[..|arrows| - 1]))
  }

  predicate Sorted(phases: seq<string>, arrows: seq<Arrow>) {
    forall i, j | 0 <= i < j < |arrows| :: Column(phases, arrows[i].source) <= Column(phases, arrows[j].source)
  }

  lemma {:induction false} InsertKeeps(phases: seq<string>, a: Arrow, sorted: seq<Arrow>)
    ensures multiset(Insert(phases, a, sorted)) == multiset{a} + multiset(sorted)
  {
    if sorted != [] && Column(phases, a.source) >= Column(phases, sorted[0].source) {
      InsertKeeps(phases, a, sorted[1..]);
      assert sorted == [sorted[0]] + sorted[1..];
    }
  }

  lemma {:induction false} InsertSorts(phases: seq<string>, a: Arrow, sorted: seq<Arrow>)
    requires Sorted(phases, sorted)
    ensures Sorted(phases, Insert(phases, a, sorted))
  {
    if sorted != [] && Column(phases, a.source) >= Column(phases, sorted[0].source) {
      InsertSorts(phases, a, sorted[1..]);
      HeadIsLeast(phases, a, sorted);
    }
  }

  lemma HeadIsLeast(phases: seq<string>, a: Arrow, sorted: seq<Arrow>)
    requires sorted != [] && Sorted(phases, sorted) && Column(phases, a.source) >= Column(phases, sorted[0].source)
    ensures forall i | 0 <= i < |Insert(phases, a, sorted[1..])| ::
              Column(phases, sorted[0].source) <= Column(phases, Insert(phases, a, sorted[1..])[i].source)
  {
    var rest := Insert(phases, a, sorted[1..]);
    InsertKeeps(phases, a, sorted[1..]);
    forall i | 0 <= i < |rest|
      ensures Column(phases, sorted[0].source) <= Column(phases, rest[i].source)
    {
      assert rest[i] in multiset(rest);
      if rest[i] != a {
        assert rest[i] in sorted[1..];
      }
    }
  }

  lemma {:induction false} SortSorts(phases: seq<string>, arrows: seq<Arrow>)
    ensures Sorted(phases, SortBySource(phases, arrows))
    ensures multiset(SortBySource(phases, arrows)) == multiset(arrows)
  {
    if arrows != [] {
      var front, last := arrows[..|arrows| - 1], arrows[|arrows| - 1];
      SortSorts(phases, front);
      InsertSorts(phases, last, SortBySource(phases, front));
      InsertKeeps(phases, last, SortBySource(phases, front));
      assert arrows == front + [last];
    }
  }

  /** The arrows from one column, in order. */
  function FromColumn(phases: seq<string>, arrows: seq<Arrow>, col: int): seq<Arrow> {
    if arrows == [] then []
    else FromColumn(phases, arrows[..|arrows| - 1], col)
         + if Column(phases, arrows[|arrows| - 1].source) == col then [arrows[|arrows| - 1]] else []
  }

  lemma {:induction false} FromColumnCons(phases: seq<string>, a: Arrow, arrows: seq<Arrow>, col: int)
    ensures FromColumn(phases, [a] + arrows, col) == (if Column(phases, a.source) == col then [a] else []) + FromColumn(phases, arrows, col)
    decreases |arrows|
  {
    var all := [a] + arrows;
    if arrows == [] {
      assert all[..0] == [];
    } else {
      var front := arrows[..|arrows| - 1];
      assert all[..|all| - 1] == [a] + front && all[|all| - 1] == arrows[|arrows| - 1];
      FromColumnCons(phases, a, front, col);
    }
  }

  lemma {:induction false} NoneFromColumn(phases: seq<string>, arrows: seq<Arrow>, col: int)
    requires forall i | 0 <= i < |arrows| :: Column(phases, arrows[i].source) != col
    ensures FromColumn(phases, arrows, col) == []
    decreases |arrows|
  {
    if arrows != [] {
      NoneFromColumn(phases, arrows[..|arrows| - 1], col);
    }
  }

  lemma InsertedInFront(phases: seq<string>, a: Arrow, sorted: seq<Arrow>, col: int)
    requires Sorted(phases, sorted) && (sorted == [] || Column(phases, a.source) < Column(phases, sorted[0].source))
    ensures FromColumn(phases, [a] + sorted, col) == FromColumn(phases, sorted, col) + if Column(phases, a.source) == col then [a] else []
  {
    hide Column;
    FromColumnCons(phases, a, sorted, col);
    if Column(phases, a.source) == col {
      NoneFromColumn(phases, sorted, col);
    }
  }

  lemma InsertedBehind(phases: seq<string>, s: Arrow, rest: seq<Arrow>, inserted: seq<Arrow>, one: seq<Arrow>, col: int)
    requires FromColumn(phases, inserted, col) == FromColumn(phases, rest, col) + one
    ensures FromColumn(phases, [s] + inserted, col) == FromColumn(phases, [s] + rest, col) + one
  {
    hide Column, FromColumn;
    FromColumnCons(phases, s, rest, col);
    FromColumnCons(phases, s, inserted, col);
  }

  lemma {:induction false} InsertIsStable(phases: seq<string>, a: Arrow, sorted: seq<Arrow>, col: int)
    requires Sorted(phases, sorted)
    ensures FromColumn(phases, Insert(phases, a, sorted), col)
         == FromColumn(phases, sorted, col) + if Column(phases, a.source) == col then [a] else []
    decreases |sorted|
  {
    hide FromColumn, Column;
    if sorted == [] || Column(phases, a.source) < Column(phases, sorted[0].source) {
      InsertedInFront(phases, a, sorted, col);
    } else {
      var s, rest := sorted[0], sorted[1..];
      assert sorted == [s] + rest;
      InsertIsStable(phases, a, rest, col);
      InsertedBehind(phases, s, rest, Insert(phases, a, rest), if Column(phases, a.source) == col then [a] else [], col);
    }
  }

  /** Arrows from one column keep the order in which they are given. */
  lemma {:induction false} SortIsStable(phases: seq<string>, arrows: seq<Arrow>, col: int)
    ensures FromColumn(phases, SortBySource(phases, arrows), col) == FromColumn(phases, arrows, col)
    decreases |arrows|
  {
    if arrows != [] {
      var front := arrows[..|arrows| - 1];
      SortIsStable(phases, front, col);
      SortSorts(phases, front);
      InsertIsStable(phases, arrows[|arrows| - 1], SortBySource(phases, front), col);
    }
  }

  /** A routed recycle edge: its arrow, its columns, its lane below the graph and its
      handle slot on the target. */
  datatype Route = Route(arrow: Arrow, sourceCol: int, targetCol: int, lane: nat, slot: nat)

  function RouteOf(phases: seq<string>, sorted: seq<Arrow>, i: nat): Route
    requires i < |sorted|
  {
    Route(sorted[i], Column(phases, sorted[i].source), Column(phases, sorted[i].target), i, |sorted| - 1 - i)
  }

  method RecycleRoutes(phases: seq<string>, arrows: seq<Arrow>, target: string) returns (routes: seq<Route>)
    ensures var sorted := SortBySource(phases, Into(phases, arrows, target));
            |routes| == |sorted| && forall i | 0 <= i < |routes| :: routes[i] == RouteOf(phases, sorted, i)
  {
    var ordered := SortBySource(phases, Into(phases, arrows, target));
    routes := [];
    for idx := 0 to |ordered|
      invariant |routes| == idx
      invariant forall i | 0 <= i < idx :: routes[i] == RouteOf(phases, ordered, i)
    {
      var arrow := ordered[idx];
      var slot := if |ordered| - 1 - idx > 0 then |ordered| - 1 - idx else 0;
      routes := routes + [Route(arrow, Column(phases, arrow.source), Column(phases, arrow.target), idx, slot)];
    }
  }

  /** The routes into a target, as the theorems below need them: one per arrow, by
      source column, with the target slots used once each. */
  ghost predicate Routed(l: Layout, target: string, routes: seq<Route>) {
    && |routes| == |Into(l.phases, l.arrows, target)|
    && (forall i | 0 <= i < |routes| ::
          && routes[i].lane == i && routes[i].slot == |routes| - 1 - i
          && routes[i].targetCol == Column(l.phases, target) && 0 <= routes[i].targetCol < |l.phases|
          && routes[i].sourceCol == Column(l.phases, routes[i].arrow.source) && 0 <= routes[i].sourceCol < |l.phases|)
    && (forall i, j | 0 <= i < j < |routes| :: routes[i].sourceCol <= routes[j].sourceCol)
  }

  lemma RoutesAreRouted(l: Layout, target: string, routes: seq<Route>)
    requires var sorted := SortBySource(l.phases, Into(l.phases, l.arrows, target));
             |routes| == |sorted| && forall i | 0 <= i < |routes| :: routes[i] == RouteOf(l.phases, sorted, i)
    ensures Routed(l, target, routes)
    ensures multiset(seq(|routes|, i requires 0 <= i < |routes| => routes[i].arrow)) == multiset(Into(l.phases, l.arrows, target))
  {
    hide SortBySource, Column;
    var into := Into(l.phases, l.arrows, target);
    var sorted := SortBySource(l.phases, into);
    SortSorts(l.phases, into);
    assert |sorted| == |multiset(sorted)| == |multiset(into)| == |into|;
    assert seq(|routes|, i requires 0 <= i < |routes| => routes[i].arrow) == sorted;
    ColumnIs(l.phases, target);
    forall i | 0 <= i < |sorted|
      ensures sorted[i] in into && 0 <= Column(l.phases, sorted[i].source) < |l.phases|
    {
      assert sorted[i] in multiset(sorted);
      ColumnIs(l.phases, sorted[i].source);
    }
  }

  // ----- Handles

  function Min(a: real, b: real): real { if a <= b then a else b }
  function Max(a: real, b: real): real { if a >= b then a else b }

  function AdvanceHandlePercent(recycleTargets: nat): real {
    if recycleTargets > 0 then ADVANCE_HANDLE_WITH_RECYCLE_PERCENT else 50.0
  }

  function RecycleHandleTopPercent(index: nat, count: nat): real {
    if count <= 1 then 60.0
    else
      var usableRange := RECYCLE_HANDLE_END_PERCENT - RECYCLE_HANDLE_START_PERCENT;
      var step := Min(16.0, usableRange / (count - 1) as real);
      RECYCLE_HANDLE_START_PERCENT + index as real * step
  }

  /** How many recycle-in handles a phase node has. */
  function HandleCount(recycleTargets: nat): nat {
    if recycleTargets > 1 then recycleTargets else 1
  }

  /** A phase's recycle handles lie below its advance handle, in the order of their
      slots, and at most at 86 percent of its height. */
  lemma HandlesAreOrdered(i: nat, j: nat, count: nat)
    requires i <= j < count
    ensures AdvanceHandlePercent(count) < RecycleHandleTopPercent(i, count)
    ensures i < j ==> RecycleHandleTopPercent(i, count) < RecycleHandleTopPercent(j, count)
    ensures RecycleHandleTopPercent(j, count) <= RECYCLE_HANDLE_END_PERCENT
  {
    if count > 1 {
      var n := (count - 1) as real;
      var step := Min(16.0, 32.0 / n);
      assert 0.0 < step;
      assert n * step <= 32.0 by {
        assert n * (32.0 / n) == 32.0;
        Scale(n, step, 32.0 / n);
      }
      Scale(step, i as real, j as real);
      Scale(step, j as real, n);
      assert 0.0 <= i as real * step by { Scale(step, 0.0, i as real); }
      if i < j {
        assert (i as real + 1.0) * step <= j as real * step by { Scale(step, i as real + 1.0, j as real); }
      }
    }
  }

  lemma Spacing(n: real)
    requires n >= 1.0
    ensures n * (32.0 / n) == 32.0
    ensures if n <= 2.0 then 32.0 / n >= 16.0 else 32.0 / n <= 16.0
  {
    var q := 32.0 / n;
    assert n * q == 32.0;
    if n <= 2.0 { Scale(q, n, 2.0); } else { Scale(q, 2.0, n); }
  }

  /** A single handle stands at 60 percent; of several the first stands at 54, and they are 16
      percent apart, or as far as it takes for the last to stand at 86. */
  lemma HandlesAreSpaced(count: nat)
    ensures count <= 1 ==> RecycleHandleTopPercent(0, count) == 60.0
    ensures count > 1 ==> RecycleHandleTopPercent(0, count) == 54.0
    ensures forall i: nat | i + 1 < count ::
              RecycleHandleTopPercent(i + 1, count) - RecycleHandleTopPercent(i, count) == if count <= 3 then 16.0 else 32.0 / (count - 1) as real
    ensures count >= 3 ==> RecycleHandleTopPercent(count - 1, count) == 86.0
  {
    if count > 1 {
      var n := (count - 1) as real;
      var step := Min(16.0, 32.0 / n);
      Spacing(n);
      forall i: nat | i + 1 < count
        ensures RecycleHandleTopPercent(i + 1, count) - RecycleHandleTopPercent(i, count) == step
      {
        assert (i + 1) as real * step == i as real * step + step;
      }
    }
  }

  ghost predicate HasSlot(routes: seq<Route>, h: nat) {
    exists i :: 0 <= i < |routes| && routes[i].slot == h
  }

  /** Each of the target's handles has exactly one of the edges into it. */
  lemma SlotsAreTheHandles(l: Layout, target: string, routes: seq<Route>)
    requires Routed(l, target, routes) && routes != []
    ensures forall i | 0 <= i < |routes| :: routes[i].slot < HandleCount(|routes|)
    ensures forall i, j | 0 <= i < j < |routes| :: routes[i].slot != routes[j].slot
    ensures forall h: nat :: HasSlot(routes, h) <==> h < HandleCount(|routes|)
  {
    forall h: nat | h < HandleCount(|routes|)
      ensures HasSlot(routes, h)
    {
      assert routes[|routes| - 1 - h].slot == h;
    }
  }

  lemma Scale(c: real, a: real, b: real)
    requires c >= 0.0 && a <= b
    ensures a * c <= b * c && c * a <= c * b
  {
    assert 0.0 <= (b - a) * c;
  }

  // ----- Positions

  function MaxHeight(heights: seq<real>): (m: real)
    ensures m >= PHASE_BASE_HEIGHT + JOB_HEIGHT && forall i | 0 <= i < |heights| :: heights[i] <= m
    ensures m == PHASE_BASE_HEIGHT + JOB_HEIGHT || exists i :: 0 <= i < |heights| && heights[i] == m
  {
    if heights == [] then PHASE_BASE_HEIGHT + JOB_HEIGHT
    else Max(heights[0], MaxHeight(heights[1..]))
  }

  /** The most recycle lanes that any phase needs. */
  function MaxLanes(l: Layout, n: nat): (m: nat)
    requires n <= |l.phases|
    ensures forall i | 0 <= i < n :: |Into(l.phases, l.arrows, l.phases[i])| <= m
    ensures m == 0 || exists i :: 0 <= i < n && |Into(l.phases, l.arrows, l.phases[i])| == m
  {
    if n == 0 then 0
    else
      var m, lanes := MaxLanes(l, n - 1), |Into(l.phases, l.arrows, l.phases[n - 1])|;
      if lanes > m then lanes else m
  }

  function LeftGutter(l: Layout): real {
    var lanes := if l.phases == [] then 0 else |Into(l.phases, l.arrows, l.phases[0])|;
    var recycle := if lanes > 0 then RECYCLE_FIRST_COLUMN_GUTTER + (lanes - 1) as real * RECYCLE_APPROACH_STAGGER else 0.0;
    var entry := if exists e :: e in l.entries && e in l.phases then ENTRY_LEFT_GUTTER else 0.0;
    Max(recycle, entry)
  }

  function GraphHeight(l: Layout): real {
    var lanes := MaxLanes(l, |l.phases|);
    var room := if lanes > 0
                then RECYCLE_LANE_TOP_OFFSET + (lanes - 1) as real * RECYCLE_LANE_GAP + RECYCLE_LANE_BOTTOM_PADDING
                else 64.0;
    PHASE_Y + MaxHeight(l.heights) + Max(64.0, room)
  }

  function NodeX(l: Layout, col: nat): real
    requires Valid(l) && col < |l.phases|
  {
    XPosition(l.widths, LeftGutter(l), col)
  }

  function NodeY(l: Layout, col: nat): real
    requires Valid(l) && col < |l.phases|
  {
    PHASE_Y + (MaxHeight(l.heights) - l.heights[col]) / 2.0
  }

  function CenteredHandleOffset(size: real, percent: real): real {
    size * (percent / 100.0) - HANDLE_SIZE / 2.0
  }

  /** The height of a handle's centre on a node's side. */
  function HandleY(top: real, height: real, percent: real): real {
    top + CenteredHandleOffset(height, percent) + HANDLE_SIZE / 2.0
  }

  lemma HandleWithin(top: real, height: real, percent: real)
    requires height > 0.0 && 0.0 <= percent <= 100.0
    ensures top <= HandleY(top, height, percent) <= top + height
  {
    Scale(height, percent / 100.0, 1.0);
    Scale(height, 0.0, percent / 100.0);
  }

  lemma HandlesBelow(top: real, height: real, a: real, b: real)
    requires height > 0.0 && a < b
    ensures HandleY(top, height, a) < HandleY(top, height, b)
  {
    assert 0.0 < (b / 100.0 - a / 100.0) * height;
  }

  /** The corners of a recycle edge: down from the source, left (or right) along the
      lane, up the approach, and right to the handle. */
  datatype Path = Path(sourceX: real, sourceY: real, laneY: real, approachX: real, targetX: real, targetY: real)

  /** The skeleton of a route to a handle at some percentage of the target's height.
      An edge leaves at the centre of its source handle's lower side and arrives at
      the centre of its target handle's left side. */
  function PathTo(l: Layout, r: Route, percent: real): Path
    requires Valid(l) && 0 <= r.sourceCol < |l.phases| && 0 <= r.targetCol < |l.phases|
  {
    var targetX := NodeX(l, r.targetCol);
    var base := PHASE_Y + MaxHeight(l.heights) + RECYCLE_LANE_TOP_OFFSET;
    Path(NodeX(l, r.sourceCol) + CenteredHandleOffset(l.widths[r.sourceCol], 50.0) + HANDLE_SIZE / 2.0,
         NodeY(l, r.sourceCol) + (l.heights[r.sourceCol] - HANDLE_SIZE) + HANDLE_SIZE,
         base + r.lane as real * RECYCLE_LANE_GAP,
         targetX - RECYCLE_APPROACH_OFFSET - r.lane as real * RECYCLE_APPROACH_STAGGER,
         targetX,
         HandleY(NodeY(l, r.targetCol), l.heights[r.targetCol], percent))
  }

  function PathOf(l: Layout, count: nat, r: Route): Path
    requires Valid(l) && 0 <= r.sourceCol < |l.phases| && 0 <= r.targetCol < |l.phases|
  {
    PathTo(l, r, RecycleHandleTopPercent(r.slot, count))
  }

  predicate Between(a: real, x: real, b: real) {
    a <= x <= b || b <= x <= a
  }

  /** The points of a path: its four straight parts. */
  predicate On(p: Path, x: real, y: real) {
    || (x == p.sourceX && Between(p.sourceY, y, p.laneY))
    || (y == p.laneY && Between(p.sourceX, x, p.approachX))
    || (x == p.approachX && Between(p.laneY, y, p.targetY))
    || (y == p.targetY && Between(p.approachX, x, p.targetX))
  }

  ghost predicate Cross(p: Path, q: Path) {
    exists x, y :: On(p, x, y) && On(q, x, y)
  }

  /** q runs around p: further right, lower, further left, and in at a higher handle. */
  predicate Around(q: Path, p: Path) {
    && p.sourceX < q.sourceX && p.laneY < q.laneY && q.approachX < p.approachX && q.targetY < p.targetY
    && p.targetX == q.targetX && p.approachX < p.targetX < p.sourceX
    && p.sourceY < p.laneY && p.targetY < p.laneY && q.sourceY < p.laneY
  }

  lemma AroundApart(p: Path, q: Path)
    requires Around(q, p)
    ensures !Cross(p, q)
  {}
}
