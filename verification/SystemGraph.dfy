/** The system graph: the row of nodes shown for an issue (a breadth-first search)
    and the graph filtered to one project (an edge closure). */
module SystemGraph {
  import opened Text
  import opened Selections

  datatype Node = Node(id: string, kind: string, project: string)
  datatype Edge = Edge(source: string, target: string)
  datatype Graph = Graph(nodes: seq<Node>, edges: seq<Edge>)

  function Ids(nodes: seq<Node>): set<string> {
    set n | n in nodes :: n.id
  }

  function OutEdges(edges: seq<Edge>, source: string): seq<Edge> {
    if edges == [] then []
    else (if edges[0].source == source then [edges[0]] else []) + OutEdges(edges[1..], source)
  }

  /** Array.find: the first node with the id. */
  function Find(nodes: seq<Node>, id: string): Option<Node> {
    if nodes == [] then None
    else if nodes[0].id == id then Some(nodes[0])
    else Find(nodes[1..], id)
  }

  lemma {:induction false} OutEdgesAre(edges: seq<Edge>, source: string)
    ensures forall e :: e in OutEdges(edges, source) <==> e in edges && e.source == source
  {
    if edges != [] {
      OutEdgesAre(edges[1..], source);
      assert edges == [edges[0]] + edges[1..];
    }
  }

  lemma {:induction false} FindFinds(nodes: seq<Node>, id: string)
    ensures Find(nodes, id).Some? <==> id in Ids(nodes)
    ensures Find(nodes, id).Some? ==> Find(nodes, id).value.id == id && Find(nodes, id).value in nodes
  {
    if nodes != [] {
      FindFinds(nodes[1..], id);
      assert nodes == [nodes[0]] + nodes[1..];
      if id in Ids(nodes) {
        var n :| n in nodes && n.id == id;
        assert n == nodes[0] || (n in nodes[1..] && n.id in Ids(nodes[1..]));
      }
      if id in Ids(nodes[1..]) {
        var n :| n in nodes[1..] && n.id == id;
        assert n in nodes;
      }
    }
  }

  // ----- The search

  /** The search's variables. */
  datatype Search = Search(seen: set<string>, queue: seq<string>, nodes: seq<Node>)

  function Visit(g: Graph, edge: Edge, s: Search): Search {
    if edge.target in s.seen then s
    else
      var marked := s.(seen := s.seen + {edge.target});
      match Find(g.nodes, edge.target)
      case None => marked
      case Some(node) => marked.(nodes := s.nodes + [node], queue := s.queue + [node.id])
  }

  function VisitAll(g: Graph, edges: seq<Edge>, s: Search): Search {
    if edges == [] then s else VisitAll(g, edges[1..], Visit(g, edges[0], s))
  }

  /** Nodes not yet seen plus nodes queued: what is still to be done. */
  function Work(g: Graph, s: Search): nat {
    |Ids(g.nodes) - s.seen| + |s.queue|
  }

  lemma VisitWork(g: Graph, edge: Edge, s: Search)
    ensures Work(g, Visit(g, edge, s)) <= Work(g, s)
  {
    FindFinds(g.nodes, edge.target);
    var left, s' := Ids(g.nodes) - s.seen, Visit(g, edge, s);
    var left' := Ids(g.nodes) - s'.seen;
    assert left' <= left;
    if edge.target !in s.seen && Find(g.nodes, edge.target).Some? {
      assert left' == left - {edge.target};
    } else {
      Smaller(left', left);
    }
  }

  lemma Smaller(a: set<string>, b: set<string>)
    requires a <= b
    ensures |a| <= |b|
  {
    assert b == a + (b - a);
  }

  lemma {:induction false} VisitAllWork(g: Graph, edges: seq<Edge>, s: Search)
    ensures Work(g, VisitAll(g, edges, s)) <= Work(g, s)
    decreases |edges|
  {
    if edges != [] {
      VisitWork(g, edges[0], s);
      VisitAllWork(g, edges[1..], Visit(g, edges[0], s));
    }
  }

  function Next(g: Graph, s: Search): (r: Search)
    requires s.queue != []
    ensures Work(g, r) < Work(g, s)
  {
    var shifted := s.(queue := s.queue[1..]);
    VisitAllWork(g, OutEdges(g.edges, s.queue[0]), shifted);
    VisitAll(g, OutEdges(g.edges, s.queue[0]), shifted)
  }

  function Finish(g: Graph, s: Search): Search
    decreases Work(g, s)
  {
    if s.queue == [] then s else Finish(g, Next(g, s))
  }

  function Start(root: string): Search {
    Search({root}, [root], [])
  }

  function Row(g: Graph, root: string): seq<Node> {
    Finish(g, Start(root)).nodes
  }

  method ComputeRow(g: Graph, issue: Node) returns (nodes: seq<Node>)
    ensures nodes == Row(g, issue.id)
  {
    var seen, queue := {issue.id}, [issue.id];
    nodes := [];
    while |queue| > 0
      invariant Finish(g, Search(seen, queue, nodes)) == Finish(g, Start(issue.id))
      decreases Work(g, Search(seen, queue, nodes))
    {
      ghost var next := Next(g, Search(seen, queue, nodes));
      var source := queue[0];
      queue := queue[1..];
      var edges := OutEdges(g.edges, source);
      var k := 0;
      while k < |edges|
        invariant k <= |edges|
        invariant VisitAll(g, edges[k..], Search(seen, queue, nodes)) == next
      {
        var edge := edges[k];
        assert edges[k..][1..] == edges[k + 1..];
        k := k + 1;
        if edge.target in seen {
          continue;
        }
        seen := seen + {edge.target};
        var node := Find(g.nodes, edge.target);
        if node.None? {
          continue;
        }
        nodes := nodes + [node.value];
        queue := queue + [node.value.id];
      }
    }
  }

  function Issues(nodes: seq<Node>): seq<Node> {
    if nodes == [] then []
    else (if nodes[0].kind == "issue" then [nodes[0]] else []) + Issues(nodes[1..])
  }

  method ComputeRows(g: Graph) returns (rows: seq<(Node, seq<Node>)>)
    ensures |rows| == |Issues(g.nodes)|
    ensures forall i | 0 <= i < |rows| :: rows[i] == (Issues(g.nodes)[i], Row(g, Issues(g.nodes)[i].id))
  {
    var issues := Issues(g.nodes);
    rows := [];
    for i := 0 to |issues|
      invariant |rows| == i
      invariant forall k | 0 <= k < i :: rows[k] == (issues[k], Row(g, issues[k].id))
    {
      var nodes := ComputeRow(g, issues[i]);
      rows := rows + [(issues[i], nodes)];
    }
  }

  /** The issues are the nodes of that kind, as often and in the order in which the graph
      has them. */
  lemma {:induction false} IssuesAre(nodes: seq<Node>) returns (at: seq<nat>)
    ensures Picked(nodes, Issues(nodes), at)
    ensures forall i | 0 <= i < |nodes| :: i in at <==> nodes[i].kind == "issue"
  {
    hide Picked;
    if nodes == [] {
      at := [];
      NonePicked<Node>();
    } else {
      var n, rest := nodes[0], nodes[1..];
      var before := IssuesAre(rest);
      at := PickFront(n, rest, Issues(rest), before, n.kind == "issue");
      assert nodes == [n] + rest && [] + Issues(rest) == Issues(rest);
    }
  }

  // ----- What the search finds

  predicate Linked(g: Graph, a: string, b: string) {
    Edge(a, b) in g.edges && b in Ids(g.nodes)
  }

  /** A path along edges, through existing nodes after its start. */
  predicate Path(g: Graph, p: seq<string>) {
    p != [] && forall i | 0 <= i < |p| - 1 :: Linked(g, p[i], p[i + 1])
  }

  ghost predicate PathTo(g: Graph, root: string, id: string, p: seq<string>) {
    Path(g, p) && p[0] == root && p[|p| - 1] == id
  }

  /** A path from the root to id has d edges. */
  ghost predicate Reaches(g: Graph, root: string, id: string, d: nat) {
    exists p :: PathTo(g, root, id, p) && |p| == d + 1
  }

  ghost predicate Distance(g: Graph, root: string, id: string, d: nat) {
    Reaches(g, root, id, d) && forall k: nat | Reaches(g, root, id, k) :: d <= k
  }

  /** The root and the ids found so far, in the order they were found. */
  function Order(root: string, s: Search): seq<string> {
    [root] + seq(|s.nodes|, i requires 0 <= i < |s.nodes| => s.nodes[i].id)
  }

  /** The state of the search after done nodes have left the queue; dist are
      distances in Order. They never decrease, and differ by at most one between the
      node being processed and the node found last. */
  ghost predicate Layered(root: string, s: Search, done: nat, dist: seq<nat>) {
    var order := Order(root, s);
    && |dist| == |order| && done <= |order| && s.queue == order[done..]
    && (forall i, j | 0 <= i < j < |order| :: order[i] != order[j] && dist[i] <= dist[j])
    && dist[0] == 0 && (if done == 0 then |order| == 1 else dist[|dist| - 1] <= dist[done - 1] + 1)
  }

  /** Everything found exists and is reached by a path of its distance. */
  ghost predicate Sound(g: Graph, root: string, s: Search, dist: seq<nat>) {
    var order := Order(root, s);
    && |dist| == |order|
    && (forall i | 0 <= i < |order| :: order[i] in s.seen && Reaches(g, root, order[i], dist[i]))
    && (forall id | id in s.seen && id in Ids(g.nodes) :: id in order)
    && (forall i | 0 <= i < |s.nodes| :: Find(g.nodes, s.nodes[i].id) == Some(s.nodes[i]))
  }

  /** The targets of processed nodes have been found, at most one step further away;
      of the node processed last only the edges in pending are still to follow. */
  ghost predicate Closed(g: Graph, root: string, s: Search, done: nat, pending: seq<Edge>, dist: seq<nat>) {
    var order := Order(root, s);
    && |dist| == |order| && done <= |order|
    && forall i, e | 0 <= i < done && e in g.edges && e.source == order[i] && e.target in Ids(g.nodes) ::
         (i == done - 1 && e in pending) || Near(order, dist, e.target, dist[i] + 1)
  }

  ghost predicate Near(order: seq<string>, dist: seq<nat>, id: string, d: nat) {
    exists j :: 0 <= j < |order| && j < |dist| && order[j] == id && dist[j] <= d
  }

  ghost predicate Inv(g: Graph, root: string, s: Search, done: nat, pending: seq<Edge>, dist: seq<nat>) {
    Layered(root, s, done, dist) && Sound(g, root, s, dist) && Closed(g, root, s, done, pending, dist)
  }

  lemma StartInv(g: Graph, root: string)
    ensures Inv(g, root, Start(root), 0, [], [0])
  {
    assert Order(root, Start(root)) == [root];
    assert PathTo(g, root, root, [root]);
  }

  lemma ReachesOn(g: Graph, root: string, a: string, b: string, d: nat)
    requires Reaches(g, root, a, d) && Linked(g, a, b)
    ensures Reaches(g, root, b, d + 1)
  {
    var p :| PathTo(g, root, a, p) && |p| == d + 1;
    var q := p + [b];
    forall i | 0 <= i < |q| - 1
      ensures Linked(g, q[i], q[i + 1])
    {
      if i < |p| - 1 { assert Linked(g, p[i], p[i + 1]); }
    }
    assert PathTo(g, root, b, q);
  }

  /** Following one edge of the node processed last. */
  lemma VisitInv(g: Graph, root: string, s: Search, done: nat, e: Edge, rest: seq<Edge>, dist: seq<nat>) returns (dist': seq<nat>)
    requires Inv(g, root, s, done, [e] + rest, dist) && 0 < done
    requires e in g.edges && e.source == Order(root, s)[done - 1]
    ensures Inv(g, root, Visit(g, e, s), done, rest, dist')
    ensures done <= |Order(root, s)| && Order(root, Visit(g, e, s))[done - 1] == Order(root, s)[done - 1]
  {
    hide Layered, Sound, Closed;
    FindFinds(g.nodes, e.target);
    DoneWithin(root, s, done, dist);
    if e.target in s.seen || Find(g.nodes, e.target).None? {
      dist' := dist;
      SeenIsNear(g, root, s, done, e, dist);
      VisitSame(g, root, s, Visit(g, e, s), done, e, rest, dist);
    } else {
      dist' := dist + [dist[done - 1] + 1];
      VisitFound(g, root, s, done, e, rest, Find(g.nodes, e.target).value, dist);
    }
  }

  lemma DoneWithin(root: string, s: Search, done: nat, dist: seq<nat>)
    requires Layered(root, s, done, dist)
    ensures done <= |Order(root, s)| == |dist|
  {}

  lemma SeenIsNear(g: Graph, root: string, s: Search, done: nat, e: Edge, dist: seq<nat>)
    requires Layered(root, s, done, dist) && Sound(g, root, s, dist) && 0 < done
    requires e.target in s.seen || Find(g.nodes, e.target).None?
    ensures e.target in Ids(g.nodes) ==> Near(Order(root, s), dist, e.target, dist[done - 1] + 1)
  {
    hide Reaches;
    var order := Order(root, s);
    FindFinds(g.nodes, e.target);
    if e.target in Ids(g.nodes) {
      var j :| 0 <= j < |order| && order[j] == e.target;
      assert dist[j] <= dist[|dist| - 1];
    }
  }

  lemma VisitFound(g: Graph, root: string, s: Search, done: nat, e: Edge, rest: seq<Edge>, node: Node, dist: seq<nat>)
    requires Inv(g, root, s, done, [e] + rest, dist) && 0 < done <= |Order(root, s)| == |dist|
    requires e in g.edges && e.source == Order(root, s)[done - 1] && e.target !in s.seen
    requires Find(g.nodes, e.target) == Some(node) && node.id == e.target && e.target in Ids(g.nodes)
    ensures Inv(g, root, Visit(g, e, s), done, rest, dist + [dist[done - 1] + 1])
    ensures Order(root, Visit(g, e, s)) == Order(root, s) + [node.id]
  {
    hide Layered, Sound, Closed;
    var s' := Visit(g, e, s);
    assert Order(root, s') == Order(root, s) + [node.id];
    VisitLayered(g, root, s, s', done, node, dist);
    VisitSound(g, root, s, s', done, e, node, dist);
    VisitClosed(g, root, s, s', done, e, rest, node, dist);
  }

  /** Nothing is found: only the mark of an id without a node is new. */
  lemma {:induction false} VisitSame(g: Graph, root: string, s: Search, s': Search, done: nat, e: Edge, rest: seq<Edge>, dist: seq<nat>)
    requires Inv(g, root, s, done, [e] + rest, dist) && 0 < done && e.source == Order(root, s)[done - 1]
    requires s'.nodes == s.nodes && s'.queue == s.queue
    requires s'.seen == s.seen || (s'.seen == s.seen + {e.target} && e.target !in Ids(g.nodes))
    requires e.target in Ids(g.nodes) ==> Near(Order(root, s), dist, e.target, dist[done - 1] + 1)
    ensures Inv(g, root, s', done, rest, dist)
  {
    assert Order(root, s') == Order(root, s);
    SameSound(g, root, s, s', e, dist);
    SameClosed(g, root, s, s', done, e, rest, dist);
  }

  lemma SameSound(g: Graph, root: string, s: Search, s': Search, e: Edge, dist: seq<nat>)
    requires Sound(g, root, s, dist) && s'.nodes == s.nodes && Order(root, s') == Order(root, s)
    requires s'.seen == s.seen || (s'.seen == s.seen + {e.target} && e.target !in Ids(g.nodes))
    ensures Sound(g, root, s', dist)
  {}

  lemma SameClosed(g: Graph, root: string, s: Search, s': Search, done: nat, e: Edge, rest: seq<Edge>, dist: seq<nat>)
    requires Closed(g, root, s, done, [e] + rest, dist) && 0 < done && Order(root, s') == Order(root, s)
    requires e.target in Ids(g.nodes) ==> Near(Order(root, s), dist, e.target, dist[done - 1] + 1)
    ensures Closed(g, root, s', done, rest, dist)
  {
    var order := Order(root, s);
    forall i, f | 0 <= i < done && f in g.edges && f.source == order[i] && f.target in Ids(g.nodes)
      ensures (i == done - 1 && f in rest) || Near(order, dist, f.target, dist[i] + 1)
    {
      if f == e {} else { assert f in [e] + rest ==> f in rest; }
    }
  }

  lemma VisitLayered(g: Graph, root: string, s: Search, s': Search, done: nat, node: Node, dist: seq<nat>)
    requires Layered(root, s, done, dist) && Sound(g, root, s, dist) && 0 < done && node.id !in s.seen
    requires Order(root, s') == Order(root, s) + [node.id] && s'.queue == s.queue + [node.id]
    ensures Layered(root, s', done, dist + [dist[done - 1] + 1])
  {
    hide Reaches, Find, Ids;
    var order := Order(root, s);
    assert (order + [node.id])[done..] == order[done..] + [node.id];
    assert forall i | 0 <= i < |order| :: order[i] != node.id && dist[i] <= dist[|dist| - 1];
  }

  lemma VisitSound(g: Graph, root: string, s: Search, s': Search, done: nat, e: Edge, node: Node, dist: seq<nat>)
    requires Sound(g, root, s, dist) && 0 < done <= |dist| && e in g.edges && e.source == Order(root, s)[done - 1]
    requires Find(g.nodes, e.target) == Some(node) && node.id == e.target && e.target in Ids(g.nodes)
    requires s'.nodes == s.nodes + [node] && s'.seen == s.seen + {e.target}
    requires Order(root, s') == Order(root, s) + [node.id]
    ensures Sound(g, root, s', dist + [dist[done - 1] + 1])
  {
    var order, order' := Order(root, s), Order(root, s');
    assert e == Edge(order[done - 1], node.id);
    ReachesOn(g, root, order[done - 1], node.id, dist[done - 1]);
    forall id | id in s'.seen && id in Ids(g.nodes)
      ensures id in order'
    {
      if id == e.target { assert order'[|order|] == id; } else { assert id in order; }
    }
  }

  lemma VisitClosed(g: Graph, root: string, s: Search, s': Search, done: nat, e: Edge, rest: seq<Edge>, node: Node, dist: seq<nat>)
    requires Closed(g, root, s, done, [e] + rest, dist) && 0 < done && node.id == e.target
    requires Order(root, s') == Order(root, s) + [node.id]
    ensures Closed(g, root, s', done, rest, dist + [dist[done - 1] + 1])
  {
    var order, dist' := Order(root, s), dist + [dist[done - 1] + 1];
    var order' := order + [node.id];
    forall i, f | 0 <= i < done && f in g.edges && f.source == order'[i] && f.target in Ids(g.nodes)
      ensures (i == done - 1 && f in rest) || Near(order', dist', f.target, dist'[i] + 1)
    {
      if Near(order, dist, f.target, dist[i] + 1) {
        var j :| 0 <= j < |order| && j < |dist| && order[j] == f.target && dist[j] <= dist[i] + 1;
        assert order'[j] == f.target && dist'[j] <= dist'[i] + 1;
      } else if f.target == e.target {
        assert order'[|order|] == f.target && dist'[|order|] <= dist'[done - 1] + 1;
      }
    }
  }

  lemma {:induction false} VisitAllInv(g: Graph, root: string, s: Search, done: nat, edges: seq<Edge>, dist: seq<nat>) returns (dist': seq<nat>)
    requires Inv(g, root, s, done, edges, dist) && 0 < done
    requires forall e | e in edges :: e in g.edges && e.source == Order(root, s)[done - 1]
    ensures Inv(g, root, VisitAll(g, edges, s), done, [], dist')
    decreases |edges|
  {
    hide Layered, Sound, Closed, Visit;
    if edges == [] {
      dist' := dist;
    } else {
      var e, rest := edges[0], edges[1..];
      assert edges == [e] + rest;
      var s' := Visit(g, e, s);
      var next := VisitInv(g, root, s, done, e, rest, dist);
      assert forall f | f in rest :: f in edges;
      dist' := VisitAllInv(g, root, s', done, rest, next);
    }
  }

  lemma {:induction false} NextInv(g: Graph, root: string, s: Search, done: nat, dist: seq<nat>) returns (dist': seq<nat>)
    requires Inv(g, root, s, done, [], dist) && s.queue != []
    ensures Inv(g, root, Next(g, s), done + 1, [], dist')
  {
    var shifted, edges := s.(queue := s.queue[1..]), OutEdges(g.edges, s.queue[0]);
    OutEdgesAre(g.edges, s.queue[0]);
    assert Order(root, shifted) == Order(root, s);
    assert s.queue[0] == Order(root, s)[done];
    assert Inv(g, root, shifted, done + 1, edges, dist);
    dist' := VisitAllInv(g, root, shifted, done + 1, edges, dist);
  }

  lemma {:induction false} FinishInv(g: Graph, root: string, s: Search, done: nat, dist: seq<nat>) returns (dist': seq<nat>)
    requires Inv(g, root, s, done, [], dist)
    ensures var end := Finish(g, s); Inv(g, root, end, |Order(root, end)|, [], dist')
    decreases Work(g, s)
  {
    hide Sound, Closed, Next;
    if s.queue == [] {
      dist' := dist;
    } else {
      var next := NextInv(g, root, s, done, dist);
      dist' := FinishInv(g, root, Next(g, s), done + 1, next);
    }
  }

  /** No path is shorter than the distance recorded for its end. */
  lemma {:induction false} PathsAreCovered(g: Graph, root: string, s: Search, dist: seq<nat>, p: seq<string>)
    requires Inv(g, root, s, |Order(root, s)|, [], dist) && Path(g, p) && p[0] == root
    ensures Near(Order(root, s), dist, p[|p| - 1], |p| - 1)
    decreases |p|
  {
    hide Sound;
    var order := Order(root, s);
    if |p| == 1 {
      assert order[0] == root;
    } else {
      var q := p[..|p| - 1];
      assert forall i | 0 <= i < |q| - 1 :: Linked(g, p[i], p[i + 1]);
      PathsAreCovered(g, root, s, dist, q);
      var j :| 0 <= j < |order| && order[j] == q[|q| - 1] && dist[j] <= |q| - 1;
      var e := Edge(p[|p| - 2], p[|p| - 1]);
      assert Linked(g, p[|p| - 2], p[|p| - 1]);
      assert Near(order, dist, e.target, dist[j] + 1);
    }
  }

  /** The row of a root: the nodes other than the root that exist and are reachable
      through existing nodes, each once, nearest first. */
  ghost predicate RowSpec(g: Graph, root: string, nodes: seq<Node>, dist: seq<nat>) {
    && |dist| == |nodes|
    && (forall i | 0 <= i < |nodes| :: Find(g.nodes, nodes[i].id) == Some(nodes[i]) && nodes[i].id != root)
    && (forall i | 0 <= i < |nodes| :: Distance(g, root, nodes[i].id, dist[i]))
    && (forall i, j | 0 <= i < j < |nodes| :: nodes[i].id != nodes[j].id && dist[i] <= dist[j])
    && (forall id, d: nat | Reaches(g, root, id, d) && id != root :: exists i :: 0 <= i < |nodes| && nodes[i].id == id)
  }

  lemma RowIsCorrect(g: Graph, root: string) returns (dist: seq<nat>)
    ensures RowSpec(g, root, Row(g, root), dist)
  {
    StartInv(g, root);
    var all := FinishInv(g, root, Start(root), 0, [0]);
    dist := EndIsCorrect(g, root, Finish(g, Start(root)), all);
  }

  lemma {:induction false} EndIsCorrect(g: Graph, root: string, end: Search, all: seq<nat>) returns (dist: seq<nat>)
    requires Inv(g, root, end, |Order(root, end)|, [], all)
    ensures RowSpec(g, root, end.nodes, dist)
  {
    dist := all[1..];
    EndDistances(g, root, end, all, dist);
    EndComplete(g, root, end, all);
    EndOrdered(g, root, end, all, dist);
  }

  lemma {:induction false} EndDistances(g: Graph, root: string, end: Search, all: seq<nat>, dist: seq<nat>)
    requires Inv(g, root, end, |Order(root, end)|, [], all) && dist == all[1..]
    ensures forall i | 0 <= i < |end.nodes| :: Distance(g, root, end.nodes[i].id, dist[i])
  {
    forall i | 0 <= i < |end.nodes|
      ensures Distance(g, root, end.nodes[i].id, dist[i])
    {
      FoundAtDistance(g, root, end, all, i + 1);
    }
  }

  lemma EndComplete(g: Graph, root: string, end: Search, all: seq<nat>)
    requires Inv(g, root, end, |Order(root, end)|, [], all)
    ensures forall id, d: nat | Reaches(g, root, id, d) && id != root :: exists i :: 0 <= i < |end.nodes| && end.nodes[i].id == id
  {
    hide Inv, Layered, Sound, Closed, Linked;
    forall id, d: nat | Reaches(g, root, id, d) && id != root
      ensures exists i :: 0 <= i < |end.nodes| && end.nodes[i].id == id
    {
      var p :| PathTo(g, root, id, p) && |p| == d + 1;
      PathsAreCovered(g, root, end, all, p);
      var j :| 0 <= j < |Order(root, end)| && Order(root, end)[j] == id;
      assert end.nodes[j - 1].id == id;
    }
  }

  lemma EndOrdered(g: Graph, root: string, end: Search, all: seq<nat>, dist: seq<nat>)
    requires Layered(root, end, |Order(root, end)|, all) && Sound(g, root, end, all) && dist == all[1..]
    ensures |dist| == |end.nodes|
    ensures forall i | 0 <= i < |end.nodes| :: Find(g.nodes, end.nodes[i].id) == Some(end.nodes[i]) && end.nodes[i].id != root
    ensures forall i, j | 0 <= i < j < |end.nodes| :: end.nodes[i].id != end.nodes[j].id && dist[i] <= dist[j]
  {
    hide Reaches;
    var order := Order(root, end);
    assert forall i | 0 <= i < |end.nodes| :: order[0] != order[i + 1] == end.nodes[i].id && dist[i] == all[i + 1];
  }

  lemma FoundAtDistance(g: Graph, root: string, s: Search, dist: seq<nat>, i: nat)
    requires Inv(g, root, s, |Order(root, s)|, [], dist) && i < |Order(root, s)|
    ensures Distance(g, root, Order(root, s)[i], dist[i])
  {
    var order := Order(root, s);
    forall k: nat | Reaches(g, root, order[i], k)
      ensures dist[i] <= k
    {
      var p :| PathTo(g, root, order[i], p) && |p| == k + 1;
      PathsAreCovered(g, root, s, dist, p);
      var j :| 0 <= j < |order| && order[j] == order[i] && dist[j] <= k;
      assert j == i;
    }
  }
}
