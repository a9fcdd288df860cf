/** The system graph of one project: the closure of its issues under edges. */
module ProjectGraph {
  import opened SystemGraph
  import opened Selections

  function ProjectIssues(nodes: seq<Node>, project: string): set<string> {
    set n | n in nodes && n.kind == "issue" && n.project == project :: n.id
  }

  ghost predicate EdgeClosed(edges: seq<Edge>, keep: set<string>) {
    forall e | e in edges && e.source in keep :: e.target in keep
  }

  /** The smallest edge-closed set that contains the given ids. */
  ghost predicate Closure(edges: seq<Edge>, ids: set<string>, keep: set<string>) {
    && ids <= keep && EdgeClosed(edges, keep)
    && forall other: set<string> | ids <= other && EdgeClosed(edges, other) :: keep <= other
  }

  function KeptNodes(nodes: seq<Node>, keep: set<string>): seq<Node> {
    if nodes == [] then []
    else (if nodes[0].id in keep then [nodes[0]] else []) + KeptNodes(nodes[1..], keep)
  }

  function KeptEdges(edges: seq<Edge>, keep: set<string>): seq<Edge> {
    if edges == [] then []
    else (if edges[0].source in keep && edges[0].target in keep then [edges[0]] else []) + KeptEdges(edges[1..], keep)
  }

  function Restricted(g: Graph, keep: set<string>): Graph {
    Graph(KeptNodes(g.nodes, keep), KeptEdges(g.edges, keep))
  }

  /** The ids an edge may add. */
  function Targets(edges: seq<Edge>): set<string> {
    set e | e in edges :: e.target
  }

  method FilterGraph(g: Graph, project: string) returns (filtered: Graph, ghost keep: set<string>)
    ensures project == "" ==> filtered == g
    ensures project != "" ==> Closure(g.edges, ProjectIssues(g.nodes, project), keep)
    ensures project != "" ==> filtered == Restricted(g, keep)
    ensures project != "" ==> Filtered(g, project, filtered)
  {
    if project == "" {
      keep := {};
      return g, keep;
    }
    var issueIds := ProjectIssues(g.nodes, project);
    var kept := issueIds;
    var changed := true;
    while changed
      invariant issueIds <= kept
      invariant !changed ==> EdgeClosed(g.edges, kept)
      invariant forall other: set<string> | issueIds <= other && EdgeClosed(g.edges, other) :: kept <= other
      decreases |Targets(g.edges) - kept|, changed
    {
      changed := false;
      ghost var before := kept;
      for i := 0 to |g.edges|
        invariant issueIds <= kept && before <= kept
        invariant changed <==> exists t :: t in Targets(g.edges) && t in kept && t !in before
        invariant !changed ==> kept == before
        invariant !changed ==> forall k | 0 <= k < i :: g.edges[k].source in kept ==> g.edges[k].target in kept
        invariant forall other: set<string> | issueIds <= other && EdgeClosed(g.edges, other) :: kept <= other
      {
        var edge := g.edges[i];
        if edge.source in kept && edge.target !in kept {
          assert edge.target in Targets(g.edges);
          kept := kept + {edge.target};
          changed := true;
        }
      }
      if changed {
        FewerTargets(g.edges, before, kept);
      } else {
        assert before == kept;
      }
    }
    keep := kept;
    filtered := Graph(KeptNodes(g.nodes, kept), KeptEdges(g.edges, kept));
    FilteredByKeep(g, project, keep);
  }

  // ----- What is shown

  /** Edges lead to the id from an issue of the project. */
  ghost predicate Shown(g: Graph, project: string, id: string) {
    exists p, n :: LedFrom(g, project, n, id, p)
  }

  /** p leads along edges from n, an issue of the project, to id. */
  ghost predicate LedFrom(g: Graph, project: string, n: Node, id: string, p: seq<string>) {
    && n in g.nodes && n.kind == "issue" && n.project == project
    && p != [] && p[0] == n.id && p[|p| - 1] == id
    && forall i | 0 <= i < |p| - 1 :: Edge(p[i], p[i + 1]) in g.edges
  }

  /** The nodes shown, and the edges between them, as often and in the order in which the
      graph has them. */
  ghost predicate Filtered(g: Graph, project: string, filtered: Graph) {
    && (exists at :: Picked(g.nodes, filtered.nodes, at) && NodesShown(g, project, at))
    && (exists at :: Picked(g.edges, filtered.edges, at) && EdgesShown(g, project, at))
  }

  ghost predicate NodesShown(g: Graph, project: string, at: seq<nat>) {
    forall i | 0 <= i < |g.nodes| :: i in at <==> Shown(g, project, g.nodes[i].id)
  }

  ghost predicate EdgesShown(g: Graph, project: string, at: seq<nat>) {
    forall i | 0 <= i < |g.edges| :: i in at <==> Shown(g, project, g.edges[i].source) && Shown(g, project, g.edges[i].target)
  }

  lemma FilteredByKeep(g: Graph, project: string, keep: set<string>)
    requires Closure(g.edges, ProjectIssues(g.nodes, project), keep)
    ensures Filtered(g, project, Restricted(g, keep))
  {
    hide Shown, Picked, Closure;
    forall id
      ensures id in keep <==> Shown(g, project, id)
    {
      KeptIsLed(g, project, keep, id);
      ShownIsLed(g, project, id);
    }
    var nodesAt := KeptNodesAt(g.nodes, keep);
    var edgesAt := KeptEdgesAt(g.edges, keep);
    assert NodesShown(g, project, nodesAt) && EdgesShown(g, project, edgesAt);
  }

  lemma ShownIsLed(g: Graph, project: string, id: string)
    ensures Shown(g, project, id) <==> exists p :: LedTo(g, ProjectIssues(g.nodes, project), id, p)
  {
    if p, n :| LedFrom(g, project, n, id, p) {
      assert LedTo(g, ProjectIssues(g.nodes, project), id, p);
    }
    if p :| LedTo(g, ProjectIssues(g.nodes, project), id, p) {
      var n :| n in g.nodes && n.kind == "issue" && n.project == project && n.id == p[0];
      assert LedFrom(g, project, n, id, p);
    }
  }

  lemma {:induction false} KeptNodesAt(nodes: seq<Node>, keep: set<string>) returns (at: seq<nat>)
    ensures Picked(nodes, KeptNodes(nodes, keep), at)
    ensures forall i | 0 <= i < |nodes| :: i in at <==> nodes[i].id in keep
  {
    hide Picked;
    if nodes == [] {
      at := [];
      NonePicked<Node>();
    } else {
      var n, rest := nodes[0], nodes[1..];
      var before := KeptNodesAt(rest, keep);
      at := PickFront(n, rest, KeptNodes(rest, keep), before, n.id in keep);
      assert nodes == [n] + rest && [] + KeptNodes(rest, keep) == KeptNodes(rest, keep);
    }
  }

  lemma {:induction false} KeptEdgesAt(edges: seq<Edge>, keep: set<string>) returns (at: seq<nat>)
    ensures Picked(edges, KeptEdges(edges, keep), at)
    ensures forall i | 0 <= i < |edges| :: i in at <==> edges[i].source in keep && edges[i].target in keep
  {
    hide Picked;
    if edges == [] {
      at := [];
      NonePicked<Edge>();
    } else {
      var e, rest := edges[0], edges[1..];
      var before := KeptEdgesAt(rest, keep);
      at := PickFront(e, rest, KeptEdges(rest, keep), before, e.source in keep && e.target in keep);
      assert edges == [e] + rest && [] + KeptEdges(rest, keep) == KeptEdges(rest, keep);
    }
  }

  lemma FewerTargets(edges: seq<Edge>, before: set<string>, kept: set<string>)
    requires before <= kept && exists t :: t in Targets(edges) && t in kept && t !in before
    ensures |Targets(edges) - kept| < |Targets(edges) - before|
  {
    var t :| t in Targets(edges) && t in kept && t !in before;
    var a, b := Targets(edges) - kept, Targets(edges) - before;
    assert a <= b - {t};
    Smaller(a, b - {t});
  }

  // ----- Filtering keeps every kept row

  lemma {:induction false} KeptOutEdges(edges: seq<Edge>, keep: set<string>, source: string)
    requires EdgeClosed(edges, keep) && source in keep
    ensures OutEdges(KeptEdges(edges, keep), source) == OutEdges(edges, source)
  {
    if edges != [] {
      var e, rest := edges[0], KeptEdges(edges[1..], keep);
      assert e in edges && forall f | f in edges[1..] :: f in edges;
      KeptOutEdges(edges[1..], keep, source);
      if e.source in keep {
        assert ([e] + rest)[1..] == rest;
      } else {
        assert [] + rest == rest;
        assert OutEdges(edges, source) == [] + OutEdges(edges[1..], source) == OutEdges(edges[1..], source);
      }
    }
  }

  lemma {:induction false} KeptFind(nodes: seq<Node>, keep: set<string>, id: string)
    requires id in keep
    ensures Find(KeptNodes(nodes, keep), id) == Find(nodes, id)
  {
    if nodes != [] {
      var rest := KeptNodes(nodes[1..], keep);
      KeptFind(nodes[1..], keep, id);
      if nodes[0].id in keep {
        assert ([nodes[0]] + rest)[1..] == rest;
      } else {
        assert [] + rest == rest;
      }
    }
  }

  predicate QueueKept(s: Search, keep: set<string>) {
    forall i | 0 <= i < |s.queue| :: s.queue[i] in keep
  }

  lemma {:induction false} KeptVisits(g: Graph, keep: set<string>, edges: seq<Edge>, s: Search)
    requires QueueKept(s, keep) && forall e | e in edges :: e.target in keep
    ensures VisitAll(Restricted(g, keep), edges, s) == VisitAll(g, edges, s)
    ensures QueueKept(VisitAll(g, edges, s), keep)
    decreases |edges|
  {
    if edges != [] {
      KeptFind(g.nodes, keep, edges[0].target);
      FindFinds(g.nodes, edges[0].target);
      KeptVisits(g, keep, edges[1..], Visit(g, edges[0], s));
    }
  }

  lemma {:induction false} KeptFinish(g: Graph, keep: set<string>, s: Search)
    requires EdgeClosed(g.edges, keep) && QueueKept(s, keep)
    ensures Finish(Restricted(g, keep), s) == Finish(g, s)
    decreases Work(g, s)
  {
    if s.queue != [] {
      var source := s.queue[0];
      KeptOutEdges(g.edges, keep, source);
      OutEdgesAre(g.edges, source);
      KeptVisits(g, keep, OutEdges(g.edges, source), s.(queue := s.queue[1..]));
      KeptFinish(g, keep, Next(g, s));
    }
  }

  /** The row of every kept id, and so of each of the project's issues, is the same
      sequence in the filtered graph and in the whole graph. */
  lemma FilteringKeepsRows(g: Graph, project: string, keep: set<string>, id: string)
    requires Closure(g.edges, ProjectIssues(g.nodes, project), keep)
    ensures id in keep ==> Row(Restricted(g, keep), id) == Row(g, id)
    ensures id in ProjectIssues(g.nodes, project) ==> id in keep
  {
    if id in keep {
      KeptFinish(g, keep, Start(id));
    }
  }

  /** Nothing else is shown: a node of the filtered graph is in it because some issue
      of the project leads to it along edges. */
  lemma KeptIsLed(g: Graph, project: string, keep: set<string>, id: string)
    requires Closure(g.edges, ProjectIssues(g.nodes, project), keep)
    ensures id in keep <==> exists p :: LedTo(g, ProjectIssues(g.nodes, project), id, p)
  {
    var issues := ProjectIssues(g.nodes, project);
    if p :| LedTo(g, issues, id, p) {
      LedStays(g, issues, keep, p, |p| - 1);
    }
    var led := set x | x in keep && exists p :: LedTo(g, issues, x, p);
    forall x | x in issues
      ensures x in led
    {
      assert LedTo(g, issues, x, [x]);
    }
    forall e | e in g.edges && e.source in led
      ensures e.target in led
    {
      var p :| LedTo(g, issues, e.source, p);
      var q := p + [e.target];
      forall i | 0 <= i < |q| - 1
        ensures Edge(q[i], q[i + 1]) in g.edges
      {
        if i < |p| - 1 { assert Edge(p[i], p[i + 1]) in g.edges; } else { assert e == Edge(q[i], q[i + 1]); }
      }
      assert LedTo(g, issues, e.target, q);
    }
    assert EdgeClosed(g.edges, led);
  }

  ghost predicate LedTo(g: Graph, issues: set<string>, id: string, p: seq<string>) {
    && p != [] && p[0] in issues && p[|p| - 1] == id
    && forall i | 0 <= i < |p| - 1 :: Edge(p[i], p[i + 1]) in g.edges
  }

  lemma {:induction false} LedStays(g: Graph, issues: set<string>, keep: set<string>, p: seq<string>, i: nat)
    requires issues <= keep && EdgeClosed(g.edges, keep) && p != [] && p[0] in issues && i < |p|
    requires forall i | 0 <= i < |p| - 1 :: Edge(p[i], p[i + 1]) in g.edges
    ensures p[i] in keep
  {
    if i > 0 {
      LedStays(g, issues, keep, p, i - 1);
      assert Edge(p[i - 1], p[i - 1 + 1]) in g.edges;
    }
  }
}
