/** The order of a row of the system graph: nodes stand in the order in which the edges
    of the nodes before them lead to them. */
module RowOrder {
  import opened SystemGraph

  /** The edge at a position, followed from the node at a position of the row (or the root). */
  datatype Finder = Finder(source: nat, edge: nat)

  predicate Before(a: Finder, b: Finder) {
    a.source < b.source || (a.source == b.source && a.edge < b.edge)
  }

  predicate Follows(g: Graph, order: seq<string>, f: Finder) {
    && f.source < |order| && f.edge < |g.edges|
    && g.edges[f.edge].source == order[f.source] && g.edges[f.edge].target in Ids(g.nodes)
  }

  /** The node at each position has been found by following by[i]. */
  ghost predicate FoundBy(g: Graph, order: seq<string>, via: seq<Finder>) {
    && |via| + 1 == |order|
    && (forall i | 0 <= i < |via| :: Follows(g, order, via[i]) && g.edges[via[i].edge].target == order[i + 1])
    && forall i, j | 0 <= i < j < |via| :: Before(via[i], via[j])
  }

  /** What f leads to is the root, or has been found by f or something before it. */
  ghost predicate Known(g: Graph, order: seq<string>, via: seq<Finder>, f: Finder)
    requires f.edge < |g.edges| && |order| == |via| + 1
  {
    g.edges[f.edge].target == order[0] || exists i :: 0 <= i < |via| && order[i + 1] == g.edges[f.edge].target && !Before(f, via[i])
  }

  /** The search has got to the finder at. */
  ghost predicate Searched(g: Graph, root: string, s: Search, via: seq<Finder>, at: Finder) {
    var order := Order(root, s);
    && FoundBy(g, order, via)
    && (forall i | 0 <= i < |via| :: Before(via[i], at))
    && (forall f | Follows(g, order, f) && Before(f, at) :: Known(g, order, via, f))
    && (forall id | id in Ids(g.nodes) :: id in s.seen <==> id in order)
    && order[0] in s.seen
  }

  lemma OrderGrows(root: string, s: Search, t: Search, node: Node)
    requires t.nodes == s.nodes + [node]
    ensures Order(root, t) == Order(root, s) + [node.id]
  {}

  /** One edge of the node at the position at.source. */
  lemma EdgeSearched(g: Graph, root: string, s: Search, via: seq<Finder>, at: Finder) returns (more: seq<Finder>)
    requires Searched(g, root, s, via, at) && at.edge < |g.edges| && at.source < |Order(root, s)|
    ensures var e := g.edges[at.edge];
            var t := if e.source == Order(root, s)[at.source] then Visit(g, e, s) else s;
            && Searched(g, root, t, more, Finder(at.source, at.edge + 1))
            && Order(root, s) <= Order(root, t)
  {
    var order, e := Order(root, s), g.edges[at.edge];
    FindFinds(g.nodes, e.target);
    more := via;
    if e.source == order[at.source] && e.target !in s.seen && Find(g.nodes, e.target).Some? {
      var node := Find(g.nodes, e.target).value;
      var t := Visit(g, e, s);
      OrderGrows(root, s, t, node);
      more := via + [at];
      NewFinder(g, order, via, at, node.id);
    } else {
      OldFinder(g, root, s, via, at);
    }
  }

  lemma NewFinder(g: Graph, order: seq<string>, via: seq<Finder>, at: Finder, id: string)
    requires FoundBy(g, order, via) && Follows(g, order, at) && g.edges[at.edge].target == id
    requires forall i | 0 <= i < |via| :: Before(via[i], at)
    requires forall f | Follows(g, order, f) && Before(f, at) :: Known(g, order, via, f)
    ensures FoundBy(g, order + [id], via + [at])
    ensures forall f | Follows(g, order + [id], f) && Before(f, Finder(at.source, at.edge + 1)) :: Known(g, order + [id], via + [at], f)
  {
    var order', via' := order + [id], via + [at];
    assert forall i | 0 <= i < |via| :: via'[i] == via[i] && order'[i + 1] == order[i + 1];
    forall f | Follows(g, order', f) && Before(f, Finder(at.source, at.edge + 1))
      ensures Known(g, order', via', f)
    {
      if f == at {
        assert via'[|via|] == f && order'[|via| + 1] == id;
      } else {
        assert Follows(g, order, f) && Before(f, at);
        if g.edges[f.edge].target != order[0] {
          var i :| 0 <= i < |via| && order[i + 1] == g.edges[f.edge].target && !Before(f, via[i]);
          assert via'[i] == via[i] && order'[i + 1] == order[i + 1];
        }
      }
    }
  }

  lemma OldFinder(g: Graph, root: string, s: Search, via: seq<Finder>, at: Finder)
    requires Searched(g, root, s, via, at) && at.edge < |g.edges| && at.source < |Order(root, s)|
    requires var e := g.edges[at.edge];
             e.source == Order(root, s)[at.source] ==> e.target in s.seen || e.target !in Ids(g.nodes)
    ensures var e := g.edges[at.edge];
            var t := if e.source == Order(root, s)[at.source] then Visit(g, e, s) else s;
            && Searched(g, root, t, via, Finder(at.source, at.edge + 1)) && Order(root, t) == Order(root, s)
  {
    var order, e := Order(root, s), g.edges[at.edge];
    FindFinds(g.nodes, e.target);
    forall f | Follows(g, order, f) && Before(f, Finder(at.source, at.edge + 1))
      ensures Known(g, order, via, f)
    {
      if f == at {
        assert e.target in order;
        var i :| 0 <= i < |order| && order[i] == e.target;
        if i > 0 {
          assert order[i - 1 + 1] == e.target && Before(via[i - 1], at);
        }
      }
    }
  }

  /** The edges from a position on. */
  lemma {:induction false} EdgesSearched(g: Graph, root: string, s: Search, via: seq<Finder>, at: Finder) returns (more: seq<Finder>)
    requires Searched(g, root, s, via, at) && at.edge <= |g.edges| && at.source < |Order(root, s)|
    ensures var t := VisitAll(g, OutEdges(g.edges[at.edge..], Order(root, s)[at.source]), s);
            && Searched(g, root, t, more, Finder(at.source, |g.edges|)) && Order(root, s) <= Order(root, t)
    decreases |g.edges| - at.edge
  {
    hide Searched, Visit, Order;
    if at.edge == |g.edges| {
      more := via;
    } else {
      var source, e, rest := Order(root, s)[at.source], g.edges[at.edge], OutEdges(g.edges[at.edge + 1..], Order(root, s)[at.source]);
      var next := EdgeSearched(g, root, s, via, at);
      var t := if e.source == source then Visit(g, e, s) else s;
      assert g.edges[at.edge..][1..] == g.edges[at.edge + 1..];
      assert [] + rest == rest && ([e] + rest)[1..] == rest;
      more := EdgesSearched(g, root, t, next, Finder(at.source, at.edge + 1));
    }
  }

  /** After the last edge of a node comes the first of the next. */
  lemma NextSource(g: Graph, root: string, s: Search, via: seq<Finder>, source: nat)
    requires Searched(g, root, s, via, Finder(source, |g.edges|))
    ensures Searched(g, root, s, via, Finder(source + 1, 0))
  {}

  lemma {:induction false} FinishSearched(g: Graph, root: string, s: Search, via: seq<Finder>, done: nat) returns (all: seq<Finder>)
    requires Searched(g, root, s, via, Finder(done, 0)) && done <= |Order(root, s)| && s.queue == Order(root, s)[done..]
    ensures var end := Finish(g, s); Searched(g, root, end, all, Finder(|Order(root, end)|, 0))
    decreases Work(g, s)
  {
    hide Searched, Visit, Order;
    if s.queue == [] {
      all := via;
    } else {
      var order, source := Order(root, s), s.queue[0];
      var shifted := s.(queue := s.queue[1..]);
      SameOrder(g, root, s, shifted, via, Finder(done, 0));
      assert g.edges[0..] == g.edges;
      var more := EdgesSearched(g, root, shifted, via, Finder(done, 0));
      VisitsQueue(g, root, OutEdges(g.edges, source), shifted, done + 1);
      NextSource(g, root, Next(g, s), more, done);
      all := FinishSearched(g, root, Next(g, s), more, done + 1);
    }
  }

  lemma SameOrder(g: Graph, root: string, s: Search, t: Search, via: seq<Finder>, at: Finder)
    requires Searched(g, root, s, via, at) && t.nodes == s.nodes && t.seen == s.seen
    ensures Searched(g, root, t, via, at) && Order(root, t) == Order(root, s)
  {}

  /** Nodes are queued as they are found. */
  lemma {:induction false} VisitsQueue(g: Graph, root: string, edges: seq<Edge>, s: Search, done: nat)
    requires done <= |Order(root, s)| && s.queue == Order(root, s)[done..]
    ensures var t := VisitAll(g, edges, s); done <= |Order(root, t)| && t.queue == Order(root, t)[done..]
    decreases |edges|
  {
    if edges != [] {
      var t := Visit(g, edges[0], s);
      if t.nodes != s.nodes {
        OrderGrows(root, s, t, t.nodes[|s.nodes|]);
      }
      assert t.queue == Order(root, t)[done..];
      VisitsQueue(g, root, edges[1..], t, done);
    }
  }

  /** Every node of a row is found by following an edge from the root or a node before it, the
      first that leads to it; and nodes stand in the order of the edges that find them. */
  lemma RowStandsInOrder(g: Graph, root: string) returns (via: seq<Finder>)
    ensures var order := [root] + seq(|Row(g, root)|, i requires 0 <= i < |Row(g, root)| => Row(g, root)[i].id);
            FoundBy(g, order, via) && forall f | Follows(g, order, f) :: Known(g, order, via, f)
  {
    var start := Start(root);
    assert Order(root, start) == [root];
    assert Searched(g, root, start, [], Finder(0, 0));
    via := FinishSearched(g, root, start, [], 0);
  }
}
