/** The lineage of a run: the guarded walk along parent references. */
module CycleLineage {
  import opened Text

  /** A node of the issue graph; a run without a parent has the empty reference. */
  datatype Node = Node(isRun: bool, runId: string, parent: string)

  datatype Lineage = Lineage(depth: nat, kicker: Option<string>, origin: Option<string>)

  /** The parent reference of each run; of two runs with one id the later counts. */
  function Parents(nodes: seq<Node>): map<string, string> {
    if nodes == [] then map[]
    else
      var before, last := Parents(nodes[..|nodes| - 1]), nodes[|nodes| - 1];
      if last.isRun then before[last.runId := last.parent] else before
  }

  /** The references met from runId on: each is the parent of the one before, and
      none of those whose parent has been followed occurs twice. */
  ghost predicate Walk(m: map<string, string>, runId: string, path: seq<string>) {
    && path != [] && path[0] == runId
    && (forall i | 0 <= i < |path| - 1 :: Follows(m, path, i))
    && (forall i, j | 0 <= i < j < |path| - 1 :: path[i] != path[j])
  }

  /** The parent reference of the i-th run of the path is the next one. */
  predicate Follows(m: map<string, string>, path: seq<string>, i: nat)
    requires i + 1 < |path|
  {
    path[i] in m && path[i] != "" && m[path[i]] == path[i + 1] && path[i + 1] != ""
  }

  function Last(path: seq<string>): string
    requires path != []
  {
    path[|path| - 1]
  }

  /** A run without a parent. */
  predicate Root(m: map<string, string>, id: string) {
    id != "" && id in m && m[id] == ""
  }

  /** The walk can go no further: no run, a run already passed, a reference to a run
      that is not in the graph, or a run without a parent. */
  predicate Ended(m: map<string, string>, path: seq<string>)
    requires path != []
  {
    var id := Last(path);
    id == "" || id in path[..|path| - 1] || id !in m || m[id] == ""
  }

  /** What a complete walk says: its length, its first parent, and its root, if it has
      got to one. */
  ghost predicate Tells(m: map<string, string>, runId: string, path: seq<string>, r: Lineage) {
    && Walk(m, runId, path) && Ended(m, path)
    && r.depth == |path| - 1
    && r.kicker == (if |path| == 1 then None else Some(path[1]))
    && r.origin == (if |path| > 1 && Root(m, Last(path)) then Some(Last(path)) else None)
  }

  method ComputeCycleLineage(nodes: seq<Node>, runId: string) returns (r: Lineage)
    ensures exists path :: Tells(Parents(nodes), runId, path, r)
    ensures exists path :: TellsOf(nodes, runId, path, r)
  {
    var byId: map<string, string> := map[];
    for i := 0 to |nodes|
      invariant byId == Parents(nodes[..i])
    {
      assert nodes[..i + 1][..i] == nodes[..i];
      if nodes[i].isRun {
        byId := byId[nodes[i].runId := nodes[i].parent];
      }
    }
    assert nodes[..|nodes|] == nodes;
    var cursor, depth := runId, 0;
    var kicker: Option<string>, origin: Option<string> := None, None;
    var visited: set<string> := {};
    ghost var path := [runId];
    while cursor != ""
      invariant Walk(byId, runId, path) && cursor == Last(path) && depth == |path| - 1
      invariant visited == set id | id in path[..depth]
      invariant kicker == (if depth == 0 then None else Some(path[1]))
      invariant origin == None
      decreases byId.Keys - visited
    {
      PassedIsNoRoot(byId, runId, path);
      if cursor in visited {
        break;
      }
      visited := visited + {cursor};
      if cursor !in byId {
        break;
      }
      var parent := byId[cursor];
      if parent == "" {
        origin := if depth == 0 then None else Some(cursor);
        break;
      }
      if depth == 0 {
        kicker := Some(parent);
      }
      depth := depth + 1;
      path := Extended(byId, runId, path, parent);
      cursor := parent;
    }
    r := Lineage(depth, kicker, origin);
    assert Tells(byId, runId, path, r);
    TellsOfNodes(nodes, runId, path, r);
  }

  // ----- The walk in terms of the nodes

  predicate HasRun(nodes: seq<Node>, id: string) {
    exists i :: 0 <= i < |nodes| && nodes[i].isRun && nodes[i].runId == id
  }

  /** The last run node with this id is the one at i. */
  predicate RunAt(nodes: seq<Node>, i: nat, id: string) {
    && i < |nodes| && nodes[i].isRun && nodes[i].runId == id
    && forall j | i < j < |nodes| :: !(nodes[j].isRun && nodes[j].runId == id)
  }

  ghost predicate ParentIs(nodes: seq<Node>, id: string, parent: string) {
    exists i :: 0 <= i < |nodes| && RunAt(nodes, i, id) && nodes[i].parent == parent
  }

  /** The map has the ids of the run nodes, each with the parent of its last node. */
  lemma {:induction false} ParentsAre(nodes: seq<Node>, id: string)
    ensures id in Parents(nodes) <==> HasRun(nodes, id)
    ensures forall parent :: ParentIs(nodes, id, parent) <==> id in Parents(nodes) && Parents(nodes)[id] == parent
  {
    if nodes != [] {
      var n := |nodes| - 1;
      var front, last := nodes[..n], nodes[n];
      ParentsAre(front, id);
      assert nodes == front + [last];
      if last.isRun && last.runId == id {
        assert RunAt(nodes, n, id);
      } else {
        forall parent
          ensures ParentIs(nodes, id, parent) <==> ParentIs(front, id, parent)
        {
          assert forall i | 0 <= i < n :: RunAt(nodes, i, id) <==> RunAt(front, i, id);
        }
      }
    }
  }

  ghost predicate LeadsOn(nodes: seq<Node>, path: seq<string>, i: nat) {
    i + 1 < |path| && path[i] != "" && path[i + 1] != "" && ParentIs(nodes, path[i], path[i + 1])
  }

  /** What ComputeCycleLineage says, without the map. */
  ghost predicate TellsOf(nodes: seq<Node>, runId: string, path: seq<string>, r: Lineage) {
    && path != [] && path[0] == runId
    && (forall i | 0 <= i < |path| - 1 :: LeadsOn(nodes, path, i))
    && (forall i, j | 0 <= i < j < |path| - 1 :: path[i] != path[j])
    && var last := Last(path);
       && (last == "" || last in path[..|path| - 1] || !HasRun(nodes, last) || ParentIs(nodes, last, ""))
       && r.depth == |path| - 1
       && r.kicker == (if |path| == 1 then None else Some(path[1]))
       && r.origin == (if |path| > 1 && last != "" && ParentIs(nodes, last, "") then Some(last) else None)
  }

  lemma TellsOfNodes(nodes: seq<Node>, runId: string, path: seq<string>, r: Lineage)
    requires Tells(Parents(nodes), runId, path, r)
    ensures TellsOf(nodes, runId, path, r)
  {
    hide HasRun, ParentIs;
    var m := Parents(nodes);
    forall i | 0 <= i < |path| - 1
      ensures LeadsOn(nodes, path, i)
    {
      assert Follows(m, path, i);
      ParentsAre(nodes, path[i]);
    }
    ParentsAre(nodes, Last(path));
  }

  lemma PassedIsNoRoot(m: map<string, string>, runId: string, path: seq<string>)
    requires Walk(m, runId, path)
    ensures forall id | id in path[..|path| - 1] :: !Root(m, id)
  {
    forall i | 0 <= i < |path| - 1
      ensures !Root(m, path[i])
    {
      assert Follows(m, path, i);
    }
  }

  ghost function Extended(m: map<string, string>, runId: string, path: seq<string>, parent: string): (longer: seq<string>)
    requires Walk(m, runId, path) && !Ended(m, path) && parent == m[Last(path)]
    ensures Walk(m, runId, longer) && Last(longer) == parent && |longer| == |path| + 1
    ensures longer[..|path| - 1] == path[..|path| - 1] && longer[|path| - 1] == Last(path)
    ensures longer[..|path|] == path[..|path| - 1] + [Last(path)]
  {
    var n := |path| - 1;
    var longer := path + [parent];
    assert forall i | 0 <= i < n :: longer[i] == path[..n][i] && path[..n][i] in path[..n];
    assert forall i | 0 <= i < n :: Follows(m, path, i) ==> Follows(m, longer, i);
    assert Follows(m, longer, n);
    longer
  }

  /** The walk of a run is determined by the graph. */
  lemma WalkIsUnique(m: map<string, string>, runId: string, a: seq<string>, b: seq<string>)
    requires Walk(m, runId, a) && Ended(m, a) && Walk(m, runId, b) && Ended(m, b)
    ensures a == b
  {
    if |a| <= |b| {
      Prefix(m, runId, a, b, |a|);
      NotEnded(m, runId, a, b);
    } else {
      Prefix(m, runId, b, a, |b|);
      NotEnded(m, runId, b, a);
    }
  }

  lemma {:induction false} Prefix(m: map<string, string>, runId: string, a: seq<string>, b: seq<string>, n: nat)
    requires Walk(m, runId, a) && Walk(m, runId, b) && n <= |a| <= |b|
    ensures a[..n] == b[..n]
  {
    if n > 1 {
      Prefix(m, runId, a, b, n - 1);
      assert a[n - 2] == a[..n - 1][n - 2] == b[n - 2];
      assert Follows(m, a, n - 2) && Follows(m, b, n - 2);
    }
  }

  /** A walk that can be extended has not ended. */
  lemma NotEnded(m: map<string, string>, runId: string, short: seq<string>, long: seq<string>)
    requires Walk(m, runId, long) && Walk(m, runId, short) && |short| <= |long| && short == long[..|short|]
    ensures |short| < |long| ==> !Ended(m, short)
    ensures |short| == |long| ==> short == long
  {
    var n := |short| - 1;
    if |short| < |long| {
      assert Follows(m, long, n);
      assert forall i | 0 <= i < n :: short[..n][i] == long[i] != long[n];
    }
  }

  /** On any graph, cyclic or with dangling references, the depth is at most the
      number of runs. */
  lemma DepthIsBounded(m: map<string, string>, runId: string, path: seq<string>)
    requires Walk(m, runId, path)
    ensures |path| - 1 <= |m|
  {
    var followed := path[..|path| - 1];
    forall id | id in followed
      ensures id in m
    {
      var i :| 0 <= i < |followed| && followed[i] == id;
      assert Follows(m, path, i);
    }
    Distinct(followed);
    assert m.Keys == Elements(followed) + (m.Keys - Elements(followed));
  }

  function Elements(s: seq<string>): set<string> {
    set x | x in s
  }

  lemma {:induction false} Distinct(s: seq<string>)
    requires forall i, j | 0 <= i < j < |s| :: s[i] != s[j]
    ensures |Elements(s)| == |s|
  {
    if s != [] {
      var n := |s| - 1;
      Distinct(s[..n]);
      assert s == s[..n] + [s[n]];
      assert Elements(s) == Elements(s[..n]) + {s[n]};
    }
  }

  // ----- Ancestors

  /** Following k parent references from a leads to b. */
  predicate Above(m: map<string, string>, a: string, b: string, k: nat)
    decreases k
  {
    if k == 0 then a == b
    else a in m && a != "" && m[a] != "" && Above(m, m[a], b, k - 1)
  }

  ghost predicate Ancestor(m: map<string, string>, a: string, b: string) {
    exists k :: k > 0 && Above(m, a, b, k)
  }

  lemma {:induction false} WalkAbove(m: map<string, string>, runId: string, path: seq<string>, i: nat, b: string, k: nat)
    requires Walk(m, runId, path) && i + k < |path|
    ensures Above(m, path[i], b, k) <==> b == path[i + k]
    decreases k
  {
    if k > 0 {
      assert Follows(m, path, i);
      WalkAbove(m, runId, path, i + 1, b, k - 1);
    }
  }

  /** Nothing lies above a root. */
  lemma {:induction false} PastRoot(m: map<string, string>, runId: string, path: seq<string>, i: nat, b: string, k: nat)
    requires Walk(m, runId, path) && Root(m, Last(path)) && i < |path| <= i + k
    ensures !Above(m, path[i], b, k)
    decreases k
  {
    if i + 1 < |path| {
      assert Follows(m, path, i);
      PastRoot(m, runId, path, i + 1, b, k - 1);
    }
  }

  /** Where the walk ends at a root, the runs it has met after the first are exactly
      the ancestors, and the depth is their number. */
  lemma DepthCountsAncestors(m: map<string, string>, runId: string, path: seq<string>)
    requires Walk(m, runId, path) && Root(m, Last(path))
    ensures forall b :: Ancestor(m, runId, b) <==> b in Elements(path[1..])
    ensures |Elements(path[1..])| == |path| - 1
  {
    forall b
      ensures Ancestor(m, runId, b) <==> b in Elements(path[1..])
    {
      if b in path[1..] {
        var j :| 0 <= j < |path| - 1 && path[1..][j] == b;
        WalkAbove(m, runId, path, 0, b, j + 1);
        assert Above(m, runId, b, j + 1);
      }
      if k :| k > 0 && Above(m, runId, b, k) {
        if k < |path| {
          WalkAbove(m, runId, path, 0, b, k);
          assert b == path[1..][k - 1];
        } else {
          PastRoot(m, runId, path, 0, b, k);
        }
      }
    }
    RootIsNew(m, runId, path);
    Distinct(path[1..]);
  }

  lemma RootIsNew(m: map<string, string>, runId: string, path: seq<string>)
    requires Walk(m, runId, path) && Root(m, Last(path))
    ensures forall i, j | 0 <= i < j < |path| :: path[i] != path[j]
  {
    PassedIsNoRoot(m, runId, path);
    assert forall i | 0 <= i < |path| - 1 :: path[..|path| - 1][i] == path[i];
  }

  /** Every parent is in the graph, and no run is its own ancestor. */
  ghost predicate ClosedAndAcyclic(m: map<string, string>) {
    && (forall id | id in m && m[id] != "" :: m[id] in m)
    && forall id :: !Ancestor(m, id, id)
  }

  lemma AboveIsAncestor(m: map<string, string>, a: string, b: string, k: nat)
    requires k > 0 && Above(m, a, b, k)
    ensures Ancestor(m, a, b)
  {}

  /** On a closed, acyclic graph the walk of every run ends at its root. */
  lemma WalkReachesRoot(m: map<string, string>, runId: string, path: seq<string>)
    requires Walk(m, runId, path) && Ended(m, path)
    requires ClosedAndAcyclic(m) && runId in m && runId != ""
    ensures Root(m, Last(path))
  {
    var n := |path| - 1;
    if Last(path) in path[..n] {
      var i :| 0 <= i < n && path[..n][i] == Last(path);
      WalkAbove(m, runId, path, i, Last(path), n - i);
      AboveIsAncestor(m, Last(path), Last(path), n - i);
    }
    if n > 0 {
      assert Follows(m, path, n - 1);
    }
  }

  ghost predicate OnlyRoot(m: map<string, string>, runId: string, id: string) {
    Root(m, id) && Ancestor(m, runId, id) && forall b | Ancestor(m, runId, b) && Root(m, b) :: b == id
  }

  /** On such a graph the depth is the number of ancestors, the kicker the parent, and the
      origin the one root among the ancestors. */
  lemma LineageOnAcyclic(m: map<string, string>, runId: string, path: seq<string>, r: Lineage) returns (ancestors: set<string>)
    requires Tells(m, runId, path, r) && ClosedAndAcyclic(m) && runId in m && runId != ""
    ensures (forall b :: Ancestor(m, runId, b) <==> b in ancestors) && r.depth == |ancestors|
    ensures r.kicker == if m[runId] == "" then None else Some(m[runId])
    ensures if m[runId] == "" then r.origin == None else r.origin.Some? && OnlyRoot(m, runId, r.origin.value)
  {
    ancestors := Elements(path[1..]);
    WalkReachesRoot(m, runId, path);
    DepthCountsAncestors(m, runId, path);
    if |path| > 1 {
      assert Follows(m, path, 0);
      assert path[1..][|path| - 2] == Last(path);
      forall b | Ancestor(m, runId, b) && Root(m, b)
        ensures b == Last(path)
      {
        PassedIsNoRoot(m, runId, path);
        assert b in path[1..] && path == path[..|path| - 1] + [Last(path)];
      }
    }
  }

  // ----- Acyclic graphs in terms of the nodes

  /** Parent references lead from a to b. */
  ghost predicate Chain(nodes: seq<Node>, chain: seq<string>, a: string, b: string) {
    && |chain| > 1 && chain[0] == a && Last(chain) == b
    && forall i | 0 <= i < |chain| - 1 :: LeadsOn(nodes, chain, i)
  }

  ghost predicate AncestorOf(nodes: seq<Node>, a: string, b: string) {
    exists chain :: Chain(nodes, chain, a, b)
  }

  lemma {:induction false} ChainIsAbove(nodes: seq<Node>, chain: seq<string>, a: string, b: string)
    requires Chain(nodes, chain, a, b)
    ensures Above(Parents(nodes), a, b, |chain| - 1)
    decreases |chain|
  {
    hide ParentIs;
    assert LeadsOn(nodes, chain, 0);
    ParentsAre(nodes, a);
    if |chain| > 2 {
      var rest := chain[1..];
      assert forall i | 0 <= i < |rest| - 1 :: LeadsOn(nodes, chain, i + 1) ==> LeadsOn(nodes, rest, i);
      ChainIsAbove(nodes, rest, chain[1], b);
    }
  }

  lemma {:induction false} AboveIsChain(nodes: seq<Node>, a: string, b: string, k: nat) returns (chain: seq<string>)
    requires k > 0 && Above(Parents(nodes), a, b, k)
    ensures Chain(nodes, chain, a, b)
    decreases k
  {
    hide ParentIs;
    var m := Parents(nodes);
    ParentsAre(nodes, a);
    if k == 1 {
      chain := [a, b];
      assert Above(m, m[a], b, 0);
    } else {
      var rest := AboveIsChain(nodes, m[a], b, k - 1);
      chain := [a] + rest;
      assert forall i | 1 <= i < |chain| - 1 :: LeadsOn(nodes, rest, i - 1) ==> LeadsOn(nodes, chain, i);
    }
  }

  lemma AncestorsAgree(nodes: seq<Node>, a: string, b: string)
    ensures AncestorOf(nodes, a, b) <==> Ancestor(Parents(nodes), a, b)
  {
    hide Chain, Above;
    if chain :| Chain(nodes, chain, a, b) {
      LongEnough(nodes, chain, a, b);
      ChainIsAbove(nodes, chain, a, b);
      AboveIsAncestor(Parents(nodes), a, b, |chain| - 1);
    }
    if k :| k > 0 && Above(Parents(nodes), a, b, k) {
      var chain := AboveIsChain(nodes, a, b, k);
    }
  }

  lemma LongEnough(nodes: seq<Node>, chain: seq<string>, a: string, b: string)
    requires Chain(nodes, chain, a, b)
    ensures |chain| > 1
  {}

  /** Every parent is the id of a run, and no run is its own ancestor. */
  ghost predicate WellFounded(nodes: seq<Node>) {
    && (forall id, parent | ParentIs(nodes, id, parent) && parent != "" :: HasRun(nodes, parent))
    && forall id :: !AncestorOf(nodes, id, id)
  }

  /** The result on such a graph: how many ancestors the run has, its parent, and the one
      among the ancestors that has no parent. */
  lemma LineageOfNodes(nodes: seq<Node>, runId: string, path: seq<string>, r: Lineage) returns (ancestors: set<string>)
    requires Tells(Parents(nodes), runId, path, r) && WellFounded(nodes) && HasRun(nodes, runId) && runId != ""
    ensures (forall b :: AncestorOf(nodes, runId, b) <==> b in ancestors) && r.depth == |ancestors|
    ensures r.kicker == None <==> ParentIs(nodes, runId, "")
    ensures r.kicker.Some? ==> ParentIs(nodes, runId, r.kicker.value)
    ensures if ParentIs(nodes, runId, "") then r.origin == None
            else r.origin.Some? && forall b :: b == r.origin.value <==> AncestorOf(nodes, runId, b) && ParentIs(nodes, b, "")
  {
    hide HasRun, ParentIs, AncestorOf, Ancestor, Tells;
    var m := Parents(nodes);
    forall id
      ensures id in m <==> HasRun(nodes, id)
      ensures forall parent :: ParentIs(nodes, id, parent) <==> id in m && m[id] == parent
    {
      ParentsAre(nodes, id);
    }
    forall a, b
      ensures AncestorOf(nodes, a, b) <==> Ancestor(m, a, b)
    {
      AncestorsAgree(nodes, a, b);
    }
    forall id | id in m && m[id] != ""
      ensures m[id] in m
    {
      assert ParentIs(nodes, id, m[id]);
    }
    assert forall id :: !AncestorOf(nodes, id, id) ==> !Ancestor(m, id, id);
    ancestors := LineageOnAcyclic(m, runId, path, r);
    forall b | AncestorOf(nodes, runId, b)
      ensures b != ""
    {
      NoEmptyAncestor(m, runId, b);
    }
  }

  lemma NoEmptyAncestor(m: map<string, string>, a: string, b: string)
    requires Ancestor(m, a, b)
    ensures b != ""
  {
    var k :| k > 0 && Above(m, a, b, k);
    AboveNotEmpty(m, a, b, k);
  }

  lemma {:induction false} AboveNotEmpty(m: map<string, string>, a: string, b: string, k: nat)
    requires k > 0 && Above(m, a, b, k)
    ensures b != ""
    decreases k
  {
    if k > 1 {
      AboveNotEmpty(m, m[a], b, k - 1);
    } else {
      assert Above(m, m[a], b, 0);
    }
  }
}
