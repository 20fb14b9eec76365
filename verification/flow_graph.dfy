/** Directed graphs of workflow nodes: walks, reachability, cycles, and the two searches over them. */
module FlowGraph {
  type NodeId = string

  /** Adjacency lists. A reference to an id outside the map is not an edge. */
  type Graph = map<NodeId, seq<NodeId>>

  predicate Edge(g: Graph, u: NodeId, v: NodeId) {
    u in g && v in g && v in g[u]
  }

  ghost predicate Walk(g: Graph, p: seq<NodeId>) {
    && p != []
    && (forall i | 0 <= i < |p| :: p[i] in g)
    && (forall i | 0 <= i < |p| - 1 :: Edge(g, p[i], p[i + 1]))
  }

  ghost predicate WalkBetween(g: Graph, p: seq<NodeId>, u: NodeId, v: NodeId) {
    Walk(g, p) && p[0] == u && p[|p| - 1] == v
  }

  ghost predicate Reach(g: Graph, u: NodeId, v: NodeId) {
    exists p :: WalkBetween(g, p, u, v)
  }

  ghost predicate ClosedWalk(g: Graph, p: seq<NodeId>) {
    Walk(g, p) && |p| >= 2 && p[0] == p[|p| - 1]
  }

  ghost predicate Cyclic(g: Graph) {
    exists p :: ClosedWalk(g, p)
  }

  // ---- Walks

  lemma ReachSelf(g: Graph, u: NodeId)
    requires u in g
    ensures Reach(g, u, u)
  {
    assert WalkBetween(g, [u], u, u);
  }

  lemma ExtendReach(g: Graph, u: NodeId, v: NodeId, w: NodeId)
    requires Reach(g, u, v) && Edge(g, v, w)
    ensures Reach(g, u, w)
  {
    var p :| WalkBetween(g, p, u, v);
    var q := p + [w];
    assert forall i | 0 <= i < |q| - 1 :: Edge(g, q[i], q[i + 1]);
    assert WalkBetween(g, q, u, w);
  }

  lemma PrependReach(g: Graph, u: NodeId, v: NodeId, w: NodeId)
    requires Edge(g, u, v) && Reach(g, v, w)
    ensures Reach(g, u, w)
  {
    var p :| WalkBetween(g, p, v, w);
    var q := [u] + p;
    forall i | 0 <= i < |q| - 1
      ensures Edge(g, q[i], q[i + 1])
    {
      if i > 0 {
        assert Edge(g, p[i - 1], p[i]);
      }
    }
    assert WalkBetween(g, q, u, w);
  }

  /** An edge back to a node it is reachable from closes a cycle. */
  lemma BackEdgeCycle(g: Graph, u: NodeId, v: NodeId)
    requires Edge(g, u, v) && Reach(g, v, u)
    ensures Cyclic(g)
  {
    var p :| WalkBetween(g, p, v, u);
    var q := p + [v];
    assert forall i | 0 <= i < |q| - 1 :: Edge(g, q[i], q[i + 1]);
    assert ClosedWalk(g, q);
  }

  lemma SubWalk(g: Graph, p: seq<NodeId>, i: nat, j: nat)
    requires Walk(g, p) && i < j <= |p|
    ensures Walk(g, p[i..j])
  {
    forall k | 0 <= k < j - i - 1
      ensures Edge(g, p[i..j][k], p[i..j][k + 1])
    {
      assert Edge(g, p[i + k], p[i + k + 1]);
    }
  }

  /** No walk of an acyclic graph meets a node twice. */
  lemma AcyclicWalkDistinct(g: Graph, p: seq<NodeId>, i: nat, j: nat)
    requires Walk(g, p) && !Cyclic(g) && i < j < |p|
    ensures p[i] != p[j]
  {
    if p[i] == p[j] {
      SubWalk(g, p, i, j + 1);
      assert ClosedWalk(g, p[i..j + 1]);
    }
  }

  lemma {:induction false} DistinctInSet(p: seq<NodeId>, s: set<NodeId>)
    requires forall x | x in p :: x in s
    requires forall i, j | 0 <= i < j < |p| :: p[i] != p[j]
    ensures |p| <= |s|
  {
    if p == [] {
    } else {
      var last := p[|p| - 1];
      DistinctInSet(p[..|p| - 1], s - {last});
    }
  }

  /** A walk of an acyclic graph is no longer than the graph has nodes. */
  lemma AcyclicWalkLength(g: Graph, p: seq<NodeId>)
    requires Walk(g, p) && !Cyclic(g)
    ensures |p| <= |g|
  {
    forall i, j | 0 <= i < j < |p|
      ensures p[i] != p[j]
    {
      AcyclicWalkDistinct(g, p, i, j);
    }
    DistinctInSet(p, g.Keys);
  }

  /** A set that contains `u` and is closed under edges contains everything reachable from `u`. */
  lemma {:induction false} ClosedContains(g: Graph, s: set<NodeId>, p: seq<NodeId>)
    requires Walk(g, p) && p[0] in s
    requires forall x, y | x in s && Edge(g, x, y) :: y in s
    ensures p[|p| - 1] in s
  {
    if |p| > 1 {
      SubWalk(g, p, 0, |p| - 1);
      ClosedContains(g, s, p[..|p| - 1]);
      assert Edge(g, p[|p| - 2], p[|p| - 1]);
    }
  }

  /** Ranks that fall along every edge rule out cycles. */
  lemma {:induction false} RankFalls(g: Graph, rank: map<NodeId, nat>, p: seq<NodeId>)
    requires Walk(g, p) && |p| >= 2
    requires forall x | x in g :: x in rank
    requires forall x, y | Edge(g, x, y) :: rank[y] < rank[x]
    ensures rank[p[|p| - 1]] < rank[p[0]]
  {
    assert Edge(g, p[|p| - 2], p[|p| - 1]);
    if |p| > 2 {
      SubWalk(g, p, 0, |p| - 1);
      RankFalls(g, rank, p[..|p| - 1]);
    }
  }

  // ---- Worklist reachability

  /** Nodes found by following references from `start` with an explicit stack. */
  method Reachable(g: Graph, start: NodeId) returns (reachable: set<NodeId>)
    ensures forall v :: v in reachable <==> Reach(g, start, v)
  {
    reachable := {};
    var stack := [start];
    if start in g {
      ReachSelf(g, start);
    }
    while stack != []
      invariant reachable <= g.Keys
      invariant forall v | v in reachable :: Reach(g, start, v)
      invariant forall v | v in stack && v in g :: Reach(g, start, v)
      invariant start in g ==> start in reachable || start in stack
      invariant forall u, v | u in reachable && Edge(g, u, v) :: v in reachable || v in stack
      decreases g.Keys - reachable, |stack|
    {
      var cur := stack[|stack| - 1];
      ghost var before := stack;
      stack := stack[..|stack| - 1];
      assert forall v | v in before :: v in stack || v == cur;
      if cur in reachable || cur !in g {
        continue;
      }
      reachable := reachable + {cur};
      forall v | v in g[cur] && v in g
        ensures Reach(g, start, v)
      {
        ExtendReach(g, start, cur, v);
      }
      stack := stack + g[cur];
    }
    forall v | Reach(g, start, v)
      ensures v in reachable
    {
      var p :| WalkBetween(g, p, start, v);
      ClosedContains(g, reachable, p);
    }
  }

  // ---- Three-colour depth-first search

  datatype Color = White | Gray | Black

  class CycleFinder {
    const g: Graph
    var color: map<NodeId, Color>
    var path: seq<NodeId>
    var cycles: seq<seq<NodeId>>
    /** The finishing times of black nodes, and the next time to hand out. */
    ghost var rank: map<NodeId, nat>
    ghost var clock: nat

    constructor (g: Graph)
      ensures this.g == g && path == [] && cycles == []
      ensures color == map v | v in g :: White
      ensures Valid()
    {
      this.g := g;
      color := map v | v in g :: White;
      path, cycles := [], [];
      rank, clock := map[], 0;
    }

    ghost predicate Valid()
      reads this
    {
      && color.Keys == g.Keys
      // the gray nodes are the current path, each once
      && (path != [] ==> Walk(g, path))
      && (forall i, j | 0 <= i < j < |path| :: path[i] != path[j])
      && (forall v :: v in path <==> v in color && color[v] == Gray)
      // every reported cycle is one
      && (forall c | c in cycles :: ClosedWalk(g, c))
      && Finished()
    }

    /** While nothing has been reported, black nodes point only to black nodes that finished earlier. */
    ghost predicate Finished()
      reads this
    {
      && (forall v | v in color && color[v] == Black :: v in rank && rank[v] < clock)
      && (cycles == [] ==>
            forall u, v | u in color && color[u] == Black && Edge(g, u, v) ::
              v in color && color[v] == Black && rank[v] < rank[u])
    }

    method Visit(node: NodeId)
      requires Valid() && node in color && color[node] == White
      requires path != [] ==> Edge(g, path[|path| - 1], node)
      modifies this
      ensures Valid() && path == old(path) && Later(old(color), color)
      ensures node in color && color[node] == Black
      ensures old(cycles) <= cycles
      decreases Whites(color), 0
    {
      ghost var before := color;
      Enter(node);
      EnteringShrinks(before, node);
      FollowAll(node);
      Leave(node);
    }

    /** Follow every edge from the end of the path. */
    method FollowAll(node: NodeId)
      requires Valid() && path != [] && path[|path| - 1] == node
      modifies this
      ensures Valid() && path == old(path) && Later(old(color), color)
      ensures old(cycles) <= cycles
      ensures cycles == [] ==> forall v | Edge(g, node, v) :: color[v] == Black
      decreases Whites(color), 2
    {
      ghost var entered := color;
      var refs := g[node];
      var i := 0;
      while i < |refs|
        invariant 0 <= i <= |refs|
        invariant Valid() && path == old(path) && Later(entered, color)
        invariant old(cycles) <= cycles
        invariant cycles == [] ==> LeadToBlack(refs[..i], color)
      {
        ghost var reached, before := color, cycles;
        LaterShrinks(entered, reached);
        Follow(node, refs[i]);
        LaterStays(entered, reached, color);
        if cycles == [] {
          assert before == [];
          OneMoreBlack(refs, i, reached, color);
        }
        i := i + 1;
      }
      assert refs[..i] == refs;
    }

    /** Follow one edge from the end of the path. */
    method Follow(node: NodeId, ref: NodeId)
      requires Valid() && path != [] && path[|path| - 1] == node && ref in g[node]
      modifies this
      ensures Valid() && path == old(path) && Later(old(color), color)
      ensures old(cycles) <= cycles
      ensures cycles == [] && ref in color ==> color[ref] == Black
      decreases Whites(color), 1
    {
      if ref !in color {
        return;
      }
      if color[ref] == Gray {
        Report(ref);
      } else if color[ref] == White {
        Visit(ref);
      }
    }

    /** Paint a white node gray and put it on the path. */
    method Enter(node: NodeId)
      requires Valid() && node in color && color[node] == White
      requires path != [] ==> Edge(g, path[|path| - 1], node)
      modifies this
      ensures Valid() && path == old(path) + [node] && color == old(color)[node := Gray]
      ensures cycles == old(cycles)
    {
      color := color[node := Gray];
      path := path + [node];
    }

    /** An edge from the end of the path back onto it is a cycle. */
    method Report(ref: NodeId)
      requires Valid() && path != [] && Edge(g, path[|path| - 1], ref)
      requires ref in color && color[ref] == Gray
      modifies this
      ensures Valid() && path == old(path) && color == old(color)
      ensures |cycles| == |old(cycles)| + 1 && old(cycles) <= cycles
    {
      var at := IndexOf(path, ref);
      CycleIsClosed(g, path, at);
      cycles := cycles + [path[at..] + [ref]];
    }

    /** Paint the end of the path black and take it off. */
    method Leave(node: NodeId)
      requires Valid() && path != [] && path[|path| - 1] == node
      requires cycles == [] ==> forall v | Edge(g, node, v) :: color[v] == Black
      modifies this
      ensures Valid() && path == old(path)[..|old(path)| - 1] && color == old(color)[node := Black]
      ensures cycles == old(cycles)
    {
      if |path| > 1 {
        SubWalk(g, path, 0, |path| - 1);
      }
      path := path[..|path| - 1];
      color := color[node := Black];
      rank := rank[node := clock];
      clock := clock + 1;
    }
  }

  ghost function Whites(color: map<NodeId, Color>): set<NodeId> {
    set v | v in color && color[v] == White
  }

  /** Colours only advance, and nothing is gray that was not. */
  ghost predicate Later(before: map<NodeId, Color>, after: map<NodeId, Color>) {
    && before.Keys == after.Keys
    && (forall v | v in before :: if before[v] == White then after[v] != Gray else after[v] == before[v])
  }

  lemma EnteringShrinks(color: map<NodeId, Color>, node: NodeId)
    requires node in color && color[node] == White
    ensures Whites(color[node := Gray]) < Whites(color)
  {
    assert node in Whites(color) && node !in Whites(color[node := Gray]);
  }

  /** Edges to known nodes lead to black ones. */
  ghost predicate LeadToBlack(refs: seq<NodeId>, color: map<NodeId, Color>) {
    forall v | v in refs && v in color :: color[v] == Black
  }

  lemma OneMoreBlack(refs: seq<NodeId>, i: nat, before: map<NodeId, Color>, after: map<NodeId, Color>)
    requires i < |refs| && Later(before, after)
    requires LeadToBlack(refs[..i], before) && (refs[i] in after ==> after[refs[i]] == Black)
    ensures LeadToBlack(refs[..i + 1], after)
  {
    assert refs[..i + 1] == refs[..i] + [refs[i]];
  }

  lemma LaterStays(a: map<NodeId, Color>, b: map<NodeId, Color>, c: map<NodeId, Color>)
    requires Later(a, b) && Later(b, c)
    ensures Later(a, c)
    ensures forall v | v in b && b[v] == Black :: c[v] == Black
  {
  }

  lemma LaterShrinks(before: map<NodeId, Color>, after: map<NodeId, Color>)
    requires Later(before, after)
    ensures Whites(after) <= Whites(before)
  {
  }

  method IndexOf(s: seq<NodeId>, x: NodeId) returns (i: nat)
    requires x in s
    ensures i < |s| && s[i] == x
  {
    i := 0;
    while s[i] != x
      invariant i < |s| && x in s[i..]
      decreases |s| - i
    {
      i := i + 1;
    }
  }

  lemma CycleIsClosed(g: Graph, path: seq<NodeId>, at: nat)
    requires Walk(g, path) && at < |path|
    requires Edge(g, path[|path| - 1], path[at])
    ensures ClosedWalk(g, path[at..] + [path[at]])
  {
    var q := path[at..] + [path[at]];
    SubWalk(g, path, at, |path|);
    forall i | 0 <= i < |q| - 1
      ensures Edge(g, q[i], q[i + 1])
    {
      if i < |q| - 2 {
        assert Edge(g, path[at + i], path[at + i + 1]);
      }
    }
  }

  /**
   Searches for cycles from `start` in a graph all of which is reachable from it. Something is
   reported exactly when the graph has a cycle, and every report is a closed walk along edges.
   */
  method FindCycles(g: Graph, start: NodeId) returns (cycles: seq<seq<NodeId>>)
    requires forall v | v in g :: Reach(g, start, v)
    ensures cycles != [] <==> Cyclic(g)
    ensures forall c | c in cycles :: ClosedWalk(g, c)
  {
    var finder := new CycleFinder(g);
    if start in finder.color {
      finder.Visit(start);
    }
    cycles := finder.cycles;
    StartIsInside(g, start);
    if cycles != [] {
      assert ClosedWalk(g, cycles[0]);
    } else if start in g {
      AllBlack(finder, start);
    }
  }

  /** A graph all of which is reachable from `start` contains it, unless it is empty. */
  lemma StartIsInside(g: Graph, start: NodeId)
    requires forall v | v in g :: Reach(g, start, v)
    ensures Cyclic(g) ==> start in g
  {
    if Cyclic(g) {
      var c :| ClosedWalk(g, c);
      var p :| WalkBetween(g, p, start, c[0]);
    }
  }

  lemma AllBlack(finder: CycleFinder, start: NodeId)
    requires finder.Valid() && finder.cycles == []
    requires start in finder.g && finder.color[start] == Black
    requires forall v | v in finder.g :: Reach(finder.g, start, v)
    ensures !Cyclic(finder.g)
  {
    var g := finder.g;
    var black := set v | v in finder.color && finder.color[v] == Black;
    forall v | v in g
      ensures v in black
    {
      var p :| WalkBetween(g, p, start, v);
      ClosedContains(g, black, p);
    }
    forall p | ClosedWalk(g, p)
      ensures false
    {
      RankFalls(g, finder.rank, p);
    }
  }
}
