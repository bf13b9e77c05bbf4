// Directed graphs of queue_job/delay.py: the dictionary of neighbour sets, its
// edge list, its roots, Kahn's topological sort and the maximal simple paths.
//
// A vertex is any hashable object; only its identity matters, here a number. Python
// iterates sets and dictionaries in an order the caller cannot rely on, so every
// such loop picks its next element arbitrarily.
module Graphs {

  newtype Vertex = n: int | 0 <= n

  type Links = map<Vertex, set<Vertex>>

  predicate Edge(g: Links, u: Vertex, v: Vertex) {
    u in g && v in g[u]
  }

  // Every neighbour is a vertex, as add_edge guarantees.
  predicate Closed(g: Links) {
    forall v :: v in g ==> g[v] <= g.Keys
  }

  function Parents(g: Links, v: Vertex): set<Vertex> {
    set u | u in g && v in g[u]
  }

  predicate NoDup<T(==)>(s: seq<T>) {
    forall i, j :: 0 <= i < j < |s| ==> s[i] != s[j]
  }

  function Elems(s: seq<Vertex>): set<Vertex> {
    set x | x in s
  }

  // ---------------------------------------------------------------- reachability

  ghost predicate Walk(g: Links, p: seq<Vertex>) {
    |p| > 0 && forall i :: 0 <= i < |p| - 1 ==> Edge(g, p[i], p[i + 1])
  }

  ghost predicate WalkBetween(g: Links, p: seq<Vertex>, u: Vertex, v: Vertex) {
    Walk(g, p) && |p| >= 2 && p[0] == u && p[|p| - 1] == v
  }

  // A walk of at least one edge leads from u to v.
  ghost predicate Reaches(g: Links, u: Vertex, v: Vertex) {
    exists p :: WalkBetween(g, p, u, v)
  }

  ghost predicate ReachesOrIs(g: Links, u: Vertex, v: Vertex) {
    u == v || Reaches(g, u, v)
  }

  ghost predicate Acyclic(g: Links) {
    forall v :: v in g ==> !Reaches(g, v, v)
  }

  lemma EdgeReaches(g: Links, u: Vertex, v: Vertex)
    requires Edge(g, u, v)
    ensures Reaches(g, u, v)
  {
    assert WalkBetween(g, [u, v], u, v);
  }

  lemma ReachesTransitive(g: Links, u: Vertex, v: Vertex, w: Vertex)
    requires Reaches(g, u, v) && Reaches(g, v, w)
    ensures Reaches(g, u, w)
  {
    var p :| WalkBetween(g, p, u, v);
    var q :| WalkBetween(g, q, v, w);
    var r := p + q[1..];
    forall i | 0 <= i < |r| - 1 ensures Edge(g, r[i], r[i + 1]) {
      if i < |p| - 1 {
        assert r[i] == p[i] && r[i + 1] == p[i + 1];
      } else {
        assert r[i] == q[i - (|p| - 1)] && r[i + 1] == q[i - (|p| - 1) + 1];
      }
    }
    assert WalkBetween(g, r, u, w);
  }

  lemma ReachesOrIsThen(g: Links, u: Vertex, v: Vertex, w: Vertex)
    requires ReachesOrIs(g, u, v) && Reaches(g, v, w)
    ensures Reaches(g, u, w)
  {
    if u != v { ReachesTransitive(g, u, v, w); }
  }

  lemma ThenReachesOrIs(g: Links, u: Vertex, v: Vertex, w: Vertex)
    requires Reaches(g, u, v) && ReachesOrIs(g, v, w)
    ensures Reaches(g, u, w)
  {
    if v != w { ReachesTransitive(g, u, v, w); }
  }

  // The last edge of a walk.
  lemma LastStep(g: Links, u: Vertex, v: Vertex) returns (w: Vertex)
    requires Reaches(g, u, v)
    ensures Edge(g, w, v) && ReachesOrIs(g, u, w)
  {
    var p :| WalkBetween(g, p, u, v);
    w := p[|p| - 2];
    assert Edge(g, p[|p| - 2], p[|p| - 2 + 1]);
    if |p| > 2 {
      assert WalkBetween(g, p[..|p| - 1], u, w);
    }
  }

  // The first edge of a walk.
  lemma FirstStep(g: Links, u: Vertex, v: Vertex) returns (w: Vertex)
    requires Reaches(g, u, v)
    ensures Edge(g, u, w) && ReachesOrIs(g, w, v)
  {
    var p :| WalkBetween(g, p, u, v);
    w := p[1];
    assert Edge(g, p[0], p[0 + 1]);
    if |p| > 2 {
      var q := p[1..];
      forall i | 0 <= i < |q| - 1 ensures Edge(g, q[i], q[i + 1]) {
        assert Edge(g, p[i + 1], p[i + 1 + 1]);
      }
      assert WalkBetween(g, q, w, v);
    }
  }

  // A set that no edge leaves holds everything reachable from its elements.
  lemma {:induction false} ClosedSetHoldsWalk(g: Links, s: set<Vertex>, p: seq<Vertex>, i: nat)
    requires Walk(g, p) && p[0] in s && i < |p|
    requires forall x, y :: x in s && Edge(g, x, y) ==> y in s
    ensures p[i] in s
  {
    if i > 0 {
      ClosedSetHoldsWalk(g, s, p, i - 1);
      assert Edge(g, p[i - 1], p[i - 1 + 1]);
    }
  }

  lemma ClosedSetHoldsReachable(g: Links, s: set<Vertex>, u: Vertex, v: Vertex)
    requires u in s && ReachesOrIs(g, u, v)
    requires forall x, y :: x in s && Edge(g, x, y) ==> y in s
    ensures v in s
  {
    if u != v {
      var p :| WalkBetween(g, p, u, v);
      ClosedSetHoldsWalk(g, s, p, |p| - 1);
    }
  }

  // If each edge of g is a walk in h, then so is each walk of g.
  lemma {:induction false} WalkLifts(g: Links, h: Links, p: seq<Vertex>)
    requires Walk(g, p) && |p| >= 2
    requires forall x, y :: Edge(g, x, y) ==> Reaches(h, x, y)
    ensures Reaches(h, p[0], p[|p| - 1])
  {
    var n := |p| - 1;
    assert Edge(g, p[n - 1], p[n - 1 + 1]);
    if n > 1 {
      WalkLifts(g, h, p[..n]);
      ReachesTransitive(h, p[0], p[n - 1], p[n]);
    }
  }

  lemma ReachesLifts(g: Links, h: Links, u: Vertex, v: Vertex)
    requires Reaches(g, u, v)
    requires forall x, y :: Edge(g, x, y) ==> Reaches(h, x, y)
    ensures Reaches(h, u, v)
  {
    var p :| WalkBetween(g, p, u, v);
    WalkLifts(g, h, p);
  }

  // ------------------------------------------------------------------ finite cycles

  lemma {:induction false} Pigeonhole(p: seq<Vertex>, s: set<Vertex>) returns (i: nat, j: nat)
    requires |p| > |s| && forall k :: 0 <= k < |p| ==> p[k] in s
    ensures i < j < |p| && p[i] == p[j]
  {
    j := |p| - 1;
    var front := p[..j];
    if p[j] in front {
      i :| 0 <= i < j && front[i] == p[j];
    } else {
      i, j := Pigeonhole(front, s - {p[j]});
    }
  }

  predicate HasParentIn(g: Links, s: set<Vertex>, v: Vertex) {
    Parents(g, v) * s != {}
  }

  // Every element has a parent inside s, so walks inside s extend backwards at will.
  lemma {:induction false} WalkBackwards(g: Links, s: set<Vertex>, v: Vertex, n: nat) returns (p: seq<Vertex>)
    requires v in s
    decreases n
    requires forall x :: x in s ==> HasParentIn(g, s, x)
    ensures |p| == n + 1 && Walk(g, p) && p[n] == v && forall i :: 0 <= i <= n ==> p[i] in s
  {
    if n == 0 {
      p := [v];
    } else {
      var u :| u in Parents(g, v) * s;
      var front := WalkBackwards(g, s, u, n - 1);
      p := front + [v];
    }
  }

  lemma SegmentReaches(g: Links, p: seq<Vertex>, i: nat, j: nat)
    requires Walk(g, p) && i < j < |p|
    ensures Reaches(g, p[i], p[j])
  {
    var q := p[i..j + 1];
    forall k | 0 <= k < |q| - 1 ensures Edge(g, q[k], q[k + 1]) {
      assert Edge(g, p[i + k], p[i + k + 1]);
    }
    assert WalkBetween(g, q, p[i], p[j]);
  }

  // A finite set in which everything has a parent hides a cycle above each element.
  lemma ParentedSetHasCycle(g: Links, s: set<Vertex>, v: Vertex) returns (u: Vertex)
    requires v in s
    requires forall x :: x in s ==> HasParentIn(g, s, x)
    ensures u in s && Reaches(g, u, u) && ReachesOrIs(g, u, v)
  {
    var p := WalkBackwards(g, s, v, |s|);
    var i, j := Pigeonhole(p, s);
    SegmentReaches(g, p, i, j);
    u := p[j];
    if j < |s| { SegmentReaches(g, p, j, |s|); }
  }

  // ------------------------------------------------------------------ topological order

  // Some vertex on a cycle is v itself or an ancestor of v.
  ghost predicate BelowCycle(g: Links, v: Vertex) {
    exists u :: ReachesOrIs(g, u, v) && Reaches(g, u, u)
  }

  // No repetition, only vertices, and all parents of each vertex come before it.
  ghost predicate ParentsFirst(g: Links, order: seq<Vertex>) {
    && NoDup(order)
    && (forall i :: 0 <= i < |order| ==> order[i] in g)
    && (forall i, u :: 0 <= i < |order| && Edge(g, u, order[i]) ==> u in order[..i])
  }

  // Nothing whose parents are all listed is missing.
  ghost predicate Exhausted(g: Links, order: seq<Vertex>) {
    forall v :: v in g && Parents(g, v) <= Elems(order) ==> v in order
  }

  lemma {:induction false} AncestorsComeFirst(g: Links, order: seq<Vertex>, p: seq<Vertex>, k: nat)
    requires ParentsFirst(g, order) && Walk(g, p) && |p| >= 2
    requires k < |order| && order[k] == p[|p| - 1]
    ensures p[0] in order[..k]
  {
    var w := p[|p| - 2];
    assert Edge(g, p[|p| - 2], p[|p| - 2 + 1]);
    if |p| > 2 {
      var j :| 0 <= j < k && order[j] == w;
      AncestorsComeFirst(g, order, p[..|p| - 1], j);
    }
  }

  lemma OrderedBeforeDescendants(g: Links, order: seq<Vertex>, u: Vertex, k: nat)
    requires ParentsFirst(g, order) && k < |order| && Reaches(g, u, order[k])
    ensures u in order[..k]
  {
    var p :| WalkBetween(g, p, u, order[k]);
    AncestorsComeFirst(g, order, p, k);
  }

  // An exhausted parents-first order lists exactly the vertices that are neither on
  // a cycle nor below one.
  lemma ExactlyTheUncycled(g: Links, order: seq<Vertex>, v: Vertex)
    requires ParentsFirst(g, order) && Exhausted(g, order)
    ensures v in order <==> v in g && !BelowCycle(g, v)
  {
    if v in order {
      var k :| 0 <= k < |order| && order[k] == v;
      if BelowCycle(g, v) {
        var u :| ReachesOrIs(g, u, v) && Reaches(g, u, u);
        if u != v { OrderedBeforeDescendants(g, order, u, k); }
        var i :| 0 <= i < |order| && order[i] == u;
        OrderedBeforeDescendants(g, order, u, i);
        assert false;
      }
    } else if v in g {
      var missing := g.Keys - Elems(order);
      forall x | x in missing ensures HasParentIn(g, missing, x) {
        var w :| w in Parents(g, x) && w !in Elems(order);
        assert w in Parents(g, x) * missing;
      }
      var u := ParentedSetHasCycle(g, missing, v);
    }
  }

  // On an acyclic graph such an order is a permutation of the vertices.
  lemma AcyclicOrderIsComplete(g: Links, order: seq<Vertex>)
    requires Closed(g) && Acyclic(g) && ParentsFirst(g, order) && Exhausted(g, order)
    ensures Elems(order) == g.Keys && |order| == |g.Keys|
  {
    forall v | v in g ensures v in order {
      ExactlyTheUncycled(g, order, v);
      if BelowCycle(g, v) {
        var u :| ReachesOrIs(g, u, v) && Reaches(g, u, u);
        var w := FirstStep(g, u, u);
        assert false;
      }
    }
    NoDupLength(order);
  }

  lemma {:induction false} NoDupLength(s: seq<Vertex>)
    requires NoDup(s)
    ensures |Elems(s)| == |s|
  {
    if s != [] {
      var n := |s| - 1;
      NoDupLength(s[..n]);
      assert Elems(s) == Elems(s[..n]) + {s[n]};
    }
  }

  lemma SortedExactly(g: Links, order: seq<Vertex>)
    requires Closed(g) && ParentsFirst(g, order) && Exhausted(g, order)
    ensures forall v :: v in order <==> v in g && !BelowCycle(g, v)
    ensures Acyclic(g) ==> Elems(order) == g.Keys && |order| == |g.Keys|
  {
    forall v ensures v in order <==> v in g && !BelowCycle(g, v) {
      ExactlyTheUncycled(g, order, v);
    }
    if Acyclic(g) { AcyclicOrderIsComplete(g, order); }
  }

  // ------------------------------------------------------------------ the Graph class

  // First components of the pairs that end in v.
  ghost function Sources(pairs: seq<(Vertex, Vertex)>, v: Vertex): set<Vertex> {
    set i | 0 <= i < |pairs| && pairs[i].1 == v :: pairs[i].0
  }

  lemma OneMoreSource(pairs: seq<(Vertex, Vertex)>, k: nat, v: Vertex)
    requires k < |pairs| && NoDup(pairs)
    ensures |Sources(pairs[..k + 1], v)| == |Sources(pairs[..k], v)| + if pairs[k].1 == v then 1 else 0
  {
    var more := if pairs[k].1 == v then {pairs[k].0} else {};
    assert Sources(pairs[..k + 1], v) == Sources(pairs[..k], v) + more by {
      forall u | u in Sources(pairs[..k], v) + more ensures u in Sources(pairs[..k + 1], v) {
        if u in Sources(pairs[..k], v) {
          var i :| 0 <= i < k && pairs[..k][i].1 == v && pairs[..k][i].0 == u;
          assert pairs[..k + 1][i] == pairs[i];
        } else {
          assert pairs[..k + 1][k] == pairs[k];
        }
      }
      forall u | u in Sources(pairs[..k + 1], v) ensures u in Sources(pairs[..k], v) + more {
        var i :| 0 <= i < k + 1 && pairs[..k + 1][i].1 == v && pairs[..k + 1][i].0 == u;
        if i < k { assert pairs[..k][i] == pairs[i]; }
      }
    }
    if pairs[k].1 == v {
      assert pairs[k].0 !in Sources(pairs[..k], v);
    }
  }

  function Count(counts: map<Vertex, int>, v: Vertex): int {
    if v in counts then counts[v] else 0
  }

  class Graph {
    var links: Links

    constructor ()
      ensures links == map[]
    {
      links := map[];
    }

    method AddVertex(v: Vertex)
      modifies this
      ensures links.Keys == old(links).Keys + {v}
      ensures forall x, y :: Edge(links, x, y) <==> Edge(old(links), x, y)
    {
      if v !in links { links := links[v := {}]; }
    }

    method AddEdge(parent: Vertex, child: Vertex)
      modifies this
      ensures links.Keys == old(links).Keys + {parent, child}
      ensures forall x, y :: Edge(links, x, y) <==> Edge(old(links), x, y) || (x == parent && y == child)
      ensures Closed(old(links)) ==> Closed(links)
    {
      AddVertex(child);
      if parent !in links { links := links[parent := {}]; }
      links := links[parent := links[parent] + {child}];
      if Closed(old(links)) {
        forall x, y | x in links && y in links[x] ensures y in links.Keys {
          assert Edge(links, x, y);
          assert Edge(old(links), x, y) || (x == parent && y == child);
        }
      }
    }

    // Each edge once.
    method Edges() returns (pairs: seq<(Vertex, Vertex)>)
      ensures NoDup(pairs)
      ensures forall u, v :: (u, v) in pairs <==> Edge(links, u, v)
    {
      pairs := [];
      var vertices := links.Keys;
      while vertices != {}
        invariant vertices <= links.Keys
        invariant NoDup(pairs)
        invariant forall u, v :: (u, v) in pairs <==> Edge(links, u, v) && u !in vertices
        decreases vertices
      {
        var vertex :| vertex in vertices;
        vertices := vertices - {vertex};
        var neighbours := links[vertex];
        while neighbours != {}
          invariant neighbours <= links[vertex]
          invariant NoDup(pairs)
          invariant forall u, v :: (u, v) in pairs <==>
              Edge(links, u, v) && u !in vertices && (u == vertex ==> v !in neighbours)
          decreases neighbours
        {
          var neighbour :| neighbour in neighbours;
          neighbours := neighbours - {neighbour};
          assert (vertex, neighbour) !in pairs;
          pairs := pairs + [(vertex, neighbour)];
        }
      }
    }

    // The vertices nothing points to, in some order.
    method RootVertices() returns (roots: set<Vertex>)
      ensures forall v :: v in roots <==> v in links && Parents(links, v) == {}
    {
      var dependent: set<Vertex> := {};
      var vertices := links.Keys;
      while vertices != {}
        invariant vertices <= links.Keys
        invariant forall v :: v in dependent <==> exists u :: u in links && u !in vertices && v in links[u]
        decreases vertices
      {
        var vertex :| vertex in vertices;
        vertices := vertices - {vertex};
        dependent := dependent + links[vertex];
      }
      roots := links.Keys - dependent;
      forall v ensures v in dependent <==> Parents(links, v) != {} {
        if u :| u in Parents(links, v) { assert u in links && v in links[u]; }
        if v in dependent {
          var u :| u in links && v in links[u];
          assert u in Parents(links, v);
        }
      }
    }

    // How many edges end in each vertex.
    method CountDependencies() returns (counts: map<Vertex, int>)
      ensures forall v :: Count(counts, v) == |Parents(links, v)|
    {
      var pairs := Edges();
      counts := map[];
      var k := 0;
      while k < |pairs|
        invariant 0 <= k <= |pairs|
        invariant forall v :: Count(counts, v) == |Sources(pairs[..k], v)|
      {
        var tail := pairs[k].1;
        forall v
          ensures |Sources(pairs[..k + 1], v)| == |Sources(pairs[..k], v)| + if v == tail then 1 else 0
        {
          OneMoreSource(pairs, k, v);
        }
        ghost var was := counts;
        counts := counts[tail := Count(counts, tail) + 1];
        forall v: Vertex ensures Count(counts, v) == |Sources(pairs[..k + 1], v)| {
          assert Count(was, v) == |Sources(pairs[..k], v)|;
        }
        k := k + 1;
      }
      assert pairs[..k] == pairs;
      forall v ensures Sources(pairs, v) == Parents(links, v) {
        forall u | u in Parents(links, v) ensures u in Sources(pairs, v) {
          assert (u, v) in pairs;
        }
        forall u | u in Sources(pairs, v) ensures u in Parents(links, v) {
          assert (u, v) in pairs;
        }
      }
    }

    // The inner loop of the sort: each neighbour of vertex waits for one parent less,
    // and those that now wait for nothing join the queue.
    method ReleaseNeighbours(vertex: Vertex, ghost order: seq<Vertex>, queue: seq<Vertex>, counts: map<Vertex, int>)
      returns (queue': seq<Vertex>, counts': map<Vertex, int>)
      requires Closed(links) && vertex in links && vertex in order
      requires Frontier(links, {vertex}, Elems(order), order + queue, counts, links[vertex])
      ensures Frontier(links, {}, Elems(order), order + queue', counts', {})
    {
      queue', counts' := queue, counts;
      var nodes := links[vertex];
      while nodes != {}
        invariant nodes <= links[vertex]
        invariant Frontier(links, {vertex}, Elems(order), order + queue', counts', nodes)
        decreases nodes
      {
        var node :| node in nodes;
        ghost var before, listed := counts', order + queue';
        counts' := counts'[node := Count(counts', node) - 1];
        if counts'[node] == 0 {
          queue' := queue' + [node];
          assert order + queue' == listed + [node];
        }
        Release(links, vertex, Elems(order), listed, before, nodes, node, counts', order + queue');
        nodes := nodes - {node};
      }
      FrontierSettles(links, vertex, Elems(order), order + queue', counts');
    }

    // The next vertex of the queue is sorted, and its neighbours are released.
    method SortNext(order: seq<Vertex>, queue: seq<Vertex>, counts: map<Vertex, int>)
      returns (order': seq<Vertex>, queue': seq<Vertex>, counts': map<Vertex, int>)
      requires Closed(links) && queue != [] && Sorting(links, order, queue, counts)
      ensures Sorting(links, order', queue', counts') && |order'| == |order| + 1 <= |links.Keys|
    {
      hide Closed, Frontier;
      var vertex := queue[0];
      assert (order + queue)[|order|] == vertex && (order + queue)[..|order|] == order;
      TakeNext(links, order, order + queue, counts);
      order' := order + [vertex];
      assert order' + queue[1..] == order + queue;
      queue', counts' := ReleaseNeighbours(vertex, order', queue[1..], counts);
      SubsetOfVertices(order', links.Keys);
    }

    // Kahn's algorithm. The source assumes an acyclic graph; on any closed graph it
    // stops, and lists exactly the vertices that no cycle blocks.
    method TopologicalSort() returns (order: seq<Vertex>)
      requires Closed(links)
      ensures ParentsFirst(links, order) && Exhausted(links, order)
      ensures forall v :: v in order <==> v in links && !BelowCycle(links, v)
      ensures Acyclic(links) ==> Elems(order) == links.Keys && |order| == |links.Keys|
    {
      hide Frontier, ParentsFirst, Exhausted, BelowCycle, Acyclic, Closed;
      var counts := CountDependencies();
      var roots := RootVertices();
      var queue := SomeOrder(roots);
      order := [];
      InitialSorting(links, queue, counts);
      while queue != []
        invariant Sorting(links, order, queue, counts)
        decreases |links.Keys| - |order|
      {
        order, queue, counts := SortNext(order, queue, counts);
      }
      assert order + queue == order;
      FrontierExhausts(links, order, counts);
      SortedExactly(links, order);
    }
  }

  // The state of the sort: the sorted and the queued vertices are the ready ones.
  ghost predicate Sorting(g: Links, order: seq<Vertex>, queue: seq<Vertex>, counts: map<Vertex, int>) {
    Frontier(g, {}, Elems(order), order + queue, counts, {}) && ParentsFirst(g, order)
  }

  lemma InitialSorting(g: Links, queue: seq<Vertex>, counts: map<Vertex, int>)
    requires NoDup(queue)
    requires forall v :: v in queue <==> v in g && Parents(g, v) == {}
    requires forall v :: Count(counts, v) == |Parents(g, v)|
    ensures Sorting(g, [], queue, counts)
  {
    InitialFrontier(g, queue, counts);
    assert [] + queue == queue;
  }

  // Parents v still waits for: those not done yet, and those in current as long as v
  // is among the nodes whose turn in current's neighbours is still to come.
  ghost function Owed(g: Links, current: set<Vertex>, done: set<Vertex>, nodes: set<Vertex>, v: Vertex): set<Vertex> {
    Parents(g, v) - (done - if v in nodes then current else {})
  }

  ghost function Ready(g: Links, current: set<Vertex>, done: set<Vertex>, nodes: set<Vertex>): set<Vertex> {
    set v | v in g && Owed(g, current, done, nodes, v) == {}
  }

  // The state of Kahn's loop: the listed vertices (sorted or queued) are exactly those
  // that wait for nothing, and the counters say how much every vertex waits for.
  ghost predicate Frontier(g: Links, current: set<Vertex>, done: set<Vertex>, listed: seq<Vertex>,
                           counts: map<Vertex, int>, nodes: set<Vertex>) {
    && NoDup(listed)
    && Elems(listed) == Ready(g, current, done, nodes)
    && CountsOwed(g, current, done, counts, nodes)
  }

  ghost predicate CountsOwed(g: Links, current: set<Vertex>, done: set<Vertex>, counts: map<Vertex, int>,
                             nodes: set<Vertex>) {
    forall v: Vertex :: Count(counts, v) == |Owed(g, current, done, nodes, v)|
  }

  lemma InitialFrontier(g: Links, listed: seq<Vertex>, counts: map<Vertex, int>)
    requires NoDup(listed)
    requires forall v :: v in listed <==> v in g && Parents(g, v) == {}
    requires forall v :: Count(counts, v) == |Parents(g, v)|
    ensures Frontier(g, {}, Elems([]), listed, counts, {})
  {
    forall v: Vertex ensures Owed(g, {}, Elems([]), {}, v) == Parents(g, v) {
    }
  }

  lemma SameOwed(g: Links, done: set<Vertex>, v: Vertex)
    requires v in g && v !in done
    ensures forall x: Vertex :: Owed(g, {v}, done + {v}, g[v], x) == Owed(g, {}, done, {}, x)
    ensures Ready(g, {v}, done + {v}, g[v]) == Ready(g, {}, done, {})
  {
    forall x: Vertex ensures Owed(g, {v}, done + {v}, g[v], x) == Owed(g, {}, done, {}, x) {
      if x !in g[v] { assert v !in Parents(g, x); }
    }
  }

  lemma NextParentsFirst(g: Links, order: seq<Vertex>, v: Vertex)
    requires ParentsFirst(g, order) && v in g && v !in order && Parents(g, v) <= Elems(order)
    ensures ParentsFirst(g, order + [v])
  {
    var longer := order + [v];
    forall i, u | 0 <= i < |longer| && Edge(g, u, longer[i]) ensures u in longer[..i] {
      if i < |order| {
        assert longer[..i] == order[..i];
      } else {
        assert longer[..i] == order;
        assert u in Parents(g, v);
      }
    }
  }

  lemma TakeNext(g: Links, order: seq<Vertex>, listed: seq<Vertex>, counts: map<Vertex, int>)
    requires Closed(g) && ParentsFirst(g, order)
    requires |order| < |listed| && listed[..|order|] == order
    requires Frontier(g, {}, Elems(order), listed, counts, {})
    ensures var v := listed[|order|];
            && v in g
            && ParentsFirst(g, order + [v])
            && Frontier(g, {v}, Elems(order + [v]), listed, counts, g[v])
  {
    var v := listed[|order|];
    assert v in Elems(listed);
    forall i | 0 <= i < |order| ensures order[i] != v {
      assert order[i] == listed[..|order|][i] == listed[i];
    }
    assert Owed(g, {}, Elems(order), {}, v) == {};
    NextParentsFirst(g, order, v);
    SameOwed(g, Elems(order), v);
    assert Elems(order + [v]) == Elems(order) + {v};
  }

  lemma OwedAfter(g: Links, vertex: Vertex, done: set<Vertex>, nodes: set<Vertex>, node: Vertex)
    requires vertex in g && vertex in done && node in nodes && nodes <= g[vertex]
    ensures var left := nodes - {node};
            && vertex in Owed(g, {vertex}, done, nodes, node)
            && |Owed(g, {vertex}, done, left, node)| == |Owed(g, {vertex}, done, nodes, node)| - 1
            && forall x: Vertex :: x != node ==>
                 Owed(g, {vertex}, done, left, x) == Owed(g, {vertex}, done, nodes, x)
  {
    var left := nodes - {node};
    assert node in g[vertex];
    assert Owed(g, {vertex}, done, left, node) == Owed(g, {vertex}, done, nodes, node) - {vertex};
  }

  lemma ReadyAfter(g: Links, vertex: Vertex, done: set<Vertex>, nodes: set<Vertex>, node: Vertex)
    requires vertex in g && vertex in done && node in nodes && nodes <= g[vertex] && node in g
    ensures node !in Ready(g, {vertex}, done, nodes)
    ensures Ready(g, {vertex}, done, nodes - {node}) ==
        Ready(g, {vertex}, done, nodes) + if Owed(g, {vertex}, done, nodes - {node}, node) == {} then {node} else {}
  {
    OwedAfter(g, vertex, done, nodes, node);
  }

  lemma CountsAfter(g: Links, vertex: Vertex, done: set<Vertex>, counts: map<Vertex, int>,
                    nodes: set<Vertex>, node: Vertex)
    requires vertex in g && vertex in done && node in nodes && nodes <= g[vertex]
    requires CountsOwed(g, {vertex}, done, counts, nodes)
    ensures CountsOwed(g, {vertex}, done, counts[node := Count(counts, node) - 1], nodes - {node})
    ensures Count(counts, node) - 1 == 0 <==> Owed(g, {vertex}, done, nodes - {node}, node) == {}
  {
    OwedAfter(g, vertex, done, nodes, node);
    var counts' := counts[node := Count(counts, node) - 1];
    forall x: Vertex ensures Count(counts', x) == |Owed(g, {vertex}, done, nodes - {node}, x)| {
      assert Count(counts, x) == |Owed(g, {vertex}, done, nodes, x)|;
    }
  }

  lemma ListOneMore(listed: seq<Vertex>, node: Vertex)
    requires NoDup(listed) && node !in Elems(listed)
    ensures NoDup(listed + [node]) && Elems(listed + [node]) == Elems(listed) + {node}
  {
  }

  lemma Release(g: Links, vertex: Vertex, done: set<Vertex>, listed: seq<Vertex>, counts: map<Vertex, int>,
                nodes: set<Vertex>, node: Vertex, counts': map<Vertex, int>, listed': seq<Vertex>)
    requires vertex in g && vertex in done && node in nodes && nodes <= g[vertex] && node in g
    requires Frontier(g, {vertex}, done, listed, counts, nodes)
    requires counts' == counts[node := Count(counts, node) - 1]
    requires listed' == if counts'[node] == 0 then listed + [node] else listed
    ensures Frontier(g, {vertex}, done, listed', counts', nodes - {node})
  {
    CountsAfter(g, vertex, done, counts, nodes, node);
    ReadyAfter(g, vertex, done, nodes, node);
    ListOneMore(listed, node);
  }

  lemma FrontierSettles(g: Links, vertex: Vertex, done: set<Vertex>, listed: seq<Vertex>, counts: map<Vertex, int>)
    requires Frontier(g, {vertex}, done, listed, counts, {})
    ensures Frontier(g, {}, done, listed, counts, {})
  {
    forall x: Vertex ensures Owed(g, {vertex}, done, {}, x) == Owed(g, {}, done, {}, x) {
    }
    assert Ready(g, {vertex}, done, {}) == Ready(g, {}, done, {});
  }

  lemma FrontierExhausts(g: Links, order: seq<Vertex>, counts: map<Vertex, int>)
    requires Frontier(g, {}, Elems(order), order, counts, {})
    ensures Exhausted(g, order)
  {
    forall v | v in g && Parents(g, v) <= Elems(order) ensures v in order {
      assert Owed(g, {}, Elems(order), {}, v) == {};
      assert v in Ready(g, {}, Elems(order), {});
    }
  }

  lemma SubsetOfVertices(order: seq<Vertex>, vertices: set<Vertex>)
    requires NoDup(order) && Elems(order) <= vertices
    ensures |order| <= |vertices|
  {
    NoDupLength(order);
    SubsetSize(Elems(order), vertices);
  }

  lemma SubsetSize(a: set<Vertex>, b: set<Vertex>)
    requires a <= b
    ensures |a| <= |b|
  {
    assert b == a + (b - a);
  }

  method SomeOrder(s: set<Vertex>) returns (r: seq<Vertex>)
    ensures NoDup(r) && forall x :: x in r <==> x in s
  {
    r := [];
    var rest := s;
    while rest != {}
      invariant rest <= s && NoDup(r)
      invariant forall x :: x in r <==> x in s && x !in rest
      decreases rest
    {
      var x :| x in rest;
      r, rest := r + [x], rest - {x};
    }
  }

  // ------------------------------------------------------------------ maximal simple paths

  ghost predicate Simple(g: Links, p: seq<Vertex>) {
    Walk(g, p) && NoDup(p) && p[|p| - 1] in g
  }

  // Every neighbour of the last vertex is already on the path.
  ghost predicate MaximalSimple(g: Links, p: seq<Vertex>) {
    Simple(g, p) && g[p[|p| - 1]] <= Elems(p)
  }

  ghost predicate Extends(path: seq<Vertex>, p: seq<Vertex>, next: set<Vertex>) {
    path < p && p[|path|] in next
  }

  // The maximal simple paths that continue path with a vertex of next, each once.
  ghost predicate ListsExtensions(g: Links, path: seq<Vertex>, next: set<Vertex>, listed: seq<seq<Vertex>>) {
    && NoDup(listed)
    && forall p :: p in listed <==> (MaximalSimple(g, p) && Extends(path, p, next))
  }

  ghost predicate ListsAll(g: Links, path: seq<Vertex>, listed: seq<seq<Vertex>>) {
    && NoDup(listed)
    && forall p :: p in listed <==> (MaximalSimple(g, p) && path <= p)
  }

  lemma NothingExtends(g: Links, path: seq<Vertex>)
    ensures ListsExtensions(g, path, {}, [])
  {
  }

  lemma StepForward(g: Links, path: seq<Vertex>, v: Vertex)
    requires Closed(g) && Simple(g, path) && v in g[path[|path| - 1]] && v !in path
    ensures Simple(g, path + [v]) && Elems(path + [v]) == Elems(path) + {v}
  {
    var longer := path + [v];
    forall i | 0 <= i < |longer| - 1 ensures Edge(g, longer[i], longer[i + 1]) {
      if i < |path| - 1 { assert Edge(g, path[i], path[i + 1]); }
    }
  }

  // Joins what is listed for some next vertices with what is listed for one more.
  lemma JoinExtensions(g: Links, path: seq<Vertex>, next: set<Vertex>, v: Vertex,
                       a: seq<seq<Vertex>>, b: seq<seq<Vertex>>)
    requires ListsExtensions(g, path, next, a) && v !in next
    requires ListsAll(g, path + [v], b)
    ensures ListsExtensions(g, path, next + {v}, a + b)
  {
    forall p ensures path + [v] <= p <==> Extends(path, p, {v}) {
      if Extends(path, p, {v}) {
        assert path + [v] == p[..|path| + 1];
      }
      if path + [v] <= p {
        assert path == p[..|path|];
      }
    }
    forall p | p in a && p in b ensures false {
    }
    forall i, j | 0 <= i < j < |a + b| ensures (a + b)[i] != (a + b)[j] {
      if i < |a| <= j {
        assert a[i] in a && b[j - |a|] in b;
      }
    }
  }

  // A vertex on the path, or no neighbour at all, continues nothing.
  lemma SkipVisited(g: Links, path: seq<Vertex>, next: set<Vertex>, v: Vertex, a: seq<seq<Vertex>>)
    requires ListsExtensions(g, path, next, a) && v in path
    ensures ListsExtensions(g, path, next + {v}, a)
  {
    forall p | Extends(path, p, {v}) ensures !MaximalSimple(g, p) {
      var i :| 0 <= i < |path| && path[i] == v;
      assert p[i] == p[|path|];
    }
  }

  lemma FinishDeadEnd(g: Links, path: seq<Vertex>, a: seq<seq<Vertex>>)
    requires Simple(g, path)
    requires ListsExtensions(g, path, g[path[|path| - 1]], a)
    ensures g[path[|path| - 1]] <= Elems(path) ==> ListsAll(g, path, a + [path])
    ensures !(g[path[|path| - 1]] <= Elems(path)) ==> ListsAll(g, path, a)
  {
    forall p | MaximalSimple(g, p) && path < p ensures Extends(path, p, g[path[|path| - 1]]) {
      var n := |path| - 1;
      assert Edge(g, p[n], p[n + 1]);
    }
    forall p | MaximalSimple(g, p) && path <= p ensures path < p || path == p {
    }
    assert path !in a;
  }

  // The generator's nested search() with the path and seen variables it shares.
  class PathSearch {
    const links: Links
    var path: seq<Vertex>
    var seen: set<Vertex>
    var found: seq<seq<Vertex>>

    constructor (g: Links, vertex: Vertex)
      ensures links == g && path == [vertex] && seen == {vertex} && found == []
    {
      links := g;
      path := [vertex];
      seen := {vertex};
      found := [];
    }

    method Search()
      requires Closed(links) && Simple(links, path) && seen == Elems(path)
      modifies this
      ensures path == old(path) && seen == old(seen)
      ensures old(found) <= found && ListsAll(links, path, found[|old(found)|..])
      decreases links.Keys - seen
    {
      hide ListsExtensions, ListsAll;
      ghost var base := |found|;
      NothingExtends(links, path);
      var deadEnd := true;
      var last := path[|path| - 1];
      var neighbours := links[last];
      assert links[last] - neighbours == {} && found[base..] == [];
      while neighbours != {}
        invariant neighbours <= links[last]
        invariant path == old(path) && seen == old(seen) && old(found) <= found
        invariant deadEnd <==> links[last] - neighbours <= seen
        invariant ListsExtensions(links, path, links[last] - neighbours, found[base..])
        decreases neighbours
      {
        var neighbour :| neighbour in neighbours;
        ghost var done := links[last] - neighbours;
        ghost var sofar := found[base..];
        neighbours := neighbours - {neighbour};
        assert links[last] - neighbours == done + {neighbour};
        if neighbour !in seen {
          deadEnd := false;
          StepForward(links, path, neighbour);
          ghost var shorter, count := path, |found|;
          seen := seen + {neighbour};
          path := path + [neighbour];
          Search();
          path := path[..|path| - 1];
          seen := seen - {neighbour};
          assert path == shorter;
          assert found[base..] == sofar + found[count..];
          JoinExtensions(links, path, done, neighbour, sofar, found[count..]);
        } else {
          SkipVisited(links, path, done, neighbour, sofar);
        }
      }
      assert links[last] - neighbours == links[last];
      FinishDeadEnd(links, path, found[base..]);
      if deadEnd {
        ghost var extensions := found[base..];
        found := found + [path];
        assert found[base..] == extensions + [path];
      }
    }
  }

  // paths(vertex): exactly the maximal cycle-free paths from vertex, each once, on any
  // closed graph, cyclic ones included.
  method Paths(g: Links, vertex: Vertex) returns (found: seq<seq<Vertex>>)
    requires Closed(g) && vertex in g
    ensures NoDup(found)
    ensures forall p :: p in found <==> MaximalSimple(g, p) && p[0] == vertex
  {
    var search := new PathSearch(g, vertex);
    search.Search();
    found := search.found;
    assert search.found[0..] == found;
    forall p | p != [] ensures [vertex] <= p <==> p[0] == vertex {
    }
  }
}
