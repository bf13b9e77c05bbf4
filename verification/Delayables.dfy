// The delayables, chains and groups of queue_job/delay.py, and the worklist that
// flattens everything they mention into one graph of delayables.
module Delayables {
  import opened Graphs

  lemma SameLinks(g: Links, h: Links)
    requires g.Keys == h.Keys
    requires forall v, w :: Edge(g, v, w) <==> Edge(h, v, w)
    ensures g == h
  {
    forall v | v in g ensures g[v] == h[v] {
      forall w ensures w in g[v] <==> w in h[v] {
        assert Edge(g, v, w) <==> Edge(h, v, w);
      }
    }
  }

  // What an object is. A chain keeps the order of its arguments, a group only the set.
  datatype Element =
    | Leaf
    | Chain(elems: seq<Vertex>)
    | Group(members: set<Vertex>)

  // Every object alive when delay() is called: what it is, and the delayables that were
  // passed to its on_done(). Objects are numbered in the order of their creation.
  datatype Forest = Forest(kind: map<Vertex, Element>, after: map<Vertex, set<Vertex>>)

  function Parts(e: Element): set<Vertex> {
    match e
    case Leaf => {}
    case Chain(elems) => set x | x in elems
    case Group(members) => members
  }

  // The parts of an object exist before it, and DelayableChain() needs an argument.
  // on_done() may link any two objects, in cycles too.
  ghost predicate Valid(f: Forest) {
    && f.kind.Keys == f.after.Keys
    && forall n :: n in f.kind ==>
         && (forall p :: p in Parts(f.kind[n]) ==> p in f.kind && p < n)
         && (f.kind[n].Chain? ==> f.kind[n].elems != [])
         && f.after[n] <= f.kind.Keys
  }

  function At(elems: seq<Vertex>, front: bool): Vertex
    requires elems != []
  {
    if front then elems[0] else elems[|elems| - 1]
  }

  // _head() for front, _tail() otherwise. The head of a chain is the *tail* of its first
  // element, and its tail is the *head* of its last element, as the source has it.
  function Ends(f: Forest, n: Vertex, front: bool): set<Vertex>
    requires Valid(f) && n in f.kind
    decreases n
  {
    match f.kind[n]
    case Leaf => {n}
    case Chain(elems) =>
      assert At(elems, front) in Parts(f.kind[n]);
      Ends(f, At(elems, front), !front)
    case Group(members) =>
      assert members == Parts(f.kind[n]);
      set m, h | m in members && h in Ends(f, m, front) :: h
  }

  function Head(f: Forest, n: Vertex): set<Vertex>
    requires Valid(f) && n in f.kind
  {
    Ends(f, n, true)
  }

  function Tail(f: Forest, n: Vertex): set<Vertex>
    requires Valid(f) && n in f.kind
  {
    Ends(f, n, false)
  }

  // ------------------------------------------------------------------ an object's own graph

  // An empty group has no member to link from, so its on_done() records nothing.
  function OwnVertices(f: Forest, n: Vertex): (vertices: set<Vertex>)
    requires Valid(f) && n in f.kind
    ensures vertices <= f.kind.Keys
  {
    match f.kind[n]
    case Leaf => {n} + f.after[n]
    case Chain(elems) => Parts(f.kind[n]) + f.after[n]
    case Group(members) => if members == {} then {} else members + f.after[n]
  }

  predicate Consecutive(elems: seq<Vertex>, v: Vertex, w: Vertex) {
    exists i :: 0 <= i < |elems| - 1 && elems[i] == v && elems[i + 1] == w
  }

  // The link v -> w of the graph kept by object n: consecutive elements of a chain, and
  // from the last element, every member or the leaf itself to what on_done() received.
  predicate OwnLink(f: Forest, n: Vertex, v: Vertex, w: Vertex)
    requires Valid(f) && n in f.kind
  {
    match f.kind[n]
    case Leaf => v == n && w in f.after[n]
    case Chain(elems) =>
      || Consecutive(elems, v, w)
      || (v == elems[|elems| - 1] && w in f.after[n])
    case Group(members) => v in members && w in f.after[n]
  }

  function OwnLinks(f: Forest, n: Vertex): (g: Links)
    requires Valid(f) && n in f.kind
    ensures Closed(g)
  {
    map v | v in OwnVertices(f, n) :: set w | w in OwnVertices(f, n) && OwnLink(f, n, v, w)
  }

  lemma OwnLinksEdges(f: Forest, n: Vertex)
    requires Valid(f) && n in f.kind
    ensures forall v, w :: Edge(OwnLinks(f, n), v, w) <==> OwnLink(f, n, v, w)
  {
  }

  lemma OwnLinksUnique(f: Forest, n: Vertex, g: Links)
    requires Valid(f) && n in f.kind && g.Keys == OwnVertices(f, n)
    requires forall v, w :: Edge(g, v, w) <==> OwnLink(f, n, v, w)
    ensures g == OwnLinks(f, n)
  {
    OwnLinksEdges(f, n);
    SameLinks(g, OwnLinks(f, n));
  }

  function Linked(sources: set<Vertex>, targets: set<Vertex>): set<Vertex> {
    if sources == {} || targets == {} then {} else sources + targets
  }

  // on_done(targets) on an object whose graph links from sources.
  method OnDone(graph: Graph, sources: set<Vertex>, targets: set<Vertex>)
    modifies graph
    ensures graph.links.Keys == old(graph.links).Keys + Linked(sources, targets)
    ensures forall v, w :: Edge(graph.links, v, w) <==>
              (Edge(old(graph.links), v, w) || (v in sources && w in targets))
  {
    var parents := sources;
    while parents != {}
      invariant parents <= sources
      invariant graph.links.Keys == old(graph.links).Keys + Linked(sources - parents, targets)
      invariant forall v, w :: Edge(graph.links, v, w) <==>
                  (Edge(old(graph.links), v, w) || (v in sources - parents && w in targets))
      decreases parents
    {
      var parent :| parent in parents;
      ghost var done := sources - parents;
      parents := parents - {parent};
      assert sources - parents == done + {parent};
      var children := targets;
      while children != {}
        invariant children <= targets
        invariant graph.links.Keys == old(graph.links).Keys + Linked(done, targets) + Linked({parent}, targets - children)
        invariant forall v, w :: Edge(graph.links, v, w) <==>
                    (|| Edge(old(graph.links), v, w)
                     || (v in done && w in targets)
                     || (v == parent && w in targets - children))
        decreases children
      {
        var child :| child in children;
        children := children - {child};
        graph.AddEdge(parent, child);
      }
      assert targets - children == targets;
    }
    assert sources - parents == sources;
  }

  // DelayableChain(*elems): an edge between each element and the next.
  method ChainGraph(elems: seq<Vertex>) returns (graph: Graph, tail: Vertex)
    requires elems != []
    ensures fresh(graph) && tail == elems[|elems| - 1]
    ensures graph.links.Keys == Elems(elems)
    ensures forall v, w :: Edge(graph.links, v, w) <==> Consecutive(elems, v, w)
  {
    hide Consecutive, Elems;
    graph := new Graph();
    var head := elems[0];
    graph.AddVertex(head);
    NotConsecutive(head);
    assert elems[..1] == [head];
    var i := 1;
    while i < |elems|
      invariant 1 <= i <= |elems| && head == elems[i - 1]
      invariant graph.links.Keys == Elems(elems[..i])
      invariant forall v, w :: Edge(graph.links, v, w) <==> Consecutive(elems[..i], v, w)
    {
      var neighbour := elems[i];
      graph.AddEdge(head, neighbour);
      assert elems[..i + 1] == elems[..i] + [neighbour];
      ConsecutiveGrows(elems[..i], neighbour);
      head := neighbour;
      i := i + 1;
    }
    assert elems[..i] == elems;
    tail := head;
  }

  lemma NotConsecutive(x: Vertex)
    ensures Elems([x]) == {x} && forall v, w :: !Consecutive([x], v, w)
  {
  }

  lemma ConsecutiveGrows(elems: seq<Vertex>, x: Vertex)
    requires elems != []
    ensures elems[|elems| - 1] in Elems(elems) && Elems(elems + [x]) == Elems(elems) + {x}
    ensures forall v, w :: Consecutive(elems + [x], v, w) <==>
              (Consecutive(elems, v, w) || (v == elems[|elems| - 1] && w == x))
  {
    var longer := elems + [x];
    forall v, w
      ensures Consecutive(longer, v, w) <==> (Consecutive(elems, v, w) || (v == elems[|elems| - 1] && w == x))
    {
      if Consecutive(elems, v, w) {
        var i :| 0 <= i < |elems| - 1 && elems[i] == v && elems[i + 1] == w;
        assert longer[i] == v && longer[i + 1] == w;
      }
      if v == elems[|elems| - 1] && w == x {
        assert longer[|elems| - 1] == v && longer[|elems| - 1 + 1] == w;
      }
      if Consecutive(longer, v, w) {
        var i :| 0 <= i < |longer| - 1 && longer[i] == v && longer[i + 1] == w;
        if i < |elems| - 1 { assert elems[i] == v && elems[i + 1] == w; }
      }
    }
  }

  // DelayableGroup(*members): no edge.
  method GroupGraph(members: set<Vertex>) returns (graph: Graph)
    ensures fresh(graph) && graph.links.Keys == members
    ensures forall v, w :: !Edge(graph.links, v, w)
  {
    graph := new Graph();
    var rest := members;
    while rest != {}
      invariant rest <= members
      invariant graph.links.Keys == members - rest
      invariant forall v, w :: !Edge(graph.links, v, w)
      decreases rest
    {
      var member :| member in rest;
      rest := rest - {member};
      graph.AddVertex(member);
    }
  }

  // The constructor of the object followed by its on_done() calls.
  method OwnGraph(f: Forest, n: Vertex) returns (graph: Graph)
    requires Valid(f) && n in f.kind
    ensures fresh(graph) && graph.links == OwnLinks(f, n)
  {
    hide Consecutive, OwnLinks;
    ChainHasElements(f, n);
    match f.kind[n] {
      case Leaf =>
        graph := new Graph();
        graph.AddVertex(n);
        OnDone(graph, {n}, f.after[n]);
      case Chain(elems) =>
        var tail;
        graph, tail := ChainGraph(elems);
        OnDone(graph, {tail}, f.after[n]);
      case Group(members) =>
        graph := GroupGraph(members);
        OnDone(graph, members, f.after[n]);
    }
    hide Valid;
    OwnLinksUnique(f, n, graph.links);
  }

  lemma ChainHasElements(f: Forest, n: Vertex)
    requires Valid(f) && n in f.kind
    ensures f.kind[n].Chain? ==> f.kind[n].elems != []
  {
  }

  // ------------------------------------------------------------------ _merge_graph

  // t is a tail of one of the given vertices.
  ghost predicate TailOf(f: Forest, vertices: set<Vertex>, t: Vertex)
    requires Valid(f) && vertices <= f.kind.Keys
  {
    exists v :: v in vertices && t in Tail(f, v)
  }

  // t is a tail of one of the given vertices of g, and h a head of one of its neighbours.
  ghost predicate LinkOf(f: Forest, g: Links, vertices: set<Vertex>, t: Vertex, h: Vertex)
    requires Valid(f) && g.Keys <= f.kind.Keys && Closed(g) && vertices <= g.Keys
  {
    exists v, w :: v in vertices && w in g[v] && t in Tail(f, v) && h in Head(f, w)
  }

  // links' is links with the given vertices of g merged into it.
  ghost predicate Merged(f: Forest, g: Links, vertices: set<Vertex>, links: Links, links': Links)
    requires Valid(f) && g.Keys <= f.kind.Keys && Closed(g) && vertices <= g.Keys
  {
    && (forall t :: t in links' <==> (t in links || TailOf(f, vertices, t)))
    && (forall t, h :: Edge(links', t, h) <==> (Edge(links, t, h) || LinkOf(f, g, vertices, t, h)))
  }

  function HeadsOf(f: Forest, vertices: set<Vertex>): set<Vertex>
    requires Valid(f) && vertices <= f.kind.Keys
  {
    set n, h | n in vertices && h in Head(f, n) :: h
  }

  lemma MergeOneVertex(f: Forest, g: Links, done: set<Vertex>, v: Vertex, links: Links, links': Links, links'': Links)
    requires Valid(f) && g.Keys <= f.kind.Keys && Closed(g) && done <= g.Keys && v in g
    requires Merged(f, g, done, links, links')
    requires links''.Keys == links'.Keys + Tail(f, v)
    requires forall t, h :: Edge(links'', t, h) <==>
               (Edge(links', t, h) || (t in Tail(f, v) && h in HeadsOf(f, g[v])))
    ensures Merged(f, g, done + {v}, links, links'')
  {
    forall t, h ensures LinkOf(f, g, done + {v}, t, h) <==>
        (LinkOf(f, g, done, t, h) || (t in Tail(f, v) && h in HeadsOf(f, g[v])))
    {
      if t in Tail(f, v) && h in HeadsOf(f, g[v]) {
        var w :| w in g[v] && h in Head(f, w);
        assert v in done + {v} && w in g[v];
      }
    }
  }

  // target gains the tails of every vertex of g, each linked to the heads of every
  // neighbour of that vertex, and nothing else.
  method MergeGraph(f: Forest, target: Graph, g: Links)
    requires Valid(f) && g.Keys <= f.kind.Keys && Closed(g)
    modifies target
    ensures Merged(f, g, g.Keys, old(target.links), target.links)
  {
    var vertices := g.Keys;
    assert g.Keys - vertices == {};
    while vertices != {}
      invariant vertices <= g.Keys
      invariant Merged(f, g, g.Keys - vertices, old(target.links), target.links)
      decreases vertices
    {
      var vertex :| vertex in vertices;
      ghost var done, links := g.Keys - vertices, target.links;
      vertices := vertices - {vertex};
      LinkTails(target, Tail(f, vertex), HeadsOf(f, g[vertex]));
      MergeOneVertex(f, g, done, vertex, old(target.links), links, target.links);
      assert g.Keys - vertices == done + {vertex};
    }
    assert g.Keys - vertices == g.Keys;
  }

  // setdefault(tail, set()).update(heads), for each of the tails.
  method LinkTails(target: Graph, tails: set<Vertex>, heads: set<Vertex>)
    modifies target
    ensures target.links.Keys == old(target.links).Keys + tails
    ensures forall t, h :: Edge(target.links, t, h) <==>
              (Edge(old(target.links), t, h) || (t in tails && h in heads))
  {
    var rest := tails;
    while rest != {}
      invariant rest <= tails
      invariant target.links.Keys == old(target.links).Keys + (tails - rest)
      invariant forall t, h :: Edge(target.links, t, h) <==>
                  (Edge(old(target.links), t, h) || (t in tails && t !in rest && h in heads))
      decreases rest
    {
      var tail :| tail in rest;
      rest := rest - {tail};
      var was := if tail in target.links then target.links[tail] else {};
      target.links := target.links[tail := was + heads];
    }
  }

  // ------------------------------------------------------------------ _connect_graphs

  // links is the union of the own graphs of the objects in s, tails joined to heads.
  ghost predicate IsFlattening(f: Forest, s: set<Vertex>, links: Links)
    requires Valid(f) && s <= f.kind.Keys
  {
    && (forall t :: t in links <==> exists m :: m in s && TailOf(f, OwnVertices(f, m), t))
    && (forall t, h :: Edge(links, t, h) <==> exists m :: m in s && LinkOf(f, OwnLinks(f, m), OwnVertices(f, m), t, h))
  }

  // Which objects the own graph of each object mentions.
  function Mentions(f: Forest): Links
    requires Valid(f)
  {
    map n | n in f.kind :: OwnVertices(f, n)
  }

  // The object itself and everything its graph leads to.
  ghost function Component(f: Forest, start: Vertex): set<Vertex>
    requires Valid(f)
  {
    set n | n in f.kind && ReachesOrIs(Mentions(f), start, n)
  }

  // Merging the graph of an object that has been merged before changes nothing.
  lemma MergedTwice(f: Forest, s: set<Vertex>, m: Vertex, links: Links, links': Links)
    requires Valid(f) && s <= f.kind.Keys && m in s
    requires IsFlattening(f, s, links)
    requires Merged(f, OwnLinks(f, m), OwnVertices(f, m), links, links')
    ensures links' == links
  {
    SameLinks(links', links);
  }

  lemma MergedOnceMore(f: Forest, s: set<Vertex>, m: Vertex, links: Links, links': Links)
    requires Valid(f) && s <= f.kind.Keys && m in f.kind
    requires IsFlattening(f, s, links)
    requires Merged(f, OwnLinks(f, m), OwnVertices(f, m), links, links')
    ensures IsFlattening(f, s + {m}, links')
  {
  }

  // The graph of one vertex is merged and queued.
  method MergeOwn(f: Forest, graph: Graph, vertex: Vertex, queue: seq<Vertex>, ghost merged: set<Vertex>)
    returns (queue': seq<Vertex>)
    requires Valid(f) && vertex in f.kind && merged <= f.kind.Keys && IsFlattening(f, merged, graph.links)
    modifies graph
    ensures IsFlattening(f, merged + {vertex}, graph.links)
    ensures Elems(queue') == Elems(queue) + {vertex}
  {
    hide IsFlattening, Merged, Valid;
    ghost var links := graph.links;
    var own := OwnGraph(f, vertex);
    assert own.links.Keys == OwnVertices(f, vertex);
    MergeGraph(f, graph, own.links);
    MergedOnceMore(f, merged, vertex, links, graph.links);
    queue' := queue + [vertex];
  }

  // The graph of every given vertex is merged and queued.
  method MergeAll(f: Forest, graph: Graph, vertices: set<Vertex>, queue: seq<Vertex>, ghost merged: set<Vertex>)
    returns (queue': seq<Vertex>)
    requires Valid(f) && vertices <= f.kind.Keys && merged <= f.kind.Keys
    requires IsFlattening(f, merged, graph.links)
    modifies graph
    ensures IsFlattening(f, merged + vertices, graph.links)
    ensures Elems(queue') == Elems(queue) + vertices
  {
    hide IsFlattening, Valid;
    queue' := queue;
    var rest := vertices;
    assert merged + (vertices - rest) == merged;
    while rest != {}
      invariant rest <= vertices
      invariant Elems(queue') == Elems(queue) + (vertices - rest)
      invariant IsFlattening(f, merged + (vertices - rest), graph.links)
      decreases rest
    {
      var vertex :| vertex in rest;
      ghost var sofar := merged + (vertices - rest);
      rest := rest - {vertex};
      queue' := MergeOwn(f, graph, vertex, queue', sofar);
      assert merged + (vertices - rest) == sofar + {vertex};
    }
    assert vertices - rest == vertices;
  }

  // What the worklist keeps: everything merged is part of the component, and each object
  // is either seen, with all its vertices merged, or still queued.
  ghost predicate Exploring(f: Forest, start: Vertex, seen: set<Vertex>, queued: set<Vertex>)
    requires Valid(f)
  {
    && start in seen + queued
    && (forall n :: n in seen + queued ==> n in f.kind && ReachesOrIs(Mentions(f), start, n))
    && (forall n :: n in seen ==> OwnVertices(f, n) <= seen + queued)
  }

  lemma VisitExplores(f: Forest, start: Vertex, seen: set<Vertex>, queued: set<Vertex>, current: Vertex)
    requires Valid(f) && Exploring(f, start, seen, queued + {current})
    ensures Exploring(f, start, seen + {current}, queued + OwnVertices(f, current))
  {
    forall n | n in OwnVertices(f, current) ensures ReachesOrIs(Mentions(f), start, n) {
      assert Edge(Mentions(f), current, n);
      EdgeReaches(Mentions(f), current, n);
      ReachesOrIsThen(Mentions(f), start, current, n);
    }
  }

  lemma ExploredIsComponent(f: Forest, start: Vertex, seen: set<Vertex>)
    requires Valid(f) && Exploring(f, start, seen, {})
    ensures seen == Component(f, start)
  {
    forall n | n in Component(f, start) ensures n in seen {
      ClosedSetHoldsReachable(Mentions(f), seen, start, n);
    }
  }

  // The state of the worklist.
  ghost predicate Connecting(f: Forest, start: Vertex, seen: set<Vertex>, queued: set<Vertex>, links: Links)
    requires Valid(f)
  {
    Exploring(f, start, seen, queued) && IsFlattening(f, seen + queued, links)
  }

  lemma SkipSeen(f: Forest, start: Vertex, seen: set<Vertex>, queued: set<Vertex>, links: Links, current: Vertex)
    requires Valid(f) && Connecting(f, start, seen, queued + {current}, links) && current in seen
    ensures Connecting(f, start, seen, queued, links)
  {
    assert seen + (queued + {current}) == seen + queued;
  }

  lemma Connected(f: Forest, start: Vertex, seen: set<Vertex>, links: Links)
    requires Valid(f) && Connecting(f, start, seen, {}, links)
    ensures IsFlattening(f, Component(f, start), links)
  {
    ExploredIsComponent(f, start, seen);
    assert seen + {} == seen;
  }

  // One visit of the worklist.
  method Visit(f: Forest, start: Vertex, graph: Graph, current: Vertex, stack: seq<Vertex>, ghost seen: set<Vertex>)
    returns (stack': seq<Vertex>)
    requires Valid(f) && Connecting(f, start, seen, Elems(stack) + {current}, graph.links)
    modifies graph
    ensures Connecting(f, start, seen + {current}, Elems(stack'), graph.links)
  {
    ghost var queued := Elems(stack);
    VisitExplores(f, start, seen, queued, current);
    var vertices := OwnVertices(f, current);
    stack' := MergeAll(f, graph, vertices, stack, seen + (queued + {current}));
    Regroup(seen, queued, current, vertices);
  }

  lemma Regroup(seen: set<Vertex>, queued: set<Vertex>, current: Vertex, vertices: set<Vertex>)
    ensures seen + (queued + {current}) + vertices == (seen + {current}) + (queued + vertices)
  {
  }

  lemma Pop(stack: seq<Vertex>)
    requires stack != []
    ensures Elems(stack) == Elems(stack[1..]) + {stack[0]}
  {
    assert stack == [stack[0]] + stack[1..];
  }

  lemma OneFewer(all: set<Vertex>, seen: set<Vertex>, current: Vertex)
    requires current in all && current !in seen
    ensures |all - (seen + {current})| < |all - seen|
  {
    assert all - seen == (all - (seen + {current})) + {current};
  }

  // The new graph, with the graph of the starting object merged first.
  method StartGraph(f: Forest, start: Vertex) returns (graph: Graph)
    requires Valid(f) && start in f.kind
    ensures fresh(graph) && Connecting(f, start, {}, {start}, graph.links)
  {
    graph := new Graph();
    var own := OwnGraph(f, start);
    ghost var links := graph.links;
    MergeGraph(f, graph, own.links);
    MergedOnceMore(f, {}, start, links, graph.links);
  }

  // The worklist. It stops on every forest, on_done() cycles included, and has merged
  // exactly the graphs of the component.
  method ConnectGraphs(f: Forest, start: Vertex) returns (graph: Graph)
    requires Valid(f) && start in f.kind
    ensures fresh(graph)
    ensures IsFlattening(f, Component(f, start), graph.links)
  {
    graph := StartGraph(f, start);
    var seen: set<Vertex> := {};
    var stack := [start];
    assert Elems(stack) == {start};
    while stack != []
      invariant Connecting(f, start, seen, Elems(stack), graph.links)
      decreases |f.kind.Keys - seen|, |stack|
    {
      var current := stack[0];
      Pop(stack);
      stack := stack[1..];
      if current in seen {
        SkipSeen(f, start, seen, Elems(stack), graph.links, current);
      } else {
        stack := Visit(f, start, graph, current, stack, seen);
        OneFewer(f.kind.Keys, seen, current);
        seen := seen + {current};
      }
    }
    assert Elems(stack) == {};
    Connected(f, start, seen, graph.links);
  }
}
