// What the flattened graph of queue_job/delay.py means for the order of execution.
//
// The documentation promises that the elements of a chain run one after the other, each
// with everything in it, and that what on_done() received runs after the whole object.
// The flattened graph never orders more than that. It orders exactly that when the tails
// and heads that are linked hold all leaves that come last or first in the linked objects.
module Ordering {
  import opened Graphs
  import opened Delayables

  // ------------------------------------------------------------------ the documented order

  // x is y or a part of a part ... of y.
  ghost predicate Inside(f: Forest, x: Vertex, y: Vertex)
    requires Valid(f) && y in f.kind
    decreases y
  {
    x == y || exists p :: p in Parts(f.kind[y]) && Inside(f, x, p)
  }

  ghost function Leaves(f: Forest, n: Vertex): set<Vertex>
    requires Valid(f) && n in f.kind
  {
    set l | l in f.kind && f.kind[l].Leaf? && Inside(f, l, n)
  }

  // Object n demands that leaf u is done before leaf v starts: u and v are in different
  // elements of a chain, or v is in what on_done() of n received and u is in n.
  ghost predicate Demands(f: Forest, n: Vertex, u: Vertex, v: Vertex)
    requires Valid(f) && n in f.kind
  {
    || ChainDemands(f, n, u, v)
    || (u in Leaves(f, n) && exists x :: x in f.after[n] && v in Leaves(f, x))
  }

  ghost predicate ChainDemands(f: Forest, n: Vertex, u: Vertex, v: Vertex)
    requires Valid(f) && n in f.kind
  {
    && f.kind[n].Chain?
    && var elems := f.kind[n].elems;
       exists i, j :: 0 <= i < j < |elems| && ChainPair(f, n, elems, i, j, u, v)
  }

  ghost predicate ChainPair(f: Forest, n: Vertex, elems: seq<Vertex>, i: nat, j: nat, u: Vertex, v: Vertex)
    requires Valid(f) && n in f.kind && f.kind[n] == Chain(elems) && i < |elems| && j < |elems|
  {
    assert elems[i] in Parts(f.kind[n]) && elems[j] in Parts(f.kind[n]);
    u in Leaves(f, elems[i]) && v in Leaves(f, elems[j])
  }

  ghost function LeavesOf(f: Forest, c: set<Vertex>): set<Vertex>
    requires Valid(f) && c <= f.kind.Keys
  {
    set l | l in c && f.kind[l].Leaf?
  }

  // The documented order of everything in c, as a graph on the leaves.
  ghost function Documented(f: Forest, c: set<Vertex>): Links
    requires Valid(f) && c <= f.kind.Keys
  {
    map u | u in LeavesOf(f, c) :: set v | v in f.kind && exists n :: n in c && Demands(f, n, u, v)
  }

  // c holds everything its objects mention.
  ghost predicate MentionsClosed(f: Forest, c: set<Vertex>)
    requires Valid(f)
  {
    c <= f.kind.Keys && forall n :: n in c ==> OwnVertices(f, n) <= c
  }

  lemma ComponentCloses(f: Forest, start: Vertex)
    requires Valid(f) && start in f.kind
    ensures MentionsClosed(f, Component(f, start)) && start in Component(f, start)
  {
    forall n, m | n in Component(f, start) && m in OwnVertices(f, n) ensures m in Component(f, start) {
      assert Edge(Mentions(f), n, m);
      EdgeReaches(Mentions(f), n, m);
      ReachesOrIsThen(Mentions(f), start, n, m);
    }
  }

  // ------------------------------------------------------------------ leaves and ends

  lemma PartLeaves(f: Forest, n: Vertex, p: Vertex)
    requires Valid(f) && n in f.kind && p in Parts(f.kind[n])
    ensures Leaves(f, p) <= Leaves(f, n)
  {
  }

  lemma {:induction false} InsideStays(f: Forest, c: set<Vertex>, x: Vertex, y: Vertex)
    requires Valid(f) && MentionsClosed(f, c) && y in c && Inside(f, x, y)
    ensures x in c
    decreases y
  {
    if x != y {
      var p :| p in Parts(f.kind[y]) && Inside(f, x, p);
      InsideStays(f, c, x, p);
    }
  }

  lemma {:induction false} EndsAreLeaves(f: Forest, n: Vertex, front: bool)
    requires Valid(f) && n in f.kind
    ensures Ends(f, n, front) <= Leaves(f, n)
    decreases n
  {
    match f.kind[n]
    case Leaf =>
    case Chain(elems) =>
      var e := At(elems, front);
      assert e in Parts(f.kind[n]);
      EndsAreLeaves(f, e, !front);
      PartLeaves(f, n, e);
    case Group(members) =>
      forall h | h in Ends(f, n, front) ensures h in Leaves(f, n) {
        var m :| m in members && h in Ends(f, m, front);
        assert m in Parts(f.kind[n]);
        EndsAreLeaves(f, m, front);
        PartLeaves(f, n, m);
      }
  }

  // ------------------------------------------------------------------ the graph itself

  lemma FlatEdge(f: Forest, c: set<Vertex>, g: Links, m: Vertex, v: Vertex, w: Vertex, t: Vertex, h: Vertex)
    requires Valid(f) && MentionsClosed(f, c) && IsFlattening(f, c, g) && m in c
    requires OwnLink(f, m, v, w) && v in f.kind && w in f.kind && t in Tail(f, v) && h in Head(f, w)
    ensures Edge(g, t, h)
  {
    assert v in OwnVertices(f, m) && w in OwnLinks(f, m)[v];
    assert LinkOf(f, OwnLinks(f, m), OwnVertices(f, m), t, h);
  }

  lemma FlatEdgeOrigin(f: Forest, c: set<Vertex>, g: Links, t: Vertex, h: Vertex)
    returns (m: Vertex, v: Vertex, w: Vertex)
    requires Valid(f) && MentionsClosed(f, c) && IsFlattening(f, c, g) && Edge(g, t, h)
    ensures m in c && v in OwnVertices(f, m) && w in OwnVertices(f, m) && OwnLink(f, m, v, w)
    ensures t in Tail(f, v) && h in Head(f, w)
  {
    m :| m in c && LinkOf(f, OwnLinks(f, m), OwnVertices(f, m), t, h);
    hide IsFlattening;
    v, w :| v in OwnVertices(f, m) && w in OwnLinks(f, m)[v] && t in Tail(f, v) && h in Head(f, w);
  }

  lemma FlatVertexOrigin(f: Forest, c: set<Vertex>, g: Links, t: Vertex) returns (v: Vertex)
    requires Valid(f) && MentionsClosed(f, c) && IsFlattening(f, c, g) && t in g
    ensures v in c && t in Tail(f, v)
  {
    var m :| m in c && TailOf(f, OwnVertices(f, m), t);
    hide IsFlattening;
    v :| v in OwnVertices(f, m) && t in Tail(f, v);
  }

  lemma LeafIsFlatVertex(f: Forest, c: set<Vertex>, g: Links, l: Vertex)
    requires Valid(f) && MentionsClosed(f, c) && IsFlattening(f, c, g) && l in LeavesOf(f, c)
    ensures l in g
  {
    assert l in OwnVertices(f, l) && l in Tail(f, l);
    assert TailOf(f, OwnVertices(f, l), l);
  }

  // The vertices are exactly the leaves mentioned, and every neighbour is a vertex.
  lemma FlatteningIsOnLeaves(f: Forest, c: set<Vertex>, g: Links)
    requires Valid(f) && MentionsClosed(f, c) && IsFlattening(f, c, g)
    ensures g.Keys == LeavesOf(f, c) && Closed(g)
  {
    hide IsFlattening;
    forall t | t in g ensures t in LeavesOf(f, c) {
      var v := FlatVertexOrigin(f, c, g, t);
      EndsAreLeaves(f, v, false);
      InsideStays(f, c, t, v);
    }
    forall l | l in LeavesOf(f, c) ensures l in g {
      LeafIsFlatVertex(f, c, g, l);
    }
    forall t, h | t in g && h in g[t] ensures h in g.Keys {
      var m, v, w := FlatEdgeOrigin(f, c, g, t, h);
      EndsAreLeaves(f, w, true);
      InsideStays(f, c, h, w);
      LeafIsFlatVertex(f, c, g, h);
    }
  }

  // Every leaf of v comes before every leaf of w in the documented order.
  lemma LinkIsDemanded(f: Forest, m: Vertex, v: Vertex, w: Vertex, t: Vertex, h: Vertex)
    requires Valid(f) && m in f.kind && OwnLink(f, m, v, w) && v in f.kind && w in f.kind
    requires t in Leaves(f, v) && h in Leaves(f, w)
    ensures Demands(f, m, t, h)
  {
    match f.kind[m]
    case Leaf =>
    case Chain(elems) =>
      if Consecutive(elems, v, w) {
        var i :| 0 <= i < |elems| - 1 && elems[i] == v && elems[i + 1] == w;
        assert ChainPair(f, m, elems, i, i + 1, t, h);
      } else {
        assert v in Parts(f.kind[m]);
        PartLeaves(f, m, v);
      }
    case Group(members) =>
      assert v in Parts(f.kind[m]);
      PartLeaves(f, m, v);
  }

  // Whatever the nesting, an edge of the flattened graph is a documented one.
  lemma NothingUndocumented(f: Forest, c: set<Vertex>, g: Links, t: Vertex, h: Vertex)
    requires Valid(f) && MentionsClosed(f, c) && IsFlattening(f, c, g) && Edge(g, t, h)
    ensures Edge(Documented(f, c), t, h)
  {
    var m, v, w := FlatEdgeOrigin(f, c, g, t, h);
    EndsAreLeaves(f, v, false);
    EndsAreLeaves(f, w, true);
    InsideStays(f, c, t, v);
    LinkIsDemanded(f, m, v, w, t, h);
  }

  // ------------------------------------------------------------------ first and last leaves

  // Beyond element k, on the given side, no element of the chain has a leaf.
  ghost predicate Outermost(f: Forest, elems: seq<Vertex>, front: bool, k: nat)
    requires Valid(f) && forall i :: 0 <= i < |elems| ==> elems[i] in f.kind
  {
    forall i :: 0 <= i < |elems| && (if front then i < k else k < i) ==> Leaves(f, elems[i]) == {}
  }

  // The leaves of n that nothing in n precedes (front), or that precede nothing in n.
  ghost function Extremes(f: Forest, n: Vertex, front: bool): set<Vertex>
    requires Valid(f) && n in f.kind
    decreases n
  {
    match f.kind[n]
    case Leaf => {n}
    case Chain(elems) =>
      assert forall i :: 0 <= i < |elems| ==> elems[i] in Parts(f.kind[n]);
      set k, h | 0 <= k < |elems| && Outermost(f, elems, front, k) && h in Extremes(f, elems[k], front) :: h
    case Group(members) =>
      assert members == Parts(f.kind[n]);
      set m, h | m in members && h in Extremes(f, m, front) :: h
  }

  // Elements i and j have leaves, and no element between them has.
  ghost predicate Adjoin(f: Forest, elems: seq<Vertex>, i: nat, j: nat)
    requires Valid(f) && forall k :: 0 <= k < |elems| ==> elems[k] in f.kind
  {
    && i < j < |elems| && Leaves(f, elems[i]) != {} && Leaves(f, elems[j]) != {}
    && forall k :: i < k < j ==> Leaves(f, elems[k]) == {}
  }

  // Leaves adjoin only where elements do, and all of them are linked.
  ghost predicate ChainKeeps(f: Forest, elems: seq<Vertex>)
    requires Valid(f) && forall k :: 0 <= k < |elems| ==> elems[k] in f.kind
  {
    forall i: nat, j: nat :: Adjoin(f, elems, i, j) ==>
      j == i + 1 && Extremes(f, elems[i], false) <= Tail(f, elems[i]) && Extremes(f, elems[j], true) <= Head(f, elems[j])
  }

  // What an object links to the targets of its on_done().
  function DoneSources(f: Forest, n: Vertex): set<Vertex>
    requires Valid(f) && n in f.kind
  {
    match f.kind[n]
    case Leaf => {n}
    case Chain(elems) => {elems[|elems| - 1]}
    case Group(members) => members
  }

  ghost predicate DoneTail(f: Forest, n: Vertex, t: Vertex)
    requires Valid(f) && n in f.kind
  {
    exists s :: s in DoneSources(f, n) && s in f.kind && t in Tail(f, s)
  }

  ghost predicate TargetKeeps(f: Forest, n: Vertex, target: Vertex)
    requires Valid(f) && n in f.kind && target in f.kind
  {
    Leaves(f, n) != {} && Leaves(f, target) != {} ==>
      && (forall t :: t in Extremes(f, n, false) ==> DoneTail(f, n, t))
      && Extremes(f, target, true) <= Head(f, target)
  }

  // The condition under which flattening keeps the documented order.
  ghost predicate KeepsOrder(f: Forest, c: set<Vertex>)
    requires Valid(f) && c <= f.kind.Keys
  {
    forall n :: n in c ==>
      && (f.kind[n].Chain? ==> ElementsExist(f, n) && ChainKeeps(f, f.kind[n].elems))
      && forall target :: target in f.after[n] ==> TargetKeeps(f, n, target)
  }

  // True of every chain of a valid forest.
  ghost predicate ElementsExist(f: Forest, n: Vertex)
    requires Valid(f) && n in f.kind && f.kind[n].Chain?
    ensures ElementsExist(f, n)
  {
    assert forall i :: 0 <= i < |f.kind[n].elems| ==> f.kind[n].elems[i] in Parts(f.kind[n]);
    forall i :: 0 <= i < |f.kind[n].elems| ==> f.kind[n].elems[i] in f.kind && f.kind[n].elems[i] < n
  }

  lemma {:induction false} ExtremesAreLeaves(f: Forest, n: Vertex, front: bool)
    requires Valid(f) && n in f.kind
    ensures Extremes(f, n, front) <= Leaves(f, n)
    decreases n
  {
    match f.kind[n]
    case Leaf =>
    case Chain(elems) =>
      assert ElementsExist(f, n);
      forall h | h in Extremes(f, n, front) ensures h in Leaves(f, n) {
        var k :| 0 <= k < |elems| && Outermost(f, elems, front, k) && h in Extremes(f, elems[k], front);
        assert elems[k] in Parts(f.kind[n]);
        ExtremesAreLeaves(f, elems[k], front);
        PartLeaves(f, n, elems[k]);
      }
    case Group(members) =>
      forall h | h in Extremes(f, n, front) ensures h in Leaves(f, n) {
        var m :| m in members && h in Extremes(f, m, front);
        assert m in Parts(f.kind[n]);
        ExtremesAreLeaves(f, m, front);
        PartLeaves(f, n, m);
      }
  }

  // Going from element i to the given side, the last element that has leaves.
  lemma {:induction false} FarElement(f: Forest, elems: seq<Vertex>, front: bool, i: nat) returns (k: nat)
    requires Valid(f) && (forall i :: 0 <= i < |elems| ==> elems[i] in f.kind)
    requires i < |elems| && Leaves(f, elems[i]) != {}
    ensures k < |elems| && (if front then k <= i else i <= k)
    ensures Leaves(f, elems[k]) != {} && Outermost(f, elems, front, k)
    decreases if front then i else |elems| - i
  {
    if j: nat :| j < |elems| && (if front then j < i else i < j) && Leaves(f, elems[j]) != {} {
      k := FarElement(f, elems, front, j);
    } else {
      k := i;
    }
  }

  lemma ChainLeaf(f: Forest, n: Vertex, elems: seq<Vertex>, l: Vertex) returns (i: nat)
    requires Valid(f) && n in f.kind && f.kind[n] == Chain(elems) && l in Leaves(f, n)
    ensures i < |elems| && ElementsExist(f, n) && l in Leaves(f, elems[i])
  {
    var p :| p in Parts(f.kind[n]) && Inside(f, l, p);
    i :| 0 <= i < |elems| && elems[i] == p;
  }

  lemma {:induction false} SomeExtreme(f: Forest, n: Vertex, front: bool) returns (h: Vertex)
    requires Valid(f) && n in f.kind && Leaves(f, n) != {}
    ensures h in Extremes(f, n, front) && h in Leaves(f, n)
    decreases n
  {
    var l :| l in Leaves(f, n);
    match f.kind[n] {
      case Leaf =>
        h := n;
      case Chain(elems) =>
        var i := ChainLeaf(f, n, elems, l);
        var k := FarElement(f, elems, front, i);
        h := SomeExtreme(f, elems[k], front);
      case Group(members) =>
        var m :| m in Parts(f.kind[n]) && Inside(f, l, m);
        assert l in Leaves(f, m);
        h := SomeExtreme(f, m, front);
    }
    ExtremesAreLeaves(f, n, front);
  }

  // ------------------------------------------------------------------ the main theorem

  // g is the flattening of c, and c meets the condition.
  ghost predicate Kept(f: Forest, c: set<Vertex>, g: Links) {
    Valid(f) && MentionsClosed(f, c) && IsFlattening(f, c, g) && KeepsOrder(f, c)
  }

  lemma KeptNode(f: Forest, c: set<Vertex>, g: Links, n: Vertex)
    requires Kept(f, c, g) && n in c
    ensures Valid(f) && n in f.kind
    ensures forall p :: p in Parts(f.kind[n]) ==> p in c && p in f.kind && p < n
    ensures f.kind[n].Chain? ==> ElementsExist(f, n) && ChainKeeps(f, f.kind[n].elems)
    ensures f.kind[n].Chain? ==> forall i :: 0 <= i < |f.kind[n].elems| ==> f.kind[n].elems[i] in c
    ensures forall target :: target in f.after[n] ==> target in f.kind && TargetKeeps(f, n, target)
    ensures f.kind[n] != Group({}) ==> f.after[n] <= c
  {
    assert Parts(f.kind[n]) <= OwnVertices(f, n);
    if f.kind[n].Chain? {
      assert ElementsExist(f, n);
      forall i | 0 <= i < |f.kind[n].elems| ensures f.kind[n].elems[i] in c {
        assert f.kind[n].elems[i] in Parts(f.kind[n]);
      }
    }
  }

  // Whether the walk goes from the end to l (front), or from l to the end.
  ghost predicate Toward(g: Links, front: bool, end: Vertex, l: Vertex) {
    if front then ReachesOrIs(g, end, l) else ReachesOrIs(g, l, end)
  }

  ghost predicate Covered(g: Links, front: bool, ends: set<Vertex>, l: Vertex) {
    exists e :: e in ends && Toward(g, front, e, l)
  }

  // Extreme leaves that are linked: everything on the one side precedes everything on the
  // other.
  lemma JoinedByLink(g: Links, lasts: set<Vertex>, firsts: set<Vertex>, u: Vertex, v: Vertex)
    requires Covered(g, false, lasts, u) && Covered(g, true, firsts, v)
    requires forall x, y :: x in lasts && y in firsts ==> Edge(g, x, y)
    ensures Reaches(g, u, v)
  {
    var x :| x in lasts && Toward(g, false, x, u);
    var y :| y in firsts && Toward(g, true, y, v);
    EdgeReaches(g, x, y);
    ReachesOrIsThen(g, u, x, y);
    ThenReachesOrIs(g, u, y, v);
  }

  lemma ElementsLinked(f: Forest, c: set<Vertex>, g: Links, n: Vertex, elems: seq<Vertex>, i: nat, x: Vertex, y: Vertex)
    requires Valid(f) && MentionsClosed(f, c) && IsFlattening(f, c, g) && n in c && f.kind[n] == Chain(elems)
    requires i + 1 < |elems| && ElementsExist(f, n) && x in Tail(f, elems[i]) && y in Head(f, elems[i + 1])
    ensures Edge(g, x, y)
  {
    assert Consecutive(elems, elems[i], elems[i + 1]);
    FlatEdge(f, c, g, n, elems[i], elems[i + 1], x, y);
  }

  // Each leaf of n is reached from its first leaves, and reaches some of its last ones.
  lemma {:induction false} ExtremesCover(f: Forest, c: set<Vertex>, g: Links, n: Vertex, front: bool, l: Vertex)
    requires Kept(f, c, g) && n in c && n in f.kind && Valid(f) && l in Leaves(f, n)
    ensures Covered(g, front, Extremes(f, n, front), l)
    decreases n, 1
  {
    hide Kept, Valid, Reaches;
    KeptNode(f, c, g, n);
    match f.kind[n]
    case Leaf =>
      assert Toward(g, front, n, l);
    case Chain(elems) =>
      var i := ChainLeaf(f, n, elems, l);
      var k := FarElement(f, elems, front, i);
      if k == i {
        ExtremesCover(f, c, g, elems[i], front, l);
        CoveredByMore(g, front, Extremes(f, elems[i], front), Extremes(f, n, front), l);
      } else {
        var e := SomeExtreme(f, elems[k], front);
        ChainRespected(f, c, g, n, elems, if front then k else i, if front then i else k,
                       if front then e else l, if front then l else e);
        assert Toward(g, front, e, l);
      }
    case Group(members) =>
      var m :| m in Parts(f.kind[n]) && Inside(f, l, m);
      ExtremesCover(f, c, g, m, front, l);
      CoveredByMore(g, front, Extremes(f, m, front), Extremes(f, n, front), l);
  }

  lemma CoveredByMore(g: Links, front: bool, ends: set<Vertex>, more: set<Vertex>, l: Vertex)
    requires Covered(g, front, ends, l) && ends <= more
    ensures Covered(g, front, more, l)
  {
    var e :| e in ends && Toward(g, front, e, l);
    assert e in more;
  }

  lemma {:induction false} ChainRespected(f: Forest, c: set<Vertex>, g: Links, n: Vertex, elems: seq<Vertex>,
                                          i: nat, j: nat, u: Vertex, v: Vertex)
    requires Kept(f, c, g) && n in c && n in f.kind && Valid(f) && f.kind[n] == Chain(elems)
    requires i < j < |elems| && ElementsExist(f, n) && u in Leaves(f, elems[i]) && v in Leaves(f, elems[j])
    ensures Reaches(g, u, v)
    decreases n, 0, j - i
  {
    hide Kept, Valid, Reaches, Covered;
    KeptNode(f, c, g, n);
    if k: nat :| i < k < j && Leaves(f, elems[k]) != {} {
      var z :| z in Leaves(f, elems[k]);
      ChainRespected(f, c, g, n, elems, i, k, u, z);
      ChainRespected(f, c, g, n, elems, k, j, z, v);
      ReachesTransitive(g, u, z, v);
    } else {
      assert Adjoin(f, elems, i, j);
      ExtremesCover(f, c, g, elems[i], false, u);
      ExtremesCover(f, c, g, elems[j], true, v);
      ElementsJoined(f, c, g, n, elems, i);
      JoinedByLink(g, Extremes(f, elems[i], false), Extremes(f, elems[j], true), u, v);
    }
  }

  lemma ElementsJoined(f: Forest, c: set<Vertex>, g: Links, n: Vertex, elems: seq<Vertex>, i: nat)
    requires Kept(f, c, g) && n in c && n in f.kind && Valid(f) && f.kind[n] == Chain(elems)
    requires i + 1 < |elems| && ElementsExist(f, n) && Adjoin(f, elems, i, i + 1)
    ensures forall x, y :: x in Extremes(f, elems[i], false) && y in Extremes(f, elems[i + 1], true) ==> Edge(g, x, y)
  {
    KeptNode(f, c, g, n);
    forall x, y | x in Extremes(f, elems[i], false) && y in Extremes(f, elems[i + 1], true) ensures Edge(g, x, y) {
      ElementsLinked(f, c, g, n, elems, i, x, y);
    }
  }

  lemma DemandIsRespected(f: Forest, c: set<Vertex>, g: Links, n: Vertex, u: Vertex, v: Vertex)
    requires Kept(f, c, g) && n in c && n in f.kind && Valid(f) && Demands(f, n, u, v)
    ensures Reaches(g, u, v)
  {
    hide Kept, Valid, Reaches;
    KeptNode(f, c, g, n);
    if ChainDemands(f, n, u, v) {
      var elems := f.kind[n].elems;
      var i, j :| 0 <= i < j < |elems| && ChainPair(f, n, elems, i, j, u, v);
      ChainRespected(f, c, g, n, elems, i, j, u, v);
    } else {
      var target :| target in f.after[n] && v in Leaves(f, target);
      TargetRespected(f, c, g, n, target, u, v);
    }
  }

  lemma TargetRespected(f: Forest, c: set<Vertex>, g: Links, n: Vertex, target: Vertex, u: Vertex, v: Vertex)
    requires Kept(f, c, g) && n in c && n in f.kind && Valid(f) && target in f.after[n] && target in f.kind
    requires u in Leaves(f, n) && v in Leaves(f, target)
    ensures Reaches(g, u, v)
  {
    KeptNode(f, c, g, n);
    if f.kind[n] == Group({}) { assert false; }
    hide Reaches, Covered;
    ExtremesCover(f, c, g, n, false, u);
    ExtremesCover(f, c, g, target, true, v);
    forall x, y | x in Extremes(f, n, false) && y in Extremes(f, target, true) ensures Edge(g, x, y) {
      TargetLinked(f, c, g, n, target, x, y);
    }
    JoinedByLink(g, Extremes(f, n, false), Extremes(f, target, true), u, v);
  }

  lemma TargetLinked(f: Forest, c: set<Vertex>, g: Links, n: Vertex, target: Vertex, x: Vertex, y: Vertex)
    requires Valid(f) && MentionsClosed(f, c) && IsFlattening(f, c, g) && n in c
    requires target in f.after[n] && target in f.kind && DoneTail(f, n, x) && y in Head(f, target)
    ensures Edge(g, x, y)
  {
    var s :| s in DoneSources(f, n) && s in f.kind && x in Tail(f, s);
    FlatEdge(f, c, g, n, s, target, x, y);
  }

  // Leaf u must wait for nothing but what the chains, groups and on_done() calls say,
  // and for all of it. Objects may be shared, on_done() may form cycles, and groups may be
  // empty.
  lemma FlatteningIsExact(f: Forest, c: set<Vertex>, g: Links)
    requires Kept(f, c, g)
    ensures forall u, v :: Reaches(g, u, v) <==> Reaches(Documented(f, c), u, v)
  {
    var d := Documented(f, c);
    GraphIsDocumented(f, c, g);
    forall x, y | Edge(d, x, y) ensures Reaches(g, x, y) {
      var n :| n in c && Demands(f, n, x, y);
      DemandIsRespected(f, c, g, n, x, y);
    }
    forall u, v | Reaches(d, u, v) ensures Reaches(g, u, v) {
      ReachesLifts(d, g, u, v);
    }
  }

  // ------------------------------------------------------------------ read off the nesting

  // The leaves of n at the given side are what n offers for a link there: members of groups
  // must offer theirs, and a chain offers the other side of its outer element.
  predicate Exposes(f: Forest, n: Vertex, front: bool)
    requires Valid(f) && n in f.kind
    decreases n, 1
  {
    match f.kind[n]
    case Leaf => true
    case Chain(elems) =>
      var outer := if front then elems[0] else elems[|elems| - 1];
      assert outer in Parts(f.kind[n]);
      ExposesAcross(f, outer, front)
    case Group(members) =>
      assert members == Parts(f.kind[n]);
      forall m :: m in members ==> Exposes(f, m, front)
  }

  // The leaves at the given side are what n offers at the other side.
  predicate ExposesAcross(f: Forest, n: Vertex, front: bool)
    requires Valid(f) && n in f.kind
    decreases n, 0
  {
    match f.kind[n]
    case Leaf => true
    case Chain(elems) =>
      assert elems[0] in Parts(f.kind[n]);
      |elems| == 1 && Exposes(f, elems[0], front)
    case Group(members) =>
      assert members == Parts(f.kind[n]);
      forall m :: m in members ==> ExposesAcross(f, m, front)
  }

  predicate NoEmptyGroup(f: Forest, c: set<Vertex>)
    requires Valid(f) && c <= f.kind.Keys
  {
    forall n :: n in c ==> f.kind[n] != Group({})
  }

  // Consecutive elements of chains, and objects with on_done() and their targets, face each
  // other with exposed sides. Nothing but the nesting is looked at.
  predicate LinksExposed(f: Forest, c: set<Vertex>)
    requires Valid(f) && c <= f.kind.Keys
  {
    forall n :: n in c ==>
      && (f.kind[n].Chain? ==> ChainExposed(f, n))
      && (f.after[n] != {} ==> forall s :: s in DoneSources(f, n) ==> s in f.kind && Exposes(f, s, false))
      && (forall target :: target in f.after[n] ==> Exposes(f, target, true))
  }

  predicate ChainExposed(f: Forest, n: Vertex)
    requires Valid(f) && n in f.kind && f.kind[n].Chain?
  {
    var elems := f.kind[n].elems;
    assert forall i :: 0 <= i < |elems| ==> elems[i] in Parts(f.kind[n]);
    && (forall i :: 0 <= i < |elems| - 1 ==> Exposes(f, elems[i], false))
    && (forall i :: 0 < i < |elems| ==> Exposes(f, elems[i], true))
  }

  lemma {:induction false} HasLeaves(f: Forest, c: set<Vertex>, n: Vertex)
    requires Valid(f) && MentionsClosed(f, c) && NoEmptyGroup(f, c) && n in c
    ensures Leaves(f, n) != {}
    decreases n
  {
    match f.kind[n]
    case Leaf => assert n in Leaves(f, n);
    case Chain(elems) =>
      assert elems[0] in Parts(f.kind[n]);
      HasLeaves(f, c, elems[0]);
      PartLeaves(f, n, elems[0]);
    case Group(members) =>
      var m :| m in members;
      assert m in Parts(f.kind[n]);
      HasLeaves(f, c, m);
      PartLeaves(f, n, m);
  }

  // What lies at a side of a chain lies at that side of its outer element.
  lemma OuterExtremes(f: Forest, c: set<Vertex>, n: Vertex, elems: seq<Vertex>, front: bool)
    requires Valid(f) && MentionsClosed(f, c) && NoEmptyGroup(f, c) && n in c && f.kind[n] == Chain(elems)
    ensures ElementsExist(f, n) && Extremes(f, n, front) == Extremes(f, At(elems, front), front)
  {
    var k := if front then 0 else |elems| - 1;
    assert ElementsExist(f, n);
    assert At(elems, front) in Parts(f.kind[n]);
    HasLeaves(f, c, At(elems, front));
    assert elems[k] == At(elems, front) && Outermost(f, elems, front, k);
    hide Leaves;
    forall h | h in Extremes(f, n, front) ensures h in Extremes(f, elems[k], front) {
      var i :| 0 <= i < |elems| && Outermost(f, elems, front, i) && h in Extremes(f, elems[i], front);
      assert i == k;
    }
  }

  ghost predicate AtEnds(f: Forest, n: Vertex, front: bool, side: bool)
    requires Valid(f) && n in f.kind
  {
    Extremes(f, n, front) <= Ends(f, n, side)
  }

  lemma OuterEnds(f: Forest, n: Vertex, elems: seq<Vertex>, side: bool)
    requires Valid(f) && n in f.kind && f.kind[n] == Chain(elems)
    ensures At(elems, side) in f.kind && Ends(f, n, side) == Ends(f, At(elems, side), !side)
  {
    assert At(elems, side) in Parts(f.kind[n]);
  }

  lemma ChainAtEnds(f: Forest, c: set<Vertex>, n: Vertex, elems: seq<Vertex>, front: bool)
    requires Valid(f) && MentionsClosed(f, c) && NoEmptyGroup(f, c) && n in c && n in f.kind
    requires f.kind[n] == Chain(elems) && At(elems, front) in f.kind
    requires Exposes(f, At(elems, front), front) ==> AtEnds(f, At(elems, front), front, front)
    requires ExposesAcross(f, At(elems, front), front) ==> AtEnds(f, At(elems, front), front, !front)
    ensures Exposes(f, n, front) ==> AtEnds(f, n, front, front)
    ensures ExposesAcross(f, n, front) ==> AtEnds(f, n, front, !front)
  {
    hide Extremes, Ends, MentionsClosed, NoEmptyGroup;
    OuterExtremes(f, c, n, elems, front);
    OuterEnds(f, n, elems, front);
    OuterEnds(f, n, elems, !front);
  }

  lemma GroupAtEnds(f: Forest, n: Vertex, members: set<Vertex>, front: bool)
    requires Valid(f) && n in f.kind && f.kind[n] == Group(members) && members <= f.kind.Keys
    requires forall m :: m in members && Exposes(f, m, front) ==> AtEnds(f, m, front, front)
    requires forall m :: m in members && ExposesAcross(f, m, front) ==> AtEnds(f, m, front, !front)
    ensures Exposes(f, n, front) ==> AtEnds(f, n, front, front)
    ensures ExposesAcross(f, n, front) ==> AtEnds(f, n, front, !front)
  {
  }

  lemma {:induction false} ExposedAtEnds(f: Forest, c: set<Vertex>, n: Vertex, front: bool)
    requires Valid(f) && MentionsClosed(f, c) && NoEmptyGroup(f, c) && n in c
    ensures Exposes(f, n, front) ==> AtEnds(f, n, front, front)
    ensures ExposesAcross(f, n, front) ==> AtEnds(f, n, front, !front)
    decreases n
  {
    match f.kind[n]
    case Leaf =>
    case Chain(elems) =>
      hide AtEnds, Exposes, ExposesAcross;
      assert At(elems, front) in Parts(f.kind[n]) && At(elems, front) in c;
      ExposedAtEnds(f, c, At(elems, front), front);
      ChainAtEnds(f, c, n, elems, front);
    case Group(members) =>
      hide AtEnds, Exposes, ExposesAcross;
      assert members == Parts(f.kind[n]) && members <= c;
      forall m | m in members
        ensures Exposes(f, m, front) ==> AtEnds(f, m, front, front)
        ensures ExposesAcross(f, m, front) ==> AtEnds(f, m, front, !front)
      {
        ExposedAtEnds(f, c, m, front);
      }
      GroupAtEnds(f, n, members, front);
  }

  lemma ElementsHaveLeaves(f: Forest, c: set<Vertex>, n: Vertex, elems: seq<Vertex>)
    requires Valid(f) && MentionsClosed(f, c) && NoEmptyGroup(f, c) && n in c && n in f.kind && f.kind[n] == Chain(elems)
    ensures ElementsExist(f, n) && forall i :: 0 <= i < |elems| ==> elems[i] in c && Leaves(f, elems[i]) != {}
  {
    assert ElementsExist(f, n);
    hide Leaves;
    forall i | 0 <= i < |elems| ensures elems[i] in c && Leaves(f, elems[i]) != {} {
      assert elems[i] in Parts(f.kind[n]);
      HasLeaves(f, c, elems[i]);
    }
  }

  lemma ExposedChainKeeps(f: Forest, c: set<Vertex>, n: Vertex, elems: seq<Vertex>)
    requires Valid(f) && MentionsClosed(f, c) && NoEmptyGroup(f, c) && n in c && n in f.kind
    requires f.kind[n] == Chain(elems) && ElementsExist(f, n) && ChainExposed(f, n)
    ensures ChainKeeps(f, elems)
  {
    hide Leaves, MentionsClosed, NoEmptyGroup, Extremes, Exposes, Ends, Valid, Parts;
    ElementsHaveLeaves(f, c, n, elems);
    forall i: nat, j: nat | Adjoin(f, elems, i, j)
      ensures j == i + 1
      ensures Extremes(f, elems[i], false) <= Tail(f, elems[i]) && Extremes(f, elems[j], true) <= Head(f, elems[j])
    {
      var next := elems[i + 1];
      ExposedAtEnds(f, c, elems[i], false);
      ExposedAtEnds(f, c, next, true);
    }
  }

  lemma ExposedSource(f: Forest, c: set<Vertex>, n: Vertex, t: Vertex) returns (s: Vertex)
    requires Valid(f) && MentionsClosed(f, c) && NoEmptyGroup(f, c) && n in c && n in f.kind && t in Extremes(f, n, false)
    ensures s in DoneSources(f, n) && s in c && s in f.kind && t in Extremes(f, s, false)
  {
    hide Extremes, Parts, MentionsClosed, NoEmptyGroup, Valid;
    PartsInside(f, c, n);
    match f.kind[n] {
      case Leaf =>
        s := n;
      case Chain(elems) =>
        s := At(elems, false);
        OuterExtremes(f, c, n, elems, false);
      case Group(members) =>
        s := MemberExtreme(f, n, members, t, false);
        assert s in c by { MemberInside(f, c, n, members, s); }
    }
  }

  lemma MemberInside(f: Forest, c: set<Vertex>, n: Vertex, members: set<Vertex>, m: Vertex)
    requires Valid(f) && MentionsClosed(f, c) && n in c && n in f.kind && f.kind[n] == Group(members) && m in members
    ensures m in c
  {
    assert m in OwnVertices(f, n);
  }

  lemma PartsInside(f: Forest, c: set<Vertex>, n: Vertex)
    requires Valid(f) && MentionsClosed(f, c) && n in c && n in f.kind
    ensures Parts(f.kind[n]) <= c && Parts(f.kind[n]) <= f.kind.Keys
    ensures f.kind[n].Chain? ==>
      f.kind[n].elems != [] && At(f.kind[n].elems, false) in c && At(f.kind[n].elems, false) in f.kind
  {
    if f.kind[n].Chain? { assert At(f.kind[n].elems, false) in Parts(f.kind[n]); }
  }

  lemma MemberExtreme(f: Forest, n: Vertex, members: set<Vertex>, t: Vertex, front: bool) returns (m: Vertex)
    requires Valid(f) && n in f.kind && f.kind[n] == Group(members) && t in Extremes(f, n, front)
    ensures m in members && m in f.kind && t in Extremes(f, m, front)
  {
    m :| m in members && t in Extremes(f, m, front);
    assert m in Parts(f.kind[n]);
  }

  lemma ExposedTargetKeeps(f: Forest, c: set<Vertex>, n: Vertex, target: Vertex)
    requires Valid(f) && MentionsClosed(f, c) && NoEmptyGroup(f, c) && n in c && n in f.kind
    requires target in f.after[n] && target in c && target in f.kind && Exposes(f, target, true)
    requires forall s :: s in DoneSources(f, n) ==> s in f.kind && Exposes(f, s, false)
    ensures TargetKeeps(f, n, target)
  {
    hide Exposes, Extremes, Ends, MentionsClosed, NoEmptyGroup, DoneSources, Leaves;
    ExposedAtEnds(f, c, target, true);
    forall t | t in Extremes(f, n, false) ensures DoneTail(f, n, t) {
      var s := ExposedSource(f, c, n, t);
      ExposedAtEnds(f, c, s, false);
    }
  }

  lemma ExposedKeepsOrder(f: Forest, c: set<Vertex>)
    requires Valid(f) && MentionsClosed(f, c) && NoEmptyGroup(f, c) && LinksExposed(f, c)
    ensures KeepsOrder(f, c)
  {
    hide ChainExposed, Exposes, ChainKeeps, TargetKeeps, DoneSources, NoEmptyGroup;
    forall n | n in c
      ensures f.kind[n].Chain? ==> ElementsExist(f, n) && ChainKeeps(f, f.kind[n].elems)
      ensures forall target :: target in f.after[n] ==> TargetKeeps(f, n, target)
    {
      if f.kind[n].Chain? {
        assert ElementsExist(f, n);
        ExposedChainKeeps(f, c, n, f.kind[n].elems);
      }
      forall target | target in f.after[n] ensures TargetKeeps(f, n, target) {
        TargetInside(f, c, n, target);
        ExposedTargetKeeps(f, c, n, target);
      }
    }
  }

  lemma TargetInside(f: Forest, c: set<Vertex>, n: Vertex, target: Vertex)
    requires Valid(f) && MentionsClosed(f, c) && NoEmptyGroup(f, c) && n in c && target in f.after[n]
    ensures target in c && target in f.kind
  {
    assert target in OwnVertices(f, n);
  }

  // So the nesting alone says when every leaf waits for exactly what is documented.
  lemma ExposedIsExact(f: Forest, c: set<Vertex>, g: Links)
    requires Valid(f) && MentionsClosed(f, c) && IsFlattening(f, c, g) && NoEmptyGroup(f, c) && LinksExposed(f, c)
    ensures forall u, v :: Reaches(g, u, v) <==> Reaches(Documented(f, c), u, v)
  {
    ExposedKeepsOrder(f, c);
    FlatteningIsExact(f, c, g);
  }

  // Whatever the nesting, reachability in the flattened graph is documented.
  lemma GraphIsDocumented(f: Forest, c: set<Vertex>, g: Links)
    requires Valid(f) && MentionsClosed(f, c) && IsFlattening(f, c, g)
    ensures forall u, v :: Reaches(g, u, v) ==> Reaches(Documented(f, c), u, v)
  {
    var d := Documented(f, c);
    forall t, h | Edge(g, t, h) ensures Reaches(d, t, h) {
      NothingUndocumented(f, c, g, t, h);
      EdgeReaches(d, t, h);
    }
    forall u, v | Reaches(g, u, v) ensures Reaches(d, u, v) {
      ReachesLifts(g, d, u, v);
    }
  }
}
