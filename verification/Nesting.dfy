// When flattening misses part of the documented order. If no object is used twice, as a
// part or as a target of on_done(), the objects form a tree, and then the condition of
// Ordering.KeepsOrder is exact: wherever it fails, some documented pair is lost.
module Nesting {
  import opened Graphs
  import opened Delayables
  import opened Ordering

  // The parts of an object and the targets of its on_done(). An empty group records none.
  function Uses(f: Forest, n: Vertex): set<Vertex>
    requires Valid(f) && n in f.kind
  {
    if f.kind[n] == Group({}) then {} else Parts(f.kind[n]) + f.after[n]
  }

  function UseGraph(f: Forest, c: set<Vertex>): Links
    requires Valid(f) && c <= f.kind.Keys
  {
    map n | n in c :: Uses(f, n)
  }

  ghost predicate UsedOnce(f: Forest, c: set<Vertex>)
    requires Valid(f) && c <= f.kind.Keys
  {
    && (forall m, n, p :: m in c && n in c && p in Uses(f, m) && p in Uses(f, n) ==> m == n)
    && (forall n :: n in c ==> Parts(f.kind[n]) !! f.after[n] && (f.kind[n].Chain? ==> NoDup(f.kind[n].elems)))
  }

  // Every object of c is used at most once, and none by itself.
  ghost predicate Tree(f: Forest, c: set<Vertex>) {
    Valid(f) && MentionsClosed(f, c) && UsedOnce(f, c) && Acyclic(UseGraph(f, c))
  }

  lemma TreeNode(f: Forest, c: set<Vertex>, n: Vertex)
    requires Tree(f, c) && n in c
    ensures Valid(f) && MentionsClosed(f, c) && n in f.kind && c <= f.kind.Keys
    ensures Uses(f, n) <= c && Parts(f.kind[n]) <= Uses(f, n) && Parts(f.kind[n]) !! f.after[n]
    ensures forall p :: p in Parts(f.kind[n]) ==> p in c && p in f.kind && p < n
    ensures f.kind[n] != Group({}) ==> f.after[n] <= Uses(f, n)
    ensures f.kind[n].Chain? ==> f.kind[n].elems != [] && NoDup(f.kind[n].elems) && ElementsExist(f, n)
    ensures f.kind[n].Chain? ==> forall i :: 0 <= i < |f.kind[n].elems| ==> f.kind[n].elems[i] in Parts(f.kind[n])
  {
    assert Uses(f, n) <= OwnVertices(f, n);
  }

  lemma TreeIsValid(f: Forest, c: set<Vertex>)
    requires Tree(f, c)
    ensures Valid(f)
  {
  }

  lemma OneUser(f: Forest, c: set<Vertex>, m: Vertex, n: Vertex, p: Vertex)
    requires Tree(f, c) && m in c && n in c && m in f.kind && n in f.kind && p in Uses(f, m) && p in Uses(f, n)
    ensures m == n
  {
  }

  lemma {:induction false} CycleGoesUp(g: Links, p: seq<Vertex>)
    requires Walk(g, p) && Reaches(g, p[|p| - 1], p[|p| - 1])
    requires forall m, n, x :: Edge(g, m, x) && Edge(g, n, x) ==> m == n
    ensures Reaches(g, p[0], p[0])
    decreases |p|
  {
    var n := |p| - 1;
    if n > 0 {
      assert Edge(g, p[n - 1], p[n - 1 + 1]);
      var w := LastStep(g, p[n], p[n]);
      EdgeReaches(g, p[n - 1], p[n]);
      ThenReachesOrIs(g, p[n - 1], p[n], w);
      CycleGoesUp(g, p[..n]);
    }
  }

  // What is reachable from an object that nothing uses is a tree as soon as no object in it
  // is used twice.
  lemma UsedOnceIsTree(f: Forest, start: Vertex)
    requires Valid(f) && start in f.kind && UsedOnce(f, Component(f, start))
    requires forall m :: m in Component(f, start) ==> start !in Uses(f, m)
    ensures Tree(f, Component(f, start))
  {
    var c := Component(f, start);
    var g := UseGraph(f, c);
    ComponentCloses(f, start);
    forall v | v in g ensures !Reaches(g, v, v) {
      if Reaches(g, v, v) {
        ComponentByUses(f, start, v);
        var p := [start];
        if v != start { p :| WalkBetween(g, p, start, v); }
        hide Component;
        CycleGoesUp(g, p);
        var w := LastStep(g, start, start);
        assert false;
      }
    }
  }

  lemma ComponentByUses(f: Forest, start: Vertex, v: Vertex)
    requires Valid(f) && start in f.kind && v in Component(f, start)
    ensures ReachesOrIs(UseGraph(f, Component(f, start)), start, v)
  {
    var c := Component(f, start);
    var g := UseGraph(f, c);
    var used := set x | x in c && ReachesOrIs(g, start, x);
    ComponentCloses(f, start);
    hide Reaches;
    forall x, y | x in used && Edge(Mentions(f), x, y) ensures y in used {
      if x != y {
        assert Edge(g, x, y);
        EdgeReaches(g, x, y);
        ReachesOrIsThen(g, start, x, y);
      }
    }
    ClosedSetHoldsReachable(Mentions(f), used, start, v);
  }

  // ------------------------------------------------------------------ below an object

  // x is a, or used by a, through any number of uses.
  ghost predicate Below(f: Forest, c: set<Vertex>, a: Vertex, x: Vertex)
    requires Tree(f, c)
  {
    ReachesOrIs(UseGraph(f, c), a, x)
  }

  lemma UsedIsBelow(f: Forest, c: set<Vertex>, a: Vertex, n: Vertex, p: Vertex)
    requires Tree(f, c) && n in c && n in f.kind && p in Uses(f, n) && Below(f, c, a, n)
    ensures Below(f, c, a, p) && Reaches(UseGraph(f, c), a, p)
  {
    assert Edge(UseGraph(f, c), n, p);
    EdgeReaches(UseGraph(f, c), n, p);
    ReachesOrIsThen(UseGraph(f, c), a, n, p);
  }

  lemma BelowTransitive(f: Forest, c: set<Vertex>, a: Vertex, b: Vertex, x: Vertex)
    requires Tree(f, c) && Below(f, c, a, b) && Below(f, c, b, x)
    ensures Below(f, c, a, x)
  {
    if a != b && b != x { ReachesTransitive(UseGraph(f, c), a, b, x); }
  }

  // Nothing is strictly below itself.
  lemma NotBoth(f: Forest, c: set<Vertex>, n: Vertex, p: Vertex)
    requires Tree(f, c) && n in c && n in f.kind && p in Uses(f, n)
    ensures !Below(f, c, p, n)
  {
    if Below(f, c, p, n) {
      assert Edge(UseGraph(f, c), n, p);
      EdgeReaches(UseGraph(f, c), n, p);
      ThenReachesOrIs(UseGraph(f, c), n, p, n);
    }
  }

  // The user of x, on the way down from a.
  lemma UserBelow(f: Forest, c: set<Vertex>, a: Vertex, x: Vertex) returns (w: Vertex)
    requires Tree(f, c) && Below(f, c, a, x) && a != x
    ensures w in c && w in f.kind && x in Uses(f, w) && Below(f, c, a, w)
  {
    w := LastStep(UseGraph(f, c), a, x);
  }

  // The object used by a, on the way down to x.
  lemma UsedAbove(f: Forest, c: set<Vertex>, a: Vertex, x: Vertex) returns (s: Vertex)
    requires Tree(f, c) && Below(f, c, a, x) && a != x
    ensures a in c && a in f.kind && s in Uses(f, a) && Below(f, c, s, x)
  {
    s := FirstStep(UseGraph(f, c), a, x);
  }

  lemma {:induction false} WalkComparable(f: Forest, c: set<Vertex>, p: seq<Vertex>, b: Vertex)
    requires Tree(f, c) && Walk(UseGraph(f, c), p) && Below(f, c, b, p[|p| - 1])
    ensures Below(f, c, p[0], b) || Below(f, c, b, p[0])
    decreases |p|
  {
    var n := |p| - 1;
    if n > 0 {
      assert Edge(UseGraph(f, c), p[n - 1], p[n - 1 + 1]);
      if b == p[n] {
        assert WalkBetween(UseGraph(f, c), p, p[0], p[n]);
      } else {
        var w := UserBelow(f, c, b, p[n]);
        OneUser(f, c, w, p[n - 1], p[n]);
        WalkComparable(f, c, p[..n], b);
      }
    }
  }

  lemma Comparable(f: Forest, c: set<Vertex>, a: Vertex, b: Vertex, x: Vertex)
    requires Tree(f, c) && Below(f, c, a, x) && Below(f, c, b, x)
    ensures Below(f, c, a, b) || Below(f, c, b, a)
  {
    if a != x {
      var p :| WalkBetween(UseGraph(f, c), p, a, x);
      WalkComparable(f, c, p, b);
    }
  }

  // Different objects used by n have nothing below in common.
  lemma Siblings(f: Forest, c: set<Vertex>, n: Vertex, p: Vertex, q: Vertex, x: Vertex)
    requires Tree(f, c) && n in c && n in f.kind && p in Uses(f, n) && q in Uses(f, n)
    requires Below(f, c, p, x) && Below(f, c, q, x)
    ensures p == q
  {
    if p != q {
      Comparable(f, c, p, q, x);
      var over, under := if Below(f, c, p, q) then p else q, if Below(f, c, p, q) then q else p;
      var w := UserBelow(f, c, over, under);
      OneUser(f, c, w, n, under);
      NotBoth(f, c, n, over);
    }
  }

  // ------------------------------------------------------------------ inside an object

  lemma {:induction false} InsideIsBelow(f: Forest, c: set<Vertex>, x: Vertex, y: Vertex)
    requires Tree(f, c) && y in c && y in f.kind && Inside(f, x, y)
    ensures x in c && x in f.kind && x <= y && Below(f, c, y, x)
    decreases y
  {
    if x != y {
      TreeNode(f, c, y);
      var p :| p in Parts(f.kind[y]) && Inside(f, x, p);
      InsideIsBelow(f, c, x, p);
      UsedIsBelow(f, c, y, y, p);
      BelowTransitive(f, c, y, p, x);
    }
  }

  lemma {:induction false} InsideTransitive(f: Forest, x: Vertex, y: Vertex, z: Vertex)
    requires Valid(f) && z in f.kind && y in f.kind && Inside(f, x, y) && Inside(f, y, z)
    ensures Inside(f, x, z)
    decreases z
  {
    if y != z {
      var p :| p in Parts(f.kind[z]) && Inside(f, y, p);
      InsideTransitive(f, x, y, p);
    }
  }

  // The object directly around x, on the way up to y.
  lemma {:induction false} PartOwner(f: Forest, x: Vertex, y: Vertex) returns (q: Vertex)
    requires Valid(f) && y in f.kind && Inside(f, x, y) && x != y
    ensures q in f.kind && x in Parts(f.kind[q]) && Inside(f, q, y)
    decreases y
  {
    var p :| p in Parts(f.kind[y]) && Inside(f, x, p);
    if x == p {
      q := y;
    } else {
      q := PartOwner(f, x, p);
    }
  }

  lemma Owner(f: Forest, c: set<Vertex>, x: Vertex, y: Vertex) returns (q: Vertex)
    requires Tree(f, c) && y in c && y in f.kind && Inside(f, x, y) && x != y
    ensures q in c && q in f.kind && x in Parts(f.kind[q]) && Inside(f, q, y)
  {
    q := PartOwner(f, x, y);
    InsideIsBelow(f, c, q, y);
  }

  // What lies above something inside v lies above v or inside v.
  lemma {:induction false} Through(f: Forest, c: set<Vertex>, t: Vertex, v: Vertex, r: Vertex)
    requires Tree(f, c) && v in c && v in f.kind && Inside(f, t, v) && Below(f, c, r, t)
    ensures Below(f, c, r, v) || (r in c && r in f.kind && Inside(f, r, v) && Inside(f, t, r))
    decreases v as int - t as int
  {
    hide Tree;
    TreeNode(f, c, v);
    InsideIsBelow(f, c, t, v);
    if t != v && r != t {
      var q := Owner(f, c, t, v);
      TreeNode(f, c, q);
      var w := UserBelow(f, c, r, t);
      OneUser(f, c, w, q, t);
      InsideIsBelow(f, c, q, v);
      Through(f, c, q, v, r);
      if !Below(f, c, r, v) { PartOfInside(f, q, t, r); }
    }
  }

  lemma PartOfInside(f: Forest, q: Vertex, t: Vertex, r: Vertex)
    requires Valid(f) && q in f.kind && r in f.kind && t in Parts(f.kind[q]) && Inside(f, q, r)
    ensures Inside(f, t, r)
  {
    assert Inside(f, t, q);
    InsideTransitive(f, t, q, r);
  }

  lemma {:induction false} Laminar(f: Forest, c: set<Vertex>, l: Vertex, a: Vertex, b: Vertex)
    requires Tree(f, c) && a in c && b in c && a in f.kind && b in f.kind && Inside(f, l, a) && Inside(f, l, b)
    ensures Inside(f, a, b) || Inside(f, b, a)
    decreases a as int - l as int
  {
    hide Tree;
    TreeNode(f, c, a);
    TreeNode(f, c, b);
    InsideIsBelow(f, c, l, a);
    if l != a && l != b {
      var q := Owner(f, c, l, a);
      var r := Owner(f, c, l, b);
      TreeNode(f, c, q);
      TreeNode(f, c, r);
      OneUser(f, c, q, r, l);
      InsideIsBelow(f, c, q, a);
      Laminar(f, c, q, a, b);
    }
  }

  // A target of on_done() is inside nothing but itself.
  lemma TargetIsTop(f: Forest, c: set<Vertex>, n: Vertex, target: Vertex, v: Vertex)
    requires Tree(f, c) && n in c && n in f.kind && f.kind[n] != Group({}) && target in f.after[n]
    requires v in c && v in f.kind && Inside(f, target, v)
    ensures target == v
  {
    hide Tree;
    TreeNode(f, c, n);
    if target != v {
      var q := Owner(f, c, target, v);
      TreeNode(f, c, q);
      OneUser(f, c, q, n, target);
      assert false;
    }
  }

  lemma SamePart(f: Forest, c: set<Vertex>, n: Vertex, p: Vertex, q: Vertex, l: Vertex)
    requires Tree(f, c) && n in c && n in f.kind && p in Parts(f.kind[n]) && q in Parts(f.kind[n])
    requires p in f.kind && q in f.kind && Inside(f, l, p) && Inside(f, l, q)
    ensures p == q
  {
    hide Tree;
    TreeNode(f, c, n);
    InsideIsBelow(f, c, l, p);
    InsideIsBelow(f, c, l, q);
    Siblings(f, c, n, p, q, l);
  }

  // ------------------------------------------------------------------ an order on the tree

  // n has p before q: p in front of q in a chain, or p a part and q a target of n. A leaf
  // comes itself before its targets.
  ghost predicate Precedes(f: Forest, n: Vertex, p: Vertex, q: Vertex)
    requires Valid(f) && n in f.kind
  {
    || (f.kind[n].Chain? && InOrder(f.kind[n].elems, p, q))
    || (p in Parts(f.kind[n]) && q in f.after[n])
    || (f.kind[n].Leaf? && p == n && q in f.after[n])
  }

  ghost predicate InOrder(elems: seq<Vertex>, p: Vertex, q: Vertex) {
    exists i, j :: 0 <= i < j < |elems| && elems[i] == p && elems[j] == q
  }

  ghost predicate OnSide(f: Forest, c: set<Vertex>, n: Vertex, p: Vertex, u: Vertex)
    requires Tree(f, c)
  {
    if p == n then u == n else Below(f, c, p, u)
  }

  ghost predicate BeforeAt(f: Forest, c: set<Vertex>, n: Vertex, p: Vertex, q: Vertex, u: Vertex, v: Vertex)
    requires Tree(f, c)
  {
    n in c && n in f.kind && Precedes(f, n, p, q) && OnSide(f, c, n, p, u) && Below(f, c, q, v)
  }

  // u and v, or objects above them, are ordered by some object. This is a strict order and
  // holds more than the documented one.
  ghost predicate Before(f: Forest, c: set<Vertex>, u: Vertex, v: Vertex)
    requires Tree(f, c)
  {
    exists n, p, q :: BeforeAt(f, c, n, p, q, u, v)
  }

  lemma PrecedesUses(f: Forest, c: set<Vertex>, n: Vertex, p: Vertex, q: Vertex)
    requires Tree(f, c) && n in c && n in f.kind && Precedes(f, n, p, q)
    ensures q in Uses(f, n) && p != q && (p == n || p in Uses(f, n)) && (p == n ==> f.kind[n].Leaf?)
  {
    TreeNode(f, c, n);
    hide Tree, Valid;
    if p == n && q == n { UsedIsBelow(f, c, n, n, n); NotBoth(f, c, n, n); }
    if f.kind[n].Chain? && InOrder(f.kind[n].elems, p, q) {
      var i, j :| 0 <= i < j < |f.kind[n].elems| && f.kind[n].elems[i] == p && f.kind[n].elems[j] == q;
    }
  }

  lemma PrecedesTwice(f: Forest, c: set<Vertex>, n: Vertex, p: Vertex, q: Vertex, r: Vertex)
    requires Tree(f, c) && n in c && n in f.kind && Precedes(f, n, p, q) && Precedes(f, n, q, r)
    ensures Precedes(f, n, p, r)
  {
    TreeNode(f, c, n);
    PrecedesUses(f, c, n, p, q);
    PrecedesUses(f, c, n, q, r);
    hide Tree, Valid;
  }

  lemma OnSideIsBelow(f: Forest, c: set<Vertex>, n: Vertex, p: Vertex, u: Vertex)
    requires Tree(f, c) && n in c && n in f.kind && (p == n || p in Uses(f, n)) && OnSide(f, c, n, p, u)
    ensures Below(f, c, n, u)
  {
    if p != n {
      UsedIsBelow(f, c, n, n, p);
      BelowTransitive(f, c, n, p, u);
    }
  }

  lemma NotBeforeItself(f: Forest, c: set<Vertex>, u: Vertex)
    requires Tree(f, c)
    ensures !Before(f, c, u, u)
  {
    hide Tree;
    if Before(f, c, u, u) {
      var n, p, q :| BeforeAt(f, c, n, p, q, u, u);
      PrecedesUses(f, c, n, p, q);
      if p == n {
        NotBoth(f, c, n, q);
      } else {
        Siblings(f, c, n, p, q, u);
      }
    }
  }

  lemma BeforeTransitive(f: Forest, c: set<Vertex>, u: Vertex, v: Vertex, w: Vertex)
    requires Tree(f, c) && Before(f, c, u, v) && Before(f, c, v, w)
    ensures Before(f, c, u, w)
  {
    hide Tree, Precedes;
    var n, p, q :| BeforeAt(f, c, n, p, q, u, v);
    var m, p', q' :| BeforeAt(f, c, m, p', q', v, w);
    PrecedesUses(f, c, n, p, q);
    PrecedesUses(f, c, m, p', q');
    OnSideIsBelow(f, c, m, p', v);
    Comparable(f, c, q, m, v);
    UsedIsBelow(f, c, m, m, q');
    BelowTransitive(f, c, m, q', w);
    if Below(f, c, q, m) {
      BelowTransitive(f, c, q, m, w);
      assert BeforeAt(f, c, n, p, q, u, w);
    } else {
      var x := UserBelow(f, c, m, q);
      OneUser(f, c, x, n, q);
      if m == n {
        Siblings(f, c, n, p', q, v);
        PrecedesTwice(f, c, n, p, q, q');
        assert BeforeAt(f, c, n, p, q', u, w);
      } else {
        var s := UsedAbove(f, c, m, n);
        UsedIsBelow(f, c, s, n, q);
        BelowTransitive(f, c, s, q, v);
        Siblings(f, c, m, p', s, v);
        OnSideIsBelow(f, c, n, p, u);
        BelowTransitive(f, c, s, n, u);
        assert BeforeAt(f, c, m, p', q', u, w);
      }
    }
  }

  lemma ChainIsBefore(f: Forest, c: set<Vertex>, n: Vertex, elems: seq<Vertex>, i: nat, j: nat, u: Vertex, v: Vertex)
    requires Tree(f, c) && n in c && n in f.kind && f.kind[n] == Chain(elems) && i < j < |elems|
    requires elems[i] in f.kind && elems[j] in f.kind && Inside(f, u, elems[i]) && Inside(f, v, elems[j])
    ensures Before(f, c, u, v)
  {
    hide Tree, Valid, MentionsClosed, Inside;
    TreeNode(f, c, n);
    InsideIsBelow(f, c, u, elems[i]);
    InsideIsBelow(f, c, v, elems[j]);
    NotBoth(f, c, n, elems[i]);
    assert elems[i] != n;
    assert BeforeAt(f, c, n, elems[i], elems[j], u, v);
  }

  lemma TargetIsBefore(f: Forest, c: set<Vertex>, n: Vertex, target: Vertex, u: Vertex, v: Vertex)
    requires Tree(f, c) && n in c && n in f.kind && target in f.after[n] && target in f.kind
    requires u in Leaves(f, n) && v in Leaves(f, target)
    ensures Before(f, c, u, v) && f.kind[n] != Group({}) && target in c
  {
    TreeNode(f, c, n);
    hide Tree, Valid, MentionsClosed;
    InsideIsBelow(f, c, v, target);
    if f.kind[n].Leaf? {
      assert u == n;
      assert BeforeAt(f, c, n, n, target, u, v);
    } else {
      var p :| p in Parts(f.kind[n]) && Inside(f, u, p);
      InsideIsBelow(f, c, u, p);
      assert BeforeAt(f, c, n, p, target, u, v);
    }
  }

  lemma DemandIsBefore(f: Forest, c: set<Vertex>, n: Vertex, u: Vertex, v: Vertex)
    requires Tree(f, c) && Valid(f) && n in c && n in f.kind && Demands(f, n, u, v)
    ensures Before(f, c, u, v) && v in c
  {
    hide Tree, Before;
    TreeNode(f, c, n);
    if ChainDemands(f, n, u, v) {
      var elems := f.kind[n].elems;
      var i, j :| 0 <= i < j < |elems| && ChainPair(f, n, elems, i, j, u, v);
      ChainIsBefore(f, c, n, elems, i, j, u, v);
      InsideIsBelow(f, c, v, elems[j]);
    } else {
      var target :| target in f.after[n] && v in Leaves(f, target);
      TargetIsBefore(f, c, n, target, u, v);
      InsideIsBelow(f, c, v, target);
    }
  }

  lemma DocumentedIsBefore(f: Forest, c: set<Vertex>, u: Vertex, v: Vertex)
    requires Tree(f, c) && Reaches(Documented(f, c), u, v)
    ensures Before(f, c, u, v)
  {
    var d := Documented(f, c);
    var later := set x | x in c && Before(f, c, u, x);
    hide Tree, Before, Reaches;
    forall x, y | Edge(d, x, y) ensures Before(f, c, x, y) && y in c {
      var n :| n in c && Demands(f, n, x, y);
      DemandIsBefore(f, c, n, x, y);
    }
    var w := FirstStep(d, u, v);
    forall x, y | x in later && Edge(d, x, y) ensures y in later {
      BeforeTransitive(f, c, u, x, y);
    }
    ClosedSetHoldsReachable(d, later, w, v);
  }

  lemma NotBeforeBack(f: Forest, c: set<Vertex>, u: Vertex, v: Vertex)
    requires Tree(f, c) && Before(f, c, u, v)
    ensures !Before(f, c, v, u)
  {
    if Before(f, c, v, u) {
      BeforeTransitive(f, c, u, v, u);
      NotBeforeItself(f, c, u);
    }
  }

  // The members of a group are not ordered.
  lemma MembersUnordered(f: Forest, c: set<Vertex>, n: Vertex, p: Vertex, q: Vertex, u: Vertex, v: Vertex)
    requires Tree(f, c) && n in c && n in f.kind && f.kind[n].Group? && p in Parts(f.kind[n]) && q in Parts(f.kind[n])
    requires p != q && Below(f, c, p, u) && Below(f, c, q, v)
    ensures !Before(f, c, u, v)
  {
    TreeNode(f, c, n);
    hide Tree;
    if Before(f, c, u, v) {
      var m, p', q' :| BeforeAt(f, c, m, p', q', u, v);
      PrecedesUses(f, c, m, p', q');
      OnSideIsBelow(f, c, m, p', u);
      UsedIsBelow(f, c, n, n, p);
      BelowTransitive(f, c, n, p, u);
      Comparable(f, c, n, m, u);
      if m == n {
        Siblings(f, c, n, q', q, v);
      } else if Below(f, c, n, m) {
        var s := UsedAbove(f, c, n, m);
        BelowTransitive(f, c, s, m, u);
        Siblings(f, c, n, s, p, u);
        UsedIsBelow(f, c, m, m, q');
        BelowTransitive(f, c, m, q', v);
        BelowTransitive(f, c, s, m, v);
        Siblings(f, c, n, s, q, v);
      } else {
        OnOneSide(f, c, m, p', q', n, p, q, u, v);
      }
    }
  }

  // An object strictly below m does not hold both sides of what m orders.
  lemma OnOneSide(f: Forest, c: set<Vertex>, m: Vertex, p': Vertex, q': Vertex, n: Vertex, p: Vertex, q: Vertex,
                  u: Vertex, v: Vertex)
    requires Tree(f, c) && n in c && n in f.kind && Below(f, c, m, n) && m != n
    requires p in Uses(f, n) && q in Uses(f, n) && Below(f, c, p, u) && Below(f, c, q, v)
    ensures !BeforeAt(f, c, m, p', q', u, v)
  {
    hide Tree, Precedes;
    if BeforeAt(f, c, m, p', q', u, v) {
      PrecedesUses(f, c, m, p', q');
      var s := UsedAbove(f, c, m, n);
      UsedIsBelow(f, c, s, n, p);
      UsedIsBelow(f, c, s, n, q);
      BelowTransitive(f, c, s, p, u);
      BelowTransitive(f, c, s, q, v);
      Siblings(f, c, m, s, q', v);
      if p' == m {
        NotBoth(f, c, m, s);
      } else {
        Siblings(f, c, m, s, p', u);
      }
    }
  }

  // ------------------------------------------------------------------ extreme leaves

  ghost predicate Facing(f: Forest, c: set<Vertex>, front: bool, x: Vertex, t: Vertex)
    requires Tree(f, c)
  {
    if front then Before(f, c, t, x) else Before(f, c, x, t)
  }

  // No leaf of n lies beyond an extreme leaf of n.
  lemma {:induction false} ExtremeIsLast(f: Forest, c: set<Vertex>, n: Vertex, front: bool, x: Vertex, t: Vertex)
    requires Tree(f, c) && Valid(f) && n in c && n in f.kind && x in Extremes(f, n, front) && t in Leaves(f, n)
    ensures !Facing(f, c, front, x, t)
    decreases n
  {
    hide Tree, Before, Below;
    TreeNode(f, c, n);
    match f.kind[n]
    case Leaf =>
      NotBeforeItself(f, c, n);
    case Chain(elems) =>
      var k :| 0 <= k < |elems| && Outermost(f, elems, front, k) && x in Extremes(f, elems[k], front);
      var i := ChainLeaf(f, n, elems, t);
      ExtremesAreLeaves(f, elems[k], front);
      if i == k {
        ExtremeIsLast(f, c, elems[k], front, x, t);
      } else if front {
        ChainIsBefore(f, c, n, elems, k, i, x, t);
        NotBeforeBack(f, c, x, t);
      } else {
        ChainIsBefore(f, c, n, elems, i, k, t, x);
        NotBeforeBack(f, c, t, x);
      }
    case Group(members) =>
      var m :| m in members && x in Extremes(f, m, front);
      var p :| p in Parts(f.kind[n]) && Inside(f, t, p);
      if m == p {
        ExtremeIsLast(f, c, m, front, x, t);
      } else {
        ExtremesAreLeaves(f, m, front);
        InsideIsBelow(f, c, x, m);
        InsideIsBelow(f, c, t, p);
        MembersUnordered(f, c, n, m, p, x, t);
        MembersUnordered(f, c, n, p, m, t, x);
      }
  }

  // ------------------------------------------------------------------ links and edges

  // An edge between leaves of two elements of a chain comes from a link of the two.
  lemma ChainEdge(f: Forest, c: set<Vertex>, g: Links, n: Vertex, elems: seq<Vertex>, i: nat, j: nat, x: Vertex, y: Vertex)
    requires Tree(f, c) && IsFlattening(f, c, g) && n in c && n in f.kind && f.kind[n] == Chain(elems) && i < j < |elems|
    requires ElementsExist(f, n) && x in Leaves(f, elems[i]) && y in Leaves(f, elems[j]) && Edge(g, x, y)
    ensures j == i + 1 && x in Tail(f, elems[i]) && y in Head(f, elems[j])
  {
    TreeNode(f, c, n);
    var m, v, w := FlatEdgeOrigin(f, c, g, x, y);
    hide Tree, IsFlattening;
    TreeNode(f, c, m);
    EndsAreLeaves(f, v, false);
    EndsAreLeaves(f, w, true);
    if f.kind[m].Chain? && Consecutive(f.kind[m].elems, v, w) {
      ConsecutiveInChain(f, c, n, elems, i, j, m, v, w, x, y);
    } else {
      OtherLink(f, c, m, v, w);
      PartLeaves(f, n, elems[i]);
      PartLeaves(f, n, elems[j]);
      SourceAndTargetApart(f, c, m, w, n, x, y);
      assert false;
    }
  }

  lemma ConsecutiveAt(elems: seq<Vertex>, v: Vertex, w: Vertex) returns (i: nat)
    requires Consecutive(elems, v, w)
    ensures i + 1 < |elems| && elems[i] == v && elems[i + 1] == w
  {
    i :| 0 <= i < |elems| - 1 && elems[i] == v && elems[i + 1] == w;
  }

  lemma ConsecutiveInChain(f: Forest, c: set<Vertex>, n: Vertex, elems: seq<Vertex>, i: nat, j: nat,
                           m: Vertex, v: Vertex, w: Vertex, x: Vertex, y: Vertex)
    requires Tree(f, c) && n in c && n in f.kind && f.kind[n] == Chain(elems) && i < j < |elems| && ElementsExist(f, n)
    requires m in c && m in f.kind && f.kind[m].Chain? && Consecutive(f.kind[m].elems, v, w) && v in f.kind && w in f.kind
    requires Inside(f, x, elems[i]) && Inside(f, y, elems[j]) && Inside(f, x, v) && Inside(f, y, w)
    ensures j == i + 1 && v == elems[i] && w == elems[j]
  {
    hide Tree, Valid, MentionsClosed, Inside, ElementsExist, Consecutive, Parts, NoDup, Uses;
    TreeNode(f, c, m);
    var es := f.kind[m].elems;
    var a := ConsecutiveAt(es, v, w);
    SameChain(f, c, n, elems, i, j, m, es, a, a + 1, x, y);
  }

  // Two chains that both have x and y in different elements are the same.
  lemma SameChain(f: Forest, c: set<Vertex>, n: Vertex, elems: seq<Vertex>, i: nat, j: nat,
                  m: Vertex, es: seq<Vertex>, a: nat, b: nat, x: Vertex, y: Vertex)
    requires Tree(f, c) && n in c && n in f.kind && f.kind[n] == Chain(elems) && i < j < |elems| && ElementsExist(f, n)
    requires m in c && m in f.kind && f.kind[m] == Chain(es) && a < b < |es| && ElementsExist(f, m)
    requires Inside(f, x, elems[i]) && Inside(f, y, elems[j]) && Inside(f, x, es[a]) && Inside(f, y, es[b])
    ensures m == n && a == i && b == j
  {
    TreeNode(f, c, n);
    TreeNode(f, c, m);
    hide Tree, Valid, MentionsClosed, ElementsExist;
    Laminar(f, c, x, n, m);
    if m == n {
      SamePart(f, c, n, elems[i], es[a], x);
      SamePart(f, c, n, elems[j], es[b], y);
    } else if Inside(f, m, n) {
      var e := PartAround(f, m, n);
      HeldByPart(f, c, n, e, elems[i], m, es[a], x);
      HeldByPart(f, c, n, e, elems[j], m, es[b], y);
    } else {
      var e := PartAround(f, n, m);
      HeldByPart(f, c, m, e, es[a], n, elems[i], x);
      HeldByPart(f, c, m, e, es[b], n, elems[j], y);
    }
  }

  lemma PartAround(f: Forest, x: Vertex, y: Vertex) returns (p: Vertex)
    requires Valid(f) && y in f.kind && Inside(f, x, y) && x != y
    ensures p in Parts(f.kind[y]) && p in f.kind && Inside(f, x, p)
  {
    p :| p in Parts(f.kind[y]) && Inside(f, x, p);
  }

  // The part of n that holds m also holds what the parts of m hold.
  lemma HeldByPart(f: Forest, c: set<Vertex>, n: Vertex, e: Vertex, p: Vertex, m: Vertex, r: Vertex, x: Vertex)
    requires Tree(f, c) && n in c && n in f.kind && e in Parts(f.kind[n]) && e in f.kind && m in f.kind && Inside(f, m, e)
    requires p in Parts(f.kind[n]) && p in f.kind && Inside(f, x, p)
    requires r in Parts(f.kind[m]) && r in f.kind && Inside(f, x, r)
    ensures p == e
  {
    hide Tree, Inside, Parts;
    TreeIsValid(f, c);
    PartOfInside(f, m, r, e);
    InsideTransitive(f, x, r, e);
    SamePart(f, c, n, p, e, x);
  }

  // A target of on_done() holds nothing of its source, and no object holds leaves of both.
  lemma SourceAndTargetApart(f: Forest, c: set<Vertex>, m: Vertex, w: Vertex, n: Vertex, x: Vertex, y: Vertex)
    requires Tree(f, c) && Valid(f) && m in c && m in f.kind && w in f.after[m] && w in f.kind
    requires x in Leaves(f, m) && y in Leaves(f, w) && n in c && n in f.kind
    ensures !(x in Leaves(f, n) && y in Leaves(f, n))
  {
    hide Tree, Before;
    TargetIsBefore(f, c, m, w, x, y);
    if x in Leaves(f, n) && y in Leaves(f, n) {
      Laminar(f, c, y, w, n);
      if Inside(f, w, n) { TargetIsTop(f, c, m, w, n); }
      InsideTransitive(f, x, n, w);
      TargetIsBefore(f, c, m, w, x, x);
      NotBeforeItself(f, c, x);
    }
  }

  // A link that does not join two elements of a chain comes from on_done().
  lemma OtherLink(f: Forest, c: set<Vertex>, m: Vertex, v: Vertex, w: Vertex)
    requires Tree(f, c) && Valid(f) && m in c && m in f.kind && OwnLink(f, m, v, w) && v in f.kind && w in f.kind
    requires !(f.kind[m].Chain? && Consecutive(f.kind[m].elems, v, w))
    ensures w in f.after[m] && v in DoneSources(f, m) && Leaves(f, v) <= Leaves(f, m)
  {
    TreeNode(f, c, m);
    hide Tree;
    if !f.kind[m].Leaf? { PartLeaves(f, m, v); }
  }

  // An edge between leaves of an object and of a target of its on_done() comes from that
  // on_done().
  lemma TargetEdge(f: Forest, c: set<Vertex>, g: Links, n: Vertex, target: Vertex, x: Vertex, y: Vertex)
    requires Tree(f, c) && IsFlattening(f, c, g) && n in c && n in f.kind && target in f.after[n] && target in f.kind
    requires x in Leaves(f, n) && y in Leaves(f, target) && Edge(g, x, y)
    ensures DoneTail(f, n, x) && y in Head(f, target)
  {
    TreeNode(f, c, n);
    var m, v, w := FlatEdgeOrigin(f, c, g, x, y);
    hide Tree, IsFlattening;
    TargetIsBefore(f, c, n, target, x, y);
    TreeNode(f, c, m);
    EndsAreLeaves(f, v, false);
    EndsAreLeaves(f, w, true);
    if f.kind[m].Chain? && Consecutive(f.kind[m].elems, v, w) {
      PartLeaves(f, m, v);
      PartLeaves(f, m, w);
      SourceAndTargetApart(f, c, n, target, m, x, y);
      assert false;
    } else {
      OtherLink(f, c, m, v, w);
      TargetIsBefore(f, c, m, w, x, y);
      OneTarget(f, c, n, target, m, w, y);
    }
  }

  // ------------------------------------------------------------------ nothing in between

  // x and y are extreme leaves of adjoining elements: what is demanded before y is not
  // after x.
  lemma ChainGap(f: Forest, c: set<Vertex>, n: Vertex, elems: seq<Vertex>, i: nat, j: nat, x: Vertex, y: Vertex,
                 m: Vertex, t: Vertex)
    requires Tree(f, c) && Valid(f) && n in c && n in f.kind && f.kind[n] == Chain(elems) && ElementsExist(f, n)
    requires Adjoin(f, elems, i, j) && x in Extremes(f, elems[i], false) && y in Extremes(f, elems[j], true)
    requires m in c && m in f.kind && Demands(f, m, t, y)
    ensures !Before(f, c, x, t)
  {
    hide Tree, Before;
    TreeNode(f, c, n);
    ExtremesAreLeaves(f, elems[i], false);
    ExtremesAreLeaves(f, elems[j], true);
    if ChainDemands(f, m, t, y) {
      var es := f.kind[m].elems;
      var a, b :| 0 <= a < b < |es| && ChainPair(f, m, es, a, b, t, y);
      ChainGapInChain(f, c, n, elems, i, j, x, y, m, es, a, b, t);
    } else {
      var w :| w in f.after[m] && y in Leaves(f, w);
      TargetIsBefore(f, c, m, w, t, y);
      PartLeaves(f, n, elems[i]);
      PartLeaves(f, n, elems[j]);
      Laminar(f, c, y, w, n);
      if Inside(f, w, n) { TargetIsTop(f, c, m, w, n); }
      InsideTransitive(f, x, n, w);
      TargetIsBefore(f, c, m, w, t, x);
      NotBeforeBack(f, c, t, x);
    }
  }

  lemma ChainGapInChain(f: Forest, c: set<Vertex>, n: Vertex, elems: seq<Vertex>, i: nat, j: nat, x: Vertex, y: Vertex,
                        m: Vertex, es: seq<Vertex>, a: nat, b: nat, t: Vertex)
    requires Tree(f, c) && Valid(f) && n in c && n in f.kind && f.kind[n] == Chain(elems) && ElementsExist(f, n)
    requires Adjoin(f, elems, i, j) && x in Extremes(f, elems[i], false) && y in Extremes(f, elems[j], true)
    requires x in Leaves(f, elems[i]) && y in Leaves(f, elems[j])
    requires m in c && m in f.kind && f.kind[m] == Chain(es) && ElementsExist(f, m) && a < b < |es|
    requires t in Leaves(f, es[a]) && y in Leaves(f, es[b])
    ensures !Before(f, c, x, t)
  {
    hide Tree, Before, Valid, ElementsExist, Inside;
    TreeNode(f, c, n);
    TreeNode(f, c, m);
    InsideParts(f, m, es[b], y);
    InsideParts(f, n, elems[j], y);
    Laminar(f, c, y, n, m);
    if m == n {
      SamePart(f, c, n, es[b], elems[j], y);
      assert b == j;
      if a == i {
        ExtremeIsLast(f, c, elems[i], false, x, t);
      } else {
        assert a < i;
        ChainIsBefore(f, c, n, elems, a, i, t, x);
        NotBeforeBack(f, c, t, x);
      }
    } else if Inside(f, m, n) {
      var e := PartAround(f, m, n);
      HeldByPart(f, c, n, e, elems[j], m, es[b], y);
      PartOfInside(f, m, es[a], e);
      InsideTransitive(f, t, es[a], e);
      ExtremeIsLast(f, c, e, true, y, t);
      ChainIsBefore(f, c, m, es, a, b, t, y);
      assert false;
    } else {
      var e := PartAround(f, n, m);
      HeldByPart(f, c, m, e, es[b], n, elems[j], y);
      PartOfInside(f, n, elems[i], e);
      InsideTransitive(f, x, elems[i], e);
      ChainIsBefore(f, c, m, es, a, b, t, x);
      NotBeforeBack(f, c, t, x);
    }
  }

  lemma InsideParts(f: Forest, n: Vertex, p: Vertex, l: Vertex)
    requires Valid(f) && n in f.kind && p in Parts(f.kind[n]) && p in f.kind && Inside(f, l, p)
    ensures Inside(f, l, n)
  {
  }

  // The same for an object and a target of its on_done().
  lemma TargetGap(f: Forest, c: set<Vertex>, n: Vertex, target: Vertex, x: Vertex, y: Vertex, m: Vertex, t: Vertex)
    requires Tree(f, c) && Valid(f) && n in c && n in f.kind && target in f.after[n] && target in f.kind
    requires x in Extremes(f, n, false) && y in Extremes(f, target, true)
    requires m in c && m in f.kind && Demands(f, m, t, y)
    ensures !Before(f, c, x, t)
  {
    hide Tree, Before, Below;
    ExtremesAreLeaves(f, n, false);
    ExtremesAreLeaves(f, target, true);
    TargetIsBefore(f, c, n, target, x, y);
    if ChainDemands(f, m, t, y) {
      TreeNode(f, c, m);
      var es := f.kind[m].elems;
      var a, b :| 0 <= a < b < |es| && ChainPair(f, m, es, a, b, t, y);
      TargetNotInChain(f, c, n, target, y, m, es, a, b, t);
    } else {
      var w :| w in f.after[m] && y in Leaves(f, w);
      TargetIsBefore(f, c, m, w, t, y);
      OneTarget(f, c, n, target, m, w, y);
      ExtremeIsLast(f, c, n, false, x, t);
    }
  }

  // An extreme leaf of a target comes after nothing in any chain.
  lemma TargetNotInChain(f: Forest, c: set<Vertex>, n: Vertex, target: Vertex, y: Vertex,
                         m: Vertex, es: seq<Vertex>, a: nat, b: nat, t: Vertex)
    requires Tree(f, c) && Valid(f) && n in c && n in f.kind && f.kind[n] != Group({})
    requires target in f.after[n] && target in f.kind && target in c
    requires y in Extremes(f, target, true) && y in Leaves(f, target)
    requires m in c && m in f.kind && f.kind[m] == Chain(es) && ElementsExist(f, m) && a < b < |es|
    requires t in Leaves(f, es[a])
    ensures y !in Leaves(f, es[b])
  {
    hide Tree, Before, Below, Valid, ElementsExist, Inside;
    TreeNode(f, c, m);
    if y in Leaves(f, es[b]) {
      InsideParts(f, m, es[a], t);
      InsideParts(f, m, es[b], y);
      Laminar(f, c, y, target, m);
      if Inside(f, target, m) { TargetIsTop(f, c, n, target, m); }
      InsideTransitive(f, t, m, target);
      ExtremeIsLast(f, c, target, true, y, t);
      ChainIsBefore(f, c, m, es, a, b, t, y);
    }
  }

  // Targets that share a leaf are one target, of one object.
  lemma OneTarget(f: Forest, c: set<Vertex>, n: Vertex, target: Vertex, m: Vertex, w: Vertex, y: Vertex)
    requires Tree(f, c) && Valid(f) && n in c && n in f.kind && f.kind[n] != Group({}) && target in f.after[n]
    requires m in c && m in f.kind && f.kind[m] != Group({}) && w in f.after[m]
    requires target in c && target in f.kind && w in c && w in f.kind && y in Leaves(f, target) && y in Leaves(f, w)
    ensures w == target && m == n
  {
    hide Tree, Inside, Valid;
    TreeNode(f, c, n);
    TreeNode(f, c, m);
    Laminar(f, c, y, target, w);
    if Inside(f, target, w) { TargetIsTop(f, c, n, target, w); } else { TargetIsTop(f, c, m, w, target); }
    OneUser(f, c, m, n, w);
  }

  // If nothing demanded before y is after x, then x reaches y by an edge or not at all.
  lemma ReachedByEdge(f: Forest, c: set<Vertex>, g: Links, x: Vertex, y: Vertex)
    requires Tree(f, c) && Valid(f) && IsFlattening(f, c, g) && Reaches(g, x, y)
    requires forall m, t :: m in c && m in f.kind && Demands(f, m, t, y) ==> !Before(f, c, x, t)
    ensures Edge(g, x, y)
  {
    hide Before, Reaches, IsFlattening;
    var t := LastStep(g, x, y);
    if t != x {
      GraphIsDocumented(f, c, g);
      assert Reaches(Documented(f, c), x, t);
      DocumentedIsBefore(f, c, x, t);
      var m, v, w := FlatEdgeOrigin(f, c, g, t, y);
      EndsAreLeaves(f, v, false);
      EndsAreLeaves(f, w, true);
      LinkIsDemanded(f, m, v, w, t, y);
      assert false;
    }
  }

  // ------------------------------------------------------------------ the exact condition

  lemma DemandInDocument(f: Forest, c: set<Vertex>, n: Vertex, u: Vertex, v: Vertex)
    requires Valid(f) && MentionsClosed(f, c) && n in c && Demands(f, n, u, v) && u in c && f.kind[u].Leaf? && v in f.kind
    ensures Edge(Documented(f, c), u, v)
  {
  }

  // An extreme leaf, and one that is not linked if there is any.
  lemma Pick(f: Forest, n: Vertex, front: bool, linked: set<Vertex>) returns (x: Vertex)
    requires Valid(f) && n in f.kind && Leaves(f, n) != {}
    ensures x in Extremes(f, n, front) && (x in linked ==> Extremes(f, n, front) <= linked)
  {
    if y :| y in Extremes(f, n, front) && y !in linked {
      x := y;
    } else {
      x := SomeExtreme(f, n, front);
    }
  }

  // Adjoining elements that are not linked throughout lose a documented pair.
  lemma ChainLosesOrder(f: Forest, c: set<Vertex>, g: Links, n: Vertex, elems: seq<Vertex>, i: nat, j: nat)
    returns (x: Vertex, y: Vertex)
    requires Tree(f, c) && Valid(f) && IsFlattening(f, c, g) && n in c && n in f.kind && f.kind[n] == Chain(elems)
    requires ElementsExist(f, n) && Adjoin(f, elems, i, j)
    requires !(j == i + 1 && Extremes(f, elems[i], false) <= Tail(f, elems[i]) && Extremes(f, elems[j], true) <= Head(f, elems[j]))
    ensures Demands(f, n, x, y) && !Reaches(g, x, y)
  {
    hide Tree, IsFlattening, Reaches, Before;
    x := Pick(f, elems[i], false, Tail(f, elems[i]));
    y := Pick(f, elems[j], true, Head(f, elems[j]));
    ExtremesAreLeaves(f, elems[i], false);
    ExtremesAreLeaves(f, elems[j], true);
    assert ChainPair(f, n, elems, i, j, x, y);
    if Reaches(g, x, y) {
      forall m, t | m in c && m in f.kind && Demands(f, m, t, y) ensures !Before(f, c, x, t) {
        ChainGap(f, c, n, elems, i, j, x, y, m, t);
      }
      ReachedByEdge(f, c, g, x, y);
      ChainEdge(f, c, g, n, elems, i, j, x, y);
      assert false;
    }
  }

  lemma TargetLosesOrder(f: Forest, c: set<Vertex>, g: Links, n: Vertex, target: Vertex) returns (x: Vertex, y: Vertex)
    requires Tree(f, c) && Valid(f) && IsFlattening(f, c, g) && n in c && n in f.kind
    requires target in f.after[n] && target in f.kind && !TargetKeeps(f, n, target)
    ensures Demands(f, n, x, y) && !Reaches(g, x, y)
  {
    hide Tree, IsFlattening, Reaches, Before;
    if t :| t in Extremes(f, n, false) && !DoneTail(f, n, t) {
      x := t;
    } else {
      x := SomeExtreme(f, n, false);
    }
    y := Pick(f, target, true, Head(f, target));
    ExtremesAreLeaves(f, n, false);
    ExtremesAreLeaves(f, target, true);
    if Reaches(g, x, y) {
      forall m, t | m in c && m in f.kind && Demands(f, m, t, y) ensures !Before(f, c, x, t) {
        TargetGap(f, c, n, target, x, y, m, t);
      }
      ReachedByEdge(f, c, g, x, y);
      TargetEdge(f, c, g, n, target, x, y);
      assert false;
    }
  }

  lemma LosesOrder(f: Forest, c: set<Vertex>, g: Links) returns (x: Vertex, y: Vertex)
    requires Tree(f, c) && Valid(f) && MentionsClosed(f, c) && IsFlattening(f, c, g) && !KeepsOrder(f, c)
    ensures Edge(Documented(f, c), x, y) && !Reaches(g, x, y)
  {
    hide Tree, IsFlattening, Reaches;
    var n :| n in c && !(&& (f.kind[n].Chain? ==> ElementsExist(f, n) && ChainKeeps(f, f.kind[n].elems))
                         && forall target :: target in f.after[n] ==> TargetKeeps(f, n, target));
    TreeNode(f, c, n);
    if f.kind[n].Chain? && !ChainKeeps(f, f.kind[n].elems) {
      var elems := f.kind[n].elems;
      var i: nat, j: nat :| Adjoin(f, elems, i, j) &&
        !(j == i + 1 && Extremes(f, elems[i], false) <= Tail(f, elems[i]) && Extremes(f, elems[j], true) <= Head(f, elems[j]));
      x, y := ChainLosesOrder(f, c, g, n, elems, i, j);
    } else {
      var target :| target in f.after[n] && !TargetKeeps(f, n, target);
      x, y := TargetLosesOrder(f, c, g, n, target);
    }
    DemandedLeaves(f, c, n, x, y);
    DemandInDocument(f, c, n, x, y);
  }

  lemma DemandedLeaves(f: Forest, c: set<Vertex>, n: Vertex, x: Vertex, y: Vertex)
    requires Valid(f) && MentionsClosed(f, c) && n in c && n in f.kind && Demands(f, n, x, y)
    ensures x in c && x in f.kind && f.kind[x].Leaf? && y in f.kind
  {
    if ChainDemands(f, n, x, y) {
      var elems := f.kind[n].elems;
      var i, j :| 0 <= i < j < |elems| && ChainPair(f, n, elems, i, j, x, y);
      assert elems[i] in Parts(f.kind[n]);
      PartLeaves(f, n, elems[i]);
    }
    InsideStays(f, c, x, n);
  }

  // On trees, empty groups and on_done() included, flattening keeps the documented order if
  // and only if adjoining leaves are linked throughout.
  lemma ExactForTrees(f: Forest, c: set<Vertex>, g: Links)
    requires Tree(f, c) && IsFlattening(f, c, g)
    ensures KeepsOrder(f, c) <==> forall u, v :: Reaches(Documented(f, c), u, v) ==> Reaches(g, u, v)
  {
    hide Reaches;
    if KeepsOrder(f, c) {
      FlatteningIsExact(f, c, g);
    } else {
      var x, y := LosesOrder(f, c, g);
      EdgeReaches(Documented(f, c), x, y);
    }
  }

  // ------------------------------------------------------------------ read off the nesting

  // Different parts of an object share no leaf.
  lemma PartsApart(f: Forest, c: set<Vertex>, n: Vertex, p: Vertex, q: Vertex, l: Vertex)
    requires Tree(f, c) && Valid(f) && n in c && n in f.kind && p in Parts(f.kind[n]) && q in Parts(f.kind[n])
    requires p in f.kind && q in f.kind && l in Leaves(f, p) && l in Leaves(f, q)
    ensures p == q
  {
    hide Tree;
    SamePart(f, c, n, p, q, l);
  }

  // What a member has among the ends of its group are its own ends.
  lemma OwnEnds(f: Forest, c: set<Vertex>, n: Vertex, members: set<Vertex>, m: Vertex, front: bool, side: bool)
    requires Tree(f, c) && Valid(f) && n in c && n in f.kind && f.kind[n] == Group(members) && m in members && m in f.kind
    requires AtEnds(f, n, front, side)
    ensures AtEnds(f, m, front, side)
  {
    hide Tree;
    forall x | x in Extremes(f, m, front) ensures x in Ends(f, m, side) {
      assert x in Extremes(f, n, front);
      var p :| p in members && x in Ends(f, p, side);
      assert p in Parts(f.kind[n]) && m in Parts(f.kind[n]);
      EndsAreLeaves(f, p, side);
      ExtremesAreLeaves(f, m, front);
      PartsApart(f, c, n, p, m, x);
    }
  }

  // The outer leaves of a chain are not at its other side, unless it has one element.
  lemma OneElement(f: Forest, c: set<Vertex>, n: Vertex, elems: seq<Vertex>, front: bool)
    requires Tree(f, c) && Valid(f) && NoEmptyGroup(f, c) && n in c && n in f.kind && f.kind[n] == Chain(elems)
    requires AtEnds(f, n, front, !front)
    ensures |elems| == 1
  {
    TreeNode(f, c, n);
    hide Tree, Extremes, Ends;
    var outer, inner := At(elems, front), At(elems, !front);
    HasLeaves(f, c, outer);
    OuterExtremes(f, c, n, elems, front);
    OuterEnds(f, n, elems, !front);
    var x := SomeExtreme(f, outer, front);
    EndsAreLeaves(f, inner, front);
    PartsApart(f, c, n, outer, inner, x);
  }

  lemma {:induction false} ExposedExactly(f: Forest, c: set<Vertex>, n: Vertex, front: bool)
    requires Tree(f, c) && Valid(f) && MentionsClosed(f, c) && NoEmptyGroup(f, c) && n in c && n in f.kind
    ensures Exposes(f, n, front) <==> AtEnds(f, n, front, front)
    ensures ExposesAcross(f, n, front) <==> AtEnds(f, n, front, !front)
    decreases n
  {
    ExposedAtEnds(f, c, n, front);
    TreeNode(f, c, n);
    hide Tree, AtEnds, MentionsClosed, NoEmptyGroup, Uses;
    match f.kind[n]
    case Leaf =>
    case Chain(elems) =>
      ExposedExactly(f, c, At(elems, front), front);
      OuterAtEnds(f, c, n, elems, front);
      if AtEnds(f, n, front, !front) { OneElement(f, c, n, elems, front); }
    case Group(members) =>
      forall m | m in members
        ensures Exposes(f, m, front) <==> AtEnds(f, m, front, front)
        ensures ExposesAcross(f, m, front) <==> AtEnds(f, m, front, !front)
        ensures AtEnds(f, n, front, front) ==> AtEnds(f, m, front, front)
        ensures AtEnds(f, n, front, !front) ==> AtEnds(f, m, front, !front)
      {
        assert m in Parts(f.kind[n]);
        ExposedExactly(f, c, m, front);
        if AtEnds(f, n, front, front) { OwnEnds(f, c, n, members, m, front, front); }
        if AtEnds(f, n, front, !front) { OwnEnds(f, c, n, members, m, front, !front); }
      }
  }

  lemma OuterAtEnds(f: Forest, c: set<Vertex>, n: Vertex, elems: seq<Vertex>, front: bool)
    requires Tree(f, c) && Valid(f) && MentionsClosed(f, c) && NoEmptyGroup(f, c) && n in c && n in f.kind
    requires f.kind[n] == Chain(elems) && elems != [] && At(elems, front) in f.kind
    ensures AtEnds(f, n, front, front) ==> AtEnds(f, At(elems, front), front, !front)
    ensures |elems| == 1 && AtEnds(f, n, front, !front) ==> AtEnds(f, At(elems, front), front, front)
  {
    hide Tree, Extremes, Ends, MentionsClosed, NoEmptyGroup;
    OuterExtremes(f, c, n, elems, front);
    OuterEnds(f, n, elems, front);
    OuterEnds(f, n, elems, !front);
  }

  lemma KeptNeighboursAreExposed(f: Forest, c: set<Vertex>, n: Vertex, elems: seq<Vertex>, i: nat)
    requires Tree(f, c) && Valid(f) && MentionsClosed(f, c) && NoEmptyGroup(f, c) && n in c && n in f.kind
    requires f.kind[n] == Chain(elems) && ElementsExist(f, n) && ChainKeeps(f, elems) && i + 1 < |elems|
    ensures Exposes(f, elems[i], false) && Exposes(f, elems[i + 1], true)
  {
    hide Tree, Extremes, Ends, MentionsClosed, NoEmptyGroup, Leaves, Parts, Valid;
    ElementsHaveLeaves(f, c, n, elems);
    assert Adjoin(f, elems, i, i + 1);
    ExposedExactly(f, c, elems[i], false);
    ExposedExactly(f, c, elems[i + 1], true);
  }

  lemma KeptChainIsExposed(f: Forest, c: set<Vertex>, n: Vertex, elems: seq<Vertex>)
    requires Tree(f, c) && Valid(f) && MentionsClosed(f, c) && NoEmptyGroup(f, c) && n in c && n in f.kind
    requires f.kind[n] == Chain(elems) && ElementsExist(f, n) && ChainKeeps(f, elems)
    ensures ChainExposed(f, n)
  {
    hide Tree, ChainKeeps, MentionsClosed, NoEmptyGroup, Parts, Valid, Exposes;
    forall i | 0 <= i < |elems| - 1 ensures Exposes(f, elems[i], false) {
      KeptNeighboursAreExposed(f, c, n, elems, i);
    }
    forall j | 0 < j < |elems| ensures Exposes(f, elems[j], true) {
      KeptNeighboursAreExposed(f, c, n, elems, j - 1);
    }
  }

  lemma KeptSourceIsExposed(f: Forest, c: set<Vertex>, n: Vertex, target: Vertex, s: Vertex)
    requires Tree(f, c) && Valid(f) && MentionsClosed(f, c) && NoEmptyGroup(f, c) && n in c && n in f.kind
    requires target in f.after[n] && target in c && target in f.kind && TargetKeeps(f, n, target)
    requires s in DoneSources(f, n)
    ensures s in f.kind && Exposes(f, s, false) && Exposes(f, target, true)
  {
    TreeNode(f, c, n);
    HasLeaves(f, c, n);
    HasLeaves(f, c, target);
    hide Tree, MentionsClosed, NoEmptyGroup, Uses, Leaves;
    ExposedExactly(f, c, target, true);
    assert s in c && s in f.kind;
    ExposedExactly(f, c, s, false);
    forall x | x in Extremes(f, s, false) ensures x in Ends(f, s, false) {
      SourceExtreme(f, c, n, s, x);
      assert DoneTail(f, n, x);
      OneSource(f, c, n, s, x);
    }
  }

  lemma SourceExtreme(f: Forest, c: set<Vertex>, n: Vertex, s: Vertex, x: Vertex)
    requires Tree(f, c) && Valid(f) && MentionsClosed(f, c) && NoEmptyGroup(f, c) && n in c && n in f.kind
    requires s in DoneSources(f, n) && s in f.kind && x in Extremes(f, s, false)
    ensures x in Extremes(f, n, false)
  {
    hide Tree;
    match f.kind[n]
    case Leaf =>
    case Chain(elems) =>
      hide Extremes;
      OuterExtremes(f, c, n, elems, false);
    case Group(members) =>
  }

  lemma OneSource(f: Forest, c: set<Vertex>, n: Vertex, s: Vertex, x: Vertex)
    requires Tree(f, c) && Valid(f) && n in c && n in f.kind && s in DoneSources(f, n) && s in f.kind
    requires x in Extremes(f, s, false) && DoneTail(f, n, x)
    ensures x in Ends(f, s, false)
  {
    TreeNode(f, c, n);
    hide Tree, Extremes, Ends, Leaves;
    var r :| r in DoneSources(f, n) && r in f.kind && x in Tail(f, r);
    EndsAreLeaves(f, r, false);
    ExtremesAreLeaves(f, s, false);
    if f.kind[n].Group? { PartsApart(f, c, n, r, s, x); }
  }

  lemma KeptObjectIsExposed(f: Forest, c: set<Vertex>, n: Vertex)
    requires Tree(f, c) && Valid(f) && MentionsClosed(f, c) && NoEmptyGroup(f, c) && n in c && n in f.kind
    requires forall target :: target in f.after[n] ==> target in f.kind && TargetKeeps(f, n, target)
    ensures f.after[n] != {} ==> forall s :: s in DoneSources(f, n) ==> s in f.kind && Exposes(f, s, false)
    ensures forall target :: target in f.after[n] ==> Exposes(f, target, true)
  {
    hide Tree, TargetKeeps, Exposes, DoneSources, MentionsClosed;
    KeysInside(f, c);
    SomeSource(f, c, n);
    hide NoEmptyGroup, Valid;
    forall target, s | target in f.after[n] && s in DoneSources(f, n)
      ensures s in f.kind && Exposes(f, s, false) && Exposes(f, target, true)
    {
      TargetInside(f, c, n, target);
      KeptSourceIsExposed(f, c, n, target, s);
    }
  }

  lemma KeptIsExposed(f: Forest, c: set<Vertex>)
    requires Tree(f, c) && Valid(f) && MentionsClosed(f, c) && NoEmptyGroup(f, c) && KeepsOrder(f, c)
    ensures LinksExposed(f, c)
  {
    hide Tree, ChainKeeps, TargetKeeps, ChainExposed, Exposes, DoneSources, NoEmptyGroup, MentionsClosed;
    assert c <= f.kind.Keys by { KeysInside(f, c); }
    forall n | n in c
      ensures f.kind[n].Chain? ==> ChainExposed(f, n)
      ensures f.after[n] != {} ==> forall s :: s in DoneSources(f, n) ==> s in f.kind && Exposes(f, s, false)
      ensures forall target :: target in f.after[n] ==> Exposes(f, target, true)
    {
      if f.kind[n].Chain? {
        assert ElementsExist(f, n);
        KeptChainIsExposed(f, c, n, f.kind[n].elems);
      }
      KeptObjectIsExposed(f, c, n);
    }
  }

  lemma KeysInside(f: Forest, c: set<Vertex>)
    requires Valid(f) && MentionsClosed(f, c)
    ensures c <= f.kind.Keys
  {
  }

  lemma SomeSource(f: Forest, c: set<Vertex>, n: Vertex)
    requires Valid(f) && c <= f.kind.Keys && NoEmptyGroup(f, c) && n in c && n in f.kind
    ensures DoneSources(f, n) != {}
  {
  }

  // On trees without empty groups the nesting alone says whether the order is kept.
  lemma ExactByNesting(f: Forest, c: set<Vertex>, g: Links)
    requires Tree(f, c) && Valid(f) && c <= f.kind.Keys && NoEmptyGroup(f, c) && IsFlattening(f, c, g)
    ensures LinksExposed(f, c) <==> forall u, v :: Reaches(Documented(f, c), u, v) <==> Reaches(g, u, v)
  {
    ExactForTrees(f, c, g);
    assert MentionsClosed(f, c);
    hide Tree, KeepsOrder, LinksExposed, IsFlattening, Reaches, Documented;
    if LinksExposed(f, c) { ExposedIsExact(f, c, g); }
    if KeepsOrder(f, c) { KeptIsExposed(f, c); }
  }

  // ------------------------------------------------------------------ empty groups

  // What only the on_done() of an empty group received is not flattened.
  lemma EmptyGroupForgets(f: Forest, start: Vertex, g: Links, n: Vertex, target: Vertex, x: Vertex)
    requires Valid(f) && start in f.kind && UsedOnce(f, f.kind.Keys)
    requires n in f.kind && f.kind[n] == Group({}) && target in f.after[n]
    requires forall m :: m in f.kind && m != n ==> target !in Uses(f, m)
    requires target in f.kind && !Inside(f, start, target) && Inside(f, x, target)
    requires IsFlattening(f, Component(f, start), g)
    ensures x !in g
  {
    var outside := set z | z in f.kind && !Inside(f, z, target);
    hide IsFlattening, Inside, UsedOnce, Reaches;
    forall a, b | a in outside && Edge(Mentions(f), a, b) ensures b in outside {
      StaysOutside(f, n, target, a, b);
    }
    if x in Component(f, start) {
      ClosedSetHoldsReachable(Mentions(f), outside, start, x);
      assert false;
    }
    ComponentCloses(f, start);
    FlatteningIsOnLeaves(f, Component(f, start), g);
  }

  lemma StaysOutside(f: Forest, n: Vertex, target: Vertex, a: Vertex, b: Vertex)
    requires Valid(f) && UsedOnce(f, f.kind.Keys) && n in f.kind && f.kind[n] == Group({})
    requires forall m :: m in f.kind && m != n ==> target !in Uses(f, m)
    requires a in f.kind && target in f.kind && !Inside(f, a, target) && b in OwnVertices(f, a)
    ensures !Inside(f, b, target)
  {
    if Inside(f, b, target) {
      var q := PartOwner(f, b, target);
    }
  }
}
