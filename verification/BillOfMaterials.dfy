// _compute_qty_producible() and get_bom_parent_templates_recursively() of
// integration/models/product_product.py, on bills of materials that may be cyclic.
// All quantities are in one unit of measure.
module BillOfMaterials {
  import opened Graphs

  datatype Option<T> = None | Some(value: T)

  datatype Kind = Service | Consumable | Storable

  datatype BomLine = BomLine(component: Vertex, required: real)

  datatype Bom = Bom(quantity: real, lines: seq<BomLine>)

  // hasBoms: some bill of materials exists; normal: the manufacturing one that is found.
  datatype Product = Product(available: real, kind: Kind, hasBoms: bool, normal: Option<Bom>)

  type Catalog = map<Vertex, Product>

  ghost predicate Valid(c: Catalog) {
    forall p, i :: p in c && c[p].normal.Some? && 0 <= i < |c[p].normal.value.lines| ==>
      c[p].normal.value.lines[i].component in c
  }

  // Services and consumables without a bill of materials are passed over.
  predicate IsSkipped(p: Product) {
    p.kind == Service || (p.kind == Consumable && !p.hasBoms)
  }

  predicate IsExploded(p: Product) {
    p.hasBoms && p.kind != Service
  }

  function Least(a: Option<int>, b: int): Option<int> {
    Some(if a.Some? && a.value < b then a.value else b)
  }

  // The quantity a number of batches gives; no number counts as zero.
  function Total(batches: Option<int>, quantity: real): real {
    match batches
    case None => 0.0
    case Some(n) => n as real * quantity
  }

  predicate LinesIn(c: Catalog, lines: seq<BomLine>) {
    forall i :: 0 <= i < |lines| ==> lines[i].component in c
  }

  // The guarded recursion: a product that is on the path already produces nothing.
  function Producible(c: Catalog, p: Vertex, visited: set<Vertex>): real
    requires Valid(c) && p in c
    decreases |c.Keys - visited|, 0
  {
    if p in visited then 0.0
    else match c[p].normal
      case None => c[p].available
      case Some(bom) =>
        OneFewerLeft(c.Keys, visited, p);
        Total(Batches(c, bom.lines, visited + {p}, None), bom.quantity)
  }

  // What is available of a component, its own production included.
  function Supply(c: Catalog, p: Vertex, visited: set<Vertex>): real
    requires Valid(c) && p in c
    decreases |c.Keys - visited|, 1
  {
    c[p].available + if IsExploded(c[p]) then Producible(c, p, visited) else 0.0
  }

  // The loop over the lines: the batches the lines seen so far allow, None if no line
  // constrained anything yet.
  function Batches(c: Catalog, lines: seq<BomLine>, visited: set<Vertex>, least: Option<int>): Option<int>
    requires Valid(c) && LinesIn(c, lines)
    decreases |c.Keys - visited|, |lines| + 2
  {
    if lines == [] then least
    else
      var line, rest := lines[0], lines[1..];
      if IsSkipped(c[line.component]) then Batches(c, rest, visited, least)
      else
        var supply := Supply(c, line.component, visited);
        if line.required == 0.0 then Batches(c, rest, visited, least)
        else if supply <= 0.0 then Some(0)
        else Batches(c, rest, visited, Least(least, (supply / line.required).Floor))
  }

  lemma OneFewerLeft(all: set<Vertex>, visited: set<Vertex>, p: Vertex)
    requires p in all && p !in visited
    ensures |all - (visited + {p})| < |all - visited|
  {
    assert all - visited == (all - (visited + {p})) + {p};
  }

  // ------------------------------------------------------------------ what the quantity is

  // A line that limits the production, read off the product it names.
  predicate Limits(c: Catalog, line: BomLine)
    requires line.component in c
  {
    var x := c[line.component];
    line.required != 0.0 && (x.kind == Storable || (x.kind == Consumable && x.hasBoms))
  }

  // There is enough for k batches: in stock, and from production if there are bills.
  ghost predicate Enough(c: Catalog, line: BomLine, path: set<Vertex>, k: nat)
    requires Valid(c) && line.component in c
  {
    var x := c[line.component];
    var made := if x.hasBoms && (x.kind == Consumable || x.kind == Storable) then Producible(c, line.component, path) else 0.0;
    k == 0 || k as real * line.required <= x.available + made
  }

  ghost predicate Makeable(c: Catalog, lines: seq<BomLine>, path: set<Vertex>, k: nat)
    requires Valid(c) && LinesIn(c, lines)
  {
    forall i :: 0 <= i < |lines| && Limits(c, lines[i]) ==> Enough(c, lines[i], path, k)
  }

  ghost predicate MostMakeable(c: Catalog, lines: seq<BomLine>, path: set<Vertex>, k: nat)
    requires Valid(c) && LinesIn(c, lines)
  {
    forall j: nat :: Makeable(c, lines, path, j) <==> j <= k
  }

  ghost predicate SomeLimits(c: Catalog, lines: seq<BomLine>)
    requires LinesIn(c, lines)
  {
    exists i :: 0 <= i < |lines| && Limits(c, lines[i])
  }

  // The quantity of product p, when the products on the path are being computed already:
  // nothing on the path, the stock without a bill, and otherwise the most batches for which
  // there is enough of everything, times the size of a batch.
  ghost predicate IsQuantity(c: Catalog, p: Vertex, path: set<Vertex>, total: real)
    requires Valid(c) && p in c
  {
    if p in path then total == 0.0
    else match c[p].normal
      case None => total == c[p].available
      case Some(bom) =>
        NonNegative(bom.lines) ==>
          if SomeLimits(c, bom.lines)
          then exists k: nat :: MostMakeable(c, bom.lines, path + {p}, k) && total == k as real * bom.quantity
          else total == 0.0
  }

  lemma LimitsAre(c: Catalog, line: BomLine, path: set<Vertex>, k: nat)
    requires Valid(c) && line.component in c && line.required >= 0.0
    ensures Limits(c, line) <==> Constrains(c, line)
    ensures Limits(c, line) ==> (Enough(c, line, path, k) <==> Fits(c, line, path, k))
  {
    if k > 0 && line.required > 0.0 { assert k as real * line.required > 0.0; }
  }

  lemma MakeableIs(c: Catalog, lines: seq<BomLine>, path: set<Vertex>, k: nat)
    requires Valid(c) && LinesIn(c, lines) && NonNegative(lines)
    ensures Makeable(c, lines, path, k) <==> AllFit(c, lines, path, k)
    ensures SomeLimits(c, lines) <==> SomeConstrains(c, lines)
  {
    hide Fits, Enough, Limits, Constrains;
    forall i | 0 <= i < |lines|
      ensures Limits(c, lines[i]) <==> Constrains(c, lines[i])
      ensures Limits(c, lines[i]) ==> (Enough(c, lines[i], path, k) <==> Fits(c, lines[i], path, k))
      ensures !Constrains(c, lines[i]) ==> Fits(c, lines[i], path, k)
    {
      LimitsAre(c, lines[i], path, k);
      if !Constrains(c, lines[i]) { FreeFits(c, lines[i], path, k); }
    }
  }

  lemma FreeFits(c: Catalog, line: BomLine, path: set<Vertex>, k: nat)
    requires Valid(c) && line.component in c && !Constrains(c, line)
    ensures Fits(c, line, path, k)
  {
  }

  // What the recursion computes is this quantity.
  lemma QuantityIsExact(c: Catalog, p: Vertex, path: set<Vertex>)
    requires Valid(c) && p in c
    ensures IsQuantity(c, p, path, Producible(c, p, path))
  {
    if p !in path && c[p].normal.Some? && NonNegative(c[p].normal.value.lines) {
      var bom := c[p].normal.value;
      assert LinesIn(c, bom.lines);
      BatchCountIsBottleneck(c, bom.lines, path + {p});
      hide Makeable, AllFit, SomeLimits, SomeConstrains, Batches;
      MakeableIs(c, bom.lines, path + {p}, 0);
      var b := Batches(c, bom.lines, path + {p}, None);
      if b.Some? {
        var k: nat := b.value;
        forall j: nat ensures Makeable(c, bom.lines, path + {p}, j) <==> j <= k {
          MakeableIs(c, bom.lines, path + {p}, j);
        }
        assert MostMakeable(c, bom.lines, path + {p}, k) && Producible(c, p, path) == k as real * bom.quantity;
      }
    }
  }

  // The method as written: one visited set, added to on entry and restored on return.
  class QtyComputer {
    const catalog: Catalog
    var visited: set<Vertex>

    constructor (c: Catalog)
      ensures catalog == c && visited == {}
    {
      catalog, visited := c, {};
    }

    method ComputeQtyProducible(p: Vertex) returns (total: real)
      requires Valid(catalog) && p in catalog
      modifies this
      ensures visited == old(visited)
      ensures total == Producible(catalog, p, old(visited))
      ensures IsQuantity(catalog, p, old(visited), total)
      decreases |catalog.Keys - visited|
    {
      QuantityIsExact(catalog, p, visited);
      hide IsQuantity;
      var available := catalog[p].available;
      if p in visited { return 0.0; }
      OneFewerLeft(catalog.Keys, visited, p);
      visited := visited + {p};
      if catalog[p].normal.None? {
        total := available;
      } else {
        var bom := catalog[p].normal.value;
        var least: Option<int> := None;
        var i := 0;
        var stopped := false;
        while i < |bom.lines| && !stopped
          invariant 0 <= i <= |bom.lines| && visited == old(visited) + {p}
          invariant Batches(catalog, bom.lines, visited, None) ==
              if stopped then least else Batches(catalog, bom.lines[i..], visited, least)
        {
          var line := bom.lines[i];
          var component := catalog[line.component];
          assert bom.lines[i..][0] == line && bom.lines[i..][1..] == bom.lines[i + 1..];
          if !IsSkipped(component) {
            var supply := component.available;
            if IsExploded(component) {
              var produced := ComputeQtyProducible(line.component);
              supply := supply + produced;
            }
            if line.required != 0.0 {
              if supply <= 0.0 {
                least := Some(0);
                stopped := true;
              } else {
                least := Least(least, (supply / line.required).Floor);
              }
            }
          }
          i := i + 1;
        }
        if least.Some? && least.value != 0 {
          total := least.value as real * bom.quantity;
        } else {
          total := 0.0;
        }
      }
      visited := visited - {p};
    }
  }

  // ------------------------------------------------------------------ acyclic catalogs

  // From a product to the components its computation descends into.
  function Descents(c: Catalog): Links
    requires Valid(c)
  {
    map p | p in c :: if c[p].normal.None? then {} else Exploded(c, c[p].normal.value.lines)
  }

  function Exploded(c: Catalog, lines: seq<BomLine>): set<Vertex>
    requires LinesIn(c, lines)
  {
    set i | 0 <= i < |lines| && IsExploded(c[lines[i].component]) :: lines[i].component
  }

  ghost function Below(g: Links, p: Vertex): set<Vertex> {
    set x | x in g && Reaches(g, p, x)
  }

  lemma BelowShrinks(g: Links, p: Vertex, x: Vertex)
    requires Closed(g) && Acyclic(g) && Edge(g, p, x)
    ensures |Below(g, x)| < |Below(g, p)|
  {
    EdgeReaches(g, p, x);
    forall y | y in Below(g, x) ensures y in Below(g, p) {
      ReachesTransitive(g, p, x, y);
    }
    assert x in Below(g, p) && x !in Below(g, x);
    SubsetSize(Below(g, x), Below(g, p) - {x});
  }

  lemma DescentsClosed(c: Catalog)
    requires Valid(c)
    ensures Closed(Descents(c))
  {
  }

  // The recursion without any path set. It is defined on acyclic catalogs only.
  ghost function Plain(c: Catalog, p: Vertex): real
    requires Valid(c) && p in c && Acyclic(Descents(c))
    decreases |Below(Descents(c), p)|, 1, 0
  {
    match c[p].normal
    case None => c[p].available
    case Some(bom) =>
      Total(PlainBatches(c, p, bom.lines, None), bom.quantity)
  }

  ghost function PlainBatches(c: Catalog, p: Vertex, lines: seq<BomLine>, least: Option<int>): Option<int>
    requires Valid(c) && p in c && LinesIn(c, lines) && Acyclic(Descents(c))
    requires Exploded(c, lines) <= Descents(c)[p]
    decreases |Below(Descents(c), p)|, 0, |lines|
  {
    if lines == [] then least
    else
      var line, rest := lines[0], lines[1..];
      ExplodedRest(c, lines);
      if IsSkipped(c[line.component]) then PlainBatches(c, p, rest, least)
      else
        var supply := c[line.component].available +
          (if IsExploded(c[line.component]) then
             DescentsClosed(c);
             BelowShrinks(Descents(c), p, line.component);
             Plain(c, line.component)
           else 0.0);
        if line.required == 0.0 then PlainBatches(c, p, rest, least)
        else if supply <= 0.0 then Some(0)
        else PlainBatches(c, p, rest, Least(least, (supply / line.required).Floor))
  }

  lemma ExplodedRest(c: Catalog, lines: seq<BomLine>)
    requires LinesIn(c, lines) && lines != []
    ensures Exploded(c, lines[1..]) <= Exploded(c, lines)
    ensures IsExploded(c[lines[0].component]) ==> lines[0].component in Exploded(c, lines)
  {
    forall x | x in Exploded(c, lines[1..]) ensures x in Exploded(c, lines) {
      var i :| 0 <= i < |lines[1..]| && IsExploded(c[lines[1..][i].component]) && lines[1..][i].component == x;
      assert lines[i + 1].component == x;
    }
  }

  // Nothing on the path lies at or below p.
  ghost predicate PathIsAbove(c: Catalog, p: Vertex, visited: set<Vertex>)
    requires Valid(c)
  {
    forall v :: v in visited ==> !ReachesOrIs(Descents(c), p, v)
  }

  // On an acyclic catalog the guard never fires, and the guarded recursion computes what
  // the plain one does.
  lemma {:induction false} GuardIsHarmless(c: Catalog, p: Vertex, visited: set<Vertex>)
    requires Valid(c) && p in c && Acyclic(Descents(c)) && PathIsAbove(c, p, visited)
    ensures Producible(c, p, visited) == Plain(c, p)
    decreases |Below(Descents(c), p)|, 1, 0
  {
    assert p !in visited;
    if c[p].normal.Some? {
      GuardedLines(c, p, c[p].normal.value.lines, visited, None);
    }
  }

  lemma {:induction false} GuardedLines(c: Catalog, p: Vertex, lines: seq<BomLine>, visited: set<Vertex>,
                                        least: Option<int>)
    requires Valid(c) && p in c && Acyclic(Descents(c)) && PathIsAbove(c, p, visited) && LinesIn(c, lines)
    requires Exploded(c, lines) <= Descents(c)[p]
    ensures Batches(c, lines, visited + {p}, least) == PlainBatches(c, p, lines, least)
    decreases |Below(Descents(c), p)|, 0, |lines|
  {
    hide PathIsAbove, Acyclic, Valid;
    if lines != [] {
      var line := lines[0];
      ExplodedRest(c, lines);
      if IsExploded(c[line.component]) {
        DescentsClosed(c);
        BelowShrinks(Descents(c), p, line.component);
        PathStaysAbove(c, p, line.component, visited);
        GuardIsHarmless(c, line.component, visited + {p});
      }
      GuardedLines(c, p, lines[1..], visited, least);
      var supply := Supply(c, line.component, visited + {p});
      if line.required != 0.0 {
        GuardedLines(c, p, lines[1..], visited, Least(least, (supply / line.required).Floor));
      }
    }
  }

  lemma PathStaysAbove(c: Catalog, p: Vertex, x: Vertex, visited: set<Vertex>)
    requires Valid(c) && p in c && Acyclic(Descents(c)) && PathIsAbove(c, p, visited) && Edge(Descents(c), p, x)
    ensures PathIsAbove(c, x, visited + {p})
  {
    var g := Descents(c);
    EdgeReaches(g, p, x);
    forall v | v in visited + {p} ensures !ReachesOrIs(g, x, v) {
      if ReachesOrIs(g, x, v) { ThenReachesOrIs(g, p, x, v); }
    }
  }

  // ------------------------------------------------------------------ the batch count

  predicate Constrains(c: Catalog, line: BomLine)
    requires line.component in c
  {
    !IsSkipped(c[line.component]) && line.required != 0.0
  }

  // k batches take no more of the component than there is.
  ghost predicate Fits(c: Catalog, line: BomLine, visited: set<Vertex>, k: nat)
    requires Valid(c) && line.component in c
  {
    Constrains(c, line) ==>
      k as real * line.required <= if Supply(c, line.component, visited) > 0.0 then Supply(c, line.component, visited) else 0.0
  }

  ghost predicate AllFit(c: Catalog, lines: seq<BomLine>, visited: set<Vertex>, k: nat)
    requires Valid(c) && LinesIn(c, lines)
  {
    forall i :: 0 <= i < |lines| ==> Fits(c, lines[i], visited, k)
  }

  ghost predicate SomeConstrains(c: Catalog, lines: seq<BomLine>)
    requires LinesIn(c, lines)
  {
    exists i :: 0 <= i < |lines| && Constrains(c, lines[i])
  }

  predicate NonNegative(lines: seq<BomLine>) {
    forall i :: 0 <= i < |lines| ==> lines[i].required >= 0.0
  }

  lemma FloorBounds(a: real, r: real, k: int)
    requires r > 0.0
    ensures k as real * r <= a <==> k <= (a / r).Floor
  {
    var q := a / r;
    assert q * r == a;
    if k <= q.Floor {
      assert k as real <= q;
      assert (q - k as real) * r >= 0.0;
    } else {
      assert k as real > q;
      assert (k as real - q) * r > 0.0;
    }
  }

  lemma FirstLine(c: Catalog, lines: seq<BomLine>, visited: set<Vertex>, k: nat)
    requires Valid(c) && LinesIn(c, lines) && lines != []
    ensures LinesIn(c, lines[1..])
    ensures AllFit(c, lines, visited, k) <==> Fits(c, lines[0], visited, k) && AllFit(c, lines[1..], visited, k)
    ensures SomeConstrains(c, lines) <==> Constrains(c, lines[0]) || SomeConstrains(c, lines[1..])
    ensures NonNegative(lines) ==> NonNegative(lines[1..])
  {
    var rest := lines[1..];
    forall i | 0 <= i < |rest| ensures rest[i] == lines[i + 1] {
    }
    if AllFit(c, rest, visited, k) && Fits(c, lines[0], visited, k) {
      forall i | 0 <= i < |lines| ensures Fits(c, lines[i], visited, k) {
        if i > 0 { assert rest[i - 1] == lines[i]; }
      }
    }
    if SomeConstrains(c, lines) && !Constrains(c, lines[0]) {
      var i :| 0 <= i < |lines| && Constrains(c, lines[i]);
      assert rest[i - 1] == lines[i];
    }
  }

  // How the first line changes the least count so far, for the count of k batches.
  lemma OneLine(c: Catalog, line: BomLine, visited: set<Vertex>, k: nat)
    requires Valid(c) && line.component in c && line.required >= 0.0 && Constrains(c, line)
    ensures var supply := Supply(c, line.component, visited);
      Fits(c, line, visited, k) <==> if supply <= 0.0 then k == 0 else k <= (supply / line.required).Floor
  {
    var supply := Supply(c, line.component, visited);
    if supply > 0.0 {
      FloorBounds(supply, line.required, k);
    } else if k > 0 {
      assert k as real * line.required > 0.0;
    }
  }

  // Zero batches always fit.
  lemma {:induction false} ZeroFits(c: Catalog, lines: seq<BomLine>, visited: set<Vertex>)
    requires Valid(c) && LinesIn(c, lines)
    ensures AllFit(c, lines, visited, 0)
  {
  }

  lemma {:induction false} BatchesExact(c: Catalog, lines: seq<BomLine>, visited: set<Vertex>, least: Option<int>, k: nat)
    requires Valid(c) && LinesIn(c, lines) && NonNegative(lines) && (least.Some? ==> least.value >= 0)
    ensures var b := Batches(c, lines, visited, least);
      && (b.None? <==> least.None? && !SomeConstrains(c, lines))
      && (b.Some? ==> b.value >= 0)
      && (b.Some? ==> (k <= b.value <==> AllFit(c, lines, visited, k) && (least.Some? ==> k <= least.value)))
    decreases |lines|
  {
    if lines != [] {
      var line, rest := lines[0], lines[1..];
      FirstLine(c, lines, visited, k);
      hide AllFit, SomeConstrains, NonNegative;
      if Constrains(c, line) {
        assert line.required >= 0.0 by { NonNegativeFirst(lines); }
        OneLine(c, line, visited, k);
        OneLine(c, line, visited, 0);
        var supply := Supply(c, line.component, visited);
        if supply > 0.0 {
          FloorBounds(supply, line.required, 0);
          BatchesExact(c, rest, visited, Least(least, (supply / line.required).Floor), k);
        } else {
          ZeroFits(c, rest, visited);
          FirstLine(c, lines, visited, 0);
          ZeroFits(c, lines, visited);
        }
      } else {
        BatchesExact(c, rest, visited, least, k);
      }
    }
  }

  lemma NonNegativeFirst(lines: seq<BomLine>)
    requires NonNegative(lines) && lines != []
    ensures lines[0].required >= 0.0
  {
  }

  // The batch count is the exact bottleneck: k batches fit every line if and only if
  // k is at most the count; if no line constrains anything, there is no count.
  lemma BatchCountIsBottleneck(c: Catalog, lines: seq<BomLine>, visited: set<Vertex>)
    requires Valid(c) && LinesIn(c, lines) && NonNegative(lines)
    ensures var b := Batches(c, lines, visited, None);
      && (b.None? <==> !SomeConstrains(c, lines))
      && (b.Some? ==> b.value >= 0 && forall k: nat :: AllFit(c, lines, visited, k) <==> k <= b.value)
  {
    forall k: nat
      ensures var b := Batches(c, lines, visited, None);
        b.Some? ==> (AllFit(c, lines, visited, k) <==> k <= b.value)
    {
      BatchesExact(c, lines, visited, None, k);
    }
    BatchesExact(c, lines, visited, None, 0);
  }

  // ------------------------------------------------------------------ stock counted twice

  // The component has bills of materials, but none to manufacture it by: what can be
  // produced of it is then its stock again.
  predicate CountsTwice(c: Catalog, p: Vertex)
    requires p in c
  {
    IsExploded(c[p]) && c[p].normal.None? && c[p].available != 0.0
  }

  // Of a product without a manufacturing bill of materials the supply is the stock, except
  // in exactly one case.
  lemma SupplyIsStockExactly(c: Catalog, p: Vertex, visited: set<Vertex>)
    requires Valid(c) && p in c && c[p].normal.None?
    ensures Supply(c, p, visited) == c[p].available <==> !(CountsTwice(c, p) && p !in visited)
  {
  }

  // The recursion that counts each stock once.
  function ProducibleOnce(c: Catalog, p: Vertex, visited: set<Vertex>): real
    requires Valid(c) && p in c
    decreases |c.Keys - visited|, 0
  {
    if p in visited then 0.0
    else match c[p].normal
      case None => c[p].available
      case Some(bom) =>
        OneFewerLeft(c.Keys, visited, p);
        Total(BatchesOnce(c, bom.lines, visited + {p}, None), bom.quantity)
  }

  function SupplyOnce(c: Catalog, p: Vertex, visited: set<Vertex>): real
    requires Valid(c) && p in c
    decreases |c.Keys - visited|, 1
  {
    c[p].available + if IsExploded(c[p]) && c[p].normal.Some? then ProducibleOnce(c, p, visited) else 0.0
  }

  function BatchesOnce(c: Catalog, lines: seq<BomLine>, visited: set<Vertex>, least: Option<int>): Option<int>
    requires Valid(c) && LinesIn(c, lines)
    decreases |c.Keys - visited|, |lines| + 2
  {
    if lines == [] then least
    else
      var line, rest := lines[0], lines[1..];
      if IsSkipped(c[line.component]) || line.required == 0.0 then BatchesOnce(c, rest, visited, least)
      else
        var supply := SupplyOnce(c, line.component, visited);
        if supply <= 0.0 then Some(0)
        else BatchesOnce(c, rest, visited, Least(least, (supply / line.required).Floor))
  }

  // The products of s count their stock once, and the computation descends from them to
  // products of s only.
  ghost predicate CountOnce(c: Catalog, s: set<Vertex>)
    requires Valid(c)
  {
    && s <= c.Keys
    && forall x :: x in s ==> !CountsTwice(c, x) && Descents(c)[x] <= s
  }

  lemma {:induction false} SameSupply(c: Catalog, s: set<Vertex>, p: Vertex, visited: set<Vertex>)
    requires Valid(c) && CountOnce(c, s) && p in c && (IsExploded(c[p]) ==> p in s)
    ensures Supply(c, p, visited) == SupplyOnce(c, p, visited)
    decreases |c.Keys - visited|, 1
  {
    if IsExploded(c[p]) {
      SameProducible(c, s, p, visited);
    }
  }

  lemma {:induction false} SameProducible(c: Catalog, s: set<Vertex>, p: Vertex, visited: set<Vertex>)
    requires Valid(c) && CountOnce(c, s) && p in c && Descents(c)[p] <= s
    ensures Producible(c, p, visited) == ProducibleOnce(c, p, visited)
    decreases |c.Keys - visited|, 0
  {
    if p !in visited && c[p].normal.Some? {
      OneFewerLeft(c.Keys, visited, p);
      SameBatches(c, s, c[p].normal.value.lines, visited + {p}, None);
    }
  }

  lemma {:induction false} SameBatches(c: Catalog, s: set<Vertex>, lines: seq<BomLine>, visited: set<Vertex>,
                                       least: Option<int>)
    requires Valid(c) && CountOnce(c, s) && LinesIn(c, lines) && Exploded(c, lines) <= s
    ensures Batches(c, lines, visited, least) == BatchesOnce(c, lines, visited, least)
    decreases |c.Keys - visited|, |lines| + 2
  {
    if lines != [] {
      var line := lines[0];
      ExplodedRest(c, lines);
      hide CountOnce, Valid;
      SameSupply(c, s, line.component, visited);
      SameBatches(c, s, lines[1..], visited, least);
      var supply := Supply(c, line.component, visited);
      if line.required != 0.0 {
        SameBatches(c, s, lines[1..], visited, Least(least, (supply / line.required).Floor));
      }
    }
  }

  // What can be produced counts every stock once, if no product the computation descends to
  // counts its stock twice.
  lemma ProducibleCountsOnce(c: Catalog, p: Vertex, visited: set<Vertex>)
    requires Valid(c) && p in c
    requires forall x :: x in c && Reaches(Descents(c), p, x) ==> !CountsTwice(c, x)
    ensures Producible(c, p, visited) == ProducibleOnce(c, p, visited)
  {
    var g := Descents(c);
    var s := Below(g, p);
    DescentsClosed(c);
    forall x, y | x in s + {p} && y in g[x] ensures y in s {
      assert Edge(g, x, y);
      EdgeReaches(g, x, y);
      if x != p { ReachesTransitive(g, p, x, y); }
    }
    hide Reaches;
    SameProducible(c, s, p, visited);
  }

  // Every supply counts every stock once, in whatever path, if and only if no product of the
  // catalog counts its stock twice.
  lemma SuppliesCountOnceExactly(c: Catalog)
    requires Valid(c)
    ensures (forall p, visited :: p in c ==> Supply(c, p, visited) == SupplyOnce(c, p, visited)) <==>
            (forall p :: p in c ==> !CountsTwice(c, p))
  {
    if forall p :: p in c ==> !CountsTwice(c, p) {
      DescentsClosed(c);
      forall p, visited | p in c ensures Supply(c, p, visited) == SupplyOnce(c, p, visited) {
        SameSupply(c, c.Keys, p, visited);
      }
    } else {
      var p :| p in c && CountsTwice(c, p);
      DoubleSupply(c, p);
      assert Supply(c, p, {}) != SupplyOnce(c, p, {});
    }
  }

  lemma DoubleSupply(c: Catalog, p: Vertex)
    requires Valid(c) && p in c && CountsTwice(c, p)
    ensures Supply(c, p, {}) == c[p].available + c[p].available && SupplyOnce(c, p, {}) == c[p].available
  {
    assert Producible(c, p, {}) == c[p].available;
  }

  // A component that has bills of materials but none to manufacture it by counts its stock
  // twice: from n units of it, 2 n products that need one unit each are promised.
  lemma StockCountsTwice(c: Catalog, p: Vertex, x: Vertex, n: nat)
    requires Valid(c) && p in c && x in c && x != p && IsExploded(c[x]) && c[x].normal.None?
    requires c[x].available == n as real && c[p].normal == Some(Bom(1.0, [BomLine(x, 1.0)]))
    ensures Producible(c, p, {}) == (2 * n) as real
  {
    var lines := [BomLine(x, 1.0)];
    var supply := Supply(c, x, {} + {p});
    assert Producible(c, x, {} + {p}) == n as real;
    assert supply == (2 * n) as real;
    assert LinesIn(c, lines);
    assert Batches(c, lines[1..], {} + {p}, Some(2 * n)) == Some(2 * n);
    assert n > 0 ==> (supply / 1.0).Floor == 2 * n;
    assert Batches(c, lines, {} + {p}, None) == Some(2 * n);
  }

  // ------------------------------------------------------------------ more stock

  ghost predicate MoreStock(c: Catalog, d: Catalog) {
    && c.Keys == d.Keys
    && forall p :: p in c ==> d[p] == c[p].(available := d[p].available) && c[p].available <= d[p].available
  }

  ghost predicate PositiveBoms(c: Catalog) {
    forall p :: p in c && c[p].normal.Some? ==> c[p].normal.value.quantity >= 0.0 && NonNegative(c[p].normal.value.lines)
  }

  predicate AtMost(a: Option<int>, b: Option<int>) {
    && (a.None? <==> b.None?)
    && (a.Some? ==> 0 <= a.value <= b.value)
  }

  lemma FloorMonotone(a: real, b: real, r: real)
    requires a <= b && r > 0.0
    ensures (a / r).Floor <= (b / r).Floor
  {
    FloorBounds(a, r, (a / r).Floor);
    FloorBounds(b, r, (a / r).Floor);
  }

  // More stock anywhere never lowers what can be produced of any product.
  lemma {:induction false} ProducibleIsMonotone(c: Catalog, d: Catalog, p: Vertex, visited: set<Vertex>)
    requires Valid(c) && Valid(d) && MoreStock(c, d) && PositiveBoms(c) && p in c
    ensures Producible(c, p, visited) <= Producible(d, p, visited)
    decreases |c.Keys - visited|, 0
  {
    var before, after := c[p], d[p];
    assert after == before.(available := after.available) && before.available <= after.available;
    if p !in visited && before.normal.Some? {
      var bom := before.normal.value;
      assert bom.quantity >= 0.0 && NonNegative(bom.lines) && LinesIn(c, bom.lines) && LinesIn(d, bom.lines);
      hide MoreStock, PositiveBoms, Valid, Batches, Total;
      OneFewerLeft(c.Keys, visited, p);
      BatchesMonotone(c, d, bom.lines, visited + {p}, None, None);
      TotalMonotone(Batches(c, bom.lines, visited + {p}, None), Batches(d, bom.lines, visited + {p}, None), bom.quantity);
    }
  }

  lemma TotalMonotone(a: Option<int>, b: Option<int>, quantity: real)
    requires AtMost(a, b) && quantity >= 0.0
    ensures Total(a, quantity) <= Total(b, quantity)
  {
    if a.Some? {
      var x, y := a.value as real, b.value as real;
      assert (y - x) * quantity >= 0.0;
      assert y * quantity == x * quantity + (y - x) * quantity;
    }
  }

  lemma {:induction false} SupplyIsMonotone(c: Catalog, d: Catalog, p: Vertex, visited: set<Vertex>)
    requires Valid(c) && Valid(d) && MoreStock(c, d) && PositiveBoms(c) && p in c
    ensures Supply(c, p, visited) <= Supply(d, p, visited)
    ensures IsSkipped(c[p]) <==> IsSkipped(d[p])
    decreases |c.Keys - visited|, 1
  {
    if IsExploded(c[p]) { ProducibleIsMonotone(c, d, p, visited); }
  }

  lemma {:induction false} BatchesMonotone(c: Catalog, d: Catalog, lines: seq<BomLine>, visited: set<Vertex>,
                                           a: Option<int>, b: Option<int>)
    requires Valid(c) && Valid(d) && MoreStock(c, d) && PositiveBoms(c) && LinesIn(c, lines) && LinesIn(d, lines)
    requires NonNegative(lines) && AtMost(a, b)
    ensures AtMost(Batches(c, lines, visited, a), Batches(d, lines, visited, b))
    decreases |c.Keys - visited|, |lines| + 2
  {
    if lines != [] {
      var line, rest := lines[0], lines[1..];
      SupplyIsMonotone(c, d, line.component, visited);
      hide MoreStock, PositiveBoms, Valid;
      var less, more := Supply(c, line.component, visited), Supply(d, line.component, visited);
      if IsSkipped(c[line.component]) || line.required == 0.0 {
        BatchesMonotone(c, d, rest, visited, a, b);
      } else if less > 0.0 {
        FloorMonotone(less, more, line.required);
        FloorBounds(less, line.required, 0);
        BatchesMonotone(c, d, rest, visited,
                        Least(a, (less / line.required).Floor), Least(b, (more / line.required).Floor));
      } else if more > 0.0 {
        FloorBounds(more, line.required, 0);
        BatchesExact(d, rest, visited, Least(b, (more / line.required).Floor), 0);
      }
    }
  }

  // ------------------------------------------------------------------ templates upward

  // Which templates have a bill of materials that uses a variant, and which variants a
  // template has.
  datatype BomIndex = BomIndex(usedIn: map<Vertex, set<Vertex>>, variants: map<Vertex, set<Vertex>>)

  ghost predicate ValidIndex(ix: BomIndex) {
    && (forall v :: v in ix.usedIn ==> ix.usedIn[v] <= ix.variants.Keys)
    && (forall t :: t in ix.variants ==> ix.variants[t] <= ix.usedIn.Keys)
  }

  function ParentTemplates(ix: BomIndex, s: set<Vertex>): set<Vertex> {
    set v, t | v in s && v in ix.usedIn && t in ix.usedIn[v] :: t
  }

  function VariantsOf(ix: BomIndex, ts: set<Vertex>): set<Vertex> {
    set t, v | t in ts && t in ix.variants && v in ix.variants[t] :: v
  }

  // get_bom_parent_templates_recursively(): the call without argument starts with the
  // given variants as visited.
  function ParentTemplatesRecursively(ix: BomIndex, s: set<Vertex>, visited: set<Vertex>): set<Vertex>
    requires ValidIndex(ix)
    decreases |ix.usedIn.Keys - (visited + s)|, |s|
  {
    var visited' := visited + s;
    var parents := ParentTemplates(ix, s);
    if parents == {} then {}
    else
      var children := VariantsOf(ix, parents) - visited';
      NextVisitIsSmaller(ix, s, visited, children);
      parents + ParentTemplatesRecursively(ix, children, visited')
  }

  lemma NextVisitIsSmaller(ix: BomIndex, s: set<Vertex>, visited: set<Vertex>, children: set<Vertex>)
    requires ValidIndex(ix) && ParentTemplates(ix, s) != {}
    requires children == VariantsOf(ix, ParentTemplates(ix, s)) - (visited + s)
    ensures s != {}
    ensures children == {} || |ix.usedIn.Keys - (visited + s + children)| < |ix.usedIn.Keys - (visited + s)|
    ensures children == {} ==> ix.usedIn.Keys - (visited + s + children) == ix.usedIn.Keys - (visited + s)
  {
    if v :| v in children {
      var a, b := ix.usedIn.Keys - (visited + s + children), ix.usedIn.Keys - (visited + s);
      assert v in b && v !in a && a <= b - {v};
      SubsetSize(a, b - {v});
    }
  }

  // From a variant to the variants of the templates it is used in.
  function Upward(ix: BomIndex): Links
    requires ValidIndex(ix)
  {
    map v | v in ix.usedIn :: set t, w | t in ix.usedIn[v] && t in ix.variants && w in ix.variants[t] :: w
  }

  // Some variant at or above one of the given ones is used in a bill of materials of t.
  ghost predicate IsUpwardTemplate(ix: BomIndex, s: set<Vertex>, t: Vertex)
    requires ValidIndex(ix)
  {
    exists v, w :: v in s && ReachesOrIs(Upward(ix), v, w) && w in ix.usedIn && t in ix.usedIn[w]
  }

  // Everything the recursion visits.
  ghost function Visited(ix: BomIndex, s: set<Vertex>, visited: set<Vertex>): set<Vertex>
    requires ValidIndex(ix)
    decreases |ix.usedIn.Keys - (visited + s)|, |s|
  {
    var visited' := visited + s;
    var parents := ParentTemplates(ix, s);
    if parents == {} then s
    else
      var children := VariantsOf(ix, parents) - visited';
      NextVisitIsSmaller(ix, s, visited, children);
      s + Visited(ix, children, visited')
  }

  lemma {:induction false} ResultIsParentsOfVisited(ix: BomIndex, s: set<Vertex>, visited: set<Vertex>)
    requires ValidIndex(ix)
    ensures ParentTemplatesRecursively(ix, s, visited) == ParentTemplates(ix, Visited(ix, s, visited))
    ensures s <= Visited(ix, s, visited)
    decreases |ix.usedIn.Keys - (visited + s)|, |s|
  {
    var parents := ParentTemplates(ix, s);
    if parents != {} {
      var children := VariantsOf(ix, parents) - (visited + s);
      NextVisitIsSmaller(ix, s, visited, children);
      ResultIsParentsOfVisited(ix, children, visited + s);
      UnionUpward(ix, s, Visited(ix, children, visited + s));
    }
  }

  // What is visited is closed upward, up to what counted as visited before.
  lemma {:induction false} VisitedIsClosed(ix: BomIndex, s: set<Vertex>, visited: set<Vertex>)
    requires ValidIndex(ix)
    ensures VariantsOf(ix, ParentTemplates(ix, Visited(ix, s, visited))) <= Visited(ix, s, visited) + visited
    decreases |ix.usedIn.Keys - (visited + s)|, |s|
  {
    hide ParentTemplates, VariantsOf;
    var parents := ParentTemplates(ix, s);
    if parents == {} {
      NoTemplatesNoVariants(ix);
    } else {
      var children := VariantsOf(ix, parents) - (visited + s);
      NextVisitIsSmaller(ix, s, visited, children);
      VisitedIsClosed(ix, children, visited + s);
      ResultIsParentsOfVisited(ix, children, visited + s);
      UnionUpward(ix, s, Visited(ix, children, visited + s));
    }
  }

  lemma NoTemplatesNoVariants(ix: BomIndex)
    ensures VariantsOf(ix, {}) == {}
  {
  }

  lemma UnionUpward(ix: BomIndex, a: set<Vertex>, b: set<Vertex>)
    ensures ParentTemplates(ix, a + b) == ParentTemplates(ix, a) + ParentTemplates(ix, b)
    ensures VariantsOf(ix, ParentTemplates(ix, a + b)) ==
            VariantsOf(ix, ParentTemplates(ix, a)) + VariantsOf(ix, ParentTemplates(ix, b))
  {
    assert ParentTemplates(ix, a + b) == ParentTemplates(ix, a) + ParentTemplates(ix, b);
  }

  lemma {:induction false} VisitedIsReached(ix: BomIndex, s: set<Vertex>, visited: set<Vertex>, w: Vertex)
    returns (v: Vertex)
    requires ValidIndex(ix) && w in Visited(ix, s, visited)
    ensures v in s && ReachesOrIs(Upward(ix), v, w)
    decreases |ix.usedIn.Keys - (visited + s)|, |s|
  {
    if w in s {
      v := w;
    } else {
      var parents := ParentTemplates(ix, s);
      var children := VariantsOf(ix, parents) - (visited + s);
      NextVisitIsSmaller(ix, s, visited, children);
      var x := VisitedIsReached(ix, children, visited + s, w);
      var t :| t in parents && t in ix.variants && x in ix.variants[t];
      v :| v in s && v in ix.usedIn && t in ix.usedIn[v];
      assert Edge(Upward(ix), v, x);
      EdgeReaches(Upward(ix), v, x);
      ThenReachesOrIs(Upward(ix), v, x, w);
    }
  }

  // The result is exactly the set of templates upward of the given variants, at any
  // number of levels, on cyclic bills of materials too.
  lemma TemplatesAreExact(ix: BomIndex, s: set<Vertex>, visited: set<Vertex>, t: Vertex)
    requires ValidIndex(ix) && visited <= s
    ensures t in ParentTemplatesRecursively(ix, s, visited) <==> IsUpwardTemplate(ix, s, t)
  {
    var all := Visited(ix, s, visited);
    ResultIsParentsOfVisited(ix, s, visited);
    VisitedIsClosed(ix, s, visited);
    if t in ParentTemplates(ix, all) {
      var w :| w in all && w in ix.usedIn && t in ix.usedIn[w];
      var v := VisitedIsReached(ix, s, visited, w);
    }
    if IsUpwardTemplate(ix, s, t) {
      var v, w :| v in s && ReachesOrIs(Upward(ix), v, w) && w in ix.usedIn && t in ix.usedIn[w];
      forall x, y | x in all && Edge(Upward(ix), x, y) ensures y in all {
        UpwardStep(ix, all, x, y);
      }
      ClosedSetHoldsReachable(Upward(ix), all, v, w);
    }
  }

  lemma UpwardStep(ix: BomIndex, s: set<Vertex>, x: Vertex, y: Vertex)
    requires ValidIndex(ix) && x in s && Edge(Upward(ix), x, y)
    ensures y in VariantsOf(ix, ParentTemplates(ix, s))
  {
    var t :| t in ix.usedIn[x] && t in ix.variants && y in ix.variants[t];
    assert t in ParentTemplates(ix, s);
  }
}
