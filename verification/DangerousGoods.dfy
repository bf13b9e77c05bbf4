// Dangerous goods of a picking, regrouped by UN number:
// geodis_dangerous_goods_integration/models/stock_picking.py.
module DangerousGoods {
  import opened Rounding

  datatype Option<T> = None | Some(value: T)

  type Package = nat
  type Product = nat
  type Pair = (Package, Product)

  datatype MoveLine = MoveLine(package: Option<Package>, product: Option<Product>, quantity: real, qtyDone: real)

  datatype Details = Details(packingGroup: string, adrClass: string, packagingCode: string, technicalName: string,
                             quantityCode: string, environmental: bool)

  datatype AdrLine = AdrLine(onu: string, unitWeight: real, details: Details)

  datatype Item = Item(details: Details, weight: real, packages: set<Package>)

  type Catalog = map<Product, seq<AdrLine>>

  // ------------------------------------------------------------------ what the weight is

  predicate Counts(line: MoveLine, packages: set<Package>) {
    && line.package.Some? && line.package.value in packages
    && line.quantity > 0.0 && line.product.Some?
  }

  function PairOf(line: MoveLine): Pair
    requires line.package.Some? && line.product.Some?
  {
    (line.package.value, line.product.value)
  }

  // The filtered move lines, package and product.
  function Packed(lines: seq<MoveLine>, packages: set<Package>): set<Pair> {
    set i | 0 <= i < |lines| && Counts(lines[i], packages) :: PairOf(lines[i])
  }

  function LineQty(line: MoveLine, packages: set<Package>, pair: Pair): real {
    if Counts(line, packages) && PairOf(line) == pair then line.qtyDone else 0.0
  }

  function QtyOf(lines: seq<MoveLine>, packages: set<Package>, pair: Pair): real {
    if lines == [] then 0.0
    else
      QtyOf(lines[..|lines| - 1], packages, pair) + LineQty(lines[|lines| - 1], packages, pair)
  }

  function AdrLines(c: Catalog, p: Product): seq<AdrLine> {
    if p in c then c[p] else []
  }

  function Onus(adr: seq<AdrLine>): set<string> {
    set line | line in adr :: line.onu
  }

  // The weight one unit of a product contributes to a UN number.
  function UnitWeight(adr: seq<AdrLine>, onu: string): real {
    if adr == [] then 0.0
    else
      UnitWeight(adr[..|adr| - 1], onu) + if adr[|adr| - 1].onu == onu then adr[|adr| - 1].unitWeight else 0.0
  }

  function LineWeight(line: MoveLine, packages: set<Package>, c: Catalog, pairs: set<Pair>, onu: string): real {
    if Counts(line, packages) && PairOf(line) in pairs
    then line.qtyDone * UnitWeight(AdrLines(c, line.product.value), onu) else 0.0
  }

  // Over the move lines whose package and product are among the given pairs.
  function WeightOver(lines: seq<MoveLine>, packages: set<Package>, c: Catalog, pairs: set<Pair>, onu: string): real {
    if lines == [] then 0.0
    else
      WeightOver(lines[..|lines| - 1], packages, c, pairs, onu) +
      LineWeight(lines[|lines| - 1], packages, c, pairs, onu)
  }

  predicate InPackage(line: MoveLine, packages: set<Package>) {
    line.package != None && line.package.value in packages
  }

  // The exact weight of a UN number: over all packaged move lines and the ADR lines of
  // their products with that number, unit weight times quantity done.
  function ExactWeight(lines: seq<MoveLine>, packages: set<Package>, c: Catalog, onu: string): real {
    if lines == [] then 0.0
    else
      ExactWeight(lines[..|lines| - 1], packages, c, onu) +
      var line := lines[|lines| - 1];
      if InPackage(line, packages) && line.quantity > 0.0 && line.product.Some?
      then line.qtyDone * UnitWeight(AdrLines(c, line.product.value), onu) else 0.0
  }

  function PackagesWith(c: Catalog, pairs: set<Pair>, onu: string): set<Package> {
    set pair | pair in pairs && onu in Onus(AdrLines(c, pair.1)) :: pair.0
  }

  lemma PackedPrefix(lines: seq<MoveLine>, packages: set<Package>, n: nat)
    requires n <= |lines|
    ensures Packed(lines[..n], packages) <= Packed(lines, packages)
  {
    forall pair | pair in Packed(lines[..n], packages) ensures pair in Packed(lines, packages) {
      var i :| 0 <= i < n && Counts(lines[..n][i], packages) && PairOf(lines[..n][i]) == pair;
      assert lines[i] == lines[..n][i];
    }
  }

  lemma {:induction false} AllPairsGiveExactWeight(lines: seq<MoveLine>, packages: set<Package>, c: Catalog,
                                                   pairs: set<Pair>, onu: string)
    requires Packed(lines, packages) <= pairs
    ensures WeightOver(lines, packages, c, pairs, onu) == ExactWeight(lines, packages, c, onu)
  {
    if lines != [] {
      var n := |lines| - 1;
      assert lines[n] == lines[|lines| - 1];
      PackedPrefix(lines, packages, n);
      AllPairsGiveExactWeight(lines[..n], packages, c, pairs, onu);
    }
  }

  lemma Distribute(a: real, b: real, unit: real)
    ensures (a + b) * unit == a * unit + b * unit
  {
  }

  // What the last line adds to a weight is what it adds to a quantity, times the unit weight.
  lemma LineAdds(line: MoveLine, packages: set<Package>, c: Catalog, pairs: set<Pair>, pair: Pair, onu: string)
    requires pair !in pairs
    ensures LineWeight(line, packages, c, pairs + {pair}, onu) ==
            LineWeight(line, packages, c, pairs, onu) +
            LineQty(line, packages, pair) * UnitWeight(AdrLines(c, pair.1), onu)
  {
    hide UnitWeight, AdrLines;
  }

  // Adding one pair adds its quantity times the unit weight.
  lemma {:induction false} OneMorePair(lines: seq<MoveLine>, packages: set<Package>, c: Catalog,
                                       pairs: set<Pair>, pair: Pair, onu: string)
    requires pair !in pairs
    ensures WeightOver(lines, packages, c, pairs + {pair}, onu) ==
            WeightOver(lines, packages, c, pairs, onu) +
            QtyOf(lines, packages, pair) * UnitWeight(AdrLines(c, pair.1), onu)
  {
    hide UnitWeight, AdrLines, Packed, LineWeight, LineQty;
    if lines != [] {
      var n := |lines| - 1;
      OneMorePair(lines[..n], packages, c, pairs, pair, onu);
      LineAdds(lines[n], packages, c, pairs, pair, onu);
      Distribute(QtyOf(lines[..n], packages, pair), LineQty(lines[n], packages, pair), UnitWeight(AdrLines(c, pair.1), onu));
    }
  }

  lemma {:induction false} NoPairsNoWeight(lines: seq<MoveLine>, packages: set<Package>, c: Catalog, onu: string)
    ensures WeightOver(lines, packages, c, {}, onu) == 0.0
  {
    if lines != [] { NoPairsNoWeight(lines[..|lines| - 1], packages, c, onu); }
  }

  // ------------------------------------------------------------------ quantities by package

  predicate Has(q: map<Package, map<Product, real>>, pair: Pair) {
    pair.0 in q && pair.1 in q[pair.0]
  }

  ghost predicate IsPacking(q: map<Package, map<Product, real>>, lines: seq<MoveLine>, packages: set<Package>) {
    && (forall pair: Pair :: Has(q, pair) <==> pair in Packed(lines, packages))
    && (forall pair: Pair :: Has(q, pair) ==> q[pair.0][pair.1] == QtyOf(lines, packages, pair))
  }

  lemma {:induction false} UnpackedHasNoQty(lines: seq<MoveLine>, packages: set<Package>, pair: Pair)
    requires pair !in Packed(lines, packages)
    ensures QtyOf(lines, packages, pair) == 0.0
  {
    if lines != [] {
      var n := |lines| - 1;
      if Counts(lines[n], packages) { assert PairOf(lines[n]) in Packed(lines, packages); }
      PackedPrefix(lines, packages, n);
      UnpackedHasNoQty(lines[..n], packages, pair);
    }
  }

  lemma PackedGrows(lines: seq<MoveLine>, packages: set<Package>, line: MoveLine)
    ensures Packed(lines + [line], packages) ==
            Packed(lines, packages) + if Counts(line, packages) then {PairOf(line)} else {}
    ensures forall pair :: QtyOf(lines + [line], packages, pair) ==
              QtyOf(lines, packages, pair) + if Counts(line, packages) && PairOf(line) == pair then line.qtyDone else 0.0
  {
    var more := lines + [line];
    assert more[..|lines|] == lines && more[|lines|] == line;
    forall pair | pair in Packed(lines, packages) ensures pair in Packed(more, packages) {
      var i :| 0 <= i < |lines| && Counts(lines[i], packages) && PairOf(lines[i]) == pair;
      assert more[i] == lines[i];
    }
    if Counts(line, packages) { assert PairOf(more[|lines|]) in Packed(more, packages); }
    forall pair | pair in Packed(more, packages)
      ensures pair in Packed(lines, packages) || (Counts(line, packages) && pair == PairOf(line))
    {
      var i :| 0 <= i < |more| && Counts(more[i], packages) && PairOf(more[i]) == pair;
      if i < |lines| { assert more[i] == lines[i]; }
    }
  }

  // _get_packaged_quantities_by_package()
  method GetPackagedQuantities(lines: seq<MoveLine>, packages: set<Package>) returns (q: map<Package, map<Product, real>>)
    ensures IsPacking(q, lines, packages)
  {
    q := map[];
    var i := 0;
    while i < |lines|
      invariant 0 <= i <= |lines| && IsPacking(q, lines[..i], packages)
    {
      var line := lines[i];
      assert lines[..i + 1] == lines[..i] + [line];
      PackedGrows(lines[..i], packages, line);
      if Counts(line, packages) {
        var pair := PairOf(line);
        if pair !in Packed(lines[..i], packages) { UnpackedHasNoQty(lines[..i], packages, pair); }
        q := AddQty(q, pair, line.qtyDone);
      }
      i := i + 1;
    }
    assert lines[..i] == lines;
  }

  // setdefault(package, {}) and get(product, 0.0) + qty
  function AddQty(q: map<Package, map<Product, real>>, pair: Pair, qty: real): (r: map<Package, map<Product, real>>)
    ensures forall other: Pair :: Has(r, other) <==> Has(q, other) || other == pair
    ensures forall other: Pair ::
              Has(q, other) && other != pair ==> Has(r, other) && r[other.0][other.1] == q[other.0][other.1]
    ensures Has(r, pair) && r[pair.0][pair.1] == (if Has(q, pair) then q[pair.0][pair.1] else 0.0) + qty
  {
    var bucket := if pair.0 in q then q[pair.0] else map[];
    var before := if pair.1 in bucket then bucket[pair.1] else 0.0;
    q[pair.0 := bucket[pair.1 := before + qty]]
  }

  // ------------------------------------------------------------------ regrouping by UN number

  function WeightIn(items: map<string, Item>, onu: string): real {
    if onu in items then items[onu].weight else 0.0
  }

  function PackagesIn(items: map<string, Item>, onu: string): set<Package> {
    if onu in items then items[onu].packages else {}
  }

  // setdefault(onu_key, {...}), then the weight and the package are added.
  function AddLine(items: map<string, Item>, line: AdrLine, package: Package, qty: real): (r: map<string, Item>)
    ensures line.onu == "" ==> r == items
    ensures line.onu != "" ==>
              && r.Keys == items.Keys + {line.onu}
              && r[line.onu].weight == WeightIn(items, line.onu) + line.unitWeight * qty
              && r[line.onu].packages == PackagesIn(items, line.onu) + {package}
              && r[line.onu].details == (if line.onu in items then items[line.onu].details else line.details)
    ensures forall onu :: onu in items && onu != line.onu ==> onu in r && r[onu] == items[onu]
  {
    if line.onu == "" then items
    else
      var item := if line.onu in items then items[line.onu] else Item(line.details, 0.0, {});
      items[line.onu := item.(weight := item.weight + line.unitWeight * qty, packages := item.packages + {package})]
  }

  predicate DetailsFrom(line: AdrLine, onu: string, details: Details) {
    line.onu == onu && line.details == details
  }

  // After the ADR lines of one product in one package: what items says of a UN number.
  ghost predicate AddedAt(items: map<string, Item>, before: map<string, Item>, adr: seq<AdrLine>, package: Package, qty: real,
                          onu: string)
  {
    && (onu in items <==> onu in before || onu in Onus(adr))
    && WeightIn(items, onu) == WeightIn(before, onu) + qty * UnitWeight(adr, onu)
    && PackagesIn(items, onu) == PackagesIn(before, onu) + (if onu in Onus(adr) then {package} else {})
    && (onu in before ==> onu in items && items[onu].details == before[onu].details)
    && (onu in items && onu !in before ==> exists line :: line in adr && DetailsFrom(line, onu, items[onu].details))
  }

  ghost predicate Added(items: map<string, Item>, before: map<string, Item>, adr: seq<AdrLine>, package: Package, qty: real) {
    && ("" in items <==> "" in before)
    && forall onu :: onu != "" ==> AddedAt(items, before, adr, package, qty, onu)
  }

  lemma OnusGrow(adr: seq<AdrLine>, line: AdrLine)
    ensures Onus(adr + [line]) == Onus(adr) + {line.onu}
  {
    assert line in adr + [line];
    assert forall other :: other in adr + [line] <==> other in adr || other == line;
  }

  lemma UnitWeightGrows(adr: seq<AdrLine>, line: AdrLine, onu: string, qty: real)
    ensures qty * UnitWeight(adr + [line], onu) ==
            qty * UnitWeight(adr, onu) + (if line.onu == onu then line.unitWeight * qty else 0.0)
  {
    assert (adr + [line])[..|adr|] == adr;
    Distribute(UnitWeight(adr, onu), if line.onu == onu then line.unitWeight else 0.0, qty);
  }

  lemma DetailsKept(adr: seq<AdrLine>, line: AdrLine, onu: string, details: Details)
    requires (exists other :: other in adr && DetailsFrom(other, onu, details)) || DetailsFrom(line, onu, details)
    ensures exists other :: other in adr + [line] && DetailsFrom(other, onu, details)
  {
    if DetailsFrom(line, onu, details) {
      assert line in adr + [line];
    } else {
      var other :| other in adr && DetailsFrom(other, onu, details);
      assert other in adr + [line];
    }
  }

  lemma NextLineAdded(items: map<string, Item>, before: map<string, Item>, adr: seq<AdrLine>, package: Package, qty: real,
                      line: AdrLine, onu: string)
    requires onu != "" && AddedAt(items, before, adr, package, qty, onu)
    ensures AddedAt(AddLine(items, line, package, qty), before, adr + [line], package, qty, onu)
  {
    hide AddLine, UnitWeight, Onus;
    OnusGrow(adr, line);
    UnitWeightGrows(adr, line, onu, qty);
    var after := AddLine(items, line, package, qty);
    if onu in after && onu !in before { DetailsKept(adr, line, onu, after[onu].details); }
  }

  lemma NoLinesAdded(items: map<string, Item>, package: Package, qty: real, onu: string)
    ensures AddedAt(items, items, [], package, qty, onu)
  {
  }

  method AddProduct(before: map<string, Item>, adr: seq<AdrLine>, package: Package, qty: real)
    returns (items: map<string, Item>)
    ensures Added(items, before, adr, package, qty)
  {
    hide AddLine, AddedAt;
    items := before;
    forall onu ensures AddedAt(before, before, [], package, qty, onu) { NoLinesAdded(before, package, qty, onu); }
    var i := 0;
    while i < |adr|
      invariant 0 <= i <= |adr| && Added(items, before, adr[..i], package, qty)
    {
      forall onu | onu != ""
        ensures AddedAt(AddLine(items, adr[i], package, qty), before, adr[..i] + [adr[i]], package, qty, onu)
      {
        NextLineAdded(items, before, adr[..i], package, qty, adr[i], onu);
      }
      assert adr[..i + 1] == adr[..i] + [adr[i]];
      items := AddLine(items, adr[i], package, qty);
      i := i + 1;
    }
    assert adr[..i] == adr;
  }

  // What the regrouping of some (package, product) pairs says of a UN number.
  ghost predicate RegroupsAt(items: map<string, Item>, lines: seq<MoveLine>, packages: set<Package>, c: Catalog,
                             pairs: set<Pair>, onu: string)
  {
    && (onu in items <==> PackagesWith(c, pairs, onu) != {})
    && WeightIn(items, onu) == WeightOver(lines, packages, c, pairs, onu)
    && PackagesIn(items, onu) == PackagesWith(c, pairs, onu)
    && (onu in items ==> SomeLineSays(c, pairs, onu, items[onu].details))
  }

  ghost predicate SomeLineSays(c: Catalog, pairs: set<Pair>, onu: string, details: Details) {
    exists pair, line :: pair in pairs && line in AdrLines(c, pair.1) && DetailsFrom(line, onu, details)
  }

  ghost predicate Regroups(items: map<string, Item>, lines: seq<MoveLine>, packages: set<Package>, c: Catalog, pairs: set<Pair>) {
    && "" !in items
    && forall onu :: onu != "" ==> RegroupsAt(items, lines, packages, c, pairs, onu)
  }

  lemma OneMorePackage(c: Catalog, pairs: set<Pair>, pair: Pair, onu: string)
    ensures PackagesWith(c, pairs + {pair}, onu) ==
            PackagesWith(c, pairs, onu) + (if onu in Onus(AdrLines(c, pair.1)) then {pair.0} else {})
  {
  }

  lemma SomeLineSaysMore(c: Catalog, pairs: set<Pair>, pair: Pair, onu: string, details: Details)
    requires || SomeLineSays(c, pairs, onu, details)
             || exists line :: line in AdrLines(c, pair.1) && DetailsFrom(line, onu, details)
    ensures SomeLineSays(c, pairs + {pair}, onu, details)
  {
    hide AdrLines, DetailsFrom;
    if SomeLineSays(c, pairs, onu, details) {
      var other, line :| other in pairs && line in AdrLines(c, other.1) && DetailsFrom(line, onu, details);
      assert other in pairs + {pair};
    } else {
      assert pair in pairs + {pair};
    }
  }

  lemma PairRegrouped(items: map<string, Item>, before: map<string, Item>, lines: seq<MoveLine>, packages: set<Package>,
                      c: Catalog, pairs: set<Pair>, pair: Pair, onu: string)
    requires RegroupsAt(before, lines, packages, c, pairs, onu) && pair !in pairs
    requires AddedAt(items, before, AdrLines(c, pair.1), pair.0, QtyOf(lines, packages, pair), onu)
    ensures RegroupsAt(items, lines, packages, c, pairs + {pair}, onu)
  {
    hide WeightOver, PackagesWith, UnitWeight, QtyOf, AdrLines, DetailsFrom, Onus, SomeLineSays;
    OneMorePair(lines, packages, c, pairs, pair, onu);
    OneMorePackage(c, pairs, pair, onu);
    if onu in items { SomeLineSaysMore(c, pairs, pair, onu, items[onu].details); }
  }

  // The pairs of one bucket: one package with each of the given products.
  function Bucket(package: Package, products: set<Product>): set<Pair> {
    set product | product in products :: (package, product)
  }

  // _aggregate_dangerous_goods_by_onu(): the buckets and the products of a bucket are taken in any order.
  method AggregateByOnu(lines: seq<MoveLine>, packages: set<Package>, c: Catalog) returns (items: map<string, Item>)
    ensures Regroups(items, lines, packages, c, Packed(lines, packages))
    ensures forall onu :: onu in items ==> items[onu].weight == ExactWeight(lines, packages, c, onu)
  {
    hide Packed, WeightOver, ExactWeight, QtyOf, PackagesWith, UnitWeight, AdrLines;
    var q := GetPackagedQuantities(lines, packages);
    ghost var done: set<Pair> := {};
    items := map[];
    NothingRegrouped(lines, packages, c);
    var left := q.Keys;
    while left != {}
      invariant left <= q.Keys
      invariant forall pair: Pair :: pair in done <==> Has(q, pair) && pair.0 !in left
      invariant Regroups(items, lines, packages, c, done)
    {
      var package :| package in left;
      left := left - {package};
      items, done := AggregateBucket(items, lines, packages, c, q, package, done);
    }
    assert done == Packed(lines, packages);
    forall onu | onu in items ensures items[onu].weight == ExactWeight(lines, packages, c, onu) {
      AllPairsGiveExactWeight(lines, packages, c, done, onu);
      assert RegroupsAt(items, lines, packages, c, done, onu);
      assert WeightIn(items, onu) == items[onu].weight;
    }
  }

  lemma NothingRegrouped(lines: seq<MoveLine>, packages: set<Package>, c: Catalog)
    ensures Regroups(map[], lines, packages, c, {})
  {
    forall onu | onu != "" ensures WeightIn(map[], onu) == WeightOver(lines, packages, c, {}, onu) {
      NoPairsNoWeight(lines, packages, c, onu);
    }
  }

  method AggregateBucket(before: map<string, Item>, lines: seq<MoveLine>, packages: set<Package>, c: Catalog,
                         q: map<Package, map<Product, real>>, package: Package, ghost pairs: set<Pair>)
    returns (items: map<string, Item>, ghost done: set<Pair>)
    requires IsPacking(q, lines, packages) && package in q && Regroups(before, lines, packages, c, pairs)
    requires forall pair | pair in pairs :: pair.0 != package
    ensures done == pairs + Bucket(package, q[package].Keys) && Regroups(items, lines, packages, c, done)
  {
    hide AddedAt, RegroupsAt, Packed, WeightOver, QtyOf, PackagesWith, UnitWeight, AdrLines;
    items, done := before, pairs;
    var left := q[package].Keys;
    while left != {}
      invariant left <= q[package].Keys
      invariant done == pairs + Bucket(package, q[package].Keys - left) && Regroups(items, lines, packages, c, done)
    {
      var product :| product in left;
      left := left - {product};
      ghost var pair: Pair := (package, product);
      assert Has(q, pair);
      ghost var was := items;
      items := AddProduct(items, AdrLines(c, product), package, q[package][product]);
      forall onu | onu != "" ensures RegroupsAt(items, lines, packages, c, done + {pair}, onu) {
        PairRegrouped(items, was, lines, packages, c, done, pair, onu);
      }
      done := done + {pair};
    }
  }

  // ------------------------------------------------------------------ the list that is sent

  // Strings are compared by code point, a prefix before what extends it.
  predicate Less(a: string, b: string) {
    b != "" && (a == "" || a[0] < b[0] || (a[0] == b[0] && Less(a[1..], b[1..])))
  }

  // After what they have in common, a ends or has the smaller character.
  ghost predicate SmallerAfter(a: string, b: string, k: nat) {
    k <= |a| && k < |b| && a[..k] == b[..k] && (k == |a| || a[k] < b[k])
  }

  lemma {:induction false} LessMeaning(a: string, b: string)
    ensures Less(a, b) <==> exists k: nat :: SmallerAfter(a, b, k)
  {
    if a != "" && b != "" && a[0] == b[0] {
      LessMeaning(a[1..], b[1..]);
      if k: nat :| SmallerAfter(a[1..], b[1..], k) {
        assert a[..k + 1] == [a[0]] + a[1..][..k] && b[..k + 1] == [b[0]] + b[1..][..k];
        assert SmallerAfter(a, b, k + 1);
      }
      if k: nat :| SmallerAfter(a, b, k) {
        assert k > 0;
        assert a[1..][..k - 1] == a[..k][1..] && b[1..][..k - 1] == b[..k][1..];
        assert SmallerAfter(a[1..], b[1..], k - 1);
      }
    } else if Less(a, b) {
      assert SmallerAfter(a, b, 0);
    }
  }

  lemma {:induction false} LessIsTransitive(a: string, b: string, c: string)
    requires Less(a, b) && Less(b, c)
    ensures Less(a, c)
  {
    if a != "" && a[0] == b[0] && b[0] == c[0] { LessIsTransitive(a[1..], b[1..], c[1..]); }
  }

  lemma {:induction false} LessIsTotal(a: string, b: string)
    ensures a == b || Less(a, b) || Less(b, a)
    ensures !(Less(a, b) && Less(b, a)) && (a == b ==> !Less(a, b))
  {
    if a != "" && b != "" && a[0] == b[0] {
      LessIsTotal(a[1..], b[1..]);
      assert a == [a[0]] + a[1..] && b == [b[0]] + b[1..];
    }
  }

  predicate Increasing(s: seq<string>) {
    forall i, j :: 0 <= i < j < |s| ==> Less(s[i], s[j])
  }

  method Insert(s: seq<string>, key: string) returns (r: seq<string>)
    requires Increasing(s) && key !in s
    ensures Increasing(r) && forall other :: other in r <==> other in s || other == key
  {
    var i := 0;
    while i < |s| && Less(s[i], key)
      invariant 0 <= i <= |s| && forall j :: 0 <= j < i ==> Less(s[j], key)
    {
      i := i + 1;
    }
    r := s[..i] + [key] + s[i..];
    if i < |s| {
      LessIsTotal(s[i], key);
      forall j | i < j < |s| ensures Less(key, s[j]) { LessIsTransitive(key, s[i], s[j]); }
    }
    assert forall other :: other in s <==> other in s[..i] || other in s[i..] by { assert s == s[..i] + s[i..]; }
  }

  method Sorted(keys: set<string>) returns (r: seq<string>)
    ensures Increasing(r) && forall key :: key in r <==> key in keys
  {
    r := [];
    var left := keys;
    while left != {}
      invariant left <= keys && Increasing(r) && forall key :: key in r <==> key in keys - left
    {
      var key :| key in left;
      left := left - {key};
      r := Insert(r, key);
    }
  }

  datatype Entry = Entry(onu: string, details: Details, packageCount: nat, weight: real)

  function OnuOf(entries: seq<Entry>): (r: seq<string>) {
    seq(|entries|, i requires 0 <= i < |entries| => entries[i].onu)
  }

  // _build_geodis_dangerous_goods_list(): one line per UN number, in strictly increasing order.
  method BuildList(lines: seq<MoveLine>, packages: set<Package>, c: Catalog) returns (entries: seq<Entry>)
    ensures Increasing(OnuOf(entries))
    ensures forall onu :: onu in OnuOf(entries) <==> onu != "" && Contributing(lines, packages, c, onu) != {}
    ensures forall i :: 0 <= i < |entries| ==>
              && entries[i].weight == Round6(ExactWeight(lines, packages, c, entries[i].onu))
              && entries[i].packageCount == |Contributing(lines, packages, c, entries[i].onu)|
              && DetailsGiven(lines, packages, c, entries[i].onu, entries[i].details)
  {
    hide Packed, ExactWeight, AdrLines, Increasing, Onus, UnitWeight, WeightOver, SomeLineSays, Contributing, DetailsGiven;
    hide PackagesWith;
    var items := AggregateByOnu(lines, packages, c);
    var keys := Sorted(items.Keys);
    entries := [];
    var i := 0;
    while i < |keys|
      invariant 0 <= i <= |keys| && OnuOf(entries) == keys[..i]
      invariant forall k :: 0 <= k < i ==>
                  entries[k] == Entry(keys[k], items[keys[k]].details, |items[keys[k]].packages|, Round6(items[keys[k]].weight))
    {
      assert keys[i] in keys;
      var item := items[keys[i]];
      entries := entries + [Entry(keys[i], item.details, |item.packages|, Round6(item.weight))];
      i := i + 1;
    }
    assert keys[..i] == keys;
    forall k | 0 <= k < |keys|
      ensures RegroupsAt(items, lines, packages, c, Packed(lines, packages), keys[k]) && keys[k] in items
    {
      assert keys[k] in keys;
    }
    assert forall k :: 0 <= k < |entries| ==> entries[k].onu == OnuOf(entries)[k] == keys[k];
    forall onu | onu != ""
      ensures onu in OnuOf(entries) <==> Contributing(lines, packages, c, onu) != {}
      ensures PackagesWith(c, Packed(lines, packages), onu) == Contributing(lines, packages, c, onu)
    {
      assert RegroupsAt(items, lines, packages, c, Packed(lines, packages), onu);
      PackagesAreContributing(lines, packages, c, onu);
    }
    forall k | 0 <= k < |entries| ensures DetailsGiven(lines, packages, c, entries[k].onu, entries[k].details) {
      SaidIsGiven(lines, packages, c, entries[k].onu, entries[k].details);
    }
  }

  // Move line i is packed, has a quantity and a product, and adr is one of its ADR lines.
  ghost predicate Carries(lines: seq<MoveLine>, packages: set<Package>, c: Catalog, i: nat, adr: AdrLine) {
    && i < |lines| && InPackage(lines[i], packages) && lines[i].quantity > 0.0
    && lines[i].product.Some? && lines[i].product.value in c && adr in c[lines[i].product.value]
  }

  // The packages of the move lines that carry a UN number.
  ghost function Contributing(lines: seq<MoveLine>, packages: set<Package>, c: Catalog, onu: string): set<Package> {
    set i: nat | i < |lines| && lines[i].package.Some? && (exists adr :: Carries(lines, packages, c, i, adr) && adr.onu == onu) ::
      lines[i].package.value
  }

  ghost predicate DetailsGiven(lines: seq<MoveLine>, packages: set<Package>, c: Catalog, onu: string, details: Details) {
    exists i: nat, adr :: Carries(lines, packages, c, i, adr) && adr.onu == onu && adr.details == details
  }

  lemma PackagesAreContributing(lines: seq<MoveLine>, packages: set<Package>, c: Catalog, onu: string)
    ensures PackagesWith(c, Packed(lines, packages), onu) == Contributing(lines, packages, c, onu)
  {
    forall package | package in PackagesWith(c, Packed(lines, packages), onu)
      ensures package in Contributing(lines, packages, c, onu)
    {
      var pair :| pair in Packed(lines, packages) && onu in Onus(AdrLines(c, pair.1)) && pair.0 == package;
      var i: nat :| i < |lines| && Counts(lines[i], packages) && PairOf(lines[i]) == pair;
      var adr :| adr in AdrLines(c, pair.1) && adr.onu == onu;
      assert Carries(lines, packages, c, i, adr);
    }
    forall package | package in Contributing(lines, packages, c, onu)
      ensures package in PackagesWith(c, Packed(lines, packages), onu)
    {
      var i: nat :| i < |lines| && lines[i].package == Some(package) &&
                    exists adr :: Carries(lines, packages, c, i, adr) && adr.onu == onu;
      var adr :| Carries(lines, packages, c, i, adr) && adr.onu == onu;
      var pair := PairOf(lines[i]);
      assert pair in Packed(lines, packages) && onu in Onus(AdrLines(c, pair.1));
    }
  }

  lemma SaidIsGiven(lines: seq<MoveLine>, packages: set<Package>, c: Catalog, onu: string, details: Details)
    requires SomeLineSays(c, Packed(lines, packages), onu, details)
    ensures DetailsGiven(lines, packages, c, onu, details)
  {
    var pair, adr :| pair in Packed(lines, packages) && adr in AdrLines(c, pair.1) && DetailsFrom(adr, onu, details);
    var i: nat :| i < |lines| && Counts(lines[i], packages) && PairOf(lines[i]) == pair;
    assert Carries(lines, packages, c, i, adr);
  }
}
