// Pricelist items of integration/models/product_pricelist.py on their way to a shop and
// back.
module Pricelists {
  import opened Rounding

  datatype Compute = Fixed | Percentage | Formula

  datatype Base = ListPrice | AnotherPrice

  type Step = r: real | r >= 0.0

  // A rounding step or margin of zero is none.
  datatype Item = Item(
    compute: Compute,
    fixedPrice: real,
    percentPrice: real,
    surcharge: real,
    discount: real,
    minMargin: real,
    base: Base,
    roundStep: Step,
    maxMargin: real)

  datatype ExportError =
    | UnsupportedBase
    | MarginNotSupported
    | PositiveFeeNotSupported
    | FeeAndDiscount
    | NeitherFeeNorDiscount

  datatype Reduction = Amount | Percent

  // The keys of the exported dictionary that carry the price.
  datatype Exported = Exported(price: real, reduction: real, kind: Reduction, taxIncluded: bool)

  datatype Result<T, E> = Ok(value: T) | Err(error: E)

  // _validate_for_integration_export()
  function Validate(item: Item): Result<(), ExportError> {
    if item.compute != Formula then Ok(())
    else if item.base != ListPrice then Err(UnsupportedBase)
    else if item.minMargin != 0.0 then Err(MarginNotSupported)
    else if item.surcharge > 0.0 then Err(PositiveFeeNotSupported)
    else if item.surcharge != 0.0 && item.discount != 0.0 then Err(FeeAndDiscount)
    else if item.surcharge == 0.0 && item.discount == 0.0 then Err(NeitherFeeNorDiscount)
    else Ok(())
  }

  // _get_price_value_for_integration() before and after rounding
  function ExactValue(item: Item): real {
    match item.compute
    case Fixed => item.fixedPrice
    case Percentage => item.percentPrice / 100.0
    case Formula => if item.discount > 0.0 then item.discount / 100.0 else Abs(item.surcharge)
  }

  function PriceValue(item: Item): real {
    Round4(ExactValue(item))
  }

  // _get_reduction_type_for_integration()
  function ReductionKind(item: Item): Reduction {
    match item.compute
    case Fixed => Amount
    case Percentage => Percent
    case Formula => if item.discount > 0.0 then Percent else Amount
  }

  // to_export_format()
  function Export(item: Item, taxIncluded: bool): Result<Exported, ExportError> {
    match Validate(item)
    case Err(e) => Err(e)
    case Ok(_) =>
      var value := PriceValue(item);
      Ok(Exported(if item.compute == Fixed then value else 0.0,
                  if item.compute == Fixed then 0.0 else value,
                  ReductionKind(item), taxIncluded))
  }

  // The two totals compute_all() returns for an amount.
  datatype Taxed = Taxed(included: real, excluded: real)

  datatype ImportError = UnsupportedConfiguration

  // _prepare_item_vals_from_external(), with the exported price as the external fixed price
  function Import(e: Exported, taxInclude: bool, taxes: real -> Taxed): Result<Item, ImportError> {
    var blank := Item(Fixed, 0.0, 0.0, 0.0, 0.0, 0.0, ListPrice, 0.0, 0.0);
    if e.reduction != 0.0 && e.kind == Percent then
      Ok(blank.(compute := Percentage, percentPrice := e.reduction * 100.0))
    else if e.reduction != 0.0 && e.kind == Amount then
      var value :=
        if taxInclude && !e.taxIncluded then taxes(e.reduction).included
        else if !taxInclude && e.taxIncluded then taxes(e.reduction).excluded
        else e.reduction;
      Ok(blank.(compute := Formula, surcharge := -value))
    else if e.price != 0.0 then
      Ok(blank.(compute := Fixed, fixedPrice := e.price))
    else Err(UnsupportedConfiguration)
  }

  // To a multiple of the step, halves away from zero.
  function RoundTo(x: real, step: Step): real {
    if step == 0.0 then x
    else if x >= 0.0 then (x / step + 0.5).Floor as real * step
    else -((-x / step + 0.5).Floor as real * step)
  }

  // A price over its base, limited by the maximum margin.
  function Cap(margin: real, over: real): real {
    if margin != 0.0 && margin < over then margin else over
  }

  function BasePrice(item: Item, list: real, another: real): real {
    if item.base == ListPrice then list else another
  }

  function Less(base: real, percent: real): real {
    base - base * (percent / 100.0)
  }

  // What an item makes of a list price, or of another price it is based on.
  function PriceAt(item: Item, list: real, another: real): real {
    var base := BasePrice(item, list, another);
    match item.compute
    case Fixed => item.fixedPrice
    case Percentage => Less(base, item.percentPrice)
    case Formula =>
      var over := RoundTo(Less(base, item.discount), item.roundStep) + item.surcharge - base;
      base + Cap(item.maxMargin, if item.minMargin != 0.0 && over < item.minMargin then item.minMargin else over)
  }

  lemma Scaled(m: real, d: real, eps: real)
    requires m >= 0.0 && -eps <= d <= eps
    ensures -(m * eps) <= m * d <= m * eps
  {
    var above, below := eps - d, d + eps;
    assert m * above >= 0.0 && m * below >= 0.0;
    assert m * above == m * eps - m * d;
    assert m * below == m * d + m * eps;
  }

  lemma ScaledError(list: real, a: real, b: real, eps: real)
    requires Abs(a - b) <= eps
    ensures Abs((list - list * a) - (list - list * b)) <= Abs(list) * eps
  {
    var d := b - a;
    assert (list - list * a) - (list - list * b) == list * d;
    if list >= 0.0 {
      Scaled(list, d, eps);
    } else {
      Scaled(-list, d, eps);
      assert (-list) * d == -(list * d);
    }
  }

  // The price of the item that comes back, in terms of the exported value.
  function PriceFrom(item: Item, value: real, list: real): real {
    if ReductionKind(item) == Percent then list - list * value
    else if item.compute == Fixed then value
    else list - value
  }

  lemma BackPrice(item: Item, tax: bool, taxes: real -> Taxed, list: real, another: real)
    requires Export(item, tax).Ok?
    ensures var back, value := Import(Export(item, tax).value, tax, taxes), PriceValue(item);
      && (back.Ok? <==> value != 0.0)
      && (back.Ok? ==> PriceAt(back.value, list, another) == PriceFrom(item, value, list))
  {
    hide Round4;
    var value := PriceValue(item);
    assert value * 100.0 / 100.0 == value;
    assert list * (0.0 / 100.0) == 0.0;
  }

  // Exactly which items may be exported, and why others may not.
  lemma ValidExactly(item: Item)
    ensures Validate(item).Ok? <==>
      || item.compute == Fixed || item.compute == Percentage
      || (&& item.base == ListPrice && item.minMargin == 0.0
          && ((item.surcharge < 0.0 && item.discount == 0.0) || (item.surcharge == 0.0 && item.discount != 0.0)))
    ensures Validate(item) == Err(UnsupportedBase) <==> item.compute == Formula && item.base == AnotherPrice
    ensures Validate(item) == Err(FeeAndDiscount) ==> item.surcharge < 0.0 && item.discount != 0.0
    ensures Validate(item) == Err(NeitherFeeNorDiscount) ==> item.surcharge == 0.0 && item.discount == 0.0
    ensures Validate(item) == Err(PositiveFeeNotSupported) ==> item.surcharge > 0.0
    ensures Validate(item) == Err(MarginNotSupported) ==> item.minMargin != 0.0
  {
  }

  // A fee from an integration with one tax setting in an integration with another: where
  // prices include taxes, the fee with taxes is taken off, and otherwise the fee without.
  lemma ImportedFee(item: Item, from: bool, into: bool, taxes: real -> Taxed, list: real, another: real)
    requires Export(item, from).Ok? && item.compute == Formula && item.discount <= 0.0 && PriceValue(item) != 0.0
    ensures var back := Import(Export(item, from).value, into, taxes);
      && back.Ok?
      && PriceAt(back.value, list, another) == list -
           (if from == into then PriceValue(item)
            else if into then taxes(PriceValue(item)).included
            else taxes(PriceValue(item)).excluded)
  {
    hide Round4, PriceValue;
    assert list * (0.0 / 100.0) == 0.0;
  }

  // How far a price may be off after the way there and back.
  function Tolerance(item: Item, list: real): real {
    if ReductionKind(item) == Percent then Abs(list) * 0.00005 else 0.00005
  }

  // Rounding the value moves the price by no more than the tolerance.
  lemma CloseValuesClosePrices(item: Item, value: real, exact: real, list: real)
    requires Abs(value - exact) <= 0.00005
    ensures Abs(PriceFrom(item, value, list) - PriceFrom(item, exact, list)) <= Tolerance(item, list)
  {
    if ReductionKind(item) == Percent {
      ScaledError(list, value, exact, 0.00005);
    }
  }

  lemma NoNegativeDiscount(item: Item)
    ensures Validate(item).Ok? && PriceValue(item) != 0.0 && item.compute == Formula ==> item.discount >= 0.0
  {
  }

  // No rounding step, no maximum margin, and percentages of the list price.
  predicate IsPlain(item: Item) {
    item.compute == Fixed || (item.base == ListPrice && item.roundStep == 0.0 && item.maxMargin == 0.0)
  }

  lemma PriceIsFromExactValue(item: Item, list: real, another: real)
    requires Validate(item).Ok? && PriceValue(item) != 0.0 && IsPlain(item)
    ensures PriceAt(item, list, another) == PriceFrom(item, ExactValue(item), list)
  {
    NoNegativeDiscount(item);
    hide Round4;
    if item.compute == Formula && item.discount == 0.0 { assert list * (0.0 / 100.0) == 0.0; }
  }

  // A valid item comes back, into an integration with the same tax setting, unless its
  // value rounds to zero.
  lemma ReimportSucceedsExactly(item: Item, tax: bool, taxes: real -> Taxed)
    requires Export(item, tax).Ok?
    ensures Import(Export(item, tax).value, tax, taxes).Ok? <==> PriceValue(item) != 0.0
  {
    BackPrice(item, tax, taxes, 0.0, 0.0);
  }

  // Whether the item that comes back prices everything as before, up to the tolerance.
  ghost predicate PricesKept(item: Item) {
    forall list, another :: Kept(item, list, another)
  }

  predicate Kept(item: Item, list: real, another: real) {
    Abs(PriceFrom(item, PriceValue(item), list) - PriceAt(item, list, another)) <= Tolerance(item, list)
  }

  predicate Within(x: real) {
    Abs(x) <= 0.00005
  }

  // Percentages must be of the list price, or take everything off. A discount must not be
  // rounded, or take next to everything off, and must not be limited. For a fee, rounding
  // half a step up or down and the limit must stay within the tolerance.
  predicate ComesBack(item: Item) {
    match item.compute
    case Fixed => true
    case Percentage => item.base == ListPrice || item.percentPrice == 100.0
    case Formula =>
      if item.discount > 0.0 then
        item.maxMargin == 0.0 && (item.roundStep == 0.0 || Abs(1.0 - item.discount / 100.0) <= 0.000025)
      else
        FeeKept(item)
  }

  predicate FeeKept(item: Item) {
    var half: real := item.roundStep / 2.0;
    && Within(Cap(item.maxMargin, item.surcharge + half) + PriceValue(item))
    && Within(Cap(item.maxMargin, item.surcharge - half) + PriceValue(item))
  }

  // The prices of an item are kept on the way to a shop and back if and only if it meets
  // the condition.
  lemma ReimportKeepsPricesExactly(item: Item, tax: bool, taxes: real -> Taxed)
    requires Export(item, tax).Ok? && PriceValue(item) != 0.0
    ensures var back := Import(Export(item, tax).value, tax, taxes);
      && back.Ok?
      && ((forall list, another :: Abs(PriceAt(back.value, list, another) - PriceAt(item, list, another)) <= Tolerance(item, list))
          <==> ComesBack(item))
  {
    hide PriceAt, PriceFrom, PriceValue, Tolerance, ComesBack, Import, Export;
    var back := Import(Export(item, tax).value, tax, taxes);
    BackPrice(item, tax, taxes, 0.0, 0.0);
    forall list, another ensures PriceAt(back.value, list, another) == PriceFrom(item, PriceValue(item), list) {
      BackPrice(item, tax, taxes, list, another);
    }
    assert Validate(item).Ok? by { ExportedIsValid(item, tax); }
    KeptExactly(item);
    if PricesKept(item) {
      forall list, another
        ensures Abs(PriceAt(back.value, list, another) - PriceAt(item, list, another)) <= Tolerance(item, list)
      {
        assert Kept(item, list, another);
      }
    } else {
      var list, another :| !Kept(item, list, another);
      assert Abs(PriceAt(back.value, list, another) - PriceAt(item, list, another)) > Tolerance(item, list);
    }
  }

  lemma ExportedIsValid(item: Item, tax: bool)
    requires Export(item, tax).Ok?
    ensures Validate(item).Ok?
  {
  }

  lemma KeptExactly(item: Item)
    requires Validate(item).Ok? && PriceValue(item) != 0.0
    ensures PricesKept(item) <==> ComesBack(item)
  {
    hide Kept, PriceValue;
    match item.compute
    case Fixed =>
      forall list, another ensures Kept(item, list, another) { PlainIsKept(item, list, another); }
    case Percentage => PercentageExactly(item);
    case Formula =>
      if item.discount > 0.0 { DiscountExactly(item); } else { FeeExactly(item); }
  }

  lemma PlainIsKept(item: Item, list: real, another: real)
    requires Validate(item).Ok? && PriceValue(item) != 0.0 && IsPlain(item)
    ensures Kept(item, list, another)
  {
    hide Round4, PriceAt, PriceFrom, ExactValue, Tolerance, IsPlain;
    RoundingError(ExactValue(item));
    PriceIsFromExactValue(item, list, another);
    CloseValuesClosePrices(item, PriceValue(item), ExactValue(item), list);
  }

  // ------------------------------------------------------------------ percentages

  lemma PercentageExactly(item: Item)
    requires item.compute == Percentage && PriceValue(item) != 0.0
    ensures PricesKept(item) <==> item.base == ListPrice || item.percentPrice == 100.0
  {
    if item.base == ListPrice {
      forall list, another ensures Kept(item, list, another) { PercentOfListIsKept(item, list, another); }
    } else if item.percentPrice == 100.0 {
      assert PriceValue(item) == 1.0;
    } else {
      assert PriceAt(item, 0.0, 1.0) == 1.0 - item.percentPrice / 100.0;
      assert !Kept(item, 0.0, 1.0);
    }
  }

  lemma ValueIsRounded(item: Item)
    ensures PriceValue(item) == Round4(ExactValue(item))
  {
  }

  lemma PercentSides(item: Item, list: real, another: real, v: real)
    requires item.compute == Percentage && item.base == ListPrice
    ensures PriceAt(item, list, another) == list - list * ExactValue(item)
    ensures PriceFrom(item, v, list) == list - list * v && Tolerance(item, list) == Abs(list) * 0.00005
  {
    assert PriceAt(item, list, another) == Less(list, item.percentPrice);
  }

  lemma PercentOfListIsKept(item: Item, list: real, another: real)
    requires item.compute == Percentage && item.base == ListPrice
    ensures Kept(item, list, another)
  {
    hide Round4, PriceValue, ExactValue, PriceAt, PriceFrom, Tolerance;
    RoundingError(ExactValue(item));
    ValueIsRounded(item);
    PercentSides(item, list, another, PriceValue(item));
    ScaledError(list, PriceValue(item), ExactValue(item), 0.00005);
  }

  // ------------------------------------------------------------------ rounding to a step

  lemma Times(a: real, b: real)
    requires a >= 0.0 && b >= 0.0
    ensures a * b >= 0.0
  {
  }

  lemma NearestMultiple(a: real, y: real, step: real)
    requires y >= 0.0 && step > 0.0 && y * step == a
    ensures var near := (y + 0.5).Floor as real * step;
      && 0.0 <= near <= 2.0 * a
      && -(step / 2.0) <= near - a <= step / 2.0
  {
    var k := (y + 0.5).Floor as real;
    assert k - 0.5 <= y < k + 0.5 && 0.0 <= k <= 2.0 * y;
    Times(k, step);
    Times(2.0 * y - k, step);
    Times(y - k + 0.5, step);
    Times(k + 0.5 - y, step);
    assert (2.0 * y - k) * step == 2.0 * (y * step) - k * step;
    assert (y - k + 0.5) * step == y * step - k * step + 0.5 * step;
    assert (k + 0.5 - y) * step == k * step + 0.5 * step - y * step;
  }

  lemma Quotient(a: real, step: real, y: real)
    requires step > 0.0 && y * step == a
    ensures a / step == y
  {
    var z := a / step;
    assert z * step == a;
    assert (z - y) * step == 0.0;
  }

  lemma RoundToIsNear(x: real, step: Step)
    ensures var half: real := step / 2.0; -half <= RoundTo(x, step) - x <= half
    ensures Abs(RoundTo(x, step)) <= 2.0 * Abs(x)
  {
    if step > 0.0 {
      var y := Abs(x) / step;
      Multiple(Abs(x), step, y);
      NearestMultiple(Abs(x), y, step);
      RoundToMeaning(x, step, y);
    }
  }

  lemma RoundToMeaning(x: real, step: Step, y: real)
    requires step > 0.0 && y == Abs(x) / step
    ensures var near := (y + 0.5).Floor as real * step; RoundTo(x, step) == if x >= 0.0 then near else -near
  {
  }

  lemma Multiple(a: real, step: real, y: real)
    requires a >= 0.0 && step > 0.0 && y == a / step
    ensures y * step == a && y >= 0.0
  {
  }

  lemma HalfStep(step: Step)
    ensures var half: real := step / 2.0; RoundTo(half, step) == step && RoundTo(-half, step) == 0.0 - step
    ensures var quarter: real := step / 4.0; RoundTo(quarter, step) == RoundTo(-quarter, step) == 0.0
  {
    if step > 0.0 {
      var half: real := step / 2.0;
      Quotient(half, step, 0.5);
      Quotient(step / 4.0, step, 0.25);
    }
  }

  lemma BelowHalfStep(x: real, step: Step)
    requires 0.0 <= x < step / 2.0
    ensures RoundTo(x, step) == 0.0
  {
    var y := x / step;
    Multiple(x, step, y);
    assert (y - 0.5) * step == x - 0.5 * step;
    if y >= 0.5 { Times(y - 0.5, step); }
  }

  // ------------------------------------------------------------------ discounts

  lemma DiscountPrice(item: Item, list: real, another: real)
    requires Validate(item).Ok? && item.compute == Formula && item.discount > 0.0
    ensures item.maxMargin == 0.0 ==>
      PriceAt(item, list, another) == RoundTo(Less(list, item.discount), item.roundStep)
    ensures item.maxMargin != 0.0 ==> PriceAt(item, list, another) <= list + item.maxMargin
  {
    hide RoundTo;
    assert item.surcharge == 0.0 && item.minMargin == 0.0 && BasePrice(item, list, another) == list;
    var over := RoundTo(Less(list, item.discount), item.roundStep) + item.surcharge - list;
    assert PriceAt(item, list, another) == list + Cap(item.maxMargin, over);
  }

  lemma SmallestValue(x: real)
    requires x > 0.0 && Round4(x) != 0.0
    ensures Round4(x) >= 0.0001
  {
    var n := RoundHalfEven(x * 10000.0);
    assert n >= 0 && n != 0;
    assert n as real >= 1.0;
  }

  lemma DiscountExactly(item: Item)
    requires Validate(item).Ok? && item.compute == Formula && item.discount > 0.0 && PriceValue(item) != 0.0
    ensures PricesKept(item) <==>
      item.maxMargin == 0.0 && (item.roundStep == 0.0 || Abs(1.0 - item.discount / 100.0) <= 0.000025)
  {
    hide Kept, PriceAt, Round4;
    if item.maxMargin != 0.0 {
      LimitedDiscount(item);
    } else if item.roundStep == 0.0 {
      forall list, another ensures Kept(item, list, another) { PlainIsKept(item, list, another); }
    } else if Abs(1.0 - item.discount / 100.0) <= 0.000025 {
      forall list, another ensures Kept(item, list, another) { NearlyFree(item, list, another); }
    } else {
      var list := RoundedDiscount(item);
    }
  }

  lemma LimitedDiscount(item: Item)
    requires Validate(item).Ok? && item.compute == Formula && item.discount > 0.0 && PriceValue(item) != 0.0
    requires item.maxMargin != 0.0
    ensures exists list, another :: !Kept(item, list, another)
  {
    hide PriceAt, Round4;
    var k := Abs(item.maxMargin) / 0.00005 + 1.0;
    var v := PriceValue(item);
    SmallestValue(ExactValue(item));
    DiscountPrice(item, -k, 0.0);
    assert k * (v - 0.0001) >= 0.0;
    assert PriceFrom(item, v, -k) == -k + k * v;
    assert !Kept(item, -k, 0.0);
  }

  lemma ValueOne(item: Item)
    requires ExactValue(item) == item.discount / 100.0
    ensures Abs(1.0 - item.discount / 100.0) <= 0.000025 ==> PriceValue(item) == 1.0
    ensures PriceValue(item) == 1.0 || Abs(1.0 - PriceValue(item)) >= 0.0001
  {
    var n := RoundHalfEven(item.discount / 100.0 * 10000.0);
    assert PriceValue(item) == n as real / 10000.0;
    assert n == 10000 || (n as real <= 9999.0 || n as real >= 10001.0);
  }

  // What is left of a price when a share of it is taken off.
  function Part(price: real, off: real): real {
    price * (1.0 - off)
  }

  lemma NearlyFree(item: Item, list: real, another: real)
    requires Validate(item).Ok? && item.compute == Formula && item.discount > 0.0 && item.maxMargin == 0.0
    requires Abs(1.0 - item.discount / 100.0) <= 0.000025
    ensures Kept(item, list, another)
  {
    hide Round4, PriceAt, RoundTo, PriceValue, PriceFrom, Less, Part, Abs;
    var x := Part(list, item.discount / 100.0);
    ValueOne(item);
    FromValue(item, PriceValue(item), list);
    DiscountPrice(item, list, another);
    LessIs(list, item.discount);
    RoundToIsNear(x, item.roundStep);
    SmallPart(list, item.discount / 100.0);
    SmallPrice(item, list, another, x);
  }

  lemma SmallPart(list: real, off: real)
    requires Abs(1.0 - off) <= 0.000025
    ensures Abs(Part(list, off)) <= Abs(list) * 0.000025
  {
    ProductBound(list, 1.0 - off, 0.000025);
  }

  lemma SmallPrice(item: Item, list: real, another: real, x: real)
    requires ReductionKind(item) == Percent && PriceFrom(item, PriceValue(item), list) == 0.0
    requires Abs(PriceAt(item, list, another)) <= 2.0 * Abs(x) && Abs(x) <= Abs(list) * 0.000025
    ensures Kept(item, list, another)
  {
    hide PriceAt, PriceValue, PriceFrom;
  }

  lemma ProductBound(a: real, b: real, eps: real)
    requires Abs(b) <= eps
    ensures Abs(a * b) <= Abs(a) * eps
  {
    if a >= 0.0 {
      Scaled(a, b, eps);
    } else {
      Scaled(-a, b, eps);
      assert (-a) * b == -(a * b);
    }
  }

  lemma RoundedDiscount(item: Item) returns (list: real)
    requires Validate(item).Ok? && item.compute == Formula && item.discount > 0.0 && PriceValue(item) != 0.0
    requires item.maxMargin == 0.0 && item.roundStep > 0.0 && Abs(1.0 - item.discount / 100.0) > 0.000025
    ensures list >= 0.0 && !Kept(item, list, 0.0)
    ensures RoundTo(Less(list, item.discount), item.roundStep) <= list
  {
    hide Round4, PriceAt, RoundTo, PriceValue, Kept, Less, Part, Validate;
    ValueOne(item);
    HalfStep(item.roundStep);
    var off := item.discount / 100.0;
    var size: real := if PriceValue(item) == 1.0 then item.roundStep / 2.0 else item.roundStep / 4.0;
    list := ListFor(size, off);
    LessIs(list, item.discount);
    DiscountNotKept(item, list, Part(list, off));
    if PriceValue(item) == 1.0 && off < 1.0 { LargeList(item, list); }
  }

  // The list price of which the given amount is left, or exceeded.
  lemma ListFor(size: real, off: real) returns (list: real)
    requires size > 0.0 && off != 1.0
    ensures list >= 0.0 && Part(list, off) == if off < 1.0 then size else -size
  {
    var rest := Abs(1.0 - off);
    list := size / rest;
    Multiple(size, rest, list);
  }

  // A discount of next to everything leaves a list price far above the step.
  lemma LargeList(item: Item, list: real)
    requires ExactValue(item) == item.discount / 100.0 && PriceValue(item) == 1.0
    requires item.discount / 100.0 < 1.0 && list >= 0.0
    ensures 2.0 * Part(list, item.discount / 100.0) <= list
  {
    RoundingError(ExactValue(item));
    var rest := 1.0 - item.discount / 100.0;
    assert rest <= 0.00005;
    Times(list, 0.5 - rest);
    assert list * (0.5 - rest) == 0.5 * list - list * rest;
  }

  lemma DiscountNotKept(item: Item, list: real, x: real)
    requires Validate(item).Ok? && item.compute == Formula && item.discount > 0.0
    requires item.maxMargin == 0.0 && Abs(1.0 - item.discount / 100.0) > 0.000025
    requires Part(list, item.discount / 100.0) == x && x != 0.0
    requires if PriceValue(item) == 1.0 then RoundTo(x, item.roundStep) == 2.0 * x
             else Abs(1.0 - PriceValue(item)) >= 0.0001 && RoundTo(x, item.roundStep) == 0.0
    ensures !Kept(item, list, 0.0)
  {
    hide Round4, PriceAt, RoundTo, PriceValue, Kept, Validate, Part, Less, PriceFrom;
    LessIs(list, item.discount);
    FromValue(item, PriceValue(item), list);
    if PriceValue(item) == 1.0 {
      RestIsLarge(list, item.discount / 100.0);
      TooFar(item, list, 0.0, 2.0 * x);
    } else {
      PartOfNothing(item.discount / 100.0);
      BackIsLarge(list, PriceValue(item));
      TooFar(item, list, Part(list, PriceValue(item)), 0.0);
    }
  }

  lemma PartOfNothing(off: real)
    ensures Part(0.0, off) == 0.0
  {
  }

  lemma TooFar(item: Item, list: real, back: real, price: real)
    requires Validate(item).Ok? && item.compute == Formula && item.discount > 0.0 && item.maxMargin == 0.0
    requires PriceFrom(item, PriceValue(item), list) == back
    requires RoundTo(Less(list, item.discount), item.roundStep) == price
    requires Abs(back - price) > Abs(list) * 0.00005
    ensures !Kept(item, list, 0.0)
  {
    hide Round4, PriceAt, RoundTo, PriceValue, PriceFrom, Less;
    DiscountPrice(item, list, 0.0);
  }

  lemma LessIs(list: real, percent: real)
    ensures Less(list, percent) == Part(list, percent / 100.0)
  {
  }

  lemma FromValue(item: Item, v: real, list: real)
    requires ReductionKind(item) == Percent
    ensures PriceFrom(item, v, list) == Part(list, v)
    ensures v == 1.0 ==> Part(list, v) == 0.0
  {
  }

  lemma ProductAbove(a: real, b: real, eps: real)
    requires a > 0.0 && b > eps
    ensures a * b > a * eps
  {
    var d := b - eps;
    assert a * d > 0.0;
    assert a * b == a * eps + a * d;
  }

  lemma PartAbove(list: real, off: real, eps: real)
    requires list != 0.0 && Abs(1.0 - off) > eps
    ensures Abs(Part(list, off)) > Abs(list) * eps
  {
    AbsTimes(list, 1.0 - off);
    ProductAbove(Abs(list), Abs(1.0 - off), eps);
  }

  lemma RestIsLarge(list: real, off: real)
    requires Part(list, off) != 0.0 && Abs(1.0 - off) > 0.000025
    ensures Abs(list) * 0.00005 < 2.0 * Abs(Part(list, off))
  {
    PartOfNothing(off);
    hide Part;
    assert list != 0.0;
    PartAbove(list, off, 0.000025);
  }

  lemma BackIsLarge(list: real, v: real)
    requires list != 0.0 && Abs(1.0 - v) >= 0.0001
    ensures Abs(Part(list, v)) > Abs(list) * 0.00005
  {
    hide Part;
    PartAbove(list, v, 0.00005);
  }

  lemma AbsTimes(a: real, b: real)
    ensures Abs(a * b) == Abs(a) * Abs(b)
  {
    assert (-a) * b == -(a * b) && a * (-b) == -(a * b) && (-a) * (-b) == a * b;
    Times(Abs(a), Abs(b));
  }

  // ------------------------------------------------------------------ fees

  lemma FeePrice(item: Item, list: real, another: real)
    requires Validate(item).Ok? && item.compute == Formula && item.discount == 0.0
    ensures PriceAt(item, list, another) ==
            list + Cap(item.maxMargin, RoundTo(list, item.roundStep) - list + item.surcharge)
  {
    assert list * (0.0 / 100.0) == 0.0;
    hide RoundTo;
  }

  lemma FeeExactly(item: Item)
    requires Validate(item).Ok? && item.compute == Formula && item.discount <= 0.0 && PriceValue(item) != 0.0
    ensures PricesKept(item) <==> FeeKept(item)
  {
    NoNegativeDiscount(item);
    hide PriceAt, Round4, PriceValue, RoundTo, Kept, Validate, Cap, Within;
    var step := item.roundStep;
    var half: real := step / 2.0;
    HalfStep(step);
    FeeKeptAt(item, half, 0.0);
    FeeKeptAt(item, -half, 0.0);
    if FeeKept(item) {
      forall list, another ensures Kept(item, list, another) {
        FeeKeptAt(item, list, another);
        RoundToIsNear(list, step);
        CapBetween(item, RoundTo(list, step) - list);
      }
    } else {
      assert !Kept(item, half, 0.0) || !Kept(item, -half, 0.0);
    }
  }

  lemma FeeKeptAt(item: Item, list: real, another: real)
    requires Validate(item).Ok? && item.compute == Formula && item.discount == 0.0
    ensures Kept(item, list, another) <==>
            Within(Cap(item.maxMargin, item.surcharge + (RoundTo(list, item.roundStep) - list)) + PriceValue(item))
  {
    hide PriceAt, Round4, PriceValue, RoundTo;
    FeePrice(item, list, another);
  }

  lemma CapBetween(item: Item, rounding: real)
    requires FeeKept(item)
    requires var half: real := item.roundStep / 2.0; -half <= rounding <= half
    ensures Within(Cap(item.maxMargin, item.surcharge + rounding) + PriceValue(item))
  {
    hide PriceValue;
  }

  // ------------------------------------------------------------------ list prices that are not negative

  ghost predicate PricesKeptForSale(item: Item) {
    forall list, another :: list >= 0.0 ==> Kept(item, list, another)
  }

  // Of list prices that are not negative, a positive maximum margin never limits a discount.
  predicate ComesBackForSale(item: Item) {
    if item.compute == Formula && item.discount > 0.0 then
      item.maxMargin >= 0.0 && (item.roundStep == 0.0 || Abs(1.0 - item.discount / 100.0) <= 0.000025)
    else
      ComesBack(item)
  }

  function WithoutMargin(item: Item): Item {
    item.(maxMargin := 0.0)
  }

  // A margin that does not limit the price makes no difference.
  lemma IdleMargin(item: Item, list: real, another: real)
    requires Validate(item).Ok? && item.compute == Formula && item.discount > 0.0 && item.maxMargin >= 0.0
    requires RoundTo(Less(list, item.discount), item.roundStep) <= list
    ensures Kept(item, list, another) <==> Kept(WithoutMargin(item), list, another)
  {
    hide RoundTo, Less, Round4;
    assert item.surcharge == 0.0 && item.minMargin == 0.0;
  }

  lemma DiscountForSale(item: Item)
    requires Validate(item).Ok? && item.compute == Formula && item.discount > 0.0 && PriceValue(item) != 0.0
    ensures PricesKeptForSale(item) <==> ComesBackForSale(item)
  {
    hide Kept, Round4, RoundTo, Less;
    var plain := WithoutMargin(item);
    if item.maxMargin < 0.0 {
      NegativeMargin(item);
    } else if item.roundStep == 0.0 || Abs(1.0 - item.discount / 100.0) <= 0.000025 {
      DiscountExactly(plain);
      forall list, another | list >= 0.0 ensures Kept(item, list, another) {
        DiscountBelowList(item, list);
        assert Kept(plain, list, another);
        IdleMargin(item, list, another);
      }
    } else {
      var list := RoundedDiscount(plain);
      IdleMargin(item, list, 0.0);
    }
  }

  lemma NegativeMargin(item: Item)
    requires Validate(item).Ok? && item.compute == Formula && item.discount > 0.0 && item.maxMargin < 0.0
    ensures !Kept(item, 0.0, 0.0)
  {
    hide Round4;
    assert Less(0.0, item.discount) == 0.0 && RoundTo(0.0, item.roundStep) == 0.0 by { ZeroRounds(item); }
    assert PriceFrom(item, PriceValue(item), 0.0) == 0.0;
    hide RoundTo, Less;
    assert PriceAt(item, 0.0, 0.0) == item.maxMargin;
  }

  lemma ZeroRounds(item: Item)
    ensures Less(0.0, item.discount) == 0.0 && RoundTo(0.0, item.roundStep) == 0.0
  {
    RoundToIsNear(0.0, item.roundStep);
  }

  lemma DiscountBelowList(item: Item, list: real)
    requires item.discount > 0.0 && list >= 0.0
    requires item.roundStep == 0.0 || Abs(1.0 - item.discount / 100.0) <= 0.000025
    ensures RoundTo(Less(list, item.discount), item.roundStep) <= list
  {
    if item.roundStep == 0.0 {
      Times(list, item.discount / 100.0);
    } else {
      hide Less, Part, RoundTo;
      LessIs(list, item.discount);
      RoundToIsNear(Part(list, item.discount / 100.0), item.roundStep);
      SmallPart(list, item.discount / 100.0);
    }
  }

  // The lower end of what rounding does to a list price is only approached.
  lemma FeeForSale(item: Item)
    requires Validate(item).Ok? && item.compute == Formula && item.discount <= 0.0 && PriceValue(item) != 0.0
    ensures PricesKeptForSale(item) <==> FeeKept(item)
  {
    NoNegativeDiscount(item);
    hide PriceAt, Round4, PriceValue, RoundTo, Kept, Validate, Cap, Within;
    var half: real := item.roundStep / 2.0;
    HalfStep(item.roundStep);
    FeeKeptAt(item, half, 0.0);
    if FeeKept(item) {
      FeeExactly(item);
    } else if Within(Cap(item.maxMargin, item.surcharge + half) + PriceValue(item)) {
      var list := NearLowerEnd(item, half, PriceValue(item));
      FeeKeptAt(item, list, 0.0);
    } else {
      assert !Kept(item, half, 0.0);
    }
  }

  lemma NearLowerEnd(item: Item, half: real, v: real) returns (list: real)
    requires half == item.roundStep / 2.0 && half >= 0.0
    requires !Within(Cap(item.maxMargin, item.surcharge - half) + v) && Within(Cap(item.maxMargin, item.surcharge + half) + v)
    ensures list >= 0.0 && !Within(Cap(item.maxMargin, item.surcharge + (RoundTo(list, item.roundStep) - list)) + v)
  {
    var excess := Abs(Cap(item.maxMargin, item.surcharge - half) + v) - 0.00005;
    var gap := if excess / 2.0 < half then excess / 2.0 else half;
    list := half - gap;
    BelowHalfStep(list, item.roundStep);
    hide RoundTo;
  }

  lemma KeptForSaleExactly(item: Item)
    requires Validate(item).Ok? && PriceValue(item) != 0.0
    ensures PricesKeptForSale(item) <==> ComesBackForSale(item)
  {
    hide PriceValue;
    match item.compute
    case Fixed =>
      hide Kept;
      KeptExactly(item);
    case Percentage =>
      PercentageExactly(item);
      if !ComesBack(item) { PercentNotKept(item); }
      hide Kept;
    case Formula =>
      hide Kept;
      if item.discount > 0.0 { DiscountForSale(item); } else { FeeForSale(item); }
  }

  lemma PercentNotKept(item: Item)
    requires item.compute == Percentage && item.base != ListPrice && item.percentPrice != 100.0
    ensures !Kept(item, 0.0, 1.0)
  {
    assert PriceAt(item, 0.0, 1.0) == 1.0 - item.percentPrice / 100.0;
    assert PriceFrom(item, PriceValue(item), 0.0) == 0.0;
  }

  // The same for list prices that are not negative.
  lemma ReimportKeepsSalePricesExactly(item: Item, tax: bool, taxes: real -> Taxed)
    requires Export(item, tax).Ok? && PriceValue(item) != 0.0
    ensures var back := Import(Export(item, tax).value, tax, taxes);
      && back.Ok?
      && ((forall list, another :: list >= 0.0 ==>
             Abs(PriceAt(back.value, list, another) - PriceAt(item, list, another)) <= Tolerance(item, list))
          <==> ComesBackForSale(item))
  {
    hide PriceAt, PriceFrom, PriceValue, Tolerance, ComesBackForSale, Import, Export;
    var back := Import(Export(item, tax).value, tax, taxes);
    BackPrice(item, tax, taxes, 0.0, 0.0);
    forall list, another ensures PriceAt(back.value, list, another) == PriceFrom(item, PriceValue(item), list) {
      BackPrice(item, tax, taxes, list, another);
    }
    assert Validate(item).Ok? by { ExportedIsValid(item, tax); }
    KeptForSaleExactly(item);
    if PricesKeptForSale(item) {
      forall list, another | list >= 0.0
        ensures Abs(PriceAt(back.value, list, another) - PriceAt(item, list, another)) <= Tolerance(item, list)
      {
        assert Kept(item, list, another);
      }
    } else {
      var list, another :| list >= 0.0 && !Kept(item, list, another);
      assert Abs(PriceAt(back.value, list, another) - PriceAt(item, list, another)) > Tolerance(item, list);
    }
  }

  // A formula with a negative discount passes validation and is always lost on the way.
  lemma NegativeDiscountIsLost(item: Item, tax: bool, taxes: real -> Taxed)
    requires item.compute == Formula && item.discount < 0.0 && Export(item, tax).Ok?
    ensures Import(Export(item, tax).value, tax, taxes) == Err(UnsupportedConfiguration)
  {
    assert ExactValue(item) == 0.0;
  }
}
