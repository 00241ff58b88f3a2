/** The cart serializers of eCommerce/cart/serializers.py: the write
    serializer's validation of (product_variation, qty) and the read projection
    of a cart with its lines and total. */
module CartSerializers {
  import opened Base
  import opened Catalog
  import opened CartModels
  import opened Errors

  /** The request body as parsed: a variation primary key and a quantity, each
      possibly absent. */
  datatype WriteData = WriteData(variation: Option<nat>, qty: Option<int>)

  const RequiredText := "This field is required."
  const MinValueText := "Ensure this value is greater than or equal to 0."
  const CompareNoneText := "'>' not supported between instances of 'NoneType' and 'int'"

  function InvalidPkText(pk: nat): string {
    "Invalid pk \"" + NatToString(pk) + "\" - object does not exist."
  }

  function OnlyInStockText(stock: nat): string {
    "Only " + NatToString(stock) + " items in stock."
  }

  /** The field-level checks the model serializer derives from the columns:
      the variation must exist (and is required unless the update is partial),
      and the quantity of a positive-integer column may not be negative. The
      quantity is never required, because its column has a default. */
  function FieldErrors(cat: Catalog, data: WriteData, partial: bool): (errs: map<string, seq<string>>)
    ensures "product_variation" in errs <==>
              (data.variation.None? && !partial) || (data.variation.Some? && data.variation.value !in cat.variations)
    ensures "qty" in errs <==> data.qty.Some? && data.qty.value < 0
    ensures errs.Keys <= {"product_variation", "qty"}
  {
    var pv: map<string, seq<string>> :=
      match data.variation
      case None => if partial then map[] else map["product_variation" := [RequiredText]]
      case Some(pk) => if pk in cat.variations then map[] else map["product_variation" := [InvalidPkText(pk)]];
    var q: map<string, seq<string>> :=
      if data.qty.Some? && data.qty.value < 0 then map["qty" := [MinValueText]] else map[];
    pv + q
  }

  datatype Check = Pass | StockExceeded(available: nat) | CompareNone

  /** `CartItemWriteSerializer.validate`: only when a variation is supplied is
      the requested quantity compared with its stock, strictly; a variation
      without a quantity makes the comparison fail on None. */
  function Validate(variation: Option<Variation>, qty: Option<nat>): (r: Check)
    ensures r.Pass? <==> variation.None? || (qty.Some? && qty.value <= variation.value.qtyInStock)
    ensures r.StockExceeded? ==> variation.Some? && qty.Some? && qty.value > variation.value.qtyInStock &&
                                 r.available == variation.value.qtyInStock
    ensures r.CompareNone? <==> variation.Some? && qty.None?
  {
    if variation.None? then Pass
    else if qty.None? then CompareNone
    else if qty.value > variation.value.qtyInStock then StockExceeded(variation.value.qtyInStock)
    else Pass
  }

  /** The outcome of `is_valid(raise_exception=True)`: the validated data, or
      the exception it raises. */
  datatype Validated = Accepted(variation: Option<VariationId>, qty: Option<nat>) | Rejected(exc: Exc)

  function IsValid(cat: Catalog, data: WriteData, partial: bool): (r: Validated)
    ensures r.Accepted? ==> r.variation == data.variation &&
                            (data.qty.Some? <==> r.qty.Some?) && (r.qty.Some? ==> r.qty.value == data.qty.value)
    ensures r.Accepted? && r.variation.Some? ==>
              r.variation.value in cat.variations && r.qty.Some? && r.qty.value <= cat.Stock(r.variation.value)
    ensures r.Accepted? && !partial ==> r.variation.Some? && r.qty.Some?
    ensures r.Accepted? <==>
              FieldErrors(cat, data, partial) == map[] &&
              (data.variation.None? || (data.qty.Some? && data.qty.value <= cat.Stock(data.variation.value)))
  {
    var errs := FieldErrors(cat, data, partial);
    if errs != map[] then Rejected(ValidationError(FieldMessages(errs)))
    else
      var v := if data.variation.Some? then Some(cat.variations[data.variation.value]) else None;
      var q: Option<nat> := if data.qty.Some? then Some(data.qty.value) else None;
      match Validate(v, q)
      case Pass => Accepted(data.variation, q)
      case StockExceeded(n) =>
        Rejected(ValidationError(FieldMessages(map["non_field_errors" := [OnlyInStockText(n)]])))
      case CompareNone => Rejected(Unhandled(CompareNoneText))
  }

  /** A quantity equal to the stock passes; one more is refused with the stock
      figure in the message, reported as a non-field error. */
  lemma StockBoundIsInclusive(cat: Catalog, pk: VariationId)
    requires pk in cat.variations
    ensures var n := cat.Stock(pk);
            IsValid(cat, WriteData(Some(pk), Some(n)), false) == Accepted(Some(pk), Some(n)) &&
            IsValid(cat, WriteData(Some(pk), Some(n + 1)), false) ==
              Rejected(ValidationError(FieldMessages(map["non_field_errors" := [OnlyInStockText(n)]])))
  {
  }

  /** A partial update that names no variation is never compared with any
      stock, however large the quantity. */
  lemma QuantityOnlyUpdateSkipsStock(cat: Catalog, q: nat)
    ensures IsValid(cat, WriteData(None, Some(q)), true) == Accepted(None, Some(q))
  {
  }

  /** One line of the read projection. */
  datatype LineView = LineView(
    id: LineId,
    variation: VariationId,
    qty: nat,
    productName: string,
    productBrand: string,
    colour: string,
    size: string,
    price: int,
    image: Option<ImageLink>,
    subtotal: int)

  /** The rendered cart: its id, its lines and its total. */
  datatype CartSummary = CartSummary(id: CartId, items: seq<LineView>, totalPrice: int)

  /** `CartItemReadSerializer.get_image`: the first default image of the
      line's item. */
  function LineImage(cat: Catalog, v: VariationId, hasRequest: bool): (r: Option<ImageLink>)
    ensures r.Some? <==>
              v in cat.variations && cat.variations[v].item in cat.items &&
              FirstDefaultImage(cat.items[cat.variations[v].item].images).Some?
    ensures r.Some? ==> r.value == Link(FirstDefaultImage(cat.items[cat.variations[v].item].images).value, hasRequest)
  {
    if v in cat.variations && cat.variations[v].item in cat.items then
      var img := FirstDefaultImage(cat.items[cat.variations[v].item].images);
      if img.Some? then Some(Link(img.value, hasRequest)) else None
    else None
  }

  function ReadLine(id: LineId, line: CartLine, cat: Catalog, hasRequest: bool): LineView {
    var names := cat.LabelsOf(line.variation);
    LineView(id, line.variation, line.qty, names.productName, names.brand, names.colour, names.size,
             cat.UnitPrice(line.variation), LineImage(cat, line.variation, hasRequest), Subtotal(line, cat))
  }

  /** The `items` of the read projection: a view of each line of cart `c`
      among the ids below `n`, in id order (ViewsShowItems). */
  function ViewsBelow(lines: map<LineId, CartLine>, c: CartId, n: nat, cat: Catalog, hasRequest: bool): (r: seq<LineView>)
    ensures |r| == |ItemsBelow(lines, c, n)|
    ensures forall i :: 0 <= i < |r| ==> r[i].id < n
    ensures forall i, j :: 0 <= i < j < |r| ==> r[i].id < r[j].id
  {
    if n == 0 then []
    else
      var prev := ViewsBelow(lines, c, n - 1, cat, hasRequest);
      if n - 1 in lines && lines[n - 1].cart == c then
        prev + [ReadLine(n - 1, lines[n - 1], cat, hasRequest)]
      else prev
  }

  /** A view shows a line: an id of the table below `n` that holds the line,
      the line's variation and quantity, the names of its product, brand,
      colour and size, the live unit price, the image and the subtotal. */
  predicate Shows(view: LineView, line: CartLine, lines: map<LineId, CartLine>, n: nat, cat: Catalog, hasRequest: bool) {
    && view.id < n && view.id in lines && lines[view.id] == line
    && view.variation == line.variation && view.qty == line.qty
    && Labels(view.productName, view.productBrand, view.colour, view.size) == cat.LabelsOf(line.variation)
    && view.price == cat.UnitPrice(line.variation) && view.subtotal == Subtotal(line, cat)
    && view.image == LineImage(cat, line.variation, hasRequest)
  }

  /** The k-th view shows the k-th line of the cart. */
  lemma {:induction false} ViewsShowItems(lines: map<LineId, CartLine>, c: CartId, n: nat, cat: Catalog, hasRequest: bool)
    ensures forall k :: 0 <= k < |ViewsBelow(lines, c, n, cat, hasRequest)| ==>
              Shows(ViewsBelow(lines, c, n, cat, hasRequest)[k], ItemsBelow(lines, c, n)[k], lines, n, cat, hasRequest)
  {
    if n > 0 {
      ViewsShowItems(lines, c, n - 1, cat, hasRequest);
      var prev, pitems := ViewsBelow(lines, c, n - 1, cat, hasRequest), ItemsBelow(lines, c, n - 1);
      var r, items := ViewsBelow(lines, c, n, cat, hasRequest), ItemsBelow(lines, c, n);
      if n - 1 in lines && lines[n - 1].cart == c {
        assert r == prev + [ReadLine(n - 1, lines[n - 1], cat, hasRequest)];
        assert items == pitems + [lines[n - 1]];
        forall k | 0 <= k < |r|
          ensures Shows(r[k], items[k], lines, n, cat, hasRequest)
        {
          if k < |prev| {
            assert r[k] == prev[k] && items[k] == pitems[k];
            assert Shows(prev[k], pitems[k], lines, n - 1, cat, hasRequest);
          }
        }
      } else {
        assert r == prev && items == pitems;
        forall k | 0 <= k < |r|
          ensures Shows(r[k], items[k], lines, n, cat, hasRequest)
        {
          assert Shows(prev[k], pitems[k], lines, n - 1, cat, hasRequest);
        }
      }
    }
  }

  function SumSubtotals(views: seq<LineView>): int {
    if views == [] then 0 else SumSubtotals(views[..|views| - 1]) + views[|views| - 1].subtotal
  }

  /** `ShoppingCartSerializer`: the cart's lines and its total price. */
  function ReadCart(lines: map<LineId, CartLine>, c: CartId, n: nat, cat: Catalog, hasRequest: bool): CartSummary {
    CartSummary(c, ViewsBelow(lines, c, n, cat, hasRequest), TotalPrice(ItemsBelow(lines, c, n), cat))
  }

  lemma SumOfSnoc(views: seq<LineView>, x: LineView)
    ensures SumSubtotals(views + [x]) == SumSubtotals(views) + x.subtotal
  {
    assert (views + [x])[..|views|] == views;
  }

  /** The total shown is the sum of the subtotals shown. */
  lemma {:induction false} TotalIsSumOfShownSubtotals(lines: map<LineId, CartLine>, c: CartId, n: nat, cat: Catalog, hasRequest: bool)
    ensures SumSubtotals(ViewsBelow(lines, c, n, cat, hasRequest)) == TotalPrice(ItemsBelow(lines, c, n), cat)
  {
    if n > 0 {
      TotalIsSumOfShownSubtotals(lines, c, n - 1, cat, hasRequest);
      TotalOfSnoc(lines, c, n, cat);
      if n - 1 in lines && lines[n - 1].cart == c {
        SumOfSnoc(ViewsBelow(lines, c, n - 1, cat, hasRequest), ReadLine(n - 1, lines[n - 1], cat, hasRequest));
      }
    }
  }
}
