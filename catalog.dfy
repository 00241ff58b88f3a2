/** The catalog tiers of eCommerce/product/models.py: a product item (a colour
    variant) carries the prices and its images, a variation (a size of an item)
    carries the stock that the cart checks against. Prices are integer cents. */
module Catalog {
  import opened Base

  type ItemId = nat
  type VariationId = nat
  type SizeId = nat

  /** A category row; only the parent's name matters to its string form. */
  datatype Category = Category(name: string, parent: Option<Category>)

  datatype ProductImage = ProductImage(url: string, isDefault: bool)

  /** A product item with what the cart reads through its foreign keys: its
      product's name and brand name and its colour's name. `images` are the
      item's images in primary-key order, which the model takes as the order
      `item.images` yields them. */
  datatype ProductItem = ProductItem(
    productName: string,
    brandName: string,
    colourName: string,
    skuBase: string,
    originalPrice: int,
    salePrice: Option<int>,
    images: seq<ProductImage>)

  /** A size of an item, with its size option's name. `qtyInStock` is a
      non-negative count; a new variation starts at 0. */
  datatype Variation = Variation(item: ItemId, size: SizeId, sizeName: string, qtyInStock: nat)

  /** The names a cart line shows for its variation. */
  datatype Labels = Labels(productName: string, brand: string, colour: string, size: string)

  datatype Catalog = Catalog(items: map<ItemId, ProductItem>, variations: map<VariationId, Variation>) {

    /** The catalog tables' constraints: every variation points at an existing
        item, (item, size) identifies a variation (`unique_together`), and
        `sku_base` is unique. */
    ghost predicate Valid() {
      && (forall v :: v in variations ==> variations[v].item in items)
      && (forall v, w :: v in variations && w in variations && v != w ==>
            variations[v].item != variations[w].item || variations[v].size != variations[w].size)
      && (forall i, j :: i in items && j in items && i != j ==> items[i].skuBase != items[j].skuBase)
    }

    /** The live unit price of a variation, read through its item. A cart line
        always refers to a known variation of a known item (foreign keys), so
        the 0 for a dangling reference is never read. */
    function UnitPrice(v: VariationId): int
    {
      if v in variations && variations[v].item in items then Price(items[variations[v].item]) else 0
    }

    /** The product, brand, colour and size names of a variation, read
        through its item; a dangling reference, which the foreign keys rule
        out, reads as empty names. */
    function LabelsOf(v: VariationId): Labels {
      if v in variations && variations[v].item in items then
        var it := items[variations[v].item];
        Labels(it.productName, it.brandName, it.colourName, variations[v].sizeName)
      else Labels("", "", "", "")
    }

    function Stock(v: VariationId): nat
      requires v in variations
    {
      variations[v].qtyInStock
    }
  }

  /** A Decimal sale price is used when it is truthy: present and non-zero. */
  predicate Truthy(p: Option<int>) {
    p.Some? && p.value != 0
  }

  /** `ProductItem.price`: the sale price when it is truthy, otherwise the original price. */
  function Price(item: ProductItem): (p: int)
    ensures p == item.originalPrice || item.salePrice == Some(p)
  {
    if Truthy(item.salePrice) then item.salePrice.value else item.originalPrice
  }

  /** A non-zero sale price wins; a sale price of 0, or none at all, falls back
      to the original price. */
  lemma SalePriceWhenTruthy(item: ProductItem)
    ensures item.salePrice.Some? && item.salePrice.value != 0 ==> Price(item) == item.salePrice.value
    ensures item.salePrice == None || item.salePrice == Some(0) ==> Price(item) == item.originalPrice
  {
  }

  /** `ProductCategory.__str__`. */
  function CategoryLabel(c: Category): (s: string)
    ensures |s| >= |c.name| && s[|s| - |c.name|..] == c.name
    ensures c.parent.None? <==> |s| == |c.name|
    ensures c.parent.Some? ==> var pre := c.parent.value.name + " > ";
                                |s| == |pre| + |c.name| && s[..|pre|] == pre
  {
    match c.parent
    case None => c.name
    case Some(p) => p.name + " > " + c.name
  }

  /** Position of the first default image, or |images| when there is none. */
  function FirstDefaultIndex(images: seq<ProductImage>): (k: nat)
    ensures k <= |images|
    ensures forall j :: 0 <= j < k ==> !images[j].isDefault
    ensures k < |images| ==> images[k].isDefault
  {
    if images == [] then 0
    else if images[0].isDefault then 0
    else 1 + FirstDefaultIndex(images[1..])
  }

  /** The first default image in an item's images, in order (`.first()` over the
      default images, or `next(...)` over them); none when no image is default. */
  function FirstDefaultImage(images: seq<ProductImage>): (r: Option<ProductImage>)
    ensures r.None? <==> forall j :: 0 <= j < |images| ==> !images[j].isDefault
    ensures r.Some? ==> var k := FirstDefaultIndex(images);
                          k < |images| && r.value == images[k] && r.value.isDefault
  {
    var k := FirstDefaultIndex(images);
    if k < |images| then Some(images[k]) else None
  }

  /** How a serializer renders an image URL: made absolute against the request
      when one is in the serializer context, the stored URL otherwise. */
  datatype ImageLink = Absolute(path: string) | Stored(path: string)

  function Link(img: ProductImage, hasRequest: bool): (l: ImageLink)
    ensures l.path == img.url && (l.Absolute? <==> hasRequest)
  {
    if hasRequest then Absolute(img.url) else Stored(img.url)
  }

  /** The first default image of a concatenation is found in the first part
      when that part has one, and in the second part otherwise. */
  lemma {:induction false} FirstDefaultOfConcat(a: seq<ProductImage>, b: seq<ProductImage>)
    ensures FirstDefaultImage(a + b) ==
              if FirstDefaultImage(a).Some? then FirstDefaultImage(a) else FirstDefaultImage(b)
  {
    if a == [] {
      assert a + b == b;
    } else {
      assert (a + b)[1..] == a[1..] + b;
      FirstDefaultOfConcat(a[1..], b);
      if !a[0].isDefault {
        assert FirstDefaultIndex(a + b) == 1 + FirstDefaultIndex(a[1..] + b);
        assert FirstDefaultIndex(a) == 1 + FirstDefaultIndex(a[1..]);
      }
    }
  }
}
