/** The two computed fields of the catalog list serializer
    (eCommerce/product/serializers.py): the lowest item price and the first
    default image. */
module ProductListing {
  import opened Base
  import opened Catalog

  /** `get_price`: the minimum of the item prices, none for a product without
      items. Every item price is present (the original price is a required
      column), so the `is not None` filter keeps every item. */
  function ListPrice(items: seq<ProductItem>): (r: Option<int>)
    ensures r.None? <==> items == []
    ensures r.Some? ==> forall k :: 0 <= k < |items| ==> r.value <= Price(items[k])
    ensures r.Some? ==> exists k :: 0 <= k < |items| && Price(items[k]) == r.value
  {
    if items == [] then None
    else
      var rest := ListPrice(items[1..]);
      assert forall k :: 1 <= k < |items| ==> items[k] == items[1..][k - 1];
      if rest.None? || Price(items[0]) <= rest.value then Some(Price(items[0]))
      else
        assert exists k :: 1 <= k < |items| && Price(items[k]) == rest.value by {
          var j :| 0 <= j < |items[1..]| && Price(items[1..][j]) == rest.value;
          assert items[j + 1] == items[1..][j];
        }
        rest
  }

  /** All images of a product, item after item. */
  function AllImages(items: seq<ProductItem>): seq<ProductImage>
  {
    if items == [] then [] else items[0].images + AllImages(items[1..])
  }

  /** `get_image`: the first item, in order, that has a default image supplies
      its first default image; none when no item has one. */
  function ListImage(items: seq<ProductItem>, hasRequest: bool): (r: Option<ImageLink>)
    ensures r.None? <==> FirstDefaultImage(AllImages(items)).None?
  {
    if items == [] then None
    else
      FirstDefaultOfConcat(items[0].images, AllImages(items[1..]));
      match FirstDefaultImage(items[0].images)
      case Some(img) => Some(Link(img, hasRequest))
      case None => ListImage(items[1..], hasRequest)
  }

  /** Searching item by item finds exactly the first default image among all
      of the product's images, rendered as the request context demands. */
  lemma {:induction false} ListImageIsFirstDefaultOverall(items: seq<ProductItem>, hasRequest: bool)
    ensures var first := FirstDefaultImage(AllImages(items));
            ListImage(items, hasRequest) == if first.Some? then Some(Link(first.value, hasRequest)) else None
  {
    if items != [] {
      FirstDefaultOfConcat(items[0].images, AllImages(items[1..]));
      ListImageIsFirstDefaultOverall(items[1..], hasRequest);
    }
  }
}
